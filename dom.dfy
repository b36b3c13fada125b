/**
 * The host surface as an arena the model owns. It stands in for the browser
 * `document` the library writes to: nodes are numbered, each node carries its
 * kind, its own properties (`dom[key] = value`), its style, the event `store`
 * the library hangs on it and the bound `componentDidMount` it may carry, and
 * the tree is kept as a parent map plus ordered children lists.
 *
 * A node is only ever attached below a node created before it, so every parent
 * id is smaller than its child's and following parent links always ends.
 */
module Dom {
  import opened JsValues

  datatype NodeKind = ElementNode(tag: string) | TextNode(content: Value)

  /** One host node. `store` is `dom.store`; `didMount` is the instance id bound to `dom.componentDidMount`. */
  datatype Node = Node(kind: NodeKind, attrs: seq<Prop>, style: seq<Prop>, store: Option<seq<Prop>>, didMount: Option<nat>)

  function NewNode(kind: NodeKind): Node
  {
    Node(kind, [], [], None, None)
  }

  predicate NoDup<T(==)>(s: seq<T>)
  {
    forall i, j :: 0 <= i < j < |s| ==> s[i] != s[j]
  }

  /** `s` with position `k` holding `x`. */
  function Replaced(s: seq<nat>, k: nat, x: nat): (r: seq<nat>)
    requires k < |s|
    ensures |r| == |s| && r[k] == x && forall i :: 0 <= i < |s| && i != k ==> r[i] == s[i]
  {
    s[k := x]
  }

  /** The position of `x` in `s`. */
  function IndexOf<T(==)>(s: seq<T>, x: T): (k: nat)
    requires x in s
    ensures k < |s| && s[k] == x
    ensures forall j :: 0 <= j < k ==> s[j] != x
  {
    if s[0] == x then 0 else 1 + IndexOf(s[1..], x)
  }

  /**
   * The arena's invariant: every node id is below `next`; a parent is an older
   * node; the children lists are duplicate-free and agree with the parent map, both
   * ways;
   * text nodes have no children.
   */
  ghost predicate Wf(nodes: map<nat, Node>, parent: map<nat, nat>, children: map<nat, seq<nat>>, next: nat)
  {
    && children.Keys == nodes.Keys
    && (forall n :: n in nodes ==> n < next)
    && (forall c :: c in parent ==> c in nodes && parent[c] in nodes && parent[c] < c)
    && (forall p, i :: p in children && 0 <= i < |children[p]| ==> children[p][i] in parent && parent[children[p][i]] == p)
    && (forall c :: c in parent ==> c in children[parent[c]])
    && (forall p :: p in children ==> NoDup(children[p]))
    && (forall p :: p in nodes && nodes[p].kind.TextNode? ==> children[p] == [])
  }

  lemma WfCreate(nodes: map<nat, Node>, parent: map<nat, nat>, children: map<nat, seq<nat>>, next: nat, kind: NodeKind)
    requires Wf(nodes, parent, children, next)
    ensures Wf(nodes[next := NewNode(kind)], parent, children[next := []], next + 1)
  {
    assert next !in parent;
  }

  /** A detached node is in no children list. */
  lemma NotAChild(parent: map<nat, nat>, children: map<nat, seq<nat>>, c: nat)
    requires forall p, i :: p in children && 0 <= i < |children[p]| ==> children[p][i] in parent
    requires c !in parent
    ensures forall p :: p in children ==> c !in children[p]
  {
  }

  /** Inserting a detached, newer node at position `k` (at the end when `k` is the length). */
  lemma WfInsert(nodes: map<nat, Node>, parent: map<nat, nat>, children: map<nat, seq<nat>>, next: nat, p: nat, c: nat, k: nat)
    requires Wf(nodes, parent, children, next)
    requires p in nodes && c in nodes && c !in parent && p < c && !nodes[p].kind.TextNode?
    requires k <= |children[p]|
    ensures Wf(nodes, parent[c := p], children[p := children[p][..k] + [c] + children[p][k..]], next)
  {
    var s := children[p];
    var s' := s[..k] + [c] + s[k..];
    NotAChild(parent, children, c);
    assert forall i :: 0 <= i < |s'| ==> s'[i] == (if i < k then s[i] else if i == k then c else s[i - 1]);
    InsertKeepsNoDup(s, k, c);
    assert s'[k] == c;
    forall x | x in s
      ensures x in s'
    {
      var j := IndexOf(s, x);
      assert s'[if j < k then j else j + 1] == x;
    }
  }

  lemma InsertKeepsNoDup(s: seq<nat>, k: nat, c: nat)
    requires NoDup(s) && c !in s && k <= |s|
    ensures NoDup(s[..k] + [c] + s[k..])
  {
    var s' := s[..k] + [c] + s[k..];
    assert forall i :: 0 <= i < |s'| ==> s'[i] == (if i < k then s[i] else if i == k then c else s[i - 1]);
  }

  /** Removing the child at position `k`. */
  lemma WfRemove(nodes: map<nat, Node>, parent: map<nat, nat>, children: map<nat, seq<nat>>, next: nat, p: nat, k: nat)
    requires Wf(nodes, parent, children, next)
    requires p in nodes && k < |children[p]|
    ensures Wf(nodes, parent - {children[p][k]}, children[p := children[p][..k] + children[p][k + 1..]], next)
  {
    var s := children[p];
    var c := s[k];
    var s' := s[..k] + s[k + 1..];
    assert forall i :: 0 <= i < |s'| ==> s'[i] == (if i < k then s[i] else s[i + 1]);
    forall q, i | q in children && 0 <= i < |children[q]| && q != p
      ensures children[q][i] != c
    {
      assert parent[children[q][i]] == q;
    }
  }

  /** Putting the detached, newer node `c` in place of the child at position `k`. */
  lemma WfReplace(nodes: map<nat, Node>, parent: map<nat, nat>, children: map<nat, seq<nat>>, next: nat, p: nat, k: nat, c: nat)
    requires Wf(nodes, parent, children, next)
    requires p in nodes && c in nodes && c !in parent && p < c && k < |children[p]|
    ensures Wf(nodes, (parent - {children[p][k]})[c := p], children[p := Replaced(children[p], k, c)], next)
  {
    var s := children[p];
    var old_c := s[k];
    NotAChild(parent, children, c);
    forall q, i | q in children && 0 <= i < |children[q]| && q != p
      ensures children[q][i] != old_c
    {
      assert parent[children[q][i]] == q;
    }
  }

  /** Changing a node's data but not whether it is a text node. */
  lemma WfNodeUpdate(nodes: map<nat, Node>, parent: map<nat, nat>, children: map<nat, seq<nat>>, next: nat, n: nat, node: Node)
    requires Wf(nodes, parent, children, next)
    requires n in nodes && (node.kind.TextNode? ==> nodes[n].kind.TextNode?)
    ensures Wf(nodes[n := node], parent, children, next)
  {
  }

  class Document {
    var nodes: map<nat, Node>
    var parent: map<nat, nat>
    var children: map<nat, seq<nat>>
    /** The event types for which `document[eventType]` holds the dispatcher. */
    var listeners: set<string>
    var next: nat

    ghost predicate Valid()
      reads this
    {
      Wf(nodes, parent, children, next)
    }

    constructor ()
      ensures Valid() && nodes == map[] && parent == map[] && listeners == {} && next == 0
    {
      nodes, parent, children, listeners, next := map[], map[], map[], {}, 0;
    }

    /** `document.createElement(tag)` and `document.createTextNode(content)`: a new, detached node. */
    method CreateNode(kind: NodeKind) returns (n: nat)
      requires Valid()
      modifies this
      ensures Valid()
      ensures n == old(next) && next == n + 1
      ensures nodes == old(nodes)[n := NewNode(kind)] && children == old(children)[n := []]
      ensures parent == old(parent) && listeners == old(listeners)
    {
      n := next;
      WfCreate(nodes, parent, children, next, kind);
      nodes := nodes[n := NewNode(kind)];
      children := children[n := []];
      next := next + 1;
    }

    /**
     * `p.appendChild(c)` for a detached node created after `p`. A text node
     * cannot have children: the DOM throws, and so does the model (`ok` false,
     * nothing changed).
     */
    method AppendChild(p: nat, c: nat) returns (ok: bool)
      requires Valid() && p in nodes && c in nodes && c !in parent && p < c
      modifies this
      ensures Valid()
      ensures ok <==> !old(nodes)[p].kind.TextNode?
      ensures ok ==> children == old(children)[p := old(children)[p] + [c]] && parent == old(parent)[c := p]
      ensures !ok ==> children == old(children) && parent == old(parent)
      ensures nodes == old(nodes) && next == old(next) && listeners == old(listeners)
    {
      if nodes[p].kind.TextNode? {
        return false;
      }
      WfInsert(nodes, parent, children, next, p, c, |children[p]|);
      assert children[p][..|children[p]|] + [c] + children[p][|children[p]|..] == children[p] + [c];
      children := children[p := children[p] + [c]];
      parent := parent[c := p];
      ok := true;
    }

    /**
     * `p.insertBefore(c, ref)`: `c` goes right before `ref`. When `ref` is not a
     * child of `p` the DOM throws a NotFoundError (`ok` false, nothing changed).
     */
    method InsertBefore(p: nat, c: nat, ref: nat) returns (ok: bool)
      requires Valid() && p in nodes && c in nodes && c !in parent && p < c
      modifies this
      ensures Valid()
      ensures ok <==> ref in old(children)[p]
      ensures ok ==> var k := IndexOf(old(children)[p], ref);
                     children == old(children)[p := old(children)[p][..k] + [c] + old(children)[p][k..]]
                     && parent == old(parent)[c := p]
      ensures !ok ==> children == old(children) && parent == old(parent)
      ensures nodes == old(nodes) && next == old(next) && listeners == old(listeners)
    {
      if ref !in children[p] {
        return false;
      }
      var s := children[p];
      var k := IndexOf(s, ref);
      var s' := s[..k] + [c] + s[k..];
      WfInsert(nodes, parent, children, next, p, c, k);
      children := children[p := s'];
      parent := parent[c := p];
      ok := true;
    }

    /** `p.removeChild(c)`; a NotFoundError when `c` is not a child of `p`. */
    method RemoveChild(p: nat, c: nat) returns (ok: bool)
      requires Valid() && p in nodes
      modifies this
      ensures Valid()
      ensures ok <==> c in old(children)[p]
      ensures ok ==> var k := IndexOf(old(children)[p], c);
                     children == old(children)[p := old(children)[p][..k] + old(children)[p][k + 1..]]
                     && parent == old(parent) - {c}
      ensures !ok ==> children == old(children) && parent == old(parent)
      ensures nodes == old(nodes) && next == old(next) && listeners == old(listeners)
    {
      if c !in children[p] {
        return false;
      }
      var s := children[p];
      var k := IndexOf(s, c);
      var s' := s[..k] + s[k + 1..];
      WfRemove(nodes, parent, children, next, p, k);
      children := children[p := s'];
      parent := parent - {c};
      ok := true;
    }

    /** `p.replaceChild(c, old)`: `c`, detached and newer than `p`, takes `old`'s place; NotFoundError otherwise. */
    method ReplaceChild(p: nat, c: nat, oldChild: nat) returns (ok: bool)
      requires Valid() && p in nodes && c in nodes && c !in parent && p < c
      modifies this
      ensures Valid()
      ensures ok <==> oldChild in old(children)[p]
      ensures ok ==> var k := IndexOf(old(children)[p], oldChild);
                     children == old(children)[p := Replaced(old(children)[p], k, c)]
                     && parent == (old(parent) - {oldChild})[c := p]
      ensures !ok ==> children == old(children) && parent == old(parent)
      ensures nodes == old(nodes) && next == old(next) && listeners == old(listeners)
    {
      if oldChild !in children[p] {
        return false;
      }
      var s := children[p];
      var k := IndexOf(s, oldChild);
      var s' := Replaced(s, k, c);
      WfReplace(nodes, parent, children, next, p, k, c);
      children := children[p := s'];
      parent := (parent - {oldChild})[c := p];
      ok := true;
    }

    /** `dom.textContent = v` on a text node; setting it on an element is outside the model (`ok` false). */
    method SetTextContent(n: nat, v: Value) returns (ok: bool)
      requires Valid() && n in nodes
      modifies this
      ensures Valid()
      ensures ok <==> old(nodes)[n].kind.TextNode?
      ensures ok ==> nodes == old(nodes)[n := old(nodes)[n].(kind := TextNode(v))]
      ensures !ok ==> nodes == old(nodes)
      ensures parent == old(parent) && children == old(children) && next == old(next) && listeners == old(listeners)
    {
      if !nodes[n].kind.TextNode? {
        return false;
      }
      WfNodeUpdate(nodes, parent, children, next, n, nodes[n].(kind := TextNode(v)));
      nodes := nodes[n := nodes[n].(kind := TextNode(v))];
      ok := true;
    }

    /** `dom[name] = value`. */
    method SetAttr(n: nat, name: string, value: Value)
      requires Valid() && n in nodes
      modifies this
      ensures Valid()
      ensures nodes == old(nodes)[n := old(nodes)[n].(attrs := SetProp(old(nodes)[n].attrs, name, value))]
      ensures parent == old(parent) && children == old(children) && next == old(next) && listeners == old(listeners)
    {
      WfNodeUpdate(nodes, parent, children, next, n, nodes[n].(attrs := SetProp(nodes[n].attrs, name, value)));
      nodes := nodes[n := nodes[n].(attrs := SetProp(nodes[n].attrs, name, value))];
    }

    /** `dom.style[name] = value`. */
    method SetStyle(n: nat, name: string, value: Value)
      requires Valid() && n in nodes
      modifies this
      ensures Valid()
      ensures nodes == old(nodes)[n := old(nodes)[n].(style := SetProp(old(nodes)[n].style, name, value))]
      ensures parent == old(parent) && children == old(children) && next == old(next) && listeners == old(listeners)
    {
      WfNodeUpdate(nodes, parent, children, next, n, nodes[n].(style := SetProp(nodes[n].style, name, value)));
      nodes := nodes[n := nodes[n].(style := SetProp(nodes[n].style, name, value))];
    }

    /** `dom.store = store`. */
    method SetStore(n: nat, store: seq<Prop>)
      requires Valid() && n in nodes
      modifies this
      ensures Valid()
      ensures nodes == old(nodes)[n := old(nodes)[n].(store := Some(store))]
      ensures parent == old(parent) && children == old(children) && next == old(next) && listeners == old(listeners)
    {
      WfNodeUpdate(nodes, parent, children, next, n, nodes[n].(store := Some(store)));
      nodes := nodes[n := nodes[n].(store := Some(store))];
    }

    /** `dom.componentDidMount = instance.componentDidMount.bind(instance)`. */
    method SetDidMount(n: nat, inst: nat)
      requires Valid() && n in nodes
      modifies this
      ensures Valid()
      ensures nodes == old(nodes)[n := old(nodes)[n].(didMount := Some(inst))]
      ensures parent == old(parent) && children == old(children) && next == old(next) && listeners == old(listeners)
    {
      WfNodeUpdate(nodes, parent, children, next, n, nodes[n].(didMount := Some(inst)));
      nodes := nodes[n := nodes[n].(didMount := Some(inst))];
    }

    /** `document[eventType] = dispatchEvent`. */
    method Listen(eventType: string)
      modifies this
      ensures listeners == old(listeners) + {eventType}
      ensures nodes == old(nodes) && parent == old(parent) && children == old(children) && next == old(next)
    {
      listeners := listeners + {eventType};
    }
  }

  /** The nodes met walking up from `n` through parent links, `n` first and the root last. */
  function Ancestry(parent: map<nat, nat>, n: nat): (path: seq<nat>)
    requires forall c :: c in parent ==> parent[c] < c
    ensures |path| > 0 && path[0] == n
    decreases n
  {
    if n in parent then [n] + Ancestry(parent, parent[n]) else [n]
  }

  /** The walk goes strictly upward and every step is a parent link; its last node has no parent. */
  lemma {:induction false} AncestryLinks(parent: map<nat, nat>, n: nat)
    requires forall c :: c in parent ==> parent[c] < c
    ensures var path := Ancestry(parent, n);
            && (forall i :: 0 <= i < |path| - 1 ==> path[i] in parent && parent[path[i]] == path[i + 1])
            && path[|path| - 1] !in parent
    decreases n
  {
    if n in parent {
      AncestryLinks(parent, parent[n]);
    }
  }
}
