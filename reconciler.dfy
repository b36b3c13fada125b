/**
 * The update half of the runtime (src/component.js): `compareTwoVdmo`, which
 * brings the DOM under a parent from an old virtual DOM to a new one in five
 * cases, `updateElement` with its per-kind patches, `updateChildren`, which
 * diffs two children lists position by position, and a class instance's
 * `forceUpdate`.
 */
module Reconciler {
  import opened JsValues
  import opened Utils
  import opened Dom
  import opened Component
  import opened React
  import Hooks
  import HostProps
  import opened Vdom
  import opened Mount

  /** The allocator only moves forward and nodes are never deleted from the arena. */
  ghost predicate Keeps(a: Snap, b: Snap)
  {
    a.next <= b.next && a.nodes.Keys <= b.nodes.Keys
  }

  lemma KeepsTrans(a: Snap, b: Snap, c: Snap)
    requires Keeps(a, b) && Keeps(b, c)
    ensures Keeps(a, c)
  {
  }

  /** `after` extends `before` and ends with `tail`, whatever came in between. */
  ghost predicate Logged(before: seq<Event>, after: seq<Event>, tail: seq<Event>)
  {
    |before| + |tail| <= |after| && before <= after && after[|after| - |tail|..] == tail
  }

  lemma LoggedAfter(before: seq<Event>, mid: seq<Event>, after: seq<Event>, tail: seq<Event>)
    requires before <= mid && after == mid + tail
    ensures Logged(before, after, tail)
  {
  }

  /** The `componentWillUnmount` call compareTwoVdmo makes when the old record is a class component's. */
  function UnmountEvents(m: Mounted): (es: seq<Event>)
    ensures es != [] <==> m.MClass? && m.upd.instance.hooks.willUnmount
    ensures es != [] ==> es == [WillUnmount(m.upd.instance.id)]
  {
    if m.MClass? && m.upd.instance.hooks.willUnmount then [WillUnmount(m.upd.instance.id)] else []
  }

  /** The `componentDidMount` a class component left on a node, called once the node is in place. */
  function DidMountEvents(n: Node): (es: seq<Event>)
    ensures es != [] <==> n.didMount.Some?
    ensures es != [] ==> es == [DidMount(n.didMount.value)]
  {
    if n.didMount.Some? then [DidMount(n.didMount.value)] else []
  }

  /**
   * `b` is `a` with node `d` taken out of its parent's children list: the
   * parent is `d`'s own `parentNode`, and nothing else changes.
   */
  ghost predicate Detached(a: Snap, b: Snap, d: nat)
  {
    && d in a.parent && a.parent[d] in a.children && d in a.children[a.parent[d]]
    && var p := a.parent[d];
       var k := IndexOf(a.children[p], d);
       && b.nodes == a.nodes && b.next == a.next
       && b.parent == a.parent - {d}
       && b.children == a.children[p := a.children[p][..k] + a.children[p][k + 1..]]
  }

  /**
   * A children list holds each node once, so after case 2 the removed node is
   * gone from its parent's list and every other child is still there.
   */
  lemma DetachedRemoves(a: Snap, b: Snap, d: nat)
    requires SnapWf(a) && Detached(a, b, d)
    ensures var p := a.parent[d];
            && p in b.children && d !in b.children[p] && |b.children[p]| + 1 == |a.children[p]|
            && forall c :: c in a.children[p] && c != d ==> c in b.children[p]
  {
    var p := a.parent[d];
    var s := a.children[p];
    var k := IndexOf(s, d);
    var t := b.children[p];
    assert NoDup(s);
    forall j | 0 <= j < |t|
      ensures t[j] != d
    {
      if j < k {
        assert t[j] == s[j];
      } else {
        assert t[j] == s[j + 1];
      }
    }
    forall c | c in s && c != d
      ensures c in t
    {
      var j := IndexOf(s, c);
      if j < k {
        assert t[j] == c;
      } else {
        assert t[j - 1] == c;
      }
    }
  }

  /** `oldVdom.classInstance.componentWillUnmount()` when there is one. */
  method LogUnmount(trace: Trace, m: Mounted)
    modifies trace
    ensures trace.events == old(trace.events) + UnmountEvents(m)
  {
    if m.MClass? && m.upd.instance.hooks.willUnmount {
      trace.Record(WillUnmount(m.upd.instance.id));
    }
  }

  /** `dom.parentNode.removeChild(dom)` for an attached node: it is always one of its parent's children. */
  method Detach(doc: Document, d: nat)
    requires doc.Valid() && d in doc.parent
    modifies doc
    ensures doc.Valid() && Detached(old(SnapOf(doc)), SnapOf(doc), d)
  {
    var ok := doc.RemoveChild(doc.parent[d], d);
    assert ok;
  }

  /**
   * Case 2 of compareTwoVdmo: `findDOM(oldVdom)`, then
   * `currentDOM.parentNode.removeChild(currentDOM)` -- a node without a parent
   * throws -- then `componentWillUnmount` when the old record is a class
   * component's. Only the outermost component is told; the ones inside it are not.
   */
  method RemoveOld(env: Env, prev: Mounted) returns (r: Res<()>)
    requires env.doc.Valid() && InDoc(prev, env.doc.nodes.Keys)
    modifies env.doc, env.trace
    ensures env.doc.Valid()
    ensures r.Ok? || r.Threw?
    ensures r.Ok? <==> FindDOM(prev).Done? && FindDOM(prev).value in old(env.doc.parent)
    ensures r.Ok? ==> Detached(old(SnapOf(env.doc)), SnapOf(env.doc), FindDOM(prev).value)
                      && env.trace.events == old(env.trace.events) + UnmountEvents(prev)
    ensures r.Threw? ==> SnapOf(env.doc) == old(SnapOf(env.doc)) && env.trace.events == old(env.trace.events)
  {
    var found := FindDOM(prev);
    if found.Thrown? || found.value !in env.doc.parent {
      return Threw;
    }
    Detach(env.doc, found.value);
    LogUnmount(env.trace, prev);
    r := Ok(());
  }

  /** The children list of a parent after `insertBefore(root, hint)`, or `appendChild(root)` without a hint. */
  function PlacedIn(kids: seq<nat>, root: nat, hint: Option<nat>): (r: seq<nat>)
    ensures |r| == |kids| + 1 && root in r
    ensures hint.None? || hint.value !in kids ==> r == kids + [root]
    ensures hint.Some? && hint.value in kids ==> var k := IndexOf(kids, hint.value);
              r[..k] == kids[..k] && r[k] == root && r[k + 1..] == kids[k..]
  {
    if hint.Some? && hint.value in kids then
      var k := IndexOf(kids, hint.value);
      kids[..k] + [root] + kids[k..]
    else kids + [root]
  }

  /**
   * `b` is `a` grown by a subtree whose root `a.next` now sits in `p`'s
   * children -- just before `hint`, or last -- while the older nodes, their
   * children lists other than `p`'s, and their parents are as they were.
   */
  ghost predicate Spliced(a: Snap, b: Snap, p: nat, hint: Option<nat>)
  {
    && a.next <= b.next && a.next in b.nodes
    && (forall n :: n in a.nodes ==> n in b.nodes && b.nodes[n] == a.nodes[n])
    && (forall n :: n in a.children && n != p ==> n in b.children && b.children[n] == a.children[n])
    && p in a.children && p in b.children
    && b.children[p] == PlacedIn(a.children[p], a.next, hint)
    && SameOldParents(a, b)
    && a.next in b.parent && b.parent[a.next] == p
  }

  lemma GrowsSpliced(a: Snap, b: Snap, p: nat, hint: Option<nat>)
    requires Grows(a, b) && p in a.children && p < a.next && a.next in b.nodes
    ensures var c := Snap(b.nodes, b.parent[a.next := p], b.children[p := PlacedIn(b.children[p], a.next, hint)], b.next);
            Spliced(a, c, p, hint)
  {
  }

  /**
   * `parentNode.insertBefore(newDOM, nextDOM)` when there is a hint,
   * `parentNode.appendChild(newDOM)` otherwise. An undefined parent throws, and
   * so does a hint that is not one of the parent's children or a text parent.
   */
  method Place(doc: Document, parent: Option<nat>, root: nat, hint: Option<nat>) returns (ok: bool)
    requires doc.Valid() && root in doc.nodes && root !in doc.parent
    requires parent.Some? ==> parent.value in doc.nodes && parent.value < root
    modifies doc
    ensures doc.Valid()
    ensures ok <==> parent.Some? && if hint.Some? then hint.value in old(doc.children)[parent.value]
                                    else !old(doc.nodes)[parent.value].kind.TextNode?
    ensures ok ==> doc.children == old(doc.children)[parent.value := PlacedIn(old(doc.children)[parent.value], root, hint)]
                   && doc.parent == old(doc.parent)[root := parent.value]
    ensures !ok ==> doc.children == old(doc.children) && doc.parent == old(doc.parent)
    ensures doc.nodes == old(doc.nodes) && doc.next == old(doc.next)
  {
    if parent.None? {
      return false;
    }
    if hint.Some? {
      ok := doc.InsertBefore(parent.value, root, hint.value);
    } else {
      ok := doc.AppendChild(parent.value, root);
    }
  }

  /** `newDOM.componentDidMount()` when a class component left one on the node. */
  method LogDidMount(trace: Trace, n: Node)
    modifies trace
    ensures trace.events == old(trace.events) + DidMountEvents(n)
  {
    if n.didMount.Some? {
      trace.Record(DidMount(n.didMount.value));
    }
  }

  /**
   * The end of case 3 and case 4 for a root created after `s0`: put it in
   * place, then call the componentDidMount left on it.
   */
  method PlaceRoot(env: Env, parent: Option<nat>, root: nat, hint: Option<nat>, ghost s0: Snap) returns (ok: bool)
    requires env.doc.Valid() && Grows(s0, SnapOf(env.doc)) && root == s0.next && root in env.doc.nodes
    requires parent.Some? ==> parent.value in s0.children && parent.value < root
    modifies env.doc, env.trace
    ensures env.doc.Valid() && env.doc.nodes == old(env.doc.nodes) && env.doc.next == old(env.doc.next)
    ensures ok <==> parent.Some? && if hint.Some? then hint.value in old(env.doc.children)[parent.value]
                                    else !old(env.doc.nodes)[parent.value].kind.TextNode?
    ensures ok ==> Spliced(s0, SnapOf(env.doc), parent.value, hint)
                   && env.trace.events == old(env.trace.events) + DidMountEvents(env.doc.nodes[root])
    ensures !ok ==> env.trace.events == old(env.trace.events)
  {
    ghost var s1 := SnapOf(env.doc);
    ok := Place(env.doc, parent, root, hint);
    if ok {
      GrowsSpliced(s0, s1, parent.value, hint);
      LogDidMount(env.trace, env.doc.nodes[root]);
    }
  }

  /**
   * Case 3 of compareTwoVdmo: create the new subtree, put its root in place,
   * then call the componentDidMount left on the root.
   */
  method CreateNew(env: Env, parent: Option<nat>, next: Value, hint: Option<nat>, fuel: nat) returns (r: Res<Mounted>)
    requires env.doc.Valid() && (parent.Some? ==> parent.value in env.doc.nodes)
    modifies env.doc, env.trace, env.heap, env.refs, env.cells, env.hooks
    ensures env.doc.Valid() && Keeps(old(SnapOf(env.doc)), SnapOf(env.doc))
    ensures old(env.trace.events) <= env.trace.events
    ensures r.Ok? ==> r.value.vdom == next && InDoc(r.value, env.doc.nodes.Keys)
    ensures r.Ok? ==> parent.Some? && Spliced(old(SnapOf(env.doc)), SnapOf(env.doc), parent.value, hint)
                      && Logged(old(env.trace.events), env.trace.events, DidMountEvents(env.doc.nodes[old(env.doc.next)]))
    ensures r.Ok? && FindDOM(r.value).Done? ==> FindDOM(r.value) == Done(old(env.doc.next))
  {
    ghost var s0 := SnapOf(env.doc);
    var root := env.doc.next;
    var m := Build(env, next, fuel);
    if !m.Ok? {
      return m;
    }
    ghost var e1 := env.trace.events;
    var ok := PlaceRoot(env, parent, root, hint, s0);
    if !ok {
      return Threw;
    }
    LoggedAfter(old(env.trace.events), e1, env.trace.events, DidMountEvents(env.doc.nodes[root]));
    r := m;
  }

  /**
   * `b` is `a` after `replaceChild(root, d)` in `d`'s own parent: `root` takes
   * `d`'s position in that parent's children and `d` is detached.
   */
  ghost predicate SwapAt(a: Snap, b: Snap, d: nat, root: nat)
  {
    && d in a.parent && a.parent[d] in a.children && d in a.children[a.parent[d]]
    && var p := a.parent[d];
       b == Snap(a.nodes, (a.parent - {d})[root := p],
                 a.children[p := Replaced(a.children[p], IndexOf(a.children[p], d), root)], a.next)
  }

  /**
   * The end of case 4 for a new root:
   * `oldDOM.parentNode.replaceChild(newDOM, oldDOM)`, then componentWillUnmount
   * of the old class component, then componentDidMount left on the new root.
   */
  method SwapRoot(env: Env, prev: Mounted, d: nat, root: nat)
    requires env.doc.Valid() && d in env.doc.parent && root in env.doc.nodes && root !in env.doc.parent
    requires d < root
    modifies env.doc, env.trace
    ensures env.doc.Valid() && SwapAt(old(SnapOf(env.doc)), SnapOf(env.doc), d, root)
    ensures env.trace.events == old(env.trace.events) + (UnmountEvents(prev) + DidMountEvents(env.doc.nodes[root]))
  {
    var ok := env.doc.ReplaceChild(env.doc.parent[d], root, d);
    assert ok;
    LogSwap(env.trace, prev, env.doc.nodes[root]);
  }

  /** The unmount call for the old record, then the mount call left on the new root. */
  method LogSwap(trace: Trace, prev: Mounted, n: Node)
    modifies trace
    ensures trace.events == old(trace.events) + (UnmountEvents(prev) + DidMountEvents(n))
  {
    LogUnmount(trace, prev);
    LogDidMount(trace, n);
  }

  /**
   * Case 4 of compareTwoVdmo, for values of different types: find the old
   * node, create the new subtree, put its root where the old node was in the
   * old node's own parent (a detached old node throws), then the unmount and
   * mount calls.
   */
  method ReplaceOld(env: Env, prev: Mounted, next: Value, fuel: nat) returns (r: Res<Mounted>, ghost mid: Snap)
    requires env.doc.Valid() && InDoc(prev, env.doc.nodes.Keys)
    modifies env.doc, env.trace, env.heap, env.refs, env.cells, env.hooks
    ensures env.doc.Valid() && Keeps(old(SnapOf(env.doc)), SnapOf(env.doc))
    ensures old(env.trace.events) <= env.trace.events
    ensures FindDOM(prev).Thrown? ==> r.Threw? && SnapOf(env.doc) == old(SnapOf(env.doc))
    ensures r.Ok? ==> r.value.vdom == next && InDoc(r.value, env.doc.nodes.Keys)
    ensures r.Ok? ==> FindDOM(prev).Done? && Grows(old(SnapOf(env.doc)), mid)
                      && SwapAt(mid, SnapOf(env.doc), FindDOM(prev).value, old(env.doc.next))
                      && Logged(old(env.trace.events), env.trace.events,
                                UnmountEvents(prev) + DidMountEvents(env.doc.nodes[old(env.doc.next)]))
    ensures r.Ok? && FindDOM(r.value).Done? ==> FindDOM(r.value) == Done(old(env.doc.next))
  {
    mid := SnapOf(env.doc);
    var found := FindDOM(prev);
    if found.Thrown? {
      return Threw, mid;
    }
    var root := env.doc.next;
    var m := Build(env, next, fuel);
    if !m.Ok? {
      return m, mid;
    }
    if found.value !in env.doc.parent {
      return Threw, mid;
    }
    mid := SnapOf(env.doc);
    ghost var e1 := env.trace.events;
    SwapRoot(env, prev, found.value, root);
    LoggedAfter(old(env.trace.events), e1, env.trace.events, UnmountEvents(prev) + DidMountEvents(env.doc.nodes[root]));
    r := m;
  }

  /** The old and the new virtual DOM are one element object, so writes to the new one are writes to the old one. */
  predicate SameObject(a: Value, b: Value)
  {
    a.El? && b.El? && a.ref == b.ref
  }

  /** The children a host element's props hold, read as updateChildren reads them. */
  lemma ChildrenOfGet(props: Value)
    ensures ChildrenOf(props) == ChildList(Get(props, "children"))
  {
    if !Truthy(props) {
      assert OwnProps(props) == [];
    }
  }

  /**
   * A text element patched in place: the old node is reused and its text
   * replaced only when the new content is truthy, so a new content of "" or 0
   * leaves the old text on the page. Reading the content of nullish props throws.
   */
  method UpdateText(env: Env, m: Mounted, next: Value) returns (r: Res<Mounted>)
    requires env.doc.Valid() && m.MText? && m.dom in env.doc.nodes && next.El?
    modifies env.doc
    ensures env.doc.Valid()
    ensures env.doc.parent == old(env.doc.parent) && env.doc.children == old(env.doc.children)
    ensures env.doc.next == old(env.doc.next)
    ensures Nullish(next.elem.props) ==> r.Threw?
    ensures !r.Ok? ==> env.doc.nodes == old(env.doc.nodes)
    ensures r.Ok? ==> r.value == MText(next, m.dom)
    ensures r.Ok? && Truthy(Get(next.elem.props, "content")) ==>
              env.doc.nodes == old(env.doc.nodes)[m.dom := old(env.doc.nodes)[m.dom].(kind := TextNode(Get(next.elem.props, "content")))]
    ensures r.Ok? && !Truthy(Get(next.elem.props, "content")) ==> env.doc.nodes == old(env.doc.nodes)
  {
    if Nullish(next.elem.props) {
      return Threw;
    }
    var content := Get(next.elem.props, "content");
    if Truthy(content) {
      var ok := env.doc.SetTextContent(m.dom, content);
      if !ok {
        return Unmodelled;
      }
    }
    r := Ok(MText(next, m.dom));
  }

  /** The `componentWillReceiveProps` call updateClassComponent makes before the update. */
  function ReceiveEvents(inst: Instance): (es: seq<Event>)
    ensures es != [] <==> inst.hooks.willReceiveProps
    ensures es != [] ==> es == [WillReceiveProps(inst.id)]
  {
    if inst.hooks.willReceiveProps then [WillReceiveProps(inst.id)] else []
  }

  method LogReceive(trace: Trace, inst: Instance)
    modifies trace
    ensures trace.events == old(trace.events) + ReceiveEvents(inst)
  {
    if inst.hooks.willReceiveProps {
      trace.Record(WillReceiveProps(inst.id));
    }
  }

  /**
   * updateClassComponent: the instance and what it last rendered carry over
   * to the new element; componentWillReceiveProps is called, then the
   * updater's emitUpdate with the new props, which updates the instance at
   * once or queues it while a batch is open. The DOM is left to the
   * instance's own forceUpdate.
   */
  method UpdateClass(env: Env, m: Mounted, next: Value) returns (r: Res<Mounted>)
    requires m.MClass? && next.El?
    modifies env.trace, env.queue, env.heap, m.upd, m.upd.instance
    ensures r == Ok(MClass(next, m.upd, m.rendered))
    ensures m.upd.nextProps == next.elem.props
    ensures old(env.trace.events) + ReceiveEvents(m.upd.instance) <= env.trace.events
    ensures old(env.queue.isBatchingUpdate) ==>
              env.queue.updaters == old(env.queue.updaters) + [m.upd]
              && env.trace.events == old(env.trace.events) + ReceiveEvents(m.upd.instance)
              && m.upd.instance.props == old(m.upd.instance.props) && m.upd.instance.state == old(m.upd.instance.state)
    ensures !old(env.queue.isBatchingUpdate) ==>
              env.queue.updaters == old(env.queue.updaters)
              && m.upd.UpdatedAs(env.trace, env.heap, old(m.upd.pendingStates), old(m.upd.callbacks), next.elem.props,
                                 old(m.upd.instance.props), old(m.upd.instance.state),
                                 old(env.trace.events) + ReceiveEvents(m.upd.instance), old(env.heap.next), env.call)
  {
    LogReceive(env.trace, m.upd.instance);
    m.upd.EmitUpdate(next.elem.props, env.queue, env.trace, env.call, env.heap);
    r := Ok(MClass(next, m.upd, m.rendered));
  }

  /**
   * `b` is `a` after case 4 replaced node `d`: the new root holds `d`'s place
   * in `d`'s old parent and `d` is detached.
   */
  ghost predicate Swapped(a: Snap, b: Snap, d: nat, root: nat)
  {
    && d in a.parent && a.parent[d] in a.children && d in a.children[a.parent[d]]
    && var p := a.parent[d];
       && d !in b.parent && root in b.parent && b.parent[root] == p
       && p in b.children && b.children[p] == Replaced(a.children[p], IndexOf(a.children[p], d), root)
  }

  /** Creating the new subtree before the swap leaves `d`'s parent and its children list as they were. */
  lemma SwappedFromStart(a: Snap, mid: Snap, b: Snap, d: nat, root: nat)
    requires SnapWf(a) && d in a.nodes && root == a.next && Grows(a, mid) && SwapAt(mid, b, d, root)
    ensures Swapped(a, b, d, root)
  {
    assert d < a.next;
    assert d in a.parent;
    assert b.parent == (mid.parent - {d})[root := mid.parent[d]];
  }

  /**
   * After case 4 the new root is among the parent's children once, in the
   * list's old length, and the replaced node is not.
   */
  lemma SwappedReplaces(a: Snap, b: Snap, d: nat, root: nat)
    requires SnapWf(a) && Swapped(a, b, d, root)
    ensures var p := a.parent[d];
            && root in b.children[p] && d !in b.children[p] && |b.children[p]| == |a.children[p]|
  {
    var p := a.parent[d];
    var s := a.children[p];
    var k := IndexOf(s, d);
    assert NoDup(s);
    forall j | 0 <= j < |s| && j != k
      ensures b.children[p][j] != d
    {
      assert s[j] != s[k];
    }
  }

  /** `type.compare(prevProps, newVdom.props)`: shallowEqual, or the comparator given to memo, by truthiness. */
  function Compared(call: Call, cmp: Comparator, prevProps: Value, props: Value): (same: bool)
    ensures cmp.ShallowEqualFn? ==> (same <==> ShallowEqual(prevProps, props))
    ensures cmp.UserCompare? ==> (same <==> Truthy(call(cmp.fn, [prevProps, props])))
  {
    match cmp
    case ShallowEqualFn => ShallowEqual(prevProps, props)
    case UserCompare(f) => Truthy(call(f, [prevProps, props]))
  }

  /** The old render element as compareTwoVdmo sees it: a falsy one is absent. */
  function OldChild(m: Mounted): (o: Option<Mounted>)
    ensures o.Some? <==> Truthy(m.vdom)
    ensures o.Some? ==> o.value == m
  {
    if Truthy(m.vdom) then Some(m) else None
  }

  /** The record kept for a render element after compareTwoVdmo: a falsy one keeps no fields. */
  function Relabel(o: Option<Mounted>, v: Value): (m: Mounted)
    requires o.Some? ==> o.value.vdom == v
    ensures m.vdom == v
    ensures o.None? ==> m == MBare(v)
  {
    if o.Some? then o.value else MBare(v)
  }

  /** The parent of node `d` in snapshot `s`, absent for a detached node (`dom.parentNode`). */
  function ParentIn(s: Snap, d: nat): (p: Option<nat>)
    ensures p.Some? <==> d in s.parent
    ensures p.Some? ==> p.value == s.parent[d]
  {
    if d in s.parent then Some(s.parent[d]) else None
  }

  /**
   * What compareTwoVdmo(parent, prev, next, hint) did, case by case, taking
   * the document from `a` to `b` and the log from `e0` to `e1` with result
   * `r`. In the patch case a record with no fields is kept as it is and a
   * provider or consumer throws; what patching does to each other kind is
   * stated by the update of that kind.
   */
  ghost predicate Diffed(a: Snap, b: Snap, e0: seq<Event>, e1: seq<Event>, parent: Option<nat>,
                         prev: Option<Mounted>, next: Value, hint: Option<nat>, r: Res<Option<Mounted>>)
  {
    match CaseOf(prev, next)
    case Keep => r == Ok(None) && b == a && e1 == e0
    case Remove =>
      && (r.Ok? <==> FindDOM(prev.value).Done? && FindDOM(prev.value).value in a.parent)
      && (r.Ok? ==> Detached(a, b, FindDOM(prev.value).value) && e1 == e0 + UnmountEvents(prev.value))
    case Create =>
      r.Ok? ==> parent.Some? && Spliced(a, b, parent.value, hint) && Logged(e0, e1, DidMountEvents(b.nodes[a.next]))
    case Replace =>
      && (FindDOM(prev.value).Thrown? ==> r.Threw? && b == a)
      && (r.Ok? ==> && FindDOM(prev.value).Done? && a.next in b.nodes
                    && Swapped(a, b, FindDOM(prev.value).value, a.next)
                    && Logged(e0, e1, UnmountEvents(prev.value) + DidMountEvents(b.nodes[a.next])))
    case Patch =>
      && (prev.value.MBare? ==> r == Ok(Some(MBare(next))) && b == a && e1 == e0)
      && (!prev.value.MBare? && prev.value.vdom.El? && prev.value.vdom.elem.kind.ProviderType? ==> r.Threw?)
      && (!prev.value.MBare? && prev.value.vdom.El? && prev.value.vdom.elem.kind.ConsumerType? ==> r.Threw?)
  }

  lemma DiffedKeep(a: Snap, e0: seq<Event>, parent: Option<nat>, prev: Option<Mounted>, next: Value, hint: Option<nat>)
    requires CaseOf(prev, next) == Keep
    ensures Diffed(a, a, e0, e0, parent, prev, next, hint, Ok(None))
  {
  }

  lemma DiffedRemove(a: Snap, b: Snap, e0: seq<Event>, e1: seq<Event>, parent: Option<nat>,
                     prev: Option<Mounted>, next: Value, hint: Option<nat>, r: Res<Option<Mounted>>)
    requires CaseOf(prev, next) == Remove
    requires r.Ok? <==> FindDOM(prev.value).Done? && FindDOM(prev.value).value in a.parent
    requires r.Ok? ==> Detached(a, b, FindDOM(prev.value).value) && e1 == e0 + UnmountEvents(prev.value)
    ensures Diffed(a, b, e0, e1, parent, prev, next, hint, r)
  {
  }

  lemma DiffedCreate(a: Snap, b: Snap, e0: seq<Event>, e1: seq<Event>, parent: Option<nat>,
                     prev: Option<Mounted>, next: Value, hint: Option<nat>, r: Res<Option<Mounted>>)
    requires CaseOf(prev, next) == Create
    requires r.Ok? ==> parent.Some? && Spliced(a, b, parent.value, hint) && Logged(e0, e1, DidMountEvents(b.nodes[a.next]))
    ensures Diffed(a, b, e0, e1, parent, prev, next, hint, r)
  {
  }

  lemma DiffedReplace(a: Snap, b: Snap, e0: seq<Event>, e1: seq<Event>, parent: Option<nat>,
                      prev: Option<Mounted>, next: Value, hint: Option<nat>, r: Res<Option<Mounted>>)
    requires CaseOf(prev, next) == Replace
    requires FindDOM(prev.value).Thrown? ==> r.Threw? && b == a
    requires r.Ok? ==> && FindDOM(prev.value).Done? && a.next in b.nodes
                       && Swapped(a, b, FindDOM(prev.value).value, a.next)
                       && Logged(e0, e1, UnmountEvents(prev.value) + DidMountEvents(b.nodes[a.next]))
    ensures Diffed(a, b, e0, e1, parent, prev, next, hint, r)
  {
  }

  lemma DiffedPatch(a: Snap, b: Snap, e0: seq<Event>, e1: seq<Event>, parent: Option<nat>,
                    prev: Option<Mounted>, next: Value, hint: Option<nat>, r: Res<Option<Mounted>>)
    requires CaseOf(prev, next) == Patch
    requires prev.value.MBare? ==> r == Ok(Some(MBare(next))) && b == a && e1 == e0
    requires !prev.value.MBare? && prev.value.vdom.El? && prev.value.vdom.elem.kind.ProviderType? ==> r.Threw?
    requires !prev.value.MBare? && prev.value.vdom.El? && prev.value.vdom.elem.kind.ConsumerType? ==> r.Threw?
    ensures Diffed(a, b, e0, e1, parent, prev, next, hint, r)
  {
  }

  /**
   * compareTwoVdmo(parentNode, oldVdom, newVdom, nextDOM): the five cases.
   * Nothing to do when both are absent; the old node removed when the new
   * value is falsy; a new subtree put before `nextDOM` or last when there
   * was nothing; the old node replaced by a new subtree when the types
   * differ; and otherwise the old record patched by updateElement.
   */
  method CompareTwoVdom(env: Env, parent: Option<nat>, prev: Option<Mounted>, next: Value, hint: Option<nat>, fuel: nat)
      returns (r: Res<Option<Mounted>>)
    requires env.doc.Valid() && OInDoc(prev, env.doc.nodes.Keys)
    requires parent.Some? ==> parent.value in env.doc.nodes
    modifies env.doc, env.trace, env.heap, env.refs, env.cells, env.hooks, env.queue, OUps(prev)
    ensures env.doc.Valid() && Keeps(old(SnapOf(env.doc)), SnapOf(env.doc))
    ensures old(env.trace.events) <= env.trace.events
    ensures r.Ok? ==> (r.value.Some? <==> Truthy(next))
    ensures r.Ok? && r.value.Some? ==> r.value.value.vdom == next && InDoc(r.value.value, env.doc.nodes.Keys)
    ensures Diffed(old(SnapOf(env.doc)), SnapOf(env.doc), old(env.trace.events), env.trace.events,
                   parent, prev, next, hint, r)
    decreases OSize(prev), 5
  {
    match CaseOf(prev, next) {
      case Keep =>
        r := Ok(None);
        DiffedKeep(SnapOf(env.doc), env.trace.events, parent, prev, next, hint);
      case Remove =>
        r := RemoveCase(env, parent, prev, next, hint, fuel);
      case Create =>
        r := CreateCase(env, parent, prev, next, hint, fuel);
      case Replace =>
        r := ReplaceCase(env, parent, prev, next, hint, fuel);
      case Patch =>
        r := PatchCase(env, parent, prev, next, hint, fuel);
    }
  }

  /** The remove case of compareTwoVdmo. */
  method RemoveCase(env: Env, parent: Option<nat>, prev: Option<Mounted>, next: Value, hint: Option<nat>, fuel: nat)
      returns (r: Res<Option<Mounted>>)
    requires env.doc.Valid() && OInDoc(prev, env.doc.nodes.Keys)
    requires parent.Some? ==> parent.value in env.doc.nodes
    requires CaseOf(prev, next) == Remove
    modifies env.doc, env.trace
    ensures env.doc.Valid() && Keeps(old(SnapOf(env.doc)), SnapOf(env.doc))
    ensures old(env.trace.events) <= env.trace.events
    ensures r.Ok? ==> r.value.None?
    ensures Diffed(old(SnapOf(env.doc)), SnapOf(env.doc), old(env.trace.events), env.trace.events,
                   parent, prev, next, hint, r)
  {
    ghost var a, e0 := SnapOf(env.doc), env.trace.events;
    var u := RemoveOld(env, prev.value);
    r := if u.Ok? then Ok(None) else Fail(u);
    DiffedRemove(a, SnapOf(env.doc), e0, env.trace.events, parent, prev, next, hint, r);
  }

  /** The create case of compareTwoVdmo. */
  method CreateCase(env: Env, parent: Option<nat>, prev: Option<Mounted>, next: Value, hint: Option<nat>, fuel: nat)
      returns (r: Res<Option<Mounted>>)
    requires env.doc.Valid() && OInDoc(prev, env.doc.nodes.Keys)
    requires parent.Some? ==> parent.value in env.doc.nodes
    requires CaseOf(prev, next) == Create
    modifies env.doc, env.trace, env.heap, env.refs, env.cells, env.hooks
    ensures env.doc.Valid() && Keeps(old(SnapOf(env.doc)), SnapOf(env.doc))
    ensures old(env.trace.events) <= env.trace.events
    ensures r.Ok? ==> (r.value.Some? <==> Truthy(next))
    ensures r.Ok? && r.value.Some? ==> r.value.value.vdom == next && InDoc(r.value.value, env.doc.nodes.Keys)
    ensures Diffed(old(SnapOf(env.doc)), SnapOf(env.doc), old(env.trace.events), env.trace.events,
                   parent, prev, next, hint, r)
  {
    ghost var a, e0 := SnapOf(env.doc), env.trace.events;
    var m := CreateNew(env, parent, next, hint, fuel);
    r := if m.Ok? then Ok(Some(m.value)) else Fail(m);
    DiffedCreate(a, SnapOf(env.doc), e0, env.trace.events, parent, prev, next, hint, r);
  }

  /** The replace case of compareTwoVdmo. */
  method ReplaceCase(env: Env, parent: Option<nat>, prev: Option<Mounted>, next: Value, hint: Option<nat>, fuel: nat)
      returns (r: Res<Option<Mounted>>)
    requires env.doc.Valid() && OInDoc(prev, env.doc.nodes.Keys)
    requires parent.Some? ==> parent.value in env.doc.nodes
    requires CaseOf(prev, next) == Replace
    modifies env.doc, env.trace, env.heap, env.refs, env.cells, env.hooks
    ensures env.doc.Valid() && Keeps(old(SnapOf(env.doc)), SnapOf(env.doc))
    ensures old(env.trace.events) <= env.trace.events
    ensures r.Ok? ==> (r.value.Some? <==> Truthy(next))
    ensures r.Ok? && r.value.Some? ==> r.value.value.vdom == next && InDoc(r.value.value, env.doc.nodes.Keys)
    ensures Diffed(old(SnapOf(env.doc)), SnapOf(env.doc), old(env.trace.events), env.trace.events,
                   parent, prev, next, hint, r)
  {
    ghost var a, e0 := SnapOf(env.doc), env.trace.events;
    var m, mid := ReplaceOld(env, prev.value, next, fuel);
    if m.Ok? {
      SwappedFromStart(a, mid, SnapOf(env.doc), FindDOM(prev.value).value, a.next);
    }
    r := if m.Ok? then Ok(Some(m.value)) else Fail(m);
    DiffedReplace(a, SnapOf(env.doc), e0, env.trace.events, parent, prev, next, hint, r);
  }

  /** The patch case of compareTwoVdmo. */
  method PatchCase(env: Env, parent: Option<nat>, prev: Option<Mounted>, next: Value, hint: Option<nat>, fuel: nat)
      returns (r: Res<Option<Mounted>>)
    requires env.doc.Valid() && OInDoc(prev, env.doc.nodes.Keys)
    requires parent.Some? ==> parent.value in env.doc.nodes
    requires CaseOf(prev, next) == Patch
    modifies env.doc, env.trace, env.heap, env.refs, env.cells, env.hooks, env.queue, OUps(prev)
    ensures env.doc.Valid() && Keeps(old(SnapOf(env.doc)), SnapOf(env.doc))
    ensures old(env.trace.events) <= env.trace.events
    ensures r.Ok? ==> (r.value.Some? <==> Truthy(next))
    ensures r.Ok? && r.value.Some? ==> r.value.value.vdom == next && InDoc(r.value.value, env.doc.nodes.Keys)
    ensures Diffed(old(SnapOf(env.doc)), SnapOf(env.doc), old(env.trace.events), env.trace.events,
                   parent, prev, next, hint, r)
    decreases OSize(prev), 4
  {
    ghost var a, e0 := SnapOf(env.doc), env.trace.events;
    var m := UpdateElement(env, prev.value, next, fuel);
    r := if m.Ok? then Ok(Some(m.value)) else Fail(m);
    DiffedPatch(a, SnapOf(env.doc), e0, env.trace.events, parent, prev, next, hint, r);
  }

  /**
   * updateElement(oldVdom, newVdom) for two values of one type, by the old
   * value's type: text, memo, provider, consumer, host, class and function
   * components. A value with no recorded fields (a string or number) has an
   * undefined type, which no branch matches, so nothing happens; neither
   * does anything for a forwardRef element.
   */
  method UpdateElement(env: Env, m: Mounted, next: Value, fuel: nat) returns (r: Res<Mounted>)
    requires env.doc.Valid() && InDoc(m, env.doc.nodes.Keys)
    modifies env.doc, env.trace, env.heap, env.refs, env.cells, env.hooks, env.queue, Ups(m)
    ensures env.doc.Valid() && Keeps(old(SnapOf(env.doc)), SnapOf(env.doc))
    ensures old(env.trace.events) <= env.trace.events
    ensures r.Ok? ==> r.value.vdom == next && InDoc(r.value, env.doc.nodes.Keys)
    ensures m.MBare? ==> r == Ok(MBare(next)) && SnapOf(env.doc) == old(SnapOf(env.doc)) && env.trace.events == old(env.trace.events)
    ensures m.vdom.El? && (m.vdom.elem.kind.ProviderType? || m.vdom.elem.kind.ConsumerType?) && !m.MBare? ==> r.Threw?
    decreases Size(m), 3
  {
    if m.MBare? {
      return Ok(MBare(next));
    }
    if !m.vdom.El? {
      return Unmodelled;
    }
    match m.vdom.elem.kind {
      case TextKind =>
        if m.MText? && next.El? && next.elem.kind.TextKind? && m.dom in env.doc.nodes {
          r := UpdateText(env, m, next);
        } else {
          r := Unmodelled;
        }
      case MemoType(_, _, _) =>
        if m.MWrap? && next.El? && next.elem.kind.MemoType? {
          ghost var diff;
          r, diff := UpdateMemo(env, m, next, fuel);
        } else {
          r := Unmodelled;
        }
      case ProviderType(_) =>
        r := Threw;
      case ConsumerType(_) =>
        r := Threw;
      case Tag(_) =>
        if m.MHost? && next.El? {
          ghost var mid, snaps, logs, all;
          r, mid, snaps, logs, all := UpdateHost(env, m, next, fuel);
        } else {
          r := Unmodelled;
        }
      case ClassType(_) =>
        if m.MClass? && next.El? {
          r := UpdateClass(env, m, next);
        } else {
          r := Unmodelled;
        }
      case FunctionType(_) =>
        if m.MFunc? && next.El? && next.elem.kind.FunctionType? {
          ghost var diff;
          r, diff := UpdateFunction(env, m, next, fuel);
        } else {
          r := Unmodelled;
        }
      case ForwardRefType(_, _) =>
        r := Ok(MBare(next));
    }
  }

  /**
   * A host element patched in place: the old node is reused, updateProps
   * writes the new props onto it (the ghost `mid` is the document then),
   * then updateChildren diffs the old children against the new. Nullish old
   * or new props throw when their children are read.
   */
  method UpdateHost(env: Env, m: Mounted, next: Value, fuel: nat)
      returns (r: Res<Mounted>, ghost mid: Snap, ghost snaps: seq<Snap>, ghost logs: seq<seq<Event>>, ghost all: seq<Option<Mounted>>)
    requires env.doc.Valid() && m.MHost? && m.vdom.El? && next.El? && InDoc(m, env.doc.nodes.Keys)
    modifies env.doc, env.trace, env.heap, env.refs, env.cells, env.hooks, env.queue, Ups(m)
    ensures env.doc.Valid() && Keeps(old(SnapOf(env.doc)), SnapOf(env.doc))
    ensures old(env.trace.events) <= env.trace.events
    ensures mid == Snap(old(env.doc.nodes)[m.dom := HostProps.NodeAfter(old(env.doc.nodes)[m.dom], Spread(next.elem.props))],
                        old(env.doc.parent), old(env.doc.children), old(env.doc.next))
    ensures Nullish(m.vdom.elem.props) || Nullish(next.elem.props) ==>
              r.Threw? && SnapOf(env.doc) == mid && env.trace.events == old(env.trace.events)
    ensures r.Ok? ==> r.value.MHost? && r.value.vdom == next && r.value.dom == m.dom
                      && Paired(r.value.kids, ChildrenOf(next.elem.props), env.doc.nodes.Keys)
                      && InDoc(r.value, env.doc.nodes.Keys)
    ensures r.Ok? ==> var news := ChildList(Get(next.elem.props, "children"));
                      && Chained(snaps, logs, all, m.dom, m.kids, news)
                      && |all| == Longer(|m.kids|, |news|) && r.value.kids == all[..|news|]
                      && snaps[0] == mid && snaps[|all|] == SnapOf(env.doc)
                      && logs[0] == old(env.trace.events) && logs[|all|] == env.trace.events
    decreases Size(m), 2
  {
    assert m.dom in Doms(m);
    HostProps.UpdateProps(env.doc, m.dom, m.vdom.elem.props, next.elem.props);
    mid := SnapOf(env.doc);
    if Nullish(m.vdom.elem.props) || Nullish(next.elem.props) {
      return Threw, mid, [mid], [env.trace.events], [];
    }
    ChildrenOfGet(next.elem.props);
    var kids;
    kids, snaps, logs, all := UpdateChildren(env, m.dom, m, ChildList(Get(next.elem.props, "children")), fuel);
    if !kids.Ok? {
      return Fail(kids), mid, snaps, logs, all;
    }
    r := Ok(MHost(next, m.dom, kids.value));
    KidsInDoc(r.value, 0, env.doc.nodes.Keys);
  }

  /**
   * updateChildren(parentNode, oldVChildren, newVChildren): position by
   * position up to the longer list, each old child is compared with the new
   * child at its position, with the node of the first present old child
   * after it as the insertion hint. The records past the new list's end are
   * all absent, so the new record holds one entry per new child. The ghost
   * results give the document and the log after each position and the
   * record each position produced.
   */
  method UpdateChildren(env: Env, d: nat, h: Mounted, news: seq<Value>, fuel: nat)
      returns (r: Res<seq<Option<Mounted>>>, ghost snaps: seq<Snap>, ghost logs: seq<seq<Event>>, ghost all: seq<Option<Mounted>>)
    requires env.doc.Valid() && h.MHost? && d in env.doc.nodes && InDoc(h, env.doc.nodes.Keys)
    modifies env.doc, env.trace, env.heap, env.refs, env.cells, env.hooks, env.queue, Ups(h)
    ensures env.doc.Valid() && Keeps(old(SnapOf(env.doc)), SnapOf(env.doc))
    ensures old(env.trace.events) <= env.trace.events
    ensures r.Ok? ==> Paired(r.value, news, env.doc.nodes.Keys)
    ensures r.Ok? ==> && Chained(snaps, logs, all, d, h.kids, news)
                      && |all| == Longer(|h.kids|, |news|) && r.value == all[..|news|]
                      && snaps[0] == old(SnapOf(env.doc)) && snaps[|all|] == SnapOf(env.doc)
                      && logs[0] == old(env.trace.events) && logs[|all|] == env.trace.events
    decreases Size(h), 1
  {
    var n := Longer(|h.kids|, |news|);
    var outs: seq<Option<Mounted>> := [];
    snaps, logs := [SnapOf(env.doc)], [env.trace.events];
    var i := 0;
    while i < n
      invariant 0 <= i <= n && |outs| == i
      invariant env.doc.Valid() && d in env.doc.nodes
      invariant Keeps(old(SnapOf(env.doc)), SnapOf(env.doc)) && InDoc(h, env.doc.nodes.Keys)
      invariant old(env.trace.events) <= env.trace.events
      invariant Matched(outs, news, env.doc.nodes.Keys)
      invariant Chained(snaps, logs, outs, d, h.kids, news)
      invariant snaps[0] == old(SnapOf(env.doc)) && snaps[i] == SnapOf(env.doc)
      invariant logs[0] == old(env.trace.events) && logs[i] == env.trace.events
    {
      ghost var s := SnapOf(env.doc);
      ghost var e := env.trace.events;
      var k := UpdateChild(env, d, h, news, i, fuel);
      if !k.Ok? {
        return Fail(k), snaps, logs, outs;
      }
      KeepsTrans(old(SnapOf(env.doc)), s, SnapOf(env.doc));
      MatchedStep(outs, news, k.value, s.nodes.Keys, env.doc.nodes.Keys);
      ChainedStep(snaps, logs, outs, d, h.kids, news, SnapOf(env.doc), env.trace.events, k.value);
      outs := outs + [k.value];
      snaps, logs := snaps + [SnapOf(env.doc)], logs + [env.trace.events];
      i := i + 1;
    }
    MatchedPaired(outs, news, env.doc.nodes.Keys);
    r, all := Ok(outs[..|news|]), outs;
  }

  function Longer(m: nat, n: nat): (l: nat)
    ensures l == m || l == n
    ensures m <= l && n <= l
  {
    if m < n then n else m
  }

  /**
   * A children diff position by position: position `j` took the document
   * from `snaps[j]` to `snaps[j + 1]` and the log from `logs[j]` to
   * `logs[j + 1]`, as compareTwoVdmo does under `d` with the old child
   * at `j`, the new child at `j` and the hint of the later old children
   * (ChainedAt gives any one position).
   */
  ghost predicate Chained(snaps: seq<Snap>, logs: seq<seq<Event>>, outs: seq<Option<Mounted>>, d: nat,
                          kids: seq<Option<Mounted>>, news: seq<Value>)
    decreases |outs|
  {
    && |snaps| == |outs| + 1 && |logs| == |outs| + 1
    && (|outs| > 0 ==>
          var j := |outs| - 1;
          && Chained(snaps[..j + 1], logs[..j + 1], outs[..j], d, kids, news)
          && NextHint(kids, j).Done?
          && Diffed(snaps[j], snaps[j + 1], logs[j], logs[j + 1], Some(d), ChildAt(kids, j), ValueAt(news, j),
                    NextHint(kids, j).value, Ok(outs[j])))
  }

  lemma ChainedStep(snaps: seq<Snap>, logs: seq<seq<Event>>, outs: seq<Option<Mounted>>, d: nat,
                    kids: seq<Option<Mounted>>, news: seq<Value>, b: Snap, e: seq<Event>, k: Option<Mounted>)
    requires Chained(snaps, logs, outs, d, kids, news)
    requires NextHint(kids, |outs|).Done?
    requires Diffed(snaps[|outs|], b, logs[|outs|], e, Some(d), ChildAt(kids, |outs|), ValueAt(news, |outs|),
                    NextHint(kids, |outs|).value, Ok(k))
    ensures Chained(snaps + [b], logs + [e], outs + [k], d, kids, news)
  {
    var snaps', logs', outs' := snaps + [b], logs + [e], outs + [k];
    var j := |outs|;
    assert snaps'[..j + 1] == snaps && logs'[..j + 1] == logs && outs'[..j] == outs;
    DiffedSame(snaps[j], b, logs[j], e, snaps'[j], snaps'[j + 1], logs'[j], logs'[j + 1],
               Some(d), ChildAt(kids, j), ValueAt(news, j), NextHint(kids, j).value, Ok(k), Ok(outs'[j]));
  }

  /** Position `j` of a chained children diff. */
  lemma {:induction false} ChainedAt(snaps: seq<Snap>, logs: seq<seq<Event>>, outs: seq<Option<Mounted>>, d: nat,
                                     kids: seq<Option<Mounted>>, news: seq<Value>, j: nat)
    requires Chained(snaps, logs, outs, d, kids, news) && j < |outs|
    ensures NextHint(kids, j).Done?
    ensures Diffed(snaps[j], snaps[j + 1], logs[j], logs[j + 1], Some(d), ChildAt(kids, j), ValueAt(news, j),
                   NextHint(kids, j).value, Ok(outs[j]))
    decreases |outs|
  {
    var n := |outs| - 1;
    if j < n {
      var snaps', logs', outs' := snaps[..n + 1], logs[..n + 1], outs[..n];
      ChainedAt(snaps', logs', outs', d, kids, news, j);
      DiffedSame(snaps'[j], snaps'[j + 1], logs'[j], logs'[j + 1], snaps[j], snaps[j + 1], logs[j], logs[j + 1],
                 Some(d), ChildAt(kids, j), ValueAt(news, j), NextHint(kids, j).value, Ok(outs'[j]), Ok(outs[j]));
    }
  }

  lemma DiffedSame(a: Snap, b: Snap, e0: seq<Event>, e1: seq<Event>, a': Snap, b': Snap, e0': seq<Event>, e1': seq<Event>,
                   parent: Option<nat>, prev: Option<Mounted>, next: Value, hint: Option<nat>,
                   r: Res<Option<Mounted>>, r': Res<Option<Mounted>>)
    requires Diffed(a, b, e0, e1, parent, prev, next, hint, r)
    requires a' == a && b' == b && e0' == e0 && e1' == e1 && r' == r
    ensures Diffed(a', b', e0', e1', parent, prev, next, hint, r')
  {
  }

  /** The records of the first positions of a children diff: one per slot, present exactly for a truthy new child. */
  ghost predicate Matched(outs: seq<Option<Mounted>>, news: seq<Value>, keys: set<nat>)
  {
    forall j :: 0 <= j < |outs| ==> (outs[j].Some? <==> Truthy(ValueAt(news, j)))
                                    && (outs[j].Some? ==> outs[j].value.vdom == ValueAt(news, j) && InDoc(outs[j].value, keys))
  }

  lemma MatchedStep(outs: seq<Option<Mounted>>, news: seq<Value>, k: Option<Mounted>, keys: set<nat>, more: set<nat>)
    requires Matched(outs, news, keys) && keys <= more
    requires (k.Some? <==> Truthy(ValueAt(news, |outs|))) && (k.Some? ==> k.value.vdom == ValueAt(news, |outs|) && InDoc(k.value, more))
    ensures Matched(outs + [k], news, more)
  {
  }

  /** Past the end of the new list every slot is absent, so the first `|news|` records pair with the new children. */
  lemma MatchedPaired(outs: seq<Option<Mounted>>, news: seq<Value>, keys: set<nat>)
    requires Matched(outs, news, keys) && |news| <= |outs|
    ensures Paired(outs[..|news|], news, keys)
  {
  }

  /** One step of updateChildren's loop. */
  method UpdateChild(env: Env, d: nat, h: Mounted, news: seq<Value>, i: nat, fuel: nat) returns (r: Res<Option<Mounted>>)
    requires env.doc.Valid() && h.MHost? && d in env.doc.nodes && InDoc(h, env.doc.nodes.Keys)
    modifies env.doc, env.trace, env.heap, env.refs, env.cells, env.hooks, env.queue, Ups(h)
    ensures env.doc.Valid() && Keeps(old(SnapOf(env.doc)), SnapOf(env.doc))
    ensures old(env.trace.events) <= env.trace.events
    ensures NextHint(h.kids, i).Thrown? ==> r.Threw?
    ensures r.Ok? ==> (r.value.Some? <==> Truthy(ValueAt(news, i)))
    ensures r.Ok? && r.value.Some? ==> r.value.value.vdom == ValueAt(news, i) && InDoc(r.value.value, env.doc.nodes.Keys)
    ensures NextHint(h.kids, i).Done? ==>
              Diffed(old(SnapOf(env.doc)), SnapOf(env.doc), old(env.trace.events), env.trace.events,
                     Some(d), ChildAt(h.kids, i), ValueAt(news, i), NextHint(h.kids, i).value, r)
    decreases Size(h), 0
  {
    var hint := NextHint(h.kids, i);
    if hint.Thrown? {
      return Threw;
    }
    var prev := ChildAt(h.kids, i);
    if prev.Some? {
      KidSmaller(h, i, 0);
      KidUps(h, i, 0);
      KidInDoc(h, i, env.doc.nodes.Keys);
    }
    r := CompareTwoVdom(env, Some(d), prev, ValueAt(news, i), hint.value, fuel);
  }

  /**
   * updateFunctionComponent: the component is called with the new props and
   * what it returns is compared with what it rendered last, under the parent
   * of the old node (a detached old node gives no parent). The old node being
   * found first, a component whose last render was null throws.
   */
  method UpdateFunction(env: Env, m: Mounted, next: Value, fuel: nat) returns (r: Res<Mounted>, ghost diff: Res<Option<Mounted>>)
    requires env.doc.Valid() && m.MFunc? && next.El? && next.elem.kind.FunctionType? && InDoc(m, env.doc.nodes.Keys)
    modifies env.doc, env.trace, env.heap, env.refs, env.cells, env.hooks, env.queue, Ups(m)
    ensures env.doc.Valid() && Keeps(old(SnapOf(env.doc)), SnapOf(env.doc))
    ensures old(env.trace.events) <= env.trace.events
    ensures FindDOM(m).Thrown? ==> r.Threw? && SnapOf(env.doc) == old(SnapOf(env.doc)) && env.trace.events == old(env.trace.events)
    ensures r.Ok? ==> var rendered := env.call(next.elem.kind.fn, [next.elem.props]);
                      && r.value.MFunc? && r.value.vdom == next && InDoc(r.value, env.doc.nodes.Keys)
                      && (r.value.last.Some? <==> Truthy(rendered))
                      && (r.value.last.Some? ==> r.value.last.value.vdom == rendered)
    ensures FindDOM(m).Done? && !SameObject(m.vdom, next) ==>
              && Diffed(old(SnapOf(env.doc)), SnapOf(env.doc), old(env.trace.events), env.trace.events,
                        ParentIn(old(SnapOf(env.doc)), FindDOM(m).value), m.last,
                        env.call(next.elem.kind.fn, [next.elem.props]), None, diff)
              && (r.Ok? <==> diff.Ok?) && (r.Threw? <==> diff.Threw?)
    ensures r.Ok? ==> diff == Ok(r.value.last)
    decreases Size(m), 2
  {
    var found := FindDOM(m);
    if found.Thrown? {
      return Threw, Threw;
    }
    if SameObject(m.vdom, next) {
      return Unmodelled, Unmodelled;
    }
    var parent := ParentIn(SnapOf(env.doc), found.value);
    var rendered := env.call(next.elem.kind.fn, [next.elem.props]);
    var res := CompareTwoVdom(env, parent, m.last, rendered, None, fuel);
    diff := res;
    if !res.Ok? {
      return Fail(res), diff;
    }
    r := Ok(MFunc(next, res.value));
  }

  /**
   * updateMemoComponent: when the old memo's compare says the props it last
   * rendered with equal the new props, nothing is rendered and the old
   * render carries over. Otherwise the component is called with the new
   * props and its result compared with the old render under an undefined
   * parent: the source reads `parentNod`, which no node has.
   */
  method UpdateMemo(env: Env, m: Mounted, next: Value, fuel: nat) returns (r: Res<Mounted>, ghost diff: Res<Option<Mounted>>)
    requires env.doc.Valid() && m.MWrap? && m.vdom.El? && m.vdom.elem.kind.MemoType?
    requires next.El? && next.elem.kind.MemoType? && InDoc(m, env.doc.nodes.Keys)
    modifies env.doc, env.trace, env.heap, env.refs, env.cells, env.hooks, env.queue, Ups(m)
    ensures env.doc.Valid() && Keeps(old(SnapOf(env.doc)), SnapOf(env.doc))
    ensures old(env.trace.events) <= env.trace.events
    ensures Compared(env.call, m.vdom.elem.kind.compare, m.prevProps, next.elem.props) ==>
              r == Ok(MWrap(next, m.rendered, m.vdom.elem.props))
              && SnapOf(env.doc) == old(SnapOf(env.doc)) && env.trace.events == old(env.trace.events)
    ensures r.Ok? ==> r.value.MWrap? && r.value.vdom == next && InDoc(r.value, env.doc.nodes.Keys)
    ensures r.Ok? && !Compared(env.call, m.vdom.elem.kind.compare, m.prevProps, next.elem.props) ==>
              r.value.prevProps == next.elem.props && r.value.rendered.vdom == env.call(next.elem.kind.fn, [next.elem.props])
    ensures !Compared(env.call, m.vdom.elem.kind.compare, m.prevProps, next.elem.props) && FindDOM(m).Done? && !SameObject(m.vdom, next) ==>
              && Diffed(old(SnapOf(env.doc)), SnapOf(env.doc), old(env.trace.events), env.trace.events,
                        None, OldChild(m.rendered), env.call(next.elem.kind.fn, [next.elem.props]), None, diff)
              && (r.Ok? <==> diff.Ok?) && (r.Threw? <==> diff.Threw?)
    decreases Size(m), 2
  {
    if Compared(env.call, m.vdom.elem.kind.compare, m.prevProps, next.elem.props) {
      return Ok(MWrap(next, m.rendered, m.vdom.elem.props)), Ok(Some(m.rendered));
    }
    var found := FindDOM(m);
    if found.Thrown? {
      return Threw, Threw;
    }
    if SameObject(m.vdom, next) {
      return Unmodelled, Unmodelled;
    }
    var rendered := env.call(next.elem.kind.fn, [next.elem.props]);
    var res := CompareTwoVdom(env, None, OldChild(m.rendered), rendered, None, fuel);
    diff := res;
    if !res.Ok? {
      return Fail(res), diff;
    }
    r := Ok(MWrap(next, Relabel(res.value, rendered), next.elem.props));
  }

  /** The context an instance renders with: its contextType's current value, or the context it had. */
  function ContextFor(hooks: Lifecycle, current: map<nat, Value>, context: Value): Value
  {
    if hooks.contextType.None? then context
    else if hooks.contextType.value in current then current[hooks.contextType.value]
    else Undefined
  }

  /** The `getSnapshotBeforeUpdate` call of forceUpdate. */
  function SnapshotEvents(inst: Instance): (es: seq<Event>)
    ensures es != [] <==> inst.hooks.snapshot
    ensures es != [] ==> es == [Snapshot(inst.id)]
  {
    if inst.hooks.snapshot then [Snapshot(inst.id)] else []
  }

  /** The `componentDidUpdate` call that ends forceUpdate. */
  function DidUpdateEvents(inst: Instance): (es: seq<Event>)
    ensures es != [] <==> inst.hooks.didUpdate
    ensures es != [] ==> es == [DidUpdate(inst.id)]
  {
    if inst.hooks.didUpdate then [DidUpdate(inst.id)] else []
  }

  method LogSnapshot(trace: Trace, inst: Instance)
    modifies trace
    ensures trace.events == old(trace.events) + SnapshotEvents(inst)
  {
    if inst.hooks.snapshot {
      trace.Record(Snapshot(inst.id));
    }
  }

  method LogDidUpdate(trace: Trace, inst: Instance)
    modifies trace
    ensures trace.events == old(trace.events) + DidUpdateEvents(inst)
  {
    if inst.hooks.didUpdate {
      trace.Record(DidUpdate(inst.id));
    }
  }

  /**
   * The start of forceUpdate once the old node is found: the context
   * refreshed from a contextType, render called, then getSnapshotBeforeUpdate.
   */
  method RenderAgain(env: Env, inst: Instance) returns (rendered: Value)
    modifies env.trace, inst
    ensures rendered == env.call(inst.hooks.render, [old(inst.props), old(inst.state),
                                                     ContextFor(inst.hooks, env.cells.current, old(inst.context))])
    ensures env.trace.events == old(env.trace.events) + SnapshotEvents(inst)
  {
    if inst.hooks.contextType.Some? {
      inst.context := env.cells.CurrentValue(inst.hooks.contextType.value);
    }
    rendered := env.call(inst.hooks.render, [inst.props, inst.state, inst.context]);
    LogSnapshot(env.trace, inst);
  }

  /** `compareTwoVdmo(oldDOM.parentNode, oldRenderElement, newRenderElement)`: a detached old node gives no parent. */
  method DiffUnder(env: Env, d: nat, prior: Mounted, rendered: Value, fuel: nat) returns (r: Res<Option<Mounted>>)
    requires env.doc.Valid() && InDoc(prior, env.doc.nodes.Keys)
    modifies env.doc, env.trace, env.heap, env.refs, env.cells, env.hooks, env.queue, Ups(prior)
    ensures env.doc.Valid() && Keeps(old(SnapOf(env.doc)), SnapOf(env.doc))
    ensures old(env.trace.events) <= env.trace.events
    ensures r.Ok? ==> (r.value.Some? <==> Truthy(rendered))
    ensures r.Ok? && r.value.Some? ==> r.value.value.vdom == rendered && InDoc(r.value.value, env.doc.nodes.Keys)
    ensures Diffed(old(SnapOf(env.doc)), SnapOf(env.doc), old(env.trace.events), env.trace.events,
                   ParentIn(old(SnapOf(env.doc)), d), Some(prior), rendered, None, r)
  {
    var parent := ParentIn(SnapOf(env.doc), d);
    r := CompareTwoVdom(env, parent, Some(prior), rendered, None, fuel);
  }

  /**
   * The end of forceUpdate once compareTwoVdmo returned `diff` with the log
   * at `e`: on success the record of the new render and componentDidUpdate's
   * `tail` logged, on a throw the same throw and nothing logged.
   */
  ghost predicate Settled(r: Res<Mounted>, diff: Res<Option<Mounted>>, rendered: Value, e: seq<Event>, after: seq<Event>, tail: seq<Event>)
  {
    && (diff.Ok? ==> && (diff.value.Some? ==> diff.value.value.vdom == rendered)
                     && r == Ok(Relabel(diff.value, rendered)) && after == e + tail)
    && (!diff.Ok? ==> !r.Ok? && (r.Threw? <==> diff.Threw?) && after == e)
  }

  /** The end of forceUpdate: the new render compared with the old under the old node's parent, then componentDidUpdate. */
  method Rediff(env: Env, inst: Instance, prior: Mounted, d: nat, rendered: Value, fuel: nat)
      returns (r: Res<Mounted>, ghost diff: Res<Option<Mounted>>, ghost b: Snap, ghost e: seq<Event>)
    requires env.doc.Valid() && InDoc(prior, env.doc.nodes.Keys)
    modifies env.doc, env.trace, env.heap, env.refs, env.cells, env.hooks, env.queue, Ups(prior)
    ensures env.doc.Valid() && Keeps(old(SnapOf(env.doc)), SnapOf(env.doc))
    ensures old(env.trace.events) <= env.trace.events
    ensures r.Ok? ==> r.value.vdom == rendered && InDoc(r.value, env.doc.nodes.Keys)
                      && Logged(old(env.trace.events), env.trace.events, DidUpdateEvents(inst))
    ensures Diffed(old(SnapOf(env.doc)), b, old(env.trace.events), e, ParentIn(old(SnapOf(env.doc)), d), Some(prior), rendered, None, diff)
    ensures SnapOf(env.doc) == b && Settled(r, diff, rendered, e, env.trace.events, DidUpdateEvents(inst))
  {
    var res := DiffUnder(env, d, prior, rendered, fuel);
    diff, b, e := res, SnapOf(env.doc), env.trace.events;
    r := Settle(env.trace, inst, res, rendered);
    if r.Ok? {
      InDocRelabel(res.value, rendered, env.doc.nodes.Keys);
    }
  }

  /** After compareTwoVdmo: a throw passes through, otherwise componentDidUpdate is logged. */
  method Settle(trace: Trace, inst: Instance, diff: Res<Option<Mounted>>, rendered: Value) returns (r: Res<Mounted>)
    requires diff.Ok? && diff.value.Some? ==> diff.value.value.vdom == rendered
    modifies trace
    ensures Settled(r, diff, rendered, old(trace.events), trace.events, DidUpdateEvents(inst))
  {
    if !diff.Ok? {
      return Fail(diff);
    }
    LogDidUpdate(trace, inst);
    r := Ok(Relabel(diff.value, rendered));
  }

  lemma InDocRelabel(o: Option<Mounted>, v: Value, keys: set<nat>)
    requires o.Some? ==> o.value.vdom == v && InDoc(o.value, keys)
    ensures InDoc(Relabel(o, v), keys)
  {
  }

  /**
   * forceUpdate() of a class instance whose last render is recorded in
   * `prior` (the instance's oldRenderElement); the record of the new render
   * is the result, to become its oldRenderElement. The old node is found
   * first (a throw leaves everything as it was); with a contextType the
   * context is refreshed; render is called, then getSnapshotBeforeUpdate;
   * the new render is compared with the old under the old node's parent,
   * and componentDidUpdate comes last.
   */
  method ForceUpdate(env: Env, inst: Instance, prior: Mounted, fuel: nat)
      returns (r: Res<Mounted>, ghost diff: Res<Option<Mounted>>, ghost b: Snap, ghost e: seq<Event>)
    requires env.doc.Valid() && InDoc(prior, env.doc.nodes.Keys)
    modifies env.doc, env.trace, env.heap, env.refs, env.cells, env.hooks, env.queue, Ups(prior), inst
    ensures env.doc.Valid() && Keeps(old(SnapOf(env.doc)), SnapOf(env.doc))
    ensures old(env.trace.events) <= env.trace.events
    ensures FindDOM(prior).Thrown? ==>
              r.Threw? && SnapOf(env.doc) == old(SnapOf(env.doc)) && env.trace.events == old(env.trace.events)
    ensures r.Ok? ==> var rendered := env.call(inst.hooks.render, [old(inst.props), old(inst.state),
                                                                  ContextFor(inst.hooks, old(env.cells.current), old(inst.context))]);
                      r.value.vdom == rendered && InDoc(r.value, env.doc.nodes.Keys)
    ensures r.Ok? ==> old(env.trace.events) + SnapshotEvents(inst) <= env.trace.events
                      && Logged(old(env.trace.events), env.trace.events, DidUpdateEvents(inst))
    ensures FindDOM(prior).Done? ==>
              var rendered := env.call(inst.hooks.render, [old(inst.props), old(inst.state),
                                                           ContextFor(inst.hooks, old(env.cells.current), old(inst.context))]);
              && Diffed(old(SnapOf(env.doc)), b, old(env.trace.events) + SnapshotEvents(inst), e,
                        ParentIn(old(SnapOf(env.doc)), FindDOM(prior).value), Some(prior), rendered, None, diff)
              && SnapOf(env.doc) == b && Settled(r, diff, rendered, e, env.trace.events, DidUpdateEvents(inst))
  {
    var found := FindDOM(prior);
    if found.Thrown? {
      return Threw, Threw, SnapOf(env.doc), env.trace.events;
    }
    var rendered := RenderAgain(env, inst);
    r, diff, b, e := Rediff(env, inst, prior, found.value, rendered, fuel);
  }
}
