/**
 * Mounting (src/react-dom.js): `createDOM`'s dispatch over the kinds of
 * element, the text and host nodes with their props and children, function
 * and class components, the memo, provider and consumer wrappers, refs, and
 * `render(vdom, container)`.
 */
module Mount {
  import opened JsValues
  import opened Utils
  import opened Dom
  import opened Component
  import opened React
  import Hooks
  import opened HostProps
  import opened Vdom

  /** What `ref.current` holds: a DOM node (host and text elements) or a class instance. */
  datatype Target = NodeTarget(node: nat) | InstanceTarget(inst: Instance)

  /** The identity of an object, array, function or element; primitives have none. */
  function RefId(v: Value): Option<nat>
  {
    match v
    case Obj(r, _) => Some(r)
    case Arr(r, _) => Some(r)
    case Func(r) => Some(r)
    case El(r, _) => Some(r)
    case _ => None
  }

  /** The `current` fields of the ref objects, by the objects' identities. */
  class Refs {
    var current: map<nat, Target>

    constructor ()
      ensures current == map[]
    {
      current := map[];
    }

    /**
     * `if (ref) ref.current = target`: a falsy ref is skipped; writing a field
     * of a truthy primitive throws a TypeError (the modules run in strict mode).
     */
    method Attach(ref: Value, target: Target) returns (r: Res<()>)
      modifies this
      ensures !Truthy(ref) ==> r == Ok(()) && current == old(current)
      ensures Truthy(ref) && RefId(ref).Some? ==> r == Ok(()) && current == old(current)[RefId(ref).value := target]
      ensures Truthy(ref) && (ref.Bool? || ref.Num? || ref.Str?) ==> r == Threw && current == old(current)
      ensures Truthy(ref) && ref.TypeRef? ==> r == Unmodelled && current == old(current)
    {
      if !Truthy(ref) {
        return Ok(());
      }
      if ref.TypeRef? {
        return Unmodelled;
      }
      if RefId(ref).Some? {
        current := current[RefId(ref).value := target];
        return Ok(());
      }
      r := Threw;
    }
  }

  /**
   * The runtime state a render touches: the document arena, the log of user
   * calls, the identity allocator, the ref cells, the context cells, the hook
   * store, the update queue, the oracle for user functions and the table of
   * component classes.
   */
  datatype Env = Env(doc: Document, trace: Trace, heap: Heap, refs: Refs, cells: ContextCells,
                     hooks: Hooks.HookStore, queue: UpdateQueue, call: Call, classes: nat -> Lifecycle)

  /** The arena's fields at one moment. */
  datatype Snap = Snap(nodes: map<nat, Node>, parent: map<nat, nat>, children: map<nat, seq<nat>>, next: nat)

  function SnapOf(doc: Document): Snap
    reads doc
  {
    Snap(doc.nodes, doc.parent, doc.children, doc.next)
  }

  /** The parent links of the nodes older than `a.next` are as in `a`. */
  ghost predicate SameOldParents(a: Snap, b: Snap)
  {
    && (forall c :: c in a.parent ==> c in b.parent && b.parent[c] == a.parent[c])
    && (forall c :: c in b.parent && c < a.next ==> c in a.parent)
  }

  /**
   * `b` only adds to `a`: new nodes, linked among themselves; the old nodes,
   * their children and their parents as they were, and the first new node
   * (the root createDOM returns) detached.
   */
  ghost predicate Grows(a: Snap, b: Snap)
  {
    && a.next <= b.next
    && (forall n :: n in a.nodes ==> n in b.nodes && b.nodes[n] == a.nodes[n])
    && (forall n :: n in a.children ==> n in b.children && b.children[n] == a.children[n])
    && SameOldParents(a, b)
    && a.next !in b.parent
  }

  /** `b` only adds nodes to `a` and appends new ones to `container`'s children. */
  ghost predicate Appended(a: Snap, b: Snap, container: nat)
  {
    && a.next <= b.next
    && (forall n :: n in a.nodes ==> n in b.nodes && b.nodes[n] == a.nodes[n])
    && (forall n :: n in a.children && n != container ==> n in b.children && b.children[n] == a.children[n])
    && container in a.children && container in b.children
    && a.children[container] <= b.children[container]
    && SameOldParents(a, b)
  }

  /** What `render(vdom, container)` does to the arena: it appends the new root to `container` when it succeeds. */
  ghost predicate Into(a: Snap, b: Snap, container: nat, ok: bool)
  {
    && a.next <= b.next
    && (forall n :: n in a.nodes ==> n in b.nodes && b.nodes[n] == a.nodes[n])
    && (forall n :: n in a.children && n != container ==> n in b.children && b.children[n] == a.children[n])
    && container in a.children && container in b.children
    && b.children[container] == a.children[container] + (if ok then [a.next] else [])
    && SameOldParents(a, b)
    && (ok <==> a.next in b.parent)
    && (ok ==> b.parent[a.next] == container)
  }

  lemma GrowsRefl(a: Snap)
    ensures Grows(a, a) <==> a.next !in a.parent
  {
  }

  lemma GrowsTrans(a: Snap, b: Snap, c: Snap)
    requires Grows(a, b) && Grows(b, c)
    ensures Grows(a, c)
  {
    if a.next < b.next {
      assert a.next !in b.parent;
    }
  }

  /** A failed render leaves the container as it was. */
  lemma GrowsIntoFailed(a: Snap, b: Snap, container: nat)
    requires Grows(a, b) && container in a.children
    ensures Into(a, b, container, false)
  {
  }

  /** A created subtree appended to an older container. */
  lemma GrowsIntoAppended(a: Snap, b: Snap, container: nat)
    requires Grows(a, b) && container in a.children && container < a.next
    requires a.next in b.nodes
    ensures var c := Snap(b.nodes, b.parent[a.next := container],
                          b.children[container := b.children[container] + [a.next]], b.next);
            Into(a, c, container, true)
  {
  }

  /** One more render into the container keeps the appending. */
  lemma AppendedInto(a: Snap, b: Snap, c: Snap, container: nat, ok: bool)
    requires Appended(a, b, container) && Into(b, c, container, ok)
    ensures Appended(a, c, container)
    ensures |c.children[container]| == |b.children[container]| + (if ok then 1 else 0)
  {
  }

  /** Children mounted into a node created within the same growth keep the growth. */
  lemma GrowsAppended(a: Snap, b: Snap, c: Snap, container: nat)
    requires Grows(a, b) && Appended(b, c, container)
    requires container !in a.children && a.next < b.next
    ensures Grows(a, c)
  {
    assert a.next !in c.parent by {
      assert a.next < b.next;
    }
  }

  /** The arena of a well-formed snapshot. */
  ghost predicate SnapWf(s: Snap)
  {
    Wf(s.nodes, s.parent, s.children, s.next)
  }

  /** A new detached node: the arena grows. */
  lemma GrowsNew(a: Snap, b: Snap, node: Node)
    requires SnapWf(a) && b == Snap(a.nodes[a.next := node], a.parent, a.children[a.next := []], a.next + 1)
    ensures Grows(a, b)
  {
  }

  /** A new node, then children mounted into it: the arena grows. */
  lemma GrowsFresh(a: Snap, b: Snap, c: Snap, node: Node)
    requires SnapWf(a) && b == Snap(a.nodes[a.next := node], a.parent, a.children[a.next := []], a.next + 1)
    requires Appended(b, c, a.next)
    ensures Grows(a, c)
  {
    GrowsNew(a, b, node);
    GrowsAppended(a, b, c, a.next);
  }

  /** Nothing appended yet. */
  lemma AppendedRefl(a: Snap, container: nat)
    requires container in a.children
    ensures Appended(a, a, container)
  {
  }

  /** Changing a node created after `a` keeps the growth. */
  lemma GrowsNodeUpdate(a: Snap, b: Snap, n: nat, node: Node)
    requires Grows(a, b) && n !in a.nodes && n !in a.children
    ensures Grows(a, Snap(b.nodes[n := node], b.parent, b.children, b.next))
  {
  }

  /** A child of a record is in the arena when every present child is. */
  lemma {:induction false} KidsInDoc(h: Mounted, i: nat, keys: set<nat>)
    requires h.MHost? && i <= |h.kids|
    requires forall j :: 0 <= j < |h.kids| && h.kids[j].Some? ==> InDoc(h.kids[j].value, keys)
    ensures KidsDoms(h, i) <= keys
    decreases |h.kids| - i
  {
    if i < |h.kids| {
      KidsInDoc(h, i + 1, keys);
    }
  }

  /** Array elements are named by their indices, so an array has no `type` property. */
  lemma ArrayHasNoType(r: nat, es: seq<Value>)
    ensures TypeOf(Arr(r, es)) == Undefined
  {
    var ps := IndexedProps(es);
    forall i | 0 <= i < |ps|
      ensures ps[i].name != "type"
    {
      assert ps[i].name[0] != 't';
    }
    assert "type" !in Names(ps);
  }

  /**
   * The source mounts the children when they are an object with a truthy
   * `type`, or else when they are a truthy non-array: together, exactly the
   * truthy non-arrays.
   */
  lemma ChildrenRoute(c: Value)
    ensures ((IsObject(c) && Truthy(TypeOf(c))) || (!c.Arr? && Truthy(c))) <==> (!c.Arr? && Truthy(c))
  {
    if c.Arr? {
      ArrayHasNoType(c.ref, c.elems);
    }
  }

  /** A failure of one step, passed on unchanged. */
  function Fail<T, U>(r: Res<T>): (f: Res<U>)
    requires !r.Ok?
    ensures r.Threw? ==> f.Threw?
    ensures r.Unmodelled? ==> f.Unmodelled?
  {
    if r.Threw? then Threw else Unmodelled
  }

  /** The record a parent keeps for a value it rendered: none for a falsy value, which later counts as absent. */
  function KidRecord(v: Value, m: Mounted): (k: Option<Mounted>)
    ensures k.Some? <==> Truthy(v)
    ensures k.Some? ==> k.value == Label(v, m)
  {
    if Truthy(v) then Some(Label(v, m)) else None
  }

  /** The records of the mounted children `vs`: one per child, present exactly for a truthy child, each in the arena. */
  ghost predicate Paired(kids: seq<Option<Mounted>>, vs: seq<Value>, keys: set<nat>)
  {
    && |kids| == |vs|
    && forall i :: 0 <= i < |vs| ==> (kids[i].Some? <==> Truthy(vs[i]))
                                     && (kids[i].Some? ==> kids[i].value.vdom == vs[i] && InDoc(kids[i].value, keys))
  }

  lemma PairedSnoc(kids: seq<Option<Mounted>>, vs: seq<Value>, k: Option<Mounted>, v: Value, keys: set<nat>)
    requires Paired(kids, vs, keys)
    requires (k.Some? <==> Truthy(v)) && (k.Some? ==> k.value.vdom == v && InDoc(k.value, keys))
    ensures Paired(kids + [k], vs + [v], keys)
  {
  }

  /** One more child rendered, in an arena that has kept every earlier node. */
  lemma PairedStep(kids: seq<Option<Mounted>>, vs: seq<Value>, i: nat, k: Option<Mounted>, keys: set<nat>, more: set<nat>)
    requires i < |vs| && Paired(kids, vs[..i], keys) && keys <= more
    requires (k.Some? <==> Truthy(vs[i])) && (k.Some? ==> k.value.vdom == vs[i] && InDoc(k.value, more))
    ensures Paired(kids + [k], vs[..i + 1], more)
  {
    PairedMono(kids, vs[..i], keys, more);
    assert vs[..i + 1] == vs[..i] + [vs[i]];
    PairedSnoc(kids, vs[..i], k, vs[i], more);
  }

  /** Nodes are never deleted from the arena, so the records stay in it. */
  lemma PairedMono(kids: seq<Option<Mounted>>, vs: seq<Value>, keys: set<nat>, more: set<nat>)
    requires Paired(kids, vs, keys) && keys <= more
    ensures Paired(kids, vs, more)
  {
  }

  /** The children a text or host element mounts: none at all when its props are falsy. */
  function ChildrenOf(props: Value): seq<Value>
  {
    if Truthy(props) then ChildList(Get(props, "children")) else [Undefined]
  }

  /** `{...defaultProps, ...props}`, with `defaultProps || {}`: what a class component receives. */
  function ClassProps(defaultProps: Value, props: Value, id: nat): (p: Value)
    ensures p.Obj? && p.ref == id
  {
    var defaults := if Truthy(defaultProps) then defaultProps else EmptyObject();
    Obj(id, Assign(Spread(defaults), Spread(props)))
  }

  /** The props of a class component: a props key wins, and a default fills every key the props lack. */
  lemma ClassPropsLookup(defaultProps: Value, props: Value, id: nat, name: string)
    requires DistinctNames(Spread(props))
    ensures Get(ClassProps(defaultProps, props, id), name)
         == if name in Names(Spread(props)) then Lookup(Spread(props), name)
            else if Truthy(defaultProps) then Lookup(Spread(defaultProps), name) else Undefined
  {
    var defaults := if Truthy(defaultProps) then defaultProps else EmptyObject();
    LookupAssign(Spread(defaults), Spread(props), name);
  }

  /**
   * `createDOM(vdom)`: a string or number is wrapped first; then the `type`
   * decides, in the source's order: forward-ref, memo, provider, consumer,
   * text, class, function, host tag. The node it returns is the first one it
   * creates, and it is left detached; the arena only grows.
   */
  method CreateDOM(env: Env, v: Value, fuel: nat) returns (r: Res<Mounted>)
    requires env.doc.Valid()
    modifies env.doc, env.trace, env.heap, env.refs, env.cells, env.hooks
    ensures env.doc.Valid() && Grows(old(SnapOf(env.doc)), SnapOf(env.doc))
    ensures old(env.trace.events) <= env.trace.events
    ensures r.Ok? ==> old(env.doc.next) in env.doc.nodes && InDoc(r.value, env.doc.nodes.Keys)
    ensures r.Ok? ==> r.value.vdom == WrapToVdom(v, old(env.heap.next)) && KindMatches(r.value)
    ensures r.Ok? && FindDOM(r.value).Done? ==> FindDOM(r.value) == Done(old(env.doc.next))
    ensures r.Ok? && (r.value.MText? || r.value.MHost?) ==> r.value.dom == old(env.doc.next)
    ensures v.Undefined? || v.Null? || v.Bool? ==> r.Threw?
    ensures v.Obj? || v.Arr? || v.Func? || v.TypeRef? ==> r.Unmodelled?
    ensures v.El? && v.elem.kind.ForwardRefType? ==> r.Threw?
    decreases fuel, 6
  {
    var w := v;
    if IsReactText(v) {
      var alloc := env.heap.Reserve(2);
      w := WrapToVdom(v, alloc);
    }
    match w {
      case Undefined =>
        return Threw;
      case Null =>
        return Threw;
      case Bool(_) =>
        // `document.createElement(undefined)`, then `vdom.dom = dom` on a primitive throws
        var n := env.doc.CreateNode(ElementNode("undefined"));
        return Threw;
      case El(_, _) =>
        r := CreateElementDOM(env, w, fuel);
      case _ =>
        return Unmodelled;
    }
  }

  /** The kinds whose mounting reads a property of `props` without testing it first. */
  predicate ReadsProps(k: Kind)
  {
    k.TextKind? || k.ProviderType? || k.ConsumerType?
  }

  /** The element half of createDOM: the dispatch on `type`. */
  method CreateElementDOM(env: Env, v: Value, fuel: nat) returns (r: Res<Mounted>)
    requires env.doc.Valid() && v.El?
    modifies env.doc, env.trace, env.heap, env.refs, env.cells, env.hooks
    ensures env.doc.Valid() && Grows(old(SnapOf(env.doc)), SnapOf(env.doc))
    ensures old(env.trace.events) <= env.trace.events
    ensures r.Ok? ==> old(env.doc.next) in env.doc.nodes && InDoc(r.value, env.doc.nodes.Keys)
    ensures r.Ok? ==> r.value.vdom == v && KindMatches(r.value)
    ensures r.Ok? && FindDOM(r.value).Done? ==> FindDOM(r.value) == Done(old(env.doc.next))
    ensures r.Ok? && (r.value.MText? || r.value.MHost?) ==> r.value.dom == old(env.doc.next)
    ensures v.elem.kind.ForwardRefType? ==> r.Threw?
    ensures ReadsProps(v.elem.kind) && Nullish(v.elem.props) ==> r.Threw?
    decreases fuel, 5
  {
    var e := v.elem;
    if e.kind.ForwardRefType? {
      // createForwardComponent calls createDOM on the same vdom again: unbounded recursion
      return Threw;
    }
    if ReadsProps(e.kind) && Nullish(e.props) {
      // `props.content`, `props.value` or `props.children` of undefined or null
      return Threw;
    }
    if fuel == 0 {
      return Unmodelled;
    }
    match e.kind {
      case MemoType(_, fn, _) =>
        r := CreateWrapped(env, v, env.call(fn, [e.props]), e.props, fuel);
      case ProviderType(ctx) =>
        env.cells.Provide(ctx, Get(e.props, "value"));
        r := CreateWrapped(env, v, Get(e.props, "children"), Undefined, fuel);
      case ConsumerType(ctx) =>
        var children := Get(e.props, "children");
        // Only a function value is called: a component type given as the children (a TypeRef) throws here.
        if !children.Func? {
          return Threw;
        }
        r := CreateWrapped(env, v, env.call(children.ref, [env.cells.CurrentValue(ctx)]), Undefined, fuel);
      case TextKind =>
        r := CreateNodeElement(env, v, TextNode(Get(e.props, "content")), fuel);
      case ClassType(cls) =>
        r := CreateClass(env, v, cls, fuel);
      case FunctionType(fn) =>
        r := CreateFunction(env, v, fn, fuel);
      case Tag(name) =>
        if name == "" {
          // `document.createElement("")` throws InvalidCharacterError
          return Threw;
        }
        r := CreateNodeElement(env, v, ElementNode(name), fuel);
    }
  }

  /**
   * Text and host elements: create the node, and when `props` is truthy run
   * `updateProps(dom, {}, props)` and mount the children; then set the ref to
   * the node.
   */
  method CreateNodeElement(env: Env, v: Value, kind: NodeKind, fuel: nat) returns (r: Res<Mounted>)
    requires env.doc.Valid() && v.El? && fuel > 0
    requires kind.TextNode? <==> v.elem.kind.TextKind?
    modifies env.doc, env.trace, env.heap, env.refs, env.cells, env.hooks
    ensures env.doc.Valid() && Grows(old(SnapOf(env.doc)), SnapOf(env.doc))
    ensures old(env.trace.events) <= env.trace.events
    ensures r.Ok? ==> old(env.doc.next) in env.doc.nodes && InDoc(r.value, env.doc.nodes.Keys)
    ensures r.Ok? ==> r.value.vdom == v && (r.value.MText? || r.value.MHost?) && r.value.dom == old(env.doc.next)
                      && (r.value.MText? <==> kind.TextNode?)
    ensures r.Ok? ==> env.doc.nodes[old(env.doc.next)]
                      == NodeAfter(NewNode(kind), if Truthy(v.elem.props) then Spread(v.elem.props) else [])
    ensures r.Ok? && r.value.MHost? ==> Paired(r.value.kids, ChildrenOf(v.elem.props), env.doc.nodes.Keys)
    ensures r.Ok? && Truthy(v.elem.ref) && RefId(v.elem.ref).Some? ==>
              RefId(v.elem.ref).value in env.refs.current
              && env.refs.current[RefId(v.elem.ref).value] == NodeTarget(old(env.doc.next))
    decreases fuel, 4
  {
    var n, kids := HostTree(env, kind, v.elem.props, fuel);
    if !kids.Ok? {
      return Fail(kids);
    }
    var a := env.refs.Attach(v.elem.ref, NodeTarget(n));
    if !a.Ok? {
      return Fail(a);
    }
    if kind.TextNode? {
      r := Ok(MText(v, n));
    } else {
      KidsInDoc(MHost(v, n, kids.value), 0, env.doc.nodes.Keys);
      assert Paired(kids.value, ChildrenOf(v.elem.props), env.doc.nodes.Keys);
      r := Ok(MHost(v, n, kids.value));
    }
  }

  /** The node of a text or host element with its props written and, when `props` is truthy, its children mounted. */
  method HostTree(env: Env, kind: NodeKind, props: Value, fuel: nat) returns (n: nat, r: Res<seq<Option<Mounted>>>)
    requires env.doc.Valid() && fuel > 0
    modifies env.doc, env.trace, env.heap, env.refs, env.cells, env.hooks
    ensures env.doc.Valid() && Grows(old(SnapOf(env.doc)), SnapOf(env.doc))
    ensures old(env.trace.events) <= env.trace.events
    ensures n == old(env.doc.next) && n in env.doc.nodes
    ensures env.doc.nodes[n] == NodeAfter(NewNode(kind), if Truthy(props) then Spread(props) else [])
    ensures r.Ok? ==> Paired(r.value, ChildrenOf(props), env.doc.nodes.Keys)
    decreases fuel, 3
  {
    ghost var s0 := SnapOf(env.doc);
    n := NewHostNode(env.doc, kind, props);
    if !Truthy(props) {
      GrowsNew(s0, SnapOf(env.doc), env.doc.nodes[n]);
      return n, Ok([None]);
    }
    ghost var s1 := SnapOf(env.doc);
    r := MountChildren(env, Get(props, "children"), n, fuel);
    GrowsFresh(s0, s1, SnapOf(env.doc), s1.nodes[n]);
  }

  /** `document.createElement` or `createTextNode`, then `updateProps(dom, {}, props)` when `props` is truthy. */
  method NewHostNode(doc: Document, kind: NodeKind, props: Value) returns (n: nat)
    requires doc.Valid()
    modifies doc
    ensures doc.Valid() && n == old(doc.next) && doc.next == n + 1
    ensures doc.nodes == old(doc.nodes)[n := NodeAfter(NewNode(kind), if Truthy(props) then Spread(props) else [])]
    ensures doc.children == old(doc.children)[n := []] && doc.parent == old(doc.parent)
  {
    n := doc.CreateNode(kind);
    if Truthy(props) {
      UpdateProps(doc, n, EmptyObject(), props);
    }
  }

  /**
   * The children of a host node: a single element is rendered, an array is
   * rendered element by element, any other truthy value is rendered, and a
   * falsy one is skipped; `null` throws at `props.children.type`.
   */
  method MountChildren(env: Env, c: Value, n: nat, fuel: nat) returns (r: Res<seq<Option<Mounted>>>)
    requires env.doc.Valid() && n in env.doc.nodes && fuel > 0
    modifies env.doc, env.trace, env.heap, env.refs, env.cells, env.hooks
    ensures env.doc.Valid() && Appended(old(SnapOf(env.doc)), SnapOf(env.doc), n)
    ensures env.doc.nodes[n] == old(env.doc.nodes[n])
    ensures old(env.trace.events) <= env.trace.events
    ensures c.Null? ==> r.Threw?
    ensures r.Ok? ==> Paired(r.value, ChildList(c), env.doc.nodes.Keys)
    decreases fuel, 2
  {
    if c.Null? {
      return Threw;
    }
    // An array has no `type` (ChildrenRoute), so the source's element test holds only for a truthy non-array.
    if c.Arr? {
      ghost var roots;
      r, roots := MountAll(env, c.elems, n, fuel);
      return;
    }
    if Truthy(c) {
      var k := Render(env, c, n, fuel - 1);
      if !k.Ok? {
        return Fail(k);
      }
      return Ok([k.value]);
    }
    r := Ok([None]);
  }

  /**
   * `reconcileChildren(childrenVdom, parentNode)`: render each child into the
   * node, in order. The ghost `roots` are the nodes appended, one per child:
   * the node of the child's record wherever one can be found, and the text
   * node a falsy string or number renders to.
   */
  method MountAll(env: Env, elems: seq<Value>, n: nat, fuel: nat) returns (r: Res<seq<Option<Mounted>>>, ghost roots: seq<nat>)
    requires env.doc.Valid() && n in env.doc.nodes && fuel > 0
    modifies env.doc, env.trace, env.heap, env.refs, env.cells, env.hooks
    ensures env.doc.Valid() && Appended(old(SnapOf(env.doc)), SnapOf(env.doc), n)
    ensures old(env.trace.events) <= env.trace.events
    ensures r.Ok? ==> env.doc.children[n] == old(env.doc.children[n]) + roots
    ensures r.Ok? ==> Paired(r.value, elems, env.doc.nodes.Keys) && Rooted(r.value, roots)
    decreases fuel, 1
  {
    ghost var s0 := SnapOf(env.doc);
    AppendedRefl(s0, n);
    var kids: seq<Option<Mounted>> := [];
    roots := [];
    var i := 0;
    while i < |elems|
      invariant 0 <= i <= |elems| && |roots| == i
      invariant env.doc.Valid() && n in env.doc.nodes
      invariant Appended(s0, SnapOf(env.doc), n) && env.doc.children[n] == s0.children[n] + roots
      invariant old(env.trace.events) <= env.trace.events
      invariant Paired(kids, elems[..i], env.doc.nodes.Keys) && Rooted(kids, roots)
    {
      var next;
      next, roots := MountNext(env, elems, i, kids, n, fuel, s0, roots);
      if !next.Ok? {
        return Fail(next), roots;
      }
      kids := next.value;
      i := i + 1;
    }
    assert elems[..i] == elems;
    r := Ok(kids);
  }

  /** The node each record was appended as: a record whose node can be found has it as its node. */
  ghost predicate Rooted(kids: seq<Option<Mounted>>, roots: seq<nat>)
  {
    && |kids| == |roots|
    && forall k :: 0 <= k < |kids| && kids[k].Some? && FindDOM(kids[k].value).Done? ==> FindDOM(kids[k].value).value == roots[k]
  }

  /** One step of reconcileChildren's loop: the child at `i` rendered into `n`, its node appended after `roots`. */
  method MountNext(env: Env, elems: seq<Value>, i: nat, kids: seq<Option<Mounted>>, n: nat, fuel: nat, ghost s0: Snap,
                   ghost roots: seq<nat>)
    returns (r: Res<seq<Option<Mounted>>>, ghost roots': seq<nat>)
    requires i < |elems| && env.doc.Valid() && n in env.doc.nodes && fuel > 0
    requires Appended(s0, SnapOf(env.doc), n) && env.doc.children[n] == s0.children[n] + roots
    requires Paired(kids, elems[..i], env.doc.nodes.Keys) && Rooted(kids, roots)
    modifies env.doc, env.trace, env.heap, env.refs, env.cells, env.hooks
    ensures env.doc.Valid() && n in env.doc.nodes && Appended(s0, SnapOf(env.doc), n)
    ensures old(env.trace.events) <= env.trace.events
    ensures roots' == roots + [old(env.doc.next)]
    ensures r.Ok? ==> env.doc.children[n] == s0.children[n] + roots'
                      && Paired(r.value, elems[..i + 1], env.doc.nodes.Keys) && Rooted(r.value, roots')
    decreases fuel, 0
  {
    ghost var s1 := SnapOf(env.doc);
    roots' := roots + [env.doc.next];
    var k := Render(env, elems[i], n, fuel - 1);
    AppendedInto(s0, s1, SnapOf(env.doc), n, k.Ok?);
    if !k.Ok? {
      return Fail(k), roots';
    }
    PairedStep(kids, elems, i, k.value, s1.nodes.Keys, env.doc.nodes.Keys);
    RootedStep(kids, roots, k.value, s1.next);
    r := Ok(kids + [k.value]);
    AppendAssoc(s0.children[n], roots, [s1.next]);
  }

  lemma RootedStep(kids: seq<Option<Mounted>>, roots: seq<nat>, k: Option<Mounted>, root: nat)
    requires Rooted(kids, roots)
    requires k.Some? && FindDOM(k.value).Done? ==> FindDOM(k.value).value == root
    ensures Rooted(kids + [k], roots + [root])
  {
    forall j | 0 <= j < |kids| + 1 && (kids + [k])[j].Some? && FindDOM((kids + [k])[j].value).Done?
      ensures FindDOM((kids + [k])[j].value).value == (roots + [root])[j]
    {
      if j < |kids| {
        assert (kids + [k])[j] == kids[j] && (roots + [root])[j] == roots[j];
      }
    }
  }


  /**
   * `createDOM(v)` as its callers see it: the record the caller keeps for `v`,
   * and the new root, detached, at the old end of the arena.
   */
  method Build(env: Env, next: Value, fuel: nat) returns (r: Res<Mounted>)
    requires env.doc.Valid()
    modifies env.doc, env.trace, env.heap, env.refs, env.cells, env.hooks
    ensures env.doc.Valid() && Grows(old(SnapOf(env.doc)), SnapOf(env.doc))
    ensures old(env.trace.events) <= env.trace.events
    ensures r.Ok? ==> old(env.doc.next) in env.doc.nodes && r.value.vdom == next && InDoc(r.value, env.doc.nodes.Keys)
    ensures r.Ok? && FindDOM(r.value).Done? ==> FindDOM(r.value) == Done(old(env.doc.next))
    decreases fuel, 7
  {
    var m := CreateDOM(env, next, fuel);
    if !m.Ok? {
      return Fail(m);
    }
    r := Ok(Label(next, m.value));
  }

  /**
   * `render(vdom, container)`: mount -- createDOM, append the node to the
   * container, call the `componentDidMount` a class left on it -- then
   * (re)assign `scheduleUpdate`.
   */
  method Render(env: Env, v: Value, container: nat, fuel: nat) returns (r: Res<Option<Mounted>>)
    requires env.doc.Valid() && container in env.doc.nodes
    modifies env.doc, env.trace, env.heap, env.refs, env.cells, env.hooks
    ensures env.doc.Valid() && Into(old(SnapOf(env.doc)), SnapOf(env.doc), container, r.Ok?)
    ensures old(env.trace.events) <= env.trace.events
    ensures r.Ok? ==> (r.value.Some? <==> Truthy(v))
    ensures r.Ok? && r.value.Some? ==> r.value.value.vdom == v && InDoc(r.value.value, env.doc.nodes.Keys)
    ensures r.Ok? && r.value.Some? && FindDOM(r.value.value).Done? ==> FindDOM(r.value.value) == Done(old(env.doc.next))
    ensures r.Ok? ==> env.hooks.scheduled
    ensures r.Ok? && env.doc.nodes[old(env.doc.next)].didMount.Some? ==>
              |env.trace.events| > 0
              && env.trace.events[|env.trace.events| - 1] == DidMount(env.doc.nodes[old(env.doc.next)].didMount.value)
    decreases fuel, 8
  {
    ghost var s0 := SnapOf(env.doc);
    var root := env.doc.next;
    var m := Build(env, v, fuel);
    if !m.Ok? {
      GrowsIntoFailed(s0, SnapOf(env.doc), container);
      return Fail(m);
    }
    var ok := AttachRoot(env, container, root, s0);
    if !ok {
      return Threw;
    }
    r := Ok(if Truthy(v) then Some(m.value) else None);
  }

  /**
   * The end of `mount`: `container.appendChild(newDOM)`, then the
   * `componentDidMount` a class component left on the node; then `render`
   * (re)assigns `scheduleUpdate`.
   */
  method AttachRoot(env: Env, container: nat, root: nat, ghost s0: Snap) returns (ok: bool)
    requires env.doc.Valid() && Grows(s0, SnapOf(env.doc)) && root == s0.next && root in env.doc.nodes
    requires container in s0.children && container < root
    modifies env.doc, env.trace, env.hooks
    ensures env.doc.Valid() && Into(s0, SnapOf(env.doc), container, ok)
    ensures ok <==> !old(env.doc.nodes[container]).kind.TextNode?
    ensures ok ==> env.doc.children == old(env.doc.children)[container := old(env.doc.children[container]) + [root]]
                   && env.doc.parent == old(env.doc.parent)[root := container]
    ensures !ok ==> env.doc.children == old(env.doc.children) && env.doc.parent == old(env.doc.parent)
    ensures env.doc.nodes == old(env.doc.nodes) && env.doc.next == old(env.doc.next)
    ensures ok ==> env.trace.events == old(env.trace.events)
                   + (if env.doc.nodes[root].didMount.Some? then [DidMount(env.doc.nodes[root].didMount.value)] else [])
    ensures !ok ==> env.trace.events == old(env.trace.events)
    ensures ok && env.doc.nodes[root].didMount.Some? ==>
              |env.trace.events| > 0
              && env.trace.events[|env.trace.events| - 1] == DidMount(env.doc.nodes[root].didMount.value)
    ensures ok ==> env.hooks.scheduled
  {
    ok := AppendRoot(env.doc, container, root, s0);
    if !ok {
      return;
    }
    AfterAppend(env.trace, env.hooks, env.doc.nodes[root]);
  }

  /** The `componentDidMount` a class left on the new root, then `scheduleUpdate` reassigned. */
  method AfterAppend(trace: Trace, hooks: Hooks.HookStore, node: Node)
    modifies trace, hooks
    ensures trace.events == old(trace.events) + (if node.didMount.Some? then [DidMount(node.didMount.value)] else [])
    ensures hooks.scheduled
  {
    if node.didMount.Some? {
      trace.Record(DidMount(node.didMount.value));
    }
    hooks.Install();
  }

  /** `container.appendChild(newDOM)` for a root built on top of the snapshot `s0`. */
  method AppendRoot(doc: Document, container: nat, root: nat, ghost s0: Snap) returns (ok: bool)
    requires doc.Valid() && Grows(s0, SnapOf(doc)) && root == s0.next && root in doc.nodes
    requires container in s0.children && container < root
    modifies doc
    ensures doc.Valid() && Into(s0, SnapOf(doc), container, ok)
    ensures ok <==> !old(doc.nodes[container]).kind.TextNode?
    ensures ok ==> doc.children == old(doc.children)[container := old(doc.children[container]) + [root]]
                   && doc.parent == old(doc.parent)[root := container]
    ensures !ok ==> doc.children == old(doc.children) && doc.parent == old(doc.parent)
    ensures doc.nodes == old(doc.nodes) && doc.next == old(doc.next)
  {
    ghost var s1 := SnapOf(doc);
    ok := doc.AppendChild(container, root);
    if !ok {
      GrowsIntoFailed(s0, s1, container);
    } else {
      GrowsIntoAppended(s0, s1, container);
    }
  }

  /**
   * `createFunctionComponent(vdom)`: call the function with the props and
   * mount what it returns; `renderElement.dom = newDOM` throws when that is a
   * primitive.
   */
  method CreateFunction(env: Env, v: Value, fn: nat, fuel: nat) returns (r: Res<Mounted>)
    requires env.doc.Valid() && v.El? && v.elem.kind == FunctionType(fn) && fuel > 0
    modifies env.doc, env.trace, env.heap, env.refs, env.cells, env.hooks
    ensures env.doc.Valid() && Grows(old(SnapOf(env.doc)), SnapOf(env.doc))
    ensures old(env.trace.events) <= env.trace.events
    ensures r.Ok? ==> old(env.doc.next) in env.doc.nodes && InDoc(r.value, env.doc.nodes.Keys)
    ensures r.Ok? ==> r.value.MFunc? && r.value.vdom == v && r.value.last.Some?
                      && r.value.last.value.vdom == env.call(fn, [v.elem.props])
    ensures r.Ok? && FindDOM(r.value).Done? ==> FindDOM(r.value) == Done(old(env.doc.next))
    ensures IsReactText(env.call(fn, [v.elem.props])) ==> !r.Ok?
    decreases fuel, 4
  {
    var rendered := env.call(fn, [v.elem.props]);
    var m := CreateDOM(env, rendered, fuel - 1);
    if !m.Ok? {
      return Fail(m);
    }
    if IsReactText(rendered) {
      return Threw;
    }
    r := Ok(MFunc(v, Some(m.value)));
  }

  /**
   * `createClassComponent(vdom)`: the instance gets `{...defaultProps, ...props}`,
   * its initial state and, with a `contextType`, the context's current value;
   * the ref is set to the instance; componentWillMount runs before render;
   * what render returns is mounted, and the node it yields carries the
   * instance's componentDidMount.
   */
  method CreateClass(env: Env, v: Value, cls: nat, fuel: nat) returns (r: Res<Mounted>)
    requires env.doc.Valid() && v.El? && v.elem.kind == ClassType(cls) && fuel > 0
    modifies env.doc, env.trace, env.heap, env.refs, env.cells, env.hooks
    ensures env.doc.Valid() && Grows(old(SnapOf(env.doc)), SnapOf(env.doc))
    ensures old(env.trace.events) <= env.trace.events
    ensures r.Ok? ==> old(env.doc.next) in env.doc.nodes && InDoc(r.value, env.doc.nodes.Keys)
    ensures r.Ok? && FindDOM(r.value).Done? ==> FindDOM(r.value) == Done(old(env.doc.next))
    ensures r.Ok? ==> r.value.MClass? && r.value.vdom == v
    ensures r.Ok? && r.value.MClass? ==>
              var inst := r.value.upd.instance;
              && inst.updater == r.value.upd && inst.cls == cls
              && Constructed(inst, env.classes(cls), v.elem.props, old(env.heap.next), env.call,
                             old(env.cells.current))
              && r.value.rendered.vdom == env.call(inst.hooks.render, [inst.props, inst.state, inst.context])
              && (inst.hooks.didMount ==> env.doc.nodes[old(env.doc.next)].didMount == Some(inst.id))
    decreases fuel, 4
  {
    var inst := NewInstance(env, cls, v.elem.props);
    var a := env.refs.Attach(v.elem.ref, InstanceTarget(inst));
    if !a.Ok? {
      return Fail(a);
    }
    r := ClassTree(env, v, inst, fuel);
  }

  /**
   * The instance `new type(props)` gives: identity `id`, the merged props in
   * the next identity, the state from the class's constructor or a fresh `{}`,
   * and with a `contextType` the context's current value.
   */
  ghost predicate Constructed(inst: Instance, hooks: Lifecycle, props: Value, id: nat, call: Call,
                              current: map<nat, Value>)
    reads inst
  {
    && inst.id == id && inst.hooks == hooks
    && inst.props == ClassProps(hooks.defaultProps, props, id + 1)
    && inst.state == (if hooks.init.Some? then call(hooks.init.value, [inst.props]) else Obj(id + 2, []))
    && inst.context == (if hooks.contextType.Some? then
                          (if hooks.contextType.value in current then current[hooks.contextType.value] else Undefined)
                        else Undefined)
  }

  /** `new type(props)` with its context: the first half of createClassComponent. */
  method NewInstance(env: Env, cls: nat, props: Value) returns (inst: Instance)
    modifies env.heap
    ensures fresh(inst) && fresh(inst.updater) && inst.Linked() && inst.cls == cls
    ensures Constructed(inst, env.classes(cls), props, old(env.heap.next), env.call, env.cells.current)
  {
    var hooks := env.classes(cls);
    // the instance, its props object and the `{}` of its initial state
    var first := env.heap.Reserve(3);
    var merged := ClassProps(hooks.defaultProps, props, first + 1);
    var state := if hooks.init.Some? then env.call(hooks.init.value, [merged]) else Obj(first + 2, []);
    inst := new Instance(first, cls, hooks, merged, state);
    if hooks.contextType.Some? {
      inst.context := env.cells.CurrentValue(hooks.contextType.value);
    }
  }

  /**
   * The second half of createClassComponent: componentWillMount, render, the
   * mounted result, and the instance's componentDidMount left on its node.
   */
  method ClassTree(env: Env, v: Value, inst: Instance, fuel: nat) returns (r: Res<Mounted>)
    requires env.doc.Valid() && inst.Linked() && fuel > 0
    modifies env.doc, env.trace, env.heap, env.refs, env.cells, env.hooks
    ensures env.doc.Valid() && Grows(old(SnapOf(env.doc)), SnapOf(env.doc))
    ensures old(env.trace.events) <= env.trace.events
    ensures inst.hooks.willMount ==> |env.trace.events| > |old(env.trace.events)|
                                     && env.trace.events[|old(env.trace.events)|] == WillMount(inst.id)
    ensures r.Ok? ==> old(env.doc.next) in env.doc.nodes && InDoc(r.value, env.doc.nodes.Keys)
    ensures r.Ok? && FindDOM(r.value).Done? ==> FindDOM(r.value) == Done(old(env.doc.next))
    ensures r.Ok? ==> r.value.MClass? && r.value.vdom == v && r.value.upd == inst.updater
                      && r.value.rendered.vdom == env.call(inst.hooks.render, [inst.props, inst.state, inst.context])
    ensures r.Ok? && inst.hooks.didMount ==> env.doc.nodes[old(env.doc.next)].didMount == Some(inst.id)
    ensures IsReactText(env.call(inst.hooks.render, [inst.props, inst.state, inst.context])) ==> !r.Ok?
    decreases fuel, 3
  {
    if inst.hooks.willMount {
      env.trace.Record(WillMount(inst.id));
    }
    var rendered := env.call(inst.hooks.render, [inst.props, inst.state, inst.context]);
    r := ClassRendered(env, v, inst, rendered, fuel - 1);
  }

  /** The rest of createClassComponent once render has returned: mount the render element, then leave componentDidMount on its node. */
  method ClassRendered(env: Env, v: Value, inst: Instance, rendered: Value, fuel: nat) returns (r: Res<Mounted>)
    requires env.doc.Valid() && inst.Linked()
    modifies env.doc, env.trace, env.heap, env.refs, env.cells, env.hooks
    ensures env.doc.Valid() && Grows(old(SnapOf(env.doc)), SnapOf(env.doc))
    ensures old(env.trace.events) <= env.trace.events
    ensures r.Ok? ==> old(env.doc.next) in env.doc.nodes && InDoc(r.value, env.doc.nodes.Keys)
    ensures r.Ok? && FindDOM(r.value).Done? ==> FindDOM(r.value) == Done(old(env.doc.next))
    ensures r.Ok? ==> r.value.MClass? && r.value.vdom == v && r.value.upd == inst.updater && r.value.rendered.vdom == rendered
    ensures r.Ok? && inst.hooks.didMount ==> env.doc.nodes[old(env.doc.next)].didMount == Some(inst.id)
    ensures IsReactText(rendered) ==> !r.Ok?
    decreases fuel, 8
  {
    ghost var s0 := SnapOf(env.doc);
    var root := env.doc.next;
    var m := Build(env, rendered, fuel);
    if !m.Ok? {
      return Fail(m);
    }
    if IsReactText(rendered) {
      // `renderElement.dom = newDOM` on a primitive
      return Threw;
    }
    LeaveDidMount(env.doc, root, inst, s0);
    r := Ok(MClass(v, inst.updater, m.value));
  }

  /** `newDOM.componentDidMount = ...` when the instance has one, on a root created after `s0`. */
  method LeaveDidMount(doc: Document, root: nat, inst: Instance, ghost s0: Snap)
    requires doc.Valid() && Grows(s0, SnapOf(doc)) && root == s0.next && root in doc.nodes
    requires root !in s0.nodes && root !in s0.children
    modifies doc
    ensures doc.Valid() && Grows(s0, SnapOf(doc)) && doc.nodes.Keys == old(doc.nodes.Keys)
    ensures inst.hooks.didMount ==> doc.nodes[root].didMount == Some(inst.id)
  {
    if inst.hooks.didMount {
      ghost var s1 := SnapOf(doc);
      doc.SetDidMount(root, inst.id);
      GrowsNodeUpdate(s0, s1, root, doc.nodes[root]);
    }
  }

  /**
   * createMemoComponent, createProviderComponent and createConsumerComponent
   * after they have their render element: mount it and keep it as
   * `vdom.oldRenderElement`, with no write to the element itself.
   */
  method CreateWrapped(env: Env, v: Value, rendered: Value, prevProps: Value, fuel: nat) returns (r: Res<Mounted>)
    requires env.doc.Valid() && v.El? && fuel > 0
    requires v.elem.kind.MemoType? || v.elem.kind.ProviderType? || v.elem.kind.ConsumerType?
    modifies env.doc, env.trace, env.heap, env.refs, env.cells, env.hooks
    ensures env.doc.Valid() && Grows(old(SnapOf(env.doc)), SnapOf(env.doc))
    ensures old(env.trace.events) <= env.trace.events
    ensures r.Ok? ==> old(env.doc.next) in env.doc.nodes && InDoc(r.value, env.doc.nodes.Keys)
    ensures r.Ok? ==> r.value.MWrap? && r.value.vdom == v && r.value.rendered.vdom == rendered && r.value.prevProps == prevProps
    ensures r.Ok? && FindDOM(r.value).Done? ==> FindDOM(r.value) == Done(old(env.doc.next))
    decreases fuel, 4
  {
    var m := CreateDOM(env, rendered, fuel - 1);
    if !m.Ok? {
      return Fail(m);
    }
    r := Ok(MWrap(v, Label(rendered, m.value), prevProps));
  }
}
