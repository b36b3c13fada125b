/**
 * What mounting leaves behind on the virtual DOM (src/react-dom.js and
 * src/component.js): the source writes `vdom.dom`, `vdom.classInstance` and
 * `vdom.oldRenderElement` onto the element objects it renders. A `Mounted`
 * record holds those fields for one element, next to the element value the
 * parent holds. `findDOM`, the five-way case split of compareTwoVdmo and the
 * insertion hint of updateChildren are functions of these records.
 */
module Vdom {
  import opened JsValues
  import opened Utils
  import opened Component

  /** The outcome of a reconciler step: a value, a TypeError or DOM exception, or a path outside the model. */
  datatype Res<T> = Ok(value: T) | Threw | Unmodelled

  /**
   * The fields recorded on a rendered value:
   * - MText, MHost: `vdom.dom`, and for a host element the records of its children;
   * - MFunc: `vdom.oldRenderElement` of a function component (absent once a
   *   re-render returned a falsy value);
   * - MClass: `vdom.classInstance` (its updater) and `vdom.oldRenderElement`;
   * - MWrap: `vdom.oldRenderElement` of a memo, provider or consumer element,
   *   and `vdom.prevProps`, the props a memo compares against (undefined on a
   *   provider or consumer, which never sets it);
   * - MBare: a value with no recorded fields -- a string or number rendered as
   *   it is, whose text node went to the wrapper object createDOM made for it.
   */
  datatype Mounted =
    | MText(vdom: Value, dom: nat)
    | MHost(vdom: Value, dom: nat, kids: seq<Option<Mounted>>)
    | MFunc(vdom: Value, last: Option<Mounted>)
    | MClass(vdom: Value, upd: Updater, rendered: Mounted)
    | MWrap(vdom: Value, rendered: Mounted, prevProps: Value)
    | MBare(vdom: Value)

  /** `vdom.type`. */
  function TypeOf(v: Value): Value
  {
    Get(v, "type")
  }

  /** A measure for the recursion over records: every sub-record is smaller than its parent. */
  function Size(m: Mounted): nat
    decreases m, 1
  {
    match m
    case MText(_, _) => 1
    case MHost(_, _, kids) => 1 + KidsSize(m, 0)
    case MFunc(_, r) => 1 + (if r.Some? then Size(r.value) else 0)
    case MClass(_, _, r) => 1 + Size(r)
    case MWrap(_, r, _) => 1 + Size(r)
    case MBare(_) => 1
  }

  function KidsSize(h: Mounted, i: nat): nat
    requires h.MHost? && i <= |h.kids|
    decreases h, 0, |h.kids| - i
  {
    if i == |h.kids| then 0
    else (if h.kids[i].Some? then Size(h.kids[i].value) else 0) + KidsSize(h, i + 1)
  }

  function OSize(o: Option<Mounted>): nat
  {
    if o.Some? then Size(o.value) else 0
  }

  lemma {:induction false} KidSmaller(h: Mounted, i: nat, j: nat)
    requires h.MHost? && j <= i < |h.kids| && h.kids[i].Some?
    ensures Size(h.kids[i].value) <= KidsSize(h, j)
    decreases i - j
  {
    if j < i {
      KidSmaller(h, i, j + 1);
    }
  }

  /**
   * `findDOM(vdom)`: the node of a text or host element; for a component,
   * the node of what it rendered, followed down until a text or host element.
   * Reaching a value without recorded fields (a bare primitive, or the
   * `null` a function component last rendered) throws a TypeError.
   */
  function FindDOM(m: Mounted): (r: Outcome<nat>)
    ensures r.Done? ==> r.value in Doms(m)
    decreases m
  {
    match m
    case MText(_, d) => Done(d)
    case MHost(_, d, _) => Done(d)
    case MFunc(_, r) => if r.Some? then FindDOM(r.value) else Thrown
    case MClass(_, _, r) => FindDOM(r)
    case MWrap(_, r, _) => FindDOM(r)
    case MBare(_) => Thrown
  }

  /** The nodes a record names anywhere in it. */
  function Doms(m: Mounted): set<nat>
    decreases m, 1
  {
    match m
    case MText(_, d) => {d}
    case MHost(_, d, _) => {d} + KidsDoms(m, 0)
    case MFunc(_, r) => if r.Some? then Doms(r.value) else {}
    case MClass(_, _, r) => Doms(r)
    case MWrap(_, r, _) => Doms(r)
    case MBare(_) => {}
  }

  function KidsDoms(h: Mounted, i: nat): set<nat>
    requires h.MHost? && i <= |h.kids|
    decreases h, 0, |h.kids| - i
  {
    if i == |h.kids| then {}
    else (if h.kids[i].Some? then Doms(h.kids[i].value) else {}) + KidsDoms(h, i + 1)
  }

  lemma {:induction false} KidDoms(h: Mounted, i: nat, j: nat)
    requires h.MHost? && j <= i < |h.kids| && h.kids[i].Some?
    ensures Doms(h.kids[i].value) <= KidsDoms(h, j)
    decreases i - j
  {
    if j < i {
      KidDoms(h, i, j + 1);
    }
  }

  /** The updaters and instances of the class components a record holds: what re-rendering it may change. */
  function Ups(m: Mounted): set<object>
    decreases m, 1
  {
    match m
    case MText(_, _) => {}
    case MHost(_, _, _) => KidsUps(m, 0)
    case MFunc(_, r) => if r.Some? then Ups(r.value) else {}
    case MClass(_, u, r) => {u, u.instance} + Ups(r)
    case MWrap(_, r, _) => Ups(r)
    case MBare(_) => {}
  }

  function KidsUps(h: Mounted, i: nat): set<object>
    requires h.MHost? && i <= |h.kids|
    decreases h, 0, |h.kids| - i
  {
    if i == |h.kids| then {}
    else (if h.kids[i].Some? then Ups(h.kids[i].value) else {}) + KidsUps(h, i + 1)
  }

  lemma {:induction false} KidUps(h: Mounted, i: nat, j: nat)
    requires h.MHost? && j <= i < |h.kids| && h.kids[i].Some?
    ensures Ups(h.kids[i].value) <= KidsUps(h, j)
    decreases i - j
  {
    if j < i {
      KidUps(h, i, j + 1);
    }
  }

  function OUps(o: Option<Mounted>): set<object>
  {
    if o.Some? then Ups(o.value) else {}
  }

  /** The five cases of compareTwoVdmo, in the order the source tests them. */
  datatype Step = Keep | Remove | Create | Replace | Patch

  /**
   * A child slot is absent when the old value was falsy (nothing was mounted
   * for it); the test on the new value is JavaScript truthiness, and the
   * types are compared with `===`.
   */
  function CaseOf(prev: Option<Mounted>, next: Value): (s: Step)
    ensures s == Keep <==> prev.None? && !Truthy(next)
    ensures s == Remove <==> prev.Some? && !Truthy(next)
    ensures s == Create <==> prev.None? && Truthy(next)
    ensures s == Replace <==> prev.Some? && Truthy(next) && !StrictEq(TypeOf(prev.value.vdom), TypeOf(next))
    ensures s == Patch <==> prev.Some? && Truthy(next) && StrictEq(TypeOf(prev.value.vdom), TypeOf(next))
  {
    if prev.None? && !Truthy(next) then Keep
    else if prev.Some? && !Truthy(next) then Remove
    else if prev.None? && Truthy(next) then Create
    else if !StrictEq(TypeOf(prev.value.vdom), TypeOf(next)) then Replace
    else Patch
  }

  /** `Array.isArray(children) ? children : [children]`. */
  function ChildList(children: Value): (cs: seq<Value>)
    ensures children.Arr? ==> cs == children.elems
    ensures !children.Arr? ==> cs == [children]
  {
    if children.Arr? then children.elems else [children]
  }

  /** The old child at position `i`; past the end of the list it is `undefined`, so absent. */
  function ChildAt(kids: seq<Option<Mounted>>, i: nat): Option<Mounted>
  {
    if i < |kids| then kids[i] else None
  }

  /** The new child value at position `i`; `undefined` past the end. */
  function ValueAt(vs: seq<Value>, i: nat): Value
  {
    if i < |vs| then vs[i] else Undefined
  }

  /**
   * The `find` over the old children from index `j` on: the first present
   * child decides -- its node is the hint, or its findDOM throws.
   */
  function HintFrom(kids: seq<Option<Mounted>>, j: nat): (r: Outcome<Option<nat>>)
    ensures r == Done(None) <==> forall k :: j <= k < |kids| ==> kids[k].None?
    ensures r.Done? && r.value.Some? ==>
              exists k :: j <= k < |kids| && kids[k].Some? && FindDOM(kids[k].value) == Done(r.value.value)
    ensures r.Thrown? ==> exists k :: j <= k < |kids| && kids[k].Some? && FindDOM(kids[k].value).Thrown?
    decreases |kids| - j
  {
    if j >= |kids| then Done(None)
    else if kids[j].Some? then
      match FindDOM(kids[j].value)
      case Done(d) => Done(Some(d))
      case Thrown => Thrown
    else HintFrom(kids, j + 1)
  }

  /** The `nextDOM` of updateChildren at step `i`. */
  function NextHint(kids: seq<Option<Mounted>>, i: nat): (r: Outcome<Option<nat>>)
    ensures r == Done(None) <==> forall k :: i < k < |kids| ==> kids[k].None?
    ensures r.Done? && r.value.Some? ==>
              exists k :: i < k < |kids| && kids[k].Some? && FindDOM(kids[k].value) == Done(r.value.value)
  {
    HintFrom(kids, i + 1)
  }

  /** The position of the first present old child at or after `j`; the length when there is none. */
  function FirstPresent(kids: seq<Option<Mounted>>, j: nat): (k: nat)
    requires j <= |kids|
    ensures j <= k <= |kids|
    ensures k < |kids| ==> kids[k].Some?
    ensures forall l :: j <= l < k ==> kids[l].None?
    decreases |kids| - j
  {
    if j == |kids| || kids[j].Some? then j else FirstPresent(kids, j + 1)
  }

  /**
   * The hint at step `i` is decided by the first present old child after
   * position `i`: its node, or a throw when its findDOM throws; there is no
   * hint when every later old child is absent. Keys play no part.
   */
  lemma {:induction false} HintFromFirst(kids: seq<Option<Mounted>>, j: nat)
    requires j <= |kids|
    ensures var k := FirstPresent(kids, j);
            HintFrom(kids, j) == if k == |kids| then Done(None)
                                 else match FindDOM(kids[k].value)
                                      case Done(d) => Done(Some(d))
                                      case Thrown => Thrown
    decreases |kids| - j
  {
    if j < |kids| && kids[j].None? {
      HintFromFirst(kids, j + 1);
    }
  }

  /** NextHint in terms of the first present old child after position `i`. */
  lemma NextHintFirst(kids: seq<Option<Mounted>>, i: nat)
    requires i < |kids|
    ensures var k := FirstPresent(kids, i + 1);
            && (NextHint(kids, i) == Done(None) <==> k == |kids|)
            && (k < |kids| ==> NextHint(kids, i) == if FindDOM(kids[k].value).Done?
                                                  then Done(Some(FindDOM(kids[k].value).value)) else Thrown)
  {
    HintFromFirst(kids, i + 1);
  }

  /** The record's constructor is the one its element's `type` calls for. */
  predicate KindMatches(m: Mounted)
  {
    m.vdom.El? &&
    match m.vdom.elem.kind
    case TextKind => m.MText?
    case Tag(_) => m.MHost?
    case FunctionType(_) => m.MFunc?
    case ClassType(c) => m.MClass? && m.upd.instance.cls == c
    case ForwardRefType(_, _) => false
    case _ => m.MWrap?
  }

  /** A record's nodes are all nodes of the arena. */
  predicate InDoc(m: Mounted, keys: set<nat>)
  {
    Doms(m) <= keys
  }

  predicate OInDoc(o: Option<Mounted>, keys: set<nat>)
  {
    o.Some? ==> InDoc(o.value, keys)
  }

  /** The children of a record are in the arena when the record is. */
  lemma KidInDoc(h: Mounted, i: nat, keys: set<nat>)
    requires h.MHost? && i < |h.kids| && InDoc(h, keys)
    ensures OInDoc(h.kids[i], keys)
  {
    if h.kids[i].Some? {
      KidDoms(h, i, 0);
    }
  }

  /** The record a parent keeps for a value it rendered: a bare primitive keeps no fields. */
  function Label(v: Value, m: Mounted): (r: Mounted)
    ensures IsReactText(v) ==> r == MBare(v)
    ensures !IsReactText(v) ==> r == m
  {
    if IsReactText(v) then MBare(v) else m
  }
}
