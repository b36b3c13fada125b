/**
 * The JavaScript values the runtime handles, as far as the model needs them:
 * primitives, plain objects, arrays, functions and virtual-DOM element objects.
 *
 * Objects, arrays, functions and elements carry a `ref`: their identity on the
 * JavaScript heap. `===` compares identities for them and values for
 * primitives. Property lists are kept in insertion order; `Object.keys` and
 * `for…in` report integer-like keys first, in ascending order, which the
 * model does not do.
 */
module JsValues {

  /** The type of an element: a closed sum over the values `vdom.type` takes. */
  datatype Kind =
    | TextKind                                   // the REACT_TEXT marker
    | Tag(name: string)                          // a host tag such as "div"
    | FunctionType(fn: nat)                      // a plain function component
    | ClassType(cls: nat)                        // a class extending Component
    | ForwardRefType(ref: nat, render: nat)      // { $$typeof: REACT_FORWARD_REF_TYPE, render }
    | MemoType(ref: nat, fn: nat, compare: Comparator) // { compare, $$typeof: REACT_MEMO, type }
    | ProviderType(ctx: nat)                     // context.Provider
    | ConsumerType(ctx: nat)                     // context.Cunsumer

  /** The `compare` field of a memo type: the built-in shallowEqual or a user function. */
  datatype Comparator = ShallowEqualFn | UserCompare(fn: nat)

  datatype Value =
    | Undefined
    | Null
    | Bool(b: bool)
    | Num(n: int)
    | Str(s: string)
    | Obj(ref: nat, props: seq<Prop>)
    | Arr(ref: nat, elems: seq<Value>)
    | Func(ref: nat)
    | El(ref: nat, elem: Element)
    | TypeRef(kind: Kind)                        // the value stored in an element's `type` field

  datatype Prop = Prop(name: string, value: Value)

  /** An element object `{ type, props, key, ref }` as createElement builds it. */
  datatype Element = Element(kind: Kind, props: Value, key: Value, ref: Value)

  /** The result of an operation that may throw a TypeError the source does not catch. */
  datatype Outcome<T> = Done(value: T) | Thrown

  /** An optional value (an absent callback, hook or child). */
  datatype Option<T> = None | Some(value: T)

  /** JavaScript truthiness (numbers are integers here, so NaN does not arise). */
  predicate Truthy(v: Value)
  {
    match v
    case Undefined => false
    case Null => false
    case Bool(b) => b
    case Num(n) => n != 0
    case Str(s) => s != ""
    case TypeRef(k) => !(k.Tag? && k.name == "")
    case _ => true
  }

  /** `===` on two element types: host tags by name, everything else by identity. */
  predicate SameType(a: Kind, b: Kind)
  {
    match (a, b)
    case (TextKind, TextKind) => true
    case (Tag(x), Tag(y)) => x == y
    case (FunctionType(f), FunctionType(g)) => f == g
    case (ClassType(c), ClassType(d)) => c == d
    case (ForwardRefType(r, _), ForwardRefType(s, _)) => r == s
    case (MemoType(r, _, _), MemoType(s, _, _)) => r == s
    case (ProviderType(c), ProviderType(d)) => c == d
    case (ConsumerType(c), ConsumerType(d)) => c == d
    case _ => false
  }

  /** Strict equality `===`. */
  predicate StrictEq(a: Value, b: Value)
  {
    match (a, b)
    case (Undefined, Undefined) => true
    case (Null, Null) => true
    case (Bool(x), Bool(y)) => x == y
    case (Num(x), Num(y)) => x == y
    case (Str(x), Str(y)) => x == y
    case (Obj(r, _), Obj(s, _)) => r == s
    case (Arr(r, _), Arr(s, _)) => r == s
    case (Func(r), Func(s)) => r == s
    case (El(r, _), El(s, _)) => r == s
    case (TypeRef(k), TypeRef(l)) => SameType(k, l)
    case _ => false
  }

  /** `undefined` or `null`: reading a property of either throws a TypeError. */
  predicate Nullish(v: Value)
  {
    v.Undefined? || v.Null?
  }

  /**
   * `typeof v === 'object' && v !== null`. A `type` value is never an object
   * here: a function or class type is a function in JavaScript, and the
   * descriptor objects of memo, forwardRef and context types are not read as
   * plain objects by the model.
   */
  predicate IsObject(v: Value)
  {
    v.Obj? || v.Arr? || v.El?
  }

  function DigitChar(d: nat): (c: char)
    requires d < 10
    ensures '0' <= c <= '9'
  {
    "0123456789"[d]
  }

  /** The decimal property name of an array index, as `for…in` produces it. */
  function IndexName(n: nat): (s: string)
    ensures |s| > 0
    ensures forall i :: 0 <= i < |s| ==> '0' <= s[i] <= '9'
  {
    if n < 10 then [DigitChar(n)] else IndexName(n / 10) + [DigitChar(n % 10)]
  }

  ghost predicate IsIndexName(name: string)
  {
    exists i: nat :: IndexName(i) == name
  }

  function Names(ps: seq<Prop>): (ns: seq<string>)
    ensures |ns| == |ps|
    ensures forall i :: 0 <= i < |ps| ==> ns[i] == ps[i].name
  {
    if ps == [] then [] else [ps[0].name] + Names(ps[1..])
  }

  /** Property names are distinct, as they are in every real object. */
  predicate DistinctNames(ps: seq<Prop>)
  {
    forall i, j :: 0 <= i < j < |ps| ==> ps[i].name != ps[j].name
  }

  /** Value of the first property called `name`, or undefined. */
  function Lookup(ps: seq<Prop>, name: string): (v: Value)
    ensures name !in Names(ps) ==> v == Undefined
  {
    if ps == [] then Undefined
    else if ps[0].name == name then ps[0].value
    else Lookup(ps[1..], name)
  }

  /** The properties of an array: its elements under their index names. */
  function IndexedProps(es: seq<Value>): (ps: seq<Prop>)
    ensures |ps| == |es|
    ensures forall i :: 0 <= i < |es| ==> ps[i] == Prop(IndexName(i), es[i])
  {
    seq(|es|, i requires 0 <= i < |es| => Prop(IndexName(i), es[i]))
  }

  /** The characters of a string under their index names. */
  function CharProps(s: string): (ps: seq<Prop>)
    ensures |ps| == |s|
  {
    seq(|s|, i requires 0 <= i < |s| => Prop(IndexName(i), Str([s[i]])))
  }

  /**
   * The fields of an element object, in the order createElement writes them.
   * A text element from wrapToVdom owns only `type` and `props` in the
   * source; here it shows `key` and `ref` as well.
   */
  function ElementProps(e: Element): seq<Prop>
  {
    [Prop("type", TypeRef(e.kind)), Prop("props", e.props), Prop("key", e.key), Prop("ref", e.ref)]
  }

  /** Own enumerable properties, in `Object.keys` order (the prototype chain is not modelled). */
  function OwnProps(v: Value): seq<Prop>
  {
    match v
    case Obj(_, ps) => ps
    case Arr(_, es) => IndexedProps(es)
    case El(_, e) => ElementProps(e)
    case _ => []
  }

  /** `Object.keys(v)` for an object. */
  function OwnKeys(v: Value): seq<string>
  {
    Names(OwnProps(v))
  }

  /** `v.hasOwnProperty(name)`. */
  predicate HasOwn(v: Value, name: string)
  {
    name in OwnKeys(v)
  }

  /** `v[name]` for an own property; undefined when `v` does not own it. */
  function Get(v: Value, name: string): Value
  {
    Lookup(OwnProps(v), name)
  }

  /** What `{...v}` copies out of `v`: own enumerable properties, characters of a string. */
  function Spread(v: Value): seq<Prop>
  {
    match v
    case Str(s) => CharProps(s)
    case _ => OwnProps(v)
  }

  /** `o[name] = value` on a property list: overwrite in place, or append a new key. */
  function SetProp(ps: seq<Prop>, name: string, value: Value): seq<Prop>
  {
    if ps == [] then [Prop(name, value)]
    else if ps[0].name == name then [Prop(name, value)] + ps[1..]
    else [ps[0]] + SetProp(ps[1..], name, value)
  }

  /** Copying the properties of `source` over `target` in order, as an object spread does. */
  function Assign(target: seq<Prop>, source: seq<Prop>): seq<Prop>
    decreases |source|
  {
    if source == [] then target
    else Assign(SetProp(target, source[0].name, source[0].value), source[1..])
  }

  /** The property list without the properties named in `drop` (rest destructuring, `delete`). */
  function Without(ps: seq<Prop>, drop: set<string>): (r: seq<Prop>)
    ensures forall n :: n in Names(r) <==> n in Names(ps) && n !in drop
  {
    if ps == [] then []
    else if ps[0].name in drop then Without(ps[1..], drop)
    else [ps[0]] + Without(ps[1..], drop)
  }

  /** Setting a property adds its name to the keys, and no other. */
  lemma {:induction false} SetPropNames(ps: seq<Prop>, name: string, value: Value)
    ensures forall n :: n in Names(SetProp(ps, name, value)) <==> n in Names(ps) || n == name
  {
    if ps != [] && ps[0].name != name {
      SetPropNames(ps[1..], name, value);
      assert Names(ps) == [ps[0].name] + Names(ps[1..]);
    }
  }

  lemma {:induction false} LookupSetProp(ps: seq<Prop>, name: string, value: Value, other: string)
    ensures Lookup(SetProp(ps, name, value), other) == if other == name then value else Lookup(ps, other)
  {
    if ps != [] && ps[0].name != name {
      LookupSetProp(ps[1..], name, value, other);
    }
  }

  lemma {:induction false} LookupWithout(ps: seq<Prop>, drop: set<string>, name: string)
    requires name !in drop
    ensures Lookup(Without(ps, drop), name) == Lookup(ps, name)
  {
    if ps != [] {
      LookupWithout(ps[1..], drop, name);
    }
  }

  lemma {:induction false} SetPropKeepsDistinct(ps: seq<Prop>, name: string, value: Value)
    requires DistinctNames(ps)
    ensures DistinctNames(SetProp(ps, name, value))
  {
    if ps != [] && ps[0].name != name {
      SetPropKeepsDistinct(ps[1..], name, value);
      SetPropNames(ps[1..], name, value);
      assert ps[0].name !in Names(ps[1..]);
    }
  }

  /** The shallow-merge law of `{...a, ...b}`: a key of `b` takes `b`'s value, any other key keeps `a`'s. */
  lemma {:induction false} LookupAssign(target: seq<Prop>, source: seq<Prop>, name: string)
    requires DistinctNames(source)
    ensures Lookup(Assign(target, source), name) ==
            if name in Names(source) then Lookup(source, name) else Lookup(target, name)
    decreases |source|
  {
    if source != [] {
      var t := SetProp(target, source[0].name, source[0].value);
      assert DistinctNames(source[1..]);
      LookupAssign(t, source[1..], name);
      LookupSetProp(target, source[0].name, source[0].value, name);
      if name == source[0].name {
        assert name !in Names(source[1..]);
      }
    }
  }

  /** Every key of the merged object comes from one of the two sides, and both sides' keys survive. */
  lemma {:induction false} AssignNames(target: seq<Prop>, source: seq<Prop>)
    ensures forall n :: n in Names(Assign(target, source)) <==> n in Names(target) || n in Names(source)
    decreases |source|
  {
    if source != [] {
      AssignNames(SetProp(target, source[0].name, source[0].value), source[1..]);
      SetPropNames(target, source[0].name, source[0].value);
      assert Names(source) == [source[0].name] + Names(source[1..]);
    }
  }

  /** ASCII lower-casing, as `toLocaleLowerCase` does for event-prop names. */
  function ToLower(s: string): (r: string)
    ensures |r| == |s|
    ensures forall i :: 0 <= i < |s| ==> r[i] == if 'A' <= s[i] <= 'Z' then (s[i] - 'A' + 'a') as char else s[i]
  {
    seq(|s|, i requires 0 <= i < |s| => if 'A' <= s[i] <= 'Z' then (s[i] - 'A' + 'a') as char else s[i])
  }

  predicate StartsWith(s: string, prefix: string)
  {
    |prefix| <= |s| && s[..|prefix|] == prefix
  }

  /** Calls into user code that the runtime makes, in the order it makes them. */
  datatype Event =
    | WillMount(inst: nat)                       // componentWillMount
    | DidMount(inst: nat)                        // componentDidMount
    | WillReceiveProps(inst: nat)                // componentWillReceiveProps(newProps, oldProps)
    | WillUpdate(inst: nat)                      // componentWillUpdate
    | Rerender(inst: nat, props: Value, state: Value) // forceUpdate, with the props and state it renders
    | Snapshot(inst: nat)                        // getSnapshotBeforeUpdate
    | DidUpdate(inst: nat)                       // componentDidUpdate
    | WillUnmount(inst: nat)                     // componentWillUnmount
    | Callback(fn: nat)                          // a setState callback
    | Handler(fn: nat, node: nat)                // an event handler, called on a DOM node
    | Compute(fn: nat)                           // a useMemo factory

  /** The log of user-code calls. */
  class Trace {
    var events: seq<Event>

    constructor ()
      ensures events == []
    {
      events := [];
    }

    method Record(e: Event)
      modifies this
      ensures events == old(events) + [e]
    {
      events := events + [e];
    }
  }

  /** Hands out identities for the objects the runtime creates. */
  class Heap {
    var next: nat

    constructor (first: nat)
      ensures next == first
    {
      next := first;
    }

    /** Reserves `n` consecutive identities starting at the returned one. */
    method Reserve(n: nat) returns (first: nat)
      modifies this
      ensures first == old(next) && next == old(next) + n
    {
      first := next;
      next := next + n;
    }
  }

  /** A call of a user function, identified by its `ref`, with arguments. */
  type Call = (nat, seq<Value>) -> Value
}
