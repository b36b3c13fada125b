/**
 * Text normalisation and shallow comparison (src/utils/index.js).
 */
module Utils {
  import opened JsValues

  /** A string or a number is rendered as a text node. */
  predicate IsReactText(v: Value)
  {
    v.Str? || v.Num?
  }

  /**
   * `wrapToVdom`: a string or number becomes `{type: REACT_TEXT, props: {content: v}}`,
   * two fresh objects with identities `alloc` (the element) and `alloc + 1` (its props);
   * every other value is returned as it is.
   */
  function WrapToVdom(v: Value, alloc: nat): (r: Value)
    ensures IsReactText(v) ==> r.El? && r.ref == alloc && r.elem.kind == TextKind
                               && r.elem.props == Obj(alloc + 1, [Prop("content", v)])
                               && r.elem.key == Undefined && r.elem.ref == Undefined
    ensures !IsReactText(v) ==> r == v
  {
    if IsReactText(v) then El(alloc, Element(TextKind, Obj(alloc + 1, [Prop("content", v)]), Undefined, Undefined))
    else v
  }

  /** Wrapping never yields text to be wrapped again, so wrapping twice changes nothing. */
  lemma WrapToVdomIdempotent(v: Value, alloc: nat, alloc': nat)
    ensures !IsReactText(WrapToVdom(v, alloc))
    ensures WrapToVdom(WrapToVdom(v, alloc), alloc') == WrapToVdom(v, alloc)
  {
  }

  /** The "empty object" a missing argument of shallowEqual defaults to. */
  function EmptyObject(): Value
  {
    Obj(0, [])
  }

  /**
   * The `for (let key in key1)` loop of shallowEqual, with its early return:
   * true when `test` holds at every index from `i` up to `n`, false at the first
   * index where it fails. `key1` is an ARRAY of key names, so the loop runs over
   * its indices "0" .. "n-1", not over the names (see IndexMatches).
   */
  function IndexLoop(test: nat -> bool, i: nat, n: nat): bool
    decreases n - i
  {
    if i >= n then true
    else if !test(i) then false
    else IndexLoop(test, i + 1, n)
  }

  /** The test inside the loop, for the index `j`: `obj2.hasOwnProperty(key) && obj1[key] === obj2[key]`. */
  predicate IndexMatches(a: Value, b: Value, j: nat)
  {
    var key := IndexName(j);
    HasOwn(b, key) && StrictEq(Get(a, key), Get(b, key))
  }

  /** The loop body of shallowEqual for the objects `a` and `b`. */
  function LoopTest(a: Value, b: Value): nat -> bool
  {
    (j: nat) => IndexMatches(a, b, j)
  }

  /**
   * `shallowEqual(obj1 = {}, obj2 = {})` as written. An undefined argument is
   * replaced by a fresh empty object, which is `===` to nothing.
   */
  function ShallowEqual(obj1: Value, obj2: Value): bool
  {
    if obj1 != Undefined && obj2 != Undefined && StrictEq(obj1, obj2) then true
    else
      var a := if obj1 == Undefined then EmptyObject() else obj1;
      var b := if obj2 == Undefined then EmptyObject() else obj2;
      if !IsObject(a) || !IsObject(b) then false
      else if |OwnKeys(a)| != |OwnKeys(b)| then false
      else IndexLoop(LoopTest(a, b), 0, |OwnKeys(a)|)
  }

  /** What the early-return loop computes, stated as a quantifier. */
  lemma {:induction false} IndexLoopAll(test: nat -> bool, i: nat, n: nat)
    ensures IndexLoop(test, i, n) <==> forall j :: i <= j < n ==> test(j)
    decreases n - i
  {
    if i < n {
      IndexLoopAll(test, i + 1, n);
    }
  }

  /** `===` arguments are shallow-equal (an undefined pair is handled by the next lemma). */
  lemma ShallowEqualIdentical(a: Value, b: Value)
    requires a != Undefined && StrictEq(a, b)
    ensures ShallowEqual(a, b)
  {
  }

  /** Two non-identical arguments one of which is not an object are never equal. */
  lemma ShallowEqualNonObject(a: Value, b: Value)
    requires !StrictEq(a, b) || a == Undefined || b == Undefined
    requires (!IsObject(a) && a != Undefined) || (!IsObject(b) && b != Undefined)
    ensures !ShallowEqual(a, b)
  {
  }

  /**
   * The meaning of shallowEqual as written, for two non-identical objects:
   * the same number n of own keys, and `b` owns the index names "0" .. "n-1"
   * with values `===` to `a`'s under those names.
   */
  lemma ShallowEqualDistinctObjects(a: Value, b: Value)
    requires IsObject(a) && IsObject(b) && !StrictEq(a, b)
    ensures ShallowEqual(a, b) <==>
            |OwnKeys(a)| == |OwnKeys(b)| &&
            forall j :: 0 <= j < |OwnKeys(a)| ==> IndexMatches(a, b, j)
  {
    var n := |OwnKeys(a)|;
    IndexLoopAll(LoopTest(a, b), 0, n);
    assert ShallowEqual(a, b) == (n == |OwnKeys(b)| && IndexLoop(LoopTest(a, b), 0, n));
    forall j: nat | j < n
      ensures LoopTest(a, b)(j) == IndexMatches(a, b, j)
    {
    }
  }

  /** Objects with different numbers of own keys are never equal. */
  lemma ShallowEqualKeyCount(a: Value, b: Value)
    requires IsObject(a) && IsObject(b) && !StrictEq(a, b)
    requires |OwnKeys(a)| != |OwnKeys(b)|
    ensures !ShallowEqual(a, b)
  {
  }

  /** A key name containing a character that is not a digit is never an index name. */
  lemma NonDigitNotIndexName(name: string, k: nat, j: nat)
    requires k < |name| && !('0' <= name[k] <= '9')
    ensures IndexName(j) != name
  {
    if |IndexName(j)| == |name| {
      assert IndexName(j)[k] != name[k];
    }
  }

  /**
   * Because the loop reads indices, two distinct non-empty objects whose keys
   * are ordinary names (none is all digits) are never shallow-equal, whatever
   * their values.
   */
  lemma NamedKeysNeverEqual(a: Value, b: Value)
    requires IsObject(a) && IsObject(b) && !StrictEq(a, b)
    requires |OwnKeys(a)| > 0
    requires forall n :: n in OwnKeys(b) ==> exists k :: 0 <= k < |n| && !('0' <= n[k] <= '9')
    ensures !ShallowEqual(a, b)
  {
    ShallowEqualDistinctObjects(a, b);
    forall n | n in OwnKeys(b)
      ensures n != IndexName(0)
    {
      var k :| 0 <= k < |n| && !('0' <= n[k] <= '9');
      NonDigitNotIndexName(n, k, 0);
    }
    assert !IndexMatches(a, b, 0);
  }

  /** Two distinct `{a: 1}` objects compare unequal. */
  lemma TwoSingleKeyObjectsUnequal()
    ensures !ShallowEqual(Obj(1, [Prop("a", Num(1))]), Obj(2, [Prop("a", Num(1))]))
  {
    var b := Obj(2, [Prop("a", Num(1))]);
    assert OwnKeys(b) == ["a"];
    assert forall n :: n in OwnKeys(b) ==> 0 < |n| && !('0' <= n[0] <= '9');
    NamedKeysNeverEqual(Obj(1, [Prop("a", Num(1))]), b);
  }

  /** Two distinct `{}` objects compare equal, and so do two missing arguments. */
  lemma EmptyObjectsEqual()
    ensures ShallowEqual(Obj(1, []), Obj(2, []))
    ensures ShallowEqual(Undefined, Undefined)
    ensures ShallowEqual(Undefined, Obj(3, []))
  {
  }

  /** Arrays own their index names, so two distinct arrays with `===` elements compare equal. */
  lemma {:induction false} EqualArraysEqual(r: nat, s: nat, es: seq<Value>, fs: seq<Value>)
    requires r != s && |es| == |fs|
    requires forall i :: 0 <= i < |es| ==> StrictEq(es[i], fs[i])
    ensures ShallowEqual(Arr(r, es), Arr(s, fs))
  {
    var a, b := Arr(r, es), Arr(s, fs);
    forall j | 0 <= j < |es|
      ensures IndexMatches(a, b, j)
    {
      IndexedLookup(es, j);
      IndexedLookup(fs, j);
      assert Names(IndexedProps(fs))[j] == IndexName(j);
    }
    ShallowEqualDistinctObjects(a, b);
  }

  /** Looking an index name up in an array's properties gives the element. */
  lemma IndexedLookup(es: seq<Value>, j: nat)
    requires j < |es|
    ensures Lookup(IndexedProps(es), IndexName(j)) == es[j]
  {
    IndexNameInjective(j);
    FirstLookup(IndexedProps(es), j);
  }

  /** Index names of different numbers differ. */
  lemma IndexNameInjective(j: nat)
    ensures forall i: nat :: i != j ==> IndexName(i) != IndexName(j)
  {
    forall i: nat | i != j
      ensures IndexName(i) != IndexName(j)
    {
      IndexNamesDiffer(i, j);
    }
  }

  lemma {:induction false} IndexNamesDiffer(i: nat, j: nat)
    requires i != j
    ensures IndexName(i) != IndexName(j)
    decreases i + j
  {
    var si, sj := IndexName(i), IndexName(j);
    IndexNameLength(i);
    IndexNameLength(j);
    if i < 10 && j < 10 {
      assert si[0] == DigitChar(i) && sj[0] == DigitChar(j);
      if si[0] == sj[0] { DigitCharInjective(i, j); }
    } else if i < 10 || j < 10 {
      assert |si| != |sj|;
    } else if i % 10 != j % 10 {
      assert si[|si| - 1] == DigitChar(i % 10) && sj[|sj| - 1] == DigitChar(j % 10);
      if DigitChar(i % 10) == DigitChar(j % 10) { DigitCharInjective(i % 10, j % 10); }
    } else {
      IndexNamesDiffer(i / 10, j / 10);
      assert si[..|si| - 1] == IndexName(i / 10) && sj[..|sj| - 1] == IndexName(j / 10);
    }
  }

  lemma DigitCharInjective(d: nat, e: nat)
    requires d < 10 && e < 10 && DigitChar(d) == DigitChar(e)
    ensures d == e
  {
  }

  /** A one-digit number has a one-character name, a larger one a longer name. */
  lemma IndexNameLength(n: nat)
    ensures (n < 10) == (|IndexName(n)| == 1)
  {
    if n >= 10 {
      assert |IndexName(n)| == |IndexName(n / 10)| + 1;
    }
  }

  /** The lookup finds the j-th property when no earlier property has its name. */
  lemma {:induction false} FirstLookup(ps: seq<Prop>, j: nat)
    requires j < |ps|
    requires forall i :: 0 <= i < j ==> ps[i].name != ps[j].name
    ensures Lookup(ps, ps[j].name) == ps[j].value
  {
    if j > 0 {
      FirstLookup(ps[1..], j - 1);
    }
  }

  /**
   * shallowEqual is not symmetric: `{x: 1}` against `{"0": undefined}` reads
   * `a["0"]`, which is undefined, and finds it `===` to `b["0"]`; the other way
   * round `b` must own "0" and `{x: 1}` does not.
   */
  lemma ShallowEqualAsymmetric()
    ensures ShallowEqual(Obj(1, [Prop("x", Num(1))]), Obj(2, [Prop("0", Undefined)]))
    ensures !ShallowEqual(Obj(2, [Prop("0", Undefined)]), Obj(1, [Prop("x", Num(1))]))
  {
    var a, b := Obj(1, [Prop("x", Num(1))]), Obj(2, [Prop("0", Undefined)]);
    assert IndexName(0) == "0";
    ShallowEqualDistinctObjects(b, a);
  }
}
