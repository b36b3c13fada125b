/**
 * The hook slot store of src/react-dom.js: the global `hookState` array,
 * indexed by call order through the `hookIndex` cursor, and the hooks that
 * read and overwrite its slots.
 */
module Hooks {
  import opened JsValues
  import opened Utils
  import React

  /** `hookState[i]`: a slot never written reads as undefined. */
  function SlotAt(s: seq<Value>, i: nat): Value
  {
    if i < |s| then s[i] else Undefined
  }

  /** `hookState[i] = v`: writing past the end leaves holes that read as undefined. */
  function Written(s: seq<Value>, i: nat, v: Value): (r: seq<Value>)
    ensures |r| == if i < |s| then |s| else i + 1
    ensures forall j: nat :: SlotAt(r, j) == if j == i then v else SlotAt(s, j)
  {
    if i < |s| then s[i := v] else s + seq(i - |s|, _ => Undefined) + [v]
  }

  /** Writing a slot the value it already holds, inside the array, changes nothing. */
  lemma WrittenSame(s: seq<Value>, i: nat)
    requires i < |s|
    ensures Written(s, i, SlotAt(s, i)) == s
  {
  }

  /** `const [a, b] = slot`: arrays and strings are iterable, every other value throws. */
  function Destructure(slot: Value): Outcome<(Value, Value)>
  {
    match slot
    case Arr(_, es) => Done((if |es| > 0 then es[0] else Undefined, if |es| > 1 then es[1] else Undefined))
    case Str(s) => Done((if |s| > 0 then Str([s[0]]) else Undefined, if |s| > 1 then Str([s[1]]) else Undefined))
    case _ => Thrown
  }

  /** `v[j]` on a value that is not undefined or null. */
  function ReadIndex(v: Value, j: nat): Value
  {
    match v
    case Str(s) => if j < |s| then Str([s[j]]) else Undefined
    case _ => Get(v, IndexName(j))
  }

  /** The callback of `deps.every`, at index `j`: `item === oldDeps[index]`. */
  predicate DepMatches(deps: seq<Value>, oldDeps: Value, j: nat)
  {
    j < |deps| && StrictEq(deps[j], ReadIndex(oldDeps, j))
  }

  function DepTest(deps: seq<Value>, oldDeps: Value): nat -> bool
  {
    (j: nat) => DepMatches(deps, oldDeps, j)
  }

  /**
   * `deps.every((item, index) => item === oldDeps[index])`: the walk is over
   * the NEW deps only; reading an index of undefined or null old deps throws,
   * which happens only when there is an index to read.
   */
  function EverySame(deps: seq<Value>, oldDeps: Value): Outcome<bool>
  {
    if deps == [] then Done(true)
    else if oldDeps.Undefined? || oldDeps.Null? then Thrown
    else Done(IndexLoop(DepTest(deps, oldDeps), 0, |deps|))
  }

  /**
   * The comparison succeeds iff every new dependency is `===` to the old
   * dependency at its index, and it throws iff there is a new dependency and
   * no old dependency list to index.
   */
  lemma EverySameMeaning(deps: seq<Value>, oldDeps: Value)
    ensures EverySame(deps, oldDeps).Thrown? <==> deps != [] && (oldDeps.Undefined? || oldDeps.Null?)
    ensures EverySame(deps, oldDeps) == Done(true) <==>
            deps == []
            || (!(oldDeps.Undefined? || oldDeps.Null?)
                && forall j :: 0 <= j < |deps| ==> StrictEq(deps[j], ReadIndex(oldDeps, j)))
  {
    IndexLoopAll(DepTest(deps, oldDeps), 0, |deps|);
    forall j: nat | j < |deps|
      ensures DepTest(deps, oldDeps)(j) == StrictEq(deps[j], ReadIndex(oldDeps, j))
    {
    }
  }

  /** Stored deps `[d0, …]` compare equal to new deps `===` to them position by position. */
  lemma EqualDepsSame(deps: seq<Value>, r: nat, stored: seq<Value>)
    requires |deps| <= |stored|
    requires forall j :: 0 <= j < |deps| ==> StrictEq(deps[j], stored[j])
    ensures EverySame(deps, Arr(r, stored)) == Done(true)
  {
    forall j | 0 <= j < |deps|
      ensures StrictEq(deps[j], ReadIndex(Arr(r, stored), j))
    {
      IndexedLookup(stored, j);
    }
    EverySameMeaning(deps, Arr(r, stored));
  }

  /** New deps longer than the stored ones still count as unchanged when the extra ones are undefined. */
  lemma LongerUndefinedDepsSame(r: nat)
    ensures EverySame([Undefined], Arr(r, [])) == Done(true)
  {
    EverySameMeaning([Undefined], Arr(r, []));
    assert IndexName(0) == "0";
  }

  /** What useMemo and useCallback do with the current slot. */
  datatype Decision = Keep(value: Value) | Recompute | Fail

  /**
   * The shared branch structure of useMemo and useCallback: a falsy slot is
   * filled; a truthy one is destructured into `[old, oldDeps]` (or throws),
   * then `deps.every` decides between handing back `old` and recomputing.
   */
  function DepsDecision(slot: Value, deps: Value): Decision
  {
    if !Truthy(slot) then Recompute
    else match Destructure(slot)
      case Thrown => Fail
      case Done(pair) =>
        if !deps.Arr? then Fail
        else match EverySame(deps.elems, pair.1)
          case Thrown => Fail
          case Done(same) => if same then Keep(pair.0) else Recompute
  }

  /**
   * A slot as useMemo or useCallback leaves it, `[value, deps]`, hands `value`
   * back to every later call whose deps are `===` to the stored ones.
   */
  lemma DepsDecisionKeeps(id: nat, value: Value, r: nat, stored: seq<Value>, s: nat, deps: seq<Value>)
    requires |deps| <= |stored|
    requires forall j :: 0 <= j < |deps| ==> StrictEq(deps[j], stored[j])
    ensures DepsDecision(Arr(id, [value, Arr(r, stored)]), Arr(s, deps)) == Keep(value)
  {
    EqualDepsSame(deps, r, stored);
  }

  /** An empty dependency list never changes: after the first call the stored value is kept forever. */
  lemma EmptyDepsKeep(id: nat, value: Value, oldDeps: Value, s: nat)
    ensures DepsDecision(Arr(id, [value, oldDeps]), Arr(s, [])) == Keep(value)
  {
  }

  /** A recomputation on a filled slot means some new dependency differs from the stored one at its index. */
  lemma RecomputeMeansChanged(slot: Value, deps: Value)
    requires Truthy(slot) && DepsDecision(slot, deps).Recompute?
    ensures deps.Arr? && Destructure(slot).Done?
    ensures exists j :: 0 <= j < |deps.elems| && !StrictEq(deps.elems[j], ReadIndex(Destructure(slot).value.1, j))
  {
    EverySameMeaning(deps.elems, Destructure(slot).value.1);
  }

  /** The `hookState` array, the `hookIndex` cursor, and the `scheduleUpdate` that render installs. */
  class HookStore {
    var slots: seq<Value>
    var cursor: nat
    /** `render` has run, so `scheduleUpdate` is a function. */
    var scheduled: bool
    /** How many re-diffs `scheduleUpdate` has started. */
    var updates: nat

    constructor ()
      ensures slots == [] && cursor == 0 && !scheduled && updates == 0
    {
      slots := [];
      cursor := 0;
      scheduled := false;
      updates := 0;
    }

    /** `render` assigns `scheduleUpdate`. */
    method Install()
      modifies this
      ensures scheduled && slots == old(slots) && cursor == old(cursor) && updates == old(updates)
    {
      scheduled := true;
    }

    /**
     * `scheduleUpdate()`: reset the cursor to 0 and re-diff the root. Before
     * any render `scheduleUpdate` is undefined and calling it throws.
     */
    method ScheduleUpdate() returns (r: Outcome<()>)
      modifies this
      ensures r.Thrown? <==> !old(scheduled)
      ensures slots == old(slots) && scheduled == old(scheduled)
      ensures r.Done? ==> cursor == 0 && updates == old(updates) + 1
      ensures r.Thrown? ==> cursor == old(cursor) && updates == old(updates)
    {
      if !scheduled {
        return Thrown;
      }
      cursor := 0;
      updates := updates + 1;
      r := Done(());
    }

    /**
     * `useState(initialState)`: the slot becomes `slot || initialState`, that
     * value is returned, and the setter is bound to the slot's index.
     */
    method UseState(initial: Value) returns (value: Value, setter: nat)
      modifies this
      ensures var v0 := SlotAt(old(slots), old(cursor));
              value == (if Truthy(v0) then v0 else initial)
      ensures slots == Written(old(slots), old(cursor), value)
      ensures setter == old(cursor) && cursor == old(cursor) + 1
      ensures scheduled == old(scheduled) && updates == old(updates)
    {
      var v0 := SlotAt(slots, cursor);
      value := if Truthy(v0) then v0 else initial;
      slots := Written(slots, cursor, value);
      setter := cursor;
      cursor := cursor + 1;
    }

    /** The useState setter bound to slot `index`: overwrite that slot only, then scheduleUpdate. */
    method SetState(index: nat, newState: Value) returns (r: Outcome<()>)
      modifies this
      ensures slots == Written(old(slots), index, newState)
      ensures r.Thrown? <==> !old(scheduled)
      ensures scheduled == old(scheduled)
      ensures r.Done? ==> cursor == 0 && updates == old(updates) + 1
      ensures r.Thrown? ==> cursor == old(cursor) && updates == old(updates)
    {
      slots := Written(slots, index, newState);
      r := ScheduleUpdate();
    }

    /** `useReducer(reducer, initialState)`: seed a falsy slot, return it, bind dispatch to its index. */
    method UseReducer(initial: Value) returns (value: Value, dispatch: nat)
      modifies this
      ensures var v0 := SlotAt(old(slots), old(cursor));
              && value == (if Truthy(v0) then v0 else initial)
              && slots == (if Truthy(v0) then old(slots) else Written(old(slots), old(cursor), initial))
      ensures dispatch == old(cursor) && cursor == old(cursor) + 1
      ensures scheduled == old(scheduled) && updates == old(updates)
    {
      if !Truthy(SlotAt(slots, cursor)) {
        slots := Written(slots, cursor, initial);
      }
      value := SlotAt(slots, cursor);
      dispatch := cursor;
      cursor := cursor + 1;
    }

    /**
     * The useReducer dispatch bound to slot `index`: store
     * `reducer(old, action)`, or `action` itself without a reducer, then
     * scheduleUpdate.
     */
    method Dispatch(index: nat, reducer: Option<nat>, action: Value, call: Call) returns (r: Outcome<()>)
      modifies this
      ensures slots == Written(old(slots), index,
                               if reducer.Some? then call(reducer.value, [SlotAt(old(slots), index), action]) else action)
      ensures r.Thrown? <==> !old(scheduled)
      ensures scheduled == old(scheduled)
      ensures r.Done? ==> cursor == 0 && updates == old(updates) + 1
      ensures r.Thrown? ==> cursor == old(cursor) && updates == old(updates)
    {
      var next := if reducer.Some? then call(reducer.value, [SlotAt(slots, index), action]) else action;
      slots := Written(slots, index, next);
      r := ScheduleUpdate();
    }

    /** `useRef()`: a falsy slot gets a fresh `{current: null}`; the stored box is returned. */
    method UseRef(heap: Heap) returns (box: Value)
      modifies this, heap
      ensures var v0 := SlotAt(old(slots), old(cursor));
              && (Truthy(v0) ==> box == v0 && slots == old(slots) && heap.next == old(heap.next))
              && (!Truthy(v0) ==> box == Obj(old(heap.next), [Prop("current", Null)])
                                  && slots == Written(old(slots), old(cursor), box)
                                  && heap.next == old(heap.next) + 1)
      ensures cursor == old(cursor) + 1
      ensures scheduled == old(scheduled) && updates == old(updates)
    {
      if Truthy(SlotAt(slots, cursor)) {
        box := SlotAt(slots, cursor);
      } else {
        var id := heap.Reserve(1);
        box := Obj(id, [Prop("current", Null)]);
        slots := Written(slots, cursor, box);
      }
      cursor := cursor + 1;
    }

    /**
     * `useMemo(factory, deps)`: hand back the stored value when the deps are
     * unchanged; otherwise call `factory` once and store `[value, deps]` as a
     * fresh array. A thrown TypeError leaves everything as it was.
     */
    method UseMemo(factory: nat, deps: Value, call: Call, trace: Trace, heap: Heap) returns (r: Outcome<Value>)
      modifies this, trace, heap
      ensures var d := DepsDecision(SlotAt(old(slots), old(cursor)), deps);
              && (d.Fail? ==> r.Thrown? && slots == old(slots) && cursor == old(cursor)
                              && trace.events == old(trace.events) && heap.next == old(heap.next))
              && (d.Keep? ==> r == Done(d.value) && slots == old(slots) && cursor == old(cursor) + 1
                              && trace.events == old(trace.events) && heap.next == old(heap.next))
              && (d.Recompute? ==> r == Done(call(factory, []))
                                   && trace.events == old(trace.events) + [Compute(factory)]
                                   && slots == Written(old(slots), old(cursor), Arr(old(heap.next), [r.value, deps]))
                                   && cursor == old(cursor) + 1 && heap.next == old(heap.next) + 1)
      ensures scheduled == old(scheduled) && updates == old(updates)
    {
      var d := DepsDecision(SlotAt(slots, cursor), deps);
      if d.Fail? {
        return Thrown;
      } else if d.Keep? {
        cursor := cursor + 1;
        return Done(d.value);
      }
      var value := call(factory, []);
      trace.Record(Compute(factory));
      var id := heap.Reserve(1);
      slots := Written(slots, cursor, Arr(id, [value, deps]));
      cursor := cursor + 1;
      r := Done(value);
    }

    /** `useCallback(callback, deps)`: useMemo's rule, storing and returning `callback` itself without calling it. */
    method UseCallback(callback: Value, deps: Value, heap: Heap) returns (r: Outcome<Value>)
      modifies this, heap
      ensures var d := DepsDecision(SlotAt(old(slots), old(cursor)), deps);
              && (d.Fail? ==> r.Thrown? && slots == old(slots) && cursor == old(cursor) && heap.next == old(heap.next))
              && (d.Keep? ==> r == Done(d.value) && slots == old(slots) && cursor == old(cursor) + 1
                              && heap.next == old(heap.next))
              && (d.Recompute? ==> r == Done(callback)
                                   && slots == Written(old(slots), old(cursor), Arr(old(heap.next), [callback, deps]))
                                   && cursor == old(cursor) + 1 && heap.next == old(heap.next) + 1)
      ensures scheduled == old(scheduled) && updates == old(updates)
    {
      var d := DepsDecision(SlotAt(slots, cursor), deps);
      if d.Fail? {
        return Thrown;
      } else if d.Keep? {
        cursor := cursor + 1;
        return Done(d.value);
      }
      var id := heap.Reserve(1);
      slots := Written(slots, cursor, Arr(id, [callback, deps]));
      cursor := cursor + 1;
      r := Done(callback);
    }

    /** `useContext(context)`: the context's current value; no slot and no cursor move. */
    method UseContext(cells: React.ContextCells, ctx: nat) returns (v: Value)
      ensures ctx in cells.current ==> v == cells.current[ctx]
      ensures ctx !in cells.current ==> v == Undefined
    {
      v := cells.CurrentValue(ctx);
    }
  }
}
