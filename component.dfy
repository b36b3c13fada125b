/**
 * The class-component update coordinator of src/component.js: the global
 * update queue, the per-instance Updater, the next-state fold, the shouldUpdate
 * pipeline and PureComponent's comparison.
 */
module Component {
  import opened JsValues
  import opened Utils

  /** `classInstance.shouldComponentUpdate`: absent, a user method, or PureComponent's. */
  datatype ShouldHook = NoShouldHook | UserShould(fn: nat) | PureShould

  /**
   * The lifecycle members a component class defines. `derive` is the static
   * `getDerivedStateFromProps`; a user `shouldComponentUpdate(nextProps, nextState)`
   * is called with the instance's props and state as two further arguments, so
   * that the model sees everything the method can read. `render` is called with
   * the instance's props, state and context; `init`, when the class has its own
   * constructor, gives the initial state from the props.
   */
  datatype Lifecycle = Lifecycle(
    render: nat,
    init: Option<nat>,
    should: ShouldHook,
    willUpdate: bool,
    derive: Option<nat>,
    willMount: bool,
    didMount: bool,
    willReceiveProps: bool,
    willUnmount: bool,
    snapshot: bool,
    didUpdate: bool,
    contextType: Option<nat>,
    defaultProps: Value)

  /**
   * `PureComponent.shouldComponentUpdate`: update when props or state are not
   * shallow-equal. Identical props and state skip the render; on the setState
   * path nextProps is undefined, which shallowEqual's default turns into `{}`,
   * so an instance whose props own a key always renders again.
   */
  function PureShouldComponentUpdate(props: Value, state: Value, nextProps: Value, nextState: Value): (r: bool)
    ensures props != Undefined && StrictEq(props, nextProps) && state != Undefined && StrictEq(state, nextState) ==> !r
    ensures IsObject(props) && |OwnKeys(props)| > 0 && nextProps == Undefined ==> r
  {
    !ShallowEqual(props, nextProps) || !ShallowEqual(state, nextState)
  }

  /** The `willUpdate` flag of shouldUpdate: true unless shouldComponentUpdate returns a falsy value. */
  function WillRender(hooks: Lifecycle, props: Value, state: Value, nextProps: Value, newState: Value, call: Call): bool
  {
    match hooks.should
    case NoShouldHook => true
    case UserShould(fn) => Truthy(call(fn, [nextProps, newState, props, state]))
    case PureShould => PureShouldComponentUpdate(props, state, nextProps, newState)
  }

  /** The state shouldUpdate leaves: getDerivedStateFromProps' truthy result, else the old state; without it, newState. */
  function DerivedState(hooks: Lifecycle, state: Value, nextProps: Value, newState: Value, call: Call): (r: Value)
    ensures hooks.derive.None? ==> r == newState
    ensures hooks.derive.Some? ==> r == state || r == call(hooks.derive.value, [nextProps, state])
    ensures hooks.derive.Some? ==> (r == call(hooks.derive.value, [nextProps, state]) || r == state)
                                   && (Truthy(call(hooks.derive.value, [nextProps, state])) ==> r == call(hooks.derive.value, [nextProps, state]))
                                   && (!Truthy(call(hooks.derive.value, [nextProps, state])) ==> r == state)
  {
    match hooks.derive
    case None => newState
    case Some(fn) =>
      var derived := call(fn, [nextProps, state]);
      if Truthy(derived) then derived else state
  }

  /** The user calls shouldUpdate makes: componentWillUpdate, then forceUpdate with the new props and state. */
  function ShouldUpdateEvents(id: nat, hooks: Lifecycle, willRender: bool, props: Value, state: Value): seq<Event>
  {
    (if willRender && hooks.willUpdate then [WillUpdate(id)] else [])
    + (if willRender then [Rerender(id, props, state)] else [])
  }

  /** One step of getState: a function entry is called with the running state; the result is spread over it. */
  function MergeStep(state: Value, entry: Value, call: Call, id: nat): (r: Value)
    ensures r.Obj? && r.ref == id
  {
    var next := if entry.Func? then call(entry.ref, [state]) else entry;
    Obj(id, Assign(Spread(state), Spread(next)))
  }

  /** A merge of one pending entry into the running state, creating the object with the given identity. */
  type Merge = (Value, Value, nat) -> Value

  /**
   * The left fold of getState's `forEach` over the pending entries, for any
   * merge: the i-th merge creates a fresh object with identity `alloc + i`.
   */
  function Fold(state: Value, pending: seq<Value>, merge: Merge, alloc: nat): Value
    decreases |pending|
  {
    if pending == [] then state
    else Fold(merge(state, pending[0], alloc), pending[1..], merge, alloc + 1)
  }

  /** The merge getState performs, for a given oracle of user functions. */
  function Merger(call: Call): Merge
  {
    (state: Value, entry: Value, id: nat) => MergeStep(state, entry, call, id)
  }

  /** The state getState computes: the fold of MergeStep over the queue. */
  function NextState(state: Value, pending: seq<Value>, call: Call, alloc: nat): Value
  {
    Fold(state, pending, Merger(call), alloc)
  }

  /** Folding a longer queue is folding its prefix, then one more merge. */
  lemma {:induction false} FoldSnoc(state: Value, pending: seq<Value>, entry: Value, merge: Merge, alloc: nat)
    ensures Fold(state, pending + [entry], merge, alloc) == merge(Fold(state, pending, merge, alloc), entry, alloc + |pending|)
    decreases |pending|
  {
    if pending != [] {
      assert (pending + [entry])[1..] == pending[1..] + [entry];
      FoldSnoc(merge(state, pending[0], alloc), pending[1..], entry, merge, alloc + 1);
    }
  }

  /** Two queued batches fold as one: the second continues from the state the first produced. */
  lemma {:induction false} FoldAppend(state: Value, p: seq<Value>, q: seq<Value>, merge: Merge, alloc: nat)
    ensures Fold(state, p + q, merge, alloc) == Fold(Fold(state, p, merge, alloc), q, merge, alloc + |p|)
    decreases |p|
  {
    if p == [] {
      assert p + q == q;
    } else {
      assert (p + q)[0] == p[0] && (p + q)[1..] == p[1..] + q;
      FoldAppend(merge(state, p[0], alloc), p[1..], q, merge, alloc + 1);
    }
  }

  /** getState's step: one more entry is one more MergeStep, at the next identity. */
  lemma NextStateSnoc(state: Value, pending: seq<Value>, entry: Value, call: Call, alloc: nat)
    ensures NextState(state, pending + [entry], call, alloc)
         == MergeStep(NextState(state, pending, call, alloc), entry, call, alloc + |pending|)
  {
    FoldSnoc(state, pending, entry, Merger(call), alloc);
  }

  /** Two setState batches queued one after the other fold as one queue. */
  lemma NextStateAppend(state: Value, p: seq<Value>, q: seq<Value>, call: Call, alloc: nat)
    ensures NextState(state, p + q, call, alloc) == NextState(NextState(state, p, call, alloc), q, call, alloc + |p|)
  {
    FoldAppend(state, p, q, Merger(call), alloc);
  }

  /** After a non-empty queue the state is a fresh object: the last merge's. */
  lemma {:induction false} NextStateFresh(state: Value, pending: seq<Value>, call: Call, alloc: nat)
    requires pending != []
    ensures var r := NextState(state, pending, call, alloc); r.Obj? && r.ref == alloc + |pending| - 1
  {
    var init := pending[..|pending| - 1];
    assert pending == init + [pending[|pending| - 1]];
    NextStateSnoc(state, init, pending[|pending| - 1], call, alloc);
  }

  /** With nothing pending the state object is returned as it is, not copied. */
  lemma NextStateEmpty(state: Value, call: Call, alloc: nat)
    ensures NextState(state, [], call, alloc) == state
  {
  }

  /**
   * The shallow-merge law of one getState step: the entry (or, for a function
   * entry, what it returns when called with the running state) wins on its own
   * keys, and every other key keeps the running state's value.
   */
  lemma MergeStepLookup(state: Value, entry: Value, call: Call, id: nat, name: string)
    requires !state.Str?
    requires var next := if entry.Func? then call(entry.ref, [state]) else entry;
             next.Obj? && DistinctNames(next.props)
    ensures var next := if entry.Func? then call(entry.ref, [state]) else entry;
            Get(MergeStep(state, entry, call, id), name) == if HasOwn(next, name) then Get(next, name) else Get(state, name)
  {
    var next := if entry.Func? then call(entry.ref, [state]) else entry;
    assert MergeStep(state, entry, call, id) == Obj(id, Assign(OwnProps(state), next.props));
    LookupAssign(OwnProps(state), next.props, name);
  }

  lemma AppendAssoc<T>(a: seq<T>, b: seq<T>, c: seq<T>)
    ensures (a + b) + c == a + (b + c)
  {
  }

  /** The fields updateComponent reads and writes: an updater's queues and nextProps, its instance's props and state. */
  datatype Slot = Slot(pending: seq<Value>, callbacks: seq<nat>, nextProps: Value, props: Value, state: Value)

  /** A slot after updateComponent, the user calls it made, and the allocator after it. */
  datatype Stepped = Stepped(slot: Slot, events: seq<Event>, alloc: nat)

  /**
   * `updateComponent()` on the fields of one updater whose instance has the
   * given lifecycle and identity: nothing happens unless nextProps is truthy
   * or states are pending; otherwise the folded state goes through
   * shouldUpdate, the callbacks run once each in submission order, and both
   * queues are emptied. nextProps is never cleared.
   */
  function UpdateStep(hooks: Lifecycle, id: nat, s: Slot, call: Call, alloc: nat): (r: Stepped)
    ensures !Truthy(s.nextProps) && s.pending == [] ==> r == Stepped(s, [], alloc)
    ensures Truthy(s.nextProps) || s.pending != [] ==>
              && r.slot.pending == [] && r.slot.callbacks == [] && r.slot.nextProps == s.nextProps
              && r.alloc == alloc + |s.pending|
  {
    if Truthy(s.nextProps) || |s.pending| > 0 then
      var newState := NextState(s.state, s.pending, call, alloc);
      var will := WillRender(hooks, s.props, s.state, s.nextProps, newState, call);
      var props' := if Truthy(s.nextProps) then s.nextProps else s.props;
      var state' := DerivedState(hooks, s.state, s.nextProps, newState, call);
      Stepped(Slot([], [], s.nextProps, props', state'),
              ShouldUpdateEvents(id, hooks, will, props', state') + CallbackEvents(s.callbacks), alloc + |s.pending|)
    else Stepped(s, [], alloc)
  }

  /** A class-component instance: the fields shouldUpdate and the reconciler read and write. */
  class Instance {
    const id: nat
    const cls: nat
    const hooks: Lifecycle
    var props: Value
    var state: Value
    var context: Value
    var updater: Updater?

    /** `new Component(props)`: the constructor gives `state` (`{}` unless the class sets one) and an Updater. */
    constructor (id: nat, cls: nat, hooks: Lifecycle, props: Value, state: Value)
      ensures this.id == id && this.cls == cls && this.hooks == hooks
      ensures this.props == props && this.state == state && this.context == Undefined
      ensures Linked() && fresh(updater)
      ensures updater.pendingStates == [] && updater.callbacks == [] && updater.nextProps == Undefined
    {
      this.id := id;
      this.cls := cls;
      this.hooks := hooks;
      this.props := props;
      this.state := state;
      this.context := Undefined;
      new;
      updater := new Updater(this);
    }

    /** The instance and its updater point at each other. */
    ghost predicate Linked()
      reads this, updater
    {
      updater != null && updater.instance == this
    }

    /** `setState(partialState, callback)`: hands both to the updater. */
    method SetState(partialState: Value, callback: Value, queue: UpdateQueue, trace: Trace, call: Call, heap: Heap)
      requires Linked()
      modifies this, updater, queue, trace, heap
      ensures Linked() && updater == old(updater)
      ensures old(queue.isBatchingUpdate) ==>
                queue.updaters == old(queue.updaters) + [updater]
                && updater.pendingStates == old(updater.pendingStates) + [partialState]
                && updater.callbacks == old(updater.callbacks) + (if callback.Func? then [callback.ref] else [])
                && props == old(props) && state == old(state) && trace.events == old(trace.events)
      ensures !old(queue.isBatchingUpdate) ==>
                var pending := old(updater.pendingStates) + [partialState];
                var newState := NextState(old(state), pending, call, old(heap.next));
                var will := WillRender(hooks, old(props), old(state), Undefined, newState, call);
                var state' := DerivedState(hooks, old(state), Undefined, newState, call);
                && queue.updaters == old(queue.updaters)
                && updater.pendingStates == [] && updater.callbacks == []
                && props == old(props) && state == state'
                && trace.events == old(trace.events)
                     + ShouldUpdateEvents(id, hooks, will, old(props), state')
                     + CallbackEvents(old(updater.callbacks) + (if callback.Func? then [callback.ref] else []))
      ensures updater.nextProps == Undefined && updater.Valid()
    {
      updater.AddState(partialState, callback, queue, trace, call, heap);
    }
  }

  /** `Updater`: the queues of one instance. */
  class Updater {
    const instance: Instance
    var pendingStates: seq<Value>
    var callbacks: seq<nat>
    var nextProps: Value

    constructor (instance: Instance)
      ensures this.instance == instance
      ensures pendingStates == [] && callbacks == [] && nextProps == Undefined
    {
      this.instance := instance;
      pendingStates := [];
      callbacks := [];
      nextProps := Undefined;
    }

    /**
     * `addState(partialState, callback)`: queue the partial state, queue the
     * callback only when it is a function, then emitUpdate() once -- with no
     * argument, so nextProps becomes undefined.
     */
    method AddState(partialState: Value, callback: Value, queue: UpdateQueue, trace: Trace, call: Call, heap: Heap)
      modifies this, instance, queue, trace, heap
      ensures nextProps == Undefined && instance.updater == old(instance.updater) && Valid()
      ensures old(queue.isBatchingUpdate) ==>
                queue.updaters == old(queue.updaters) + [this]
                && queue.isBatchingUpdate
                && pendingStates == old(pendingStates) + [partialState]
                && callbacks == old(callbacks) + (if callback.Func? then [callback.ref] else [])
                && instance.props == old(instance.props) && instance.state == old(instance.state)
                && trace.events == old(trace.events) && heap.next == old(heap.next)
      ensures !old(queue.isBatchingUpdate) ==>
                var pending := old(pendingStates) + [partialState];
                var newState := NextState(old(instance.state), pending, call, old(heap.next));
                var will := WillRender(instance.hooks, old(instance.props), old(instance.state), Undefined, newState, call);
                var state' := DerivedState(instance.hooks, old(instance.state), Undefined, newState, call);
                && queue.updaters == old(queue.updaters) && !queue.isBatchingUpdate
                && pendingStates == [] && callbacks == []
                && instance.props == old(instance.props) && instance.state == state'
                && trace.events == old(trace.events)
                     + ShouldUpdateEvents(instance.id, instance.hooks, will, old(instance.props), state')
                     + CallbackEvents(old(callbacks) + (if callback.Func? then [callback.ref] else []))
    {
      pendingStates := pendingStates + [partialState];
      if callback.Func? {
        callbacks := callbacks + [callback.ref];
      }
      ghost var pending, queued := pendingStates, callbacks;
      ghost var batching := queue.isBatchingUpdate;
      EmitUpdate(Undefined, queue, trace, call, heap);
      if !batching {
        ghost var newState := NextState(old(instance.state), pending, call, old(heap.next));
        ghost var will := WillRender(instance.hooks, old(instance.props), old(instance.state), Undefined, newState, call);
        AppendAssoc(old(trace.events), ShouldUpdateEvents(instance.id, instance.hooks, will, instance.props, instance.state),
                    CallbackEvents(queued));
      }
    }

    /**
     * `emitUpdate(nextProps)`: always store nextProps; while batching only queue
     * this updater, otherwise update the component now.
     */
    method EmitUpdate(nextProps: Value, queue: UpdateQueue, trace: Trace, call: Call, heap: Heap)
      modifies this, instance, queue, trace, heap
      ensures this.nextProps == nextProps && instance.updater == old(instance.updater)
      ensures queue.isBatchingUpdate == old(queue.isBatchingUpdate)
      ensures old(queue.isBatchingUpdate) ==>
                queue.updaters == old(queue.updaters) + [this]
                && pendingStates == old(pendingStates) && callbacks == old(callbacks)
                && instance.props == old(instance.props) && instance.state == old(instance.state)
                && trace.events == old(trace.events) && heap.next == old(heap.next)
      ensures !old(queue.isBatchingUpdate) ==>
                queue.updaters == old(queue.updaters)
                && UpdatedAs(trace, heap, old(pendingStates), old(callbacks), nextProps, old(instance.props),
                             old(instance.state), old(trace.events), old(heap.next), call)
    {
      this.nextProps := nextProps;
      if queue.isBatchingUpdate {
        queue.updaters := queue.updaters + [this];
      } else {
        UpdateComponent(trace, call, heap);
      }
    }

    /** Callbacks are only ever queued beside a pending state. */
    ghost predicate Valid()
      reads this
    {
      callbacks != [] ==> pendingStates != []
    }

    /**
     * What updateComponent leaves, given the fields before it ran: the
     * queues, props and state UpdateStep computes, its user calls appended to
     * the log, and the allocator moved past the merged states.
     */
    ghost predicate UpdatedAs(trace: Trace, heap: Heap, pending0: seq<Value>, callbacks0: seq<nat>, nextProps0: Value,
                              props0: Value, state0: Value, events0: seq<Event>, alloc0: nat, call: Call)
      reads this, instance, trace, heap
    {
      var st := UpdateStep(instance.hooks, instance.id, Slot(pending0, callbacks0, nextProps0, props0, state0), call, alloc0);
      && pendingStates == st.slot.pending && callbacks == st.slot.callbacks
      && instance.props == st.slot.props && instance.state == st.slot.state
      && trace.events == events0 + st.events && heap.next == st.alloc
    }

    /** `updateComponent()`. */
    method UpdateComponent(trace: Trace, call: Call, heap: Heap)
      modifies this, instance, trace, heap
      ensures instance.updater == old(instance.updater) && nextProps == old(nextProps) && instance.context == old(instance.context)
      ensures UpdatedAs(trace, heap, old(pendingStates), old(callbacks), old(nextProps), old(instance.props),
                        old(instance.state), old(trace.events), old(heap.next), call)
    {
      if Truthy(nextProps) || |pendingStates| > 0 {
        var newState := GetState(call, heap);
        ShouldUpdate(instance, nextProps, newState, trace, call);
        ghost var will := WillRender(instance.hooks, old(instance.props), old(instance.state), nextProps, newState, call);
        RunCallbacks(trace);
        callbacks := [];
        AppendAssoc(old(trace.events), ShouldUpdateEvents(instance.id, instance.hooks, will, instance.props, instance.state),
                    CallbackEvents(old(callbacks)));
      }
    }

    /** The loop over the queued callbacks: each is called once, in submission order. */
    method RunCallbacks(trace: Trace)
      modifies trace
      ensures trace.events == old(trace.events) + CallbackEvents(callbacks)
    {
      var i := 0;
      while i < |callbacks|
        invariant 0 <= i <= |callbacks|
        invariant trace.events == old(trace.events) + CallbackEvents(callbacks[..i])
      {
        assert callbacks[..i + 1] == callbacks[..i] + [callbacks[i]];
        CallbackEventsSnoc(callbacks[..i], callbacks[i]);
        trace.Record(Callback(callbacks[i]));
        i := i + 1;
      }
      assert callbacks[..i] == callbacks;
    }

    /** `getState()`: fold the pending entries over the current state, then empty the queue. */
    method GetState(call: Call, heap: Heap) returns (state: Value)
      modifies this, heap
      ensures state == NextState(instance.state, old(pendingStates), call, old(heap.next))
      ensures pendingStates == [] && heap.next == old(heap.next) + |old(pendingStates)|
      ensures callbacks == old(callbacks) && nextProps == old(nextProps)
    {
      var first := heap.Reserve(|pendingStates|);
      state := FoldLoop(instance.state, pendingStates, Merger(call), first);
      pendingStates := [];
    }
  }

  /** The `forEach` of getState: each entry is merged into the running state, in queue order. */
  method FoldLoop(state0: Value, pending: seq<Value>, merge: Merge, first: nat) returns (state: Value)
    ensures state == Fold(state0, pending, merge, first)
  {
    state := state0;
    var i := 0;
    while i < |pending|
      invariant 0 <= i <= |pending|
      invariant state == Fold(state0, pending[..i], merge, first)
    {
      assert pending[..i + 1] == pending[..i] + [pending[i]];
      FoldSnoc(state0, pending[..i], pending[i], merge, first);
      state := merge(state, pending[i], first + i);
      i := i + 1;
    }
    assert pending[..i] == pending;
  }

  /**
   * `shouldUpdate(classInstance, nextProps, newState)`: a falsy shouldComponentUpdate
   * suppresses componentWillUpdate and forceUpdate only; props are replaced by a
   * truthy nextProps regardless; state comes from getDerivedStateFromProps when the
   * class has it (its falsy result keeps the old state and newState is dropped),
   * and is newState otherwise.
   */
  method ShouldUpdate(instance: Instance, nextProps: Value, newState: Value, trace: Trace, call: Call)
    modifies instance, trace
    ensures var will := WillRender(instance.hooks, old(instance.props), old(instance.state), nextProps, newState, call);
            var props' := if Truthy(nextProps) then nextProps else old(instance.props);
            var state' := DerivedState(instance.hooks, old(instance.state), nextProps, newState, call);
            && instance.props == props' && instance.state == state'
            && trace.events == old(trace.events) + ShouldUpdateEvents(instance.id, instance.hooks, will, props', state')
    ensures instance.updater == old(instance.updater) && instance.context == old(instance.context)
  {
    var willUpdate := true;
    match instance.hooks.should {
      case NoShouldHook =>
      case UserShould(fn) =>
        if !Truthy(call(fn, [nextProps, newState, instance.props, instance.state])) {
          willUpdate := false;
        }
      case PureShould =>
        if !PureShouldComponentUpdate(instance.props, instance.state, nextProps, newState) {
          willUpdate := false;
        }
    }
    if willUpdate && instance.hooks.willUpdate {
      trace.Record(WillUpdate(instance.id));
    }
    if Truthy(nextProps) {
      instance.props := nextProps;
    }
    if instance.hooks.derive.Some? {
      var derived := call(instance.hooks.derive.value, [nextProps, instance.state]);
      if Truthy(derived) {
        instance.state := derived;
      }
    } else {
      instance.state := newState;
    }
    if willUpdate {
      trace.Record(Rerender(instance.id, instance.props, instance.state));
    }
  }

  /** The callback events, in submission order. */
  function CallbackEvents(callbacks: seq<nat>): (es: seq<Event>)
    ensures |es| == |callbacks|
    ensures forall i :: 0 <= i < |callbacks| ==> es[i] == Callback(callbacks[i])
  {
    seq(|callbacks|, i requires 0 <= i < |callbacks| => Callback(callbacks[i]))
  }

  lemma CallbackEventsSnoc(callbacks: seq<nat>, c: nat)
    ensures CallbackEvents(callbacks + [c]) == CallbackEvents(callbacks) + [Callback(c)]
  {
    assert forall i :: 0 <= i < |callbacks| ==> (callbacks + [c])[i] == callbacks[i];
  }

  /** `updateQueue`: the batching flag and the updaters queued while it is set. */
  class UpdateQueue {
    var isBatchingUpdate: bool
    var updaters: seq<Updater>

    constructor ()
      ensures !isBatchingUpdate && updaters == []
    {
      isBatchingUpdate := false;
      updaters := [];
    }

    /**
     * `batchUpdate()`: run updateComponent on every queued updater in list
     * order, each seeing what the earlier ones left (Run), then clear the flag
     * and the list. Each instance has its own updater, so the queued updaters
     * touch disjoint instances.
     */
    method BatchUpdate(trace: Trace, call: Call, heap: Heap)
      requires Linked(updaters)
      modifies this, (set u | u in updaters), (set u | u in updaters :: u.instance), trace, heap
      ensures !isBatchingUpdate && updaters == []
      ensures Flushed(old(updaters), old(Slots(updaters)), old(trace.events), old(heap.next), call, trace, heap)
    {
      ghost var us := updaters;
      FlushAll(updaters, trace, call, heap);
      Clear(us);
    }

    /** `updateQueue.isBatchingUpdate = b`. */
    method SetBatching(b: bool)
      modifies this
      ensures isBatchingUpdate == b && updaters == old(updaters)
    {
      isBatchingUpdate := b;
    }

    /** The end of batchUpdate: clear the flag and the list; the updaters `us` keep their slots. */
    method Clear(ghost us: seq<Updater>)
      requires Linked(us)
      modifies this
      ensures !isBatchingUpdate && updaters == []
      ensures Linked(us) && Slots(us) == old(Slots(us))
    {
      isBatchingUpdate := false;
      updaters := [];
    }
  }

  /**
   * Each queued updater is valid, and two queued updaters of one instance
   * are one updater: every instance has its own updater.
   */
  ghost predicate Linked(us: seq<Updater>)
    reads us
  {
    && (forall k :: 0 <= k < |us| ==> us[k].Valid())
    && (forall j, k :: 0 <= j < |us| && 0 <= k < |us| && us[j].instance == us[k].instance ==> us[j] == us[k])
  }

  /**
   * The state batchUpdate leaves, given the slots `s0`, the log `e0` and the
   * allocator `a0` it started from: the queued updaters still valid and hold
   * the slots Run computes, and the log and the allocator are Run's.
   */
  ghost predicate Flushed(us: seq<Updater>, s0: map<Updater, Slot>, e0: seq<Event>, a0: nat, call: Call, trace: Trace, heap: Heap)
    reads us, (set u | u in us :: u.instance), trace, heap
    ensures Flushed(us, s0, e0, a0, call, trace, heap) ==>
              && e0 <= trace.events
              && (forall k :: 0 <= k < |us| ==> us[k] in s0)
              && forall k :: 0 <= k < |us| ==> SlotOf(us[k]) == Run(s0, us, call, a0).slots[us[k]]
  {
    Linked(us) && RunGives(us, s0, e0, a0, call, Slots(us), trace.events, heap.next)
  }

  /** The slots, the log and the allocator are those Run gives from `s0`, `e0` and `a0`. */
  ghost predicate RunGives(us: seq<Updater>, s0: map<Updater, Slot>, e0: seq<Event>, a0: nat, call: Call,
                           slots: map<Updater, Slot>, events: seq<Event>, alloc: nat)
  {
    && (forall k :: 0 <= k < |us| ==> us[k] in s0)
    && var b := Run(s0, us, call, a0);
       && slots == b.slots && events == e0 + b.events && alloc == b.alloc
  }

  /**
   * batchUpdate's loop: updateComponent on each queued updater in list order.
   * Afterwards the updaters hold the slots Run gives them, and the log and
   * the allocator are Run's.
   */
  method FlushAll(us: seq<Updater>, trace: Trace, call: Call, heap: Heap)
    requires Linked(us)
    modifies (set u | u in us), (set u | u in us :: u.instance), trace, heap
    ensures Flushed(us, old(Slots(us)), old(trace.events), old(heap.next), call, trace, heap)
  {
    ghost var s0 := Slots(us);
    FlushLoop(us, trace, call, heap);
    SlotsAre(us, Run(s0, us, call, old(heap.next)).slots);
  }

  /** The loop of FlushAll, stated updater by updater. */
  method FlushLoop(us: seq<Updater>, trace: Trace, call: Call, heap: Heap)
    requires Linked(us)
    modifies (set u | u in us), (set u | u in us :: u.instance), trace, heap
    ensures Linked(us)
    ensures var b := Run(old(Slots(us)), us, call, old(heap.next));
            && (forall k :: 0 <= k < |us| ==> SlotOf(us[k]) == b.slots[us[k]])
            && trace.events == old(trace.events) + b.events && heap.next == b.alloc
  {
    ghost var s0 := Slots(us);
    ghost var b := Batch(s0, [], heap.next);
    var i := 0;
    while i < |us|
      invariant 0 <= i <= |us| && b == Run(s0, us[..i], call, old(heap.next))
      invariant Linked(us)
      invariant forall k :: 0 <= k < |us| ==> us[k] in b.slots && SlotOf(us[k]) == b.slots[us[k]]
      invariant trace.events == old(trace.events) + b.events && heap.next == b.alloc
    {
      FlushOne(us, i, trace, call, heap, b, old(trace.events));
      RunSnoc(s0, us, i, call, old(heap.next));
      b := Turn(b, us[i], call);
      i := i + 1;
    }
    assert us[..i] == us;
  }

  /** Slots read off the heap equal a map with the same keys that agrees at every listed updater. */
  lemma SlotsAre(us: seq<Updater>, m: map<Updater, Slot>)
    requires m.Keys == Slots(us).Keys
    requires forall k :: 0 <= k < |us| ==> us[k] in m && SlotOf(us[k]) == m[us[k]]
    ensures Slots(us) == m
  {
    forall u | u in m
      ensures Slots(us)[u] == m[u]
    {
      var k :| 0 <= k < |us| && us[k] == u;
    }
  }

  /** One turn of batchUpdate's loop: updateComponent on the `i`-th queued updater. */
  method FlushOne(us: seq<Updater>, i: nat, trace: Trace, call: Call, heap: Heap, ghost b: Batch, ghost e0: seq<Event>)
    requires i < |us|
    requires Linked(us)
    requires forall k :: 0 <= k < |us| ==> us[k] in b.slots && SlotOf(us[k]) == b.slots[us[k]]
    requires trace.events == e0 + b.events && heap.next == b.alloc
    modifies us[i], us[i].instance, trace, heap
    ensures Linked(us)
    ensures var c := Turn(b, us[i], call);
            && (forall k :: 0 <= k < |us| ==> us[k] in c.slots && SlotOf(us[k]) == c.slots[us[k]])
            && trace.events == e0 + c.events && heap.next == c.alloc
  {
    var u := us[i];
    ghost var st := UpdateStep(u.instance.hooks, u.instance.id, b.slots[u], call, b.alloc);
    label before:
    u.UpdateComponent(trace, call, heap);
    assert SlotOf(u) == st.slot;
    forall k | 0 <= k < |us| && us[k] != u
      ensures SlotOf(us[k]) == old@before(SlotOf(us[k]))
    {
      assert us[k].instance != us[i].instance;
    }
    AppendAssoc(e0, b.events, st.events);
  }

  /** The slot of one updater, read off its fields and its instance's. */
  ghost function SlotOf(u: Updater): Slot
    reads u, u.instance
  {
    Slot(u.pendingStates, u.callbacks, u.nextProps, u.instance.props, u.instance.state)
  }

  /** The slots of a list of updaters. */
  ghost function Slots(us: seq<Updater>): (m: map<Updater, Slot>)
    reads (set u | u in us), (set u | u in us :: u.instance)
    ensures m.Keys == set u | u in us
    ensures forall k :: 0 <= k < |us| ==> us[k] in m && m[us[k]] == SlotOf(us[k])
  {
    map u | u in us :: SlotOf(u)
  }

  /** A batch in progress: the slots of the queued updaters, the user calls made, and the allocator. */
  datatype Batch = Batch(slots: map<Updater, Slot>, events: seq<Event>, alloc: nat)

  /**
   * batchUpdate's loop on values: UpdateStep on each queued updater in turn,
   * each seeing the slots the earlier ones left. An updater not in the list
   * keeps its slot.
   */
  function Run(slots: map<Updater, Slot>, us: seq<Updater>, call: Call, alloc: nat): (b: Batch)
    requires forall k :: 0 <= k < |us| ==> us[k] in slots
    ensures b.slots.Keys == slots.Keys
    ensures forall u :: u in slots && u !in us ==> b.slots[u] == slots[u]
    decreases |us|
  {
    if us == [] then Batch(slots, [], alloc)
    else
      Turn(Run(slots, us[..|us| - 1], call, alloc), us[|us| - 1], call)
  }

  /** Running one more queued updater is one more turn. */
  lemma RunSnoc(slots: map<Updater, Slot>, us: seq<Updater>, i: nat, call: Call, alloc: nat)
    requires i < |us| && forall k :: 0 <= k < |us| ==> us[k] in slots
    ensures Run(slots, us[..i + 1], call, alloc) == Turn(Run(slots, us[..i], call, alloc), us[i], call)
  {
    assert us[..i + 1][..i] == us[..i];
  }

  /** One turn of the loop on values: UpdateStep on `u`'s slot, its calls appended to the batch's. */
  function Turn(b: Batch, u: Updater, call: Call): (c: Batch)
    requires u in b.slots
    ensures c.slots.Keys == b.slots.Keys
  {
    var st := UpdateStep(u.instance.hooks, u.instance.id, b.slots[u], call, b.alloc);
    Batch(b.slots[u := st.slot], b.events + st.events, st.alloc)
  }

  /** A slot whose callbacks are only ever queued beside a pending state, as Updater.Valid says. */
  predicate SlotValid(s: Slot)
  {
    s.callbacks != [] ==> s.pending != []
  }

  /** After a batch no queued updater holds a pending state or a callback, and none was lost on the way. */
  lemma {:induction false} RunDrains(slots: map<Updater, Slot>, us: seq<Updater>, call: Call, alloc: nat)
    requires forall k :: 0 <= k < |us| ==> us[k] in slots && SlotValid(slots[us[k]])
    ensures Drained(Run(slots, us, call, alloc).slots, us)
    decreases |us|
  {
    if us != [] {
      var init := us[..|us| - 1];
      RunDrains(slots, init, call, alloc);
      var b := Run(slots, init, call, alloc);
      var u := us[|us| - 1];
      assert init + [u] == us;
      assert Run(slots, us, call, alloc) == Turn(b, u, call);
      StillValid(slots[u], b.slots, init, u);
      TurnKeepsDrained(b, u, init, call);
    }
  }

  /** An updater the earlier turns drained, or one they did not touch, still has a valid slot. */
  lemma StillValid(s: Slot, m: map<Updater, Slot>, init: seq<Updater>, u: Updater)
    requires u in m && Drained(m, init) && SlotValid(s)
    requires u !in init ==> m[u] == s
    ensures SlotValid(m[u])
  {
    if u in init {
      var k :| 0 <= k < |init| && init[k] == u;
    }
  }

  /** Every listed updater has an empty queue and no callbacks in `m`. */
  predicate Drained(m: map<Updater, Slot>, us: seq<Updater>)
  {
    forall k :: 0 <= k < |us| ==> us[k] in m && m[us[k]].pending == [] && m[us[k]].callbacks == []
  }

  /** A turn on a valid slot adds its updater to the drained ones. */
  lemma TurnKeepsDrained(b: Batch, u: Updater, us: seq<Updater>, call: Call)
    requires u in b.slots && SlotValid(b.slots[u]) && Drained(b.slots, us)
    ensures Drained(Turn(b, u, call).slots, us + [u])
  {
    TurnDrains(b, u, call);
    var c := Turn(b, u, call);
    forall k | 0 <= k < |us| + 1
      ensures (us + [u])[k] in c.slots && c.slots[(us + [u])[k]].pending == [] && c.slots[(us + [u])[k]].callbacks == []
    {
      if k < |us| {
        assert (us + [u])[k] == us[k];
      }
    }
  }

  /** A turn on a valid slot empties it. */
  lemma TurnDrains(b: Batch, u: Updater, call: Call)
    requires u in b.slots && SlotValid(b.slots[u])
    ensures Turn(b, u, call).slots[u].pending == [] && Turn(b, u, call).slots[u].callbacks == []
  {
  }

  /**
   * An updater queued again after it ran finds its queues empty: with a falsy
   * nextProps the later entries change nothing, so queueing it `n` times is
   * queueing it once.
   */
  lemma {:induction false} RunRepeated(slots: map<Updater, Slot>, u: Updater, us: seq<Updater>, call: Call, alloc: nat)
    requires u in slots && !Truthy(slots[u].nextProps) && us != []
    requires forall k :: 0 <= k < |us| ==> us[k] == u
    ensures Run(slots, us, call, alloc) == Run(slots, [u], call, alloc)
    decreases |us|
  {
    var init := us[..|us| - 1];
    if init == [] {
      assert us == [u];
    } else {
      RunRepeated(slots, u, init, call, alloc);
      var b := Run(slots, init, call, alloc);
      assert b == Run(slots, [u], call, alloc);
      assert Run(slots, [u], call, alloc).slots[u] == UpdateStep(u.instance.hooks, u.instance.id, slots[u], call, alloc).slot by {
        assert [u][..0] == [];
      }
      var st := UpdateStep(u.instance.hooks, u.instance.id, b.slots[u], call, b.alloc);
      assert st == Stepped(b.slots[u], [], b.alloc);
      assert b.slots[u := st.slot] == b.slots;
      assert b.events + st.events == b.events;
    }
  }

  /**
   * `n` setState calls inside one batch, with no new props, queue the updater
   * `n` times beside `n` entries: the batch renders once, over the fold of all
   * the entries, then calls every queued callback in submission order.
   */
  lemma BatchedSetStates(slots: map<Updater, Slot>, u: Updater, us: seq<Updater>, call: Call, alloc: nat)
    requires u in slots && slots[u].nextProps == Undefined && slots[u].pending != [] && us != []
    requires forall k :: 0 <= k < |us| ==> us[k] == u
    ensures var s := slots[u];
            var hooks := u.instance.hooks;
            var newState := NextState(s.state, s.pending, call, alloc);
            var state' := DerivedState(hooks, s.state, Undefined, newState, call);
            var will := WillRender(hooks, s.props, s.state, Undefined, newState, call);
            var b := Run(slots, us, call, alloc);
            && b.slots[u] == Slot([], [], Undefined, s.props, state')
            && b.events == ShouldUpdateEvents(u.instance.id, hooks, will, s.props, state') + CallbackEvents(s.callbacks)
            && b.alloc == alloc + |s.pending|
  {
    RunRepeated(slots, u, us, call, alloc);
    assert [u][..0] == [];
  }
}
