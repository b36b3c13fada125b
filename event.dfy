/**
 * Synthetic events (src/event.js): a handler store on each node, one
 * document-level listener per event type, and the bubbling walk from the target
 * up through parent links inside the batching window.
 */
module Event {
  import opened JsValues
  import opened Dom
  import opened Component

  /** `dom.store && dom.store[eventType]`: a node without a store has no handler. */
  function HandlerOf(node: Node, eventType: string): Value
  {
    if node.store.Some? then Lookup(node.store.value, eventType) else Undefined
  }

  /** The store `addEvent` leaves on a node: the existing one (or `{}`) with `eventType` set. */
  function AddedStore(node: Node, eventType: string, handler: Value): (store: seq<Prop>)
  {
    SetProp(if node.store.Some? then node.store.value else [], eventType, handler)
  }

  /** After addEvent the node answers `handler` for `eventType` and keeps its handlers for every other type. */
  lemma AddedStoreHandlers(node: Node, eventType: string, handler: Value, other: string)
    ensures HandlerOf(node.(store := Some(AddedStore(node, eventType, handler))), other)
         == if other == eventType then handler else HandlerOf(node, other)
  {
    LookupSetProp(if node.store.Some? then node.store.value else [], eventType, handler, other);
  }

  /**
   * `addEvent(dom, eventType, handler)`: create `dom.store` when missing, set
   * `store[eventType]`, and install the document listener for the type only
   * when there is none yet.
   */
  method AddEvent(doc: Document, n: nat, eventType: string, handler: Value)
    requires doc.Valid() && n in doc.nodes
    modifies doc
    ensures doc.Valid()
    ensures doc.nodes == old(doc.nodes)[n := old(doc.nodes)[n].(store := Some(AddedStore(old(doc.nodes)[n], eventType, handler)))]
    ensures doc.listeners == old(doc.listeners) + {eventType}
    ensures doc.parent == old(doc.parent) && doc.children == old(doc.children) && doc.next == old(doc.next)
  {
    var store: seq<Prop> := if doc.nodes[n].store.Some? then doc.nodes[n].store.value else [];
    doc.SetStore(n, SetProp(store, eventType, handler));
    if eventType !in doc.listeners {
      doc.Listen(eventType);
    }
  }

  /** The handlers a walk called, and whether it stopped on a handler that is not a function. */
  datatype Walk = Walk(events: seq<Event>, threw: bool)

  /** The handler found at node `t`, undefined for a node outside the arena. */
  function HandlerAt(nodes: map<nat, Node>, t: nat, eventType: string): Value
  {
    if t in nodes then HandlerOf(nodes[t], eventType) else Undefined
  }

  /**
   * The `while (target)` loop of dispatchEvent: at each node a truthy handler
   * is called (`handler.call(target, event)`; one that is not a function throws
   * a TypeError there), then the walk moves to `target.parentNode`.
   */
  function Bubble(nodes: map<nat, Node>, parent: map<nat, nat>, cur: Option<nat>, eventType: string): Walk
    requires forall c :: c in parent ==> parent[c] < c
    decreases if cur.Some? then cur.value + 1 else 0
  {
    if cur.None? then Walk([], false)
    else
      var t := cur.value;
      var h := HandlerAt(nodes, t, eventType);
      if Truthy(h) && !h.Func? then Walk([], true)
      else
        var here := if Truthy(h) && h.Func? then [Handler(h.ref, t)] else [];
        var rest := Bubble(nodes, parent, if t in parent then Some(parent[t]) else None, eventType);
        Walk(here + rest.events, rest.threw)
  }

  /** The handler calls made at the nodes of `path`, in order, when none of them throws. */
  function PathEvents(nodes: map<nat, Node>, path: seq<nat>, eventType: string): seq<Event>
  {
    if path == [] then []
    else
      var h := HandlerAt(nodes, path[0], eventType);
      (if Truthy(h) && h.Func? then [Handler(h.ref, path[0])] else []) + PathEvents(nodes, path[1..], eventType)
  }

  /** Some node of `path` holds a truthy handler that is not a function. */
  predicate PathThrows(nodes: map<nat, Node>, path: seq<nat>, eventType: string)
  {
    exists i :: 0 <= i < |path| && Truthy(HandlerAt(nodes, path[i], eventType)) && !HandlerAt(nodes, path[i], eventType).Func?
  }

  /**
   * The walk visits exactly the ancestry of the target, target first and root
   * last: it throws iff some node on that path holds a non-function handler,
   * and otherwise calls the handler of every node on the path that has one, in
   * path order, skipping the others.
   */
  lemma {:induction false} BubbleIsAncestry(nodes: map<nat, Node>, parent: map<nat, nat>, t: nat, eventType: string)
    requires forall c :: c in parent ==> parent[c] < c
    ensures var w := Bubble(nodes, parent, Some(t), eventType);
            var path := Ancestry(parent, t);
            && (w.threw <==> PathThrows(nodes, path, eventType))
            && (!w.threw ==> w.events == PathEvents(nodes, path, eventType))
    decreases t
  {
    var path := Ancestry(parent, t);
    var h := HandlerAt(nodes, t, eventType);
    if t in parent {
      BubbleIsAncestry(nodes, parent, parent[t], eventType);
      var up := Ancestry(parent, parent[t]);
      assert path == [t] + up;
      assert path[1..] == up;
      if PathThrows(nodes, up, eventType) {
        var i :| 0 <= i < |up| && Truthy(HandlerAt(nodes, up[i], eventType)) && !HandlerAt(nodes, up[i], eventType).Func?;
        assert path[i + 1] == up[i];
      }
      if PathThrows(nodes, path, eventType) && !(Truthy(h) && !h.Func?) {
        var i :| 0 <= i < |path| && Truthy(HandlerAt(nodes, path[i], eventType)) && !HandlerAt(nodes, path[i], eventType).Func?;
        assert i > 0;
        assert up[i - 1] == path[i];
      }
    } else {
      assert path == [t];
      assert path[1..] == [];
    }
  }

  /**
   * The walk itself: record a Handler event for every handler called, and
   * report whether it stopped on a handler that is not a function.
   */
  method BubbleWalk(doc: Document, target: nat, eventType: string, trace: Trace) returns (threw: bool)
    requires doc.Valid()
    modifies trace
    ensures var w := Bubble(doc.nodes, doc.parent, Some(target), eventType);
            threw == w.threw && trace.events == old(trace.events) + w.events
  {
    ghost var w := Bubble(doc.nodes, doc.parent, Some(target), eventType);
    ghost var acc: seq<Event> := [];
    var cur: Option<nat> := Some(target);
    while cur.Some?
      invariant trace.events == old(trace.events) + acc
      invariant w == Walk(acc + Bubble(doc.nodes, doc.parent, cur, eventType).events, Bubble(doc.nodes, doc.parent, cur, eventType).threw)
      decreases if cur.Some? then cur.value + 1 else 0
    {
      var t := cur.value;
      var h := if t in doc.nodes then HandlerOf(doc.nodes[t], eventType) else Undefined;
      assert h == HandlerAt(doc.nodes, t, eventType);
      var up: Option<nat> := if t in doc.parent then Some(doc.parent[t]) else None;
      ghost var rest := Bubble(doc.nodes, doc.parent, up, eventType);
      if Truthy(h) {
        if !h.Func? {
          assert w == Walk(acc, true);
          return true;
        }
        assert Bubble(doc.nodes, doc.parent, cur, eventType) == Walk([Handler(h.ref, t)] + rest.events, rest.threw);
        assert acc + ([Handler(h.ref, t)] + rest.events) == (acc + [Handler(h.ref, t)]) + rest.events;
        trace.Record(Handler(h.ref, t));
        acc := acc + [Handler(h.ref, t)];
      } else {
        assert Bubble(doc.nodes, doc.parent, cur, eventType) == Walk([] + rest.events, rest.threw);
        assert [] + rest.events == rest.events;
      }
      cur := up;
    }
    assert w == Walk(acc, false);
    threw := false;
  }

  /**
   * `dispatchEvent(event)`: set the batching flag, walk from the target upward
   * calling handlers under `"on" + type`, clear the flag and run batchUpdate.
   * A handler that is not a function throws out of the walk, leaving the flag
   * set and the queue unflushed.
   */
  method DispatchEvent(doc: Document, queue: UpdateQueue, target: nat, eventName: string, trace: Trace, call: Call, heap: Heap)
      returns (r: Outcome<()>)
    requires doc.Valid()
    requires Linked(queue.updaters)
    modifies queue, trace, heap, (set u | u in queue.updaters), (set u | u in queue.updaters :: u.instance)
    ensures var w := Bubble(doc.nodes, doc.parent, Some(target), "on" + eventName);
            && (r.Thrown? <==> w.threw)
            && (w.threw ==> queue.isBatchingUpdate && queue.updaters == old(queue.updaters)
                            && trace.events == old(trace.events) + w.events)
            && (!w.threw ==> !queue.isBatchingUpdate && queue.updaters == [])
    ensures var w := Bubble(doc.nodes, doc.parent, Some(target), "on" + eventName);
            var us := old(queue.updaters);
            var s0 := old(Slots(queue.updaters));
            !w.threw ==> Flushed(us, s0, old(trace.events) + w.events, old(heap.next), call, trace, heap)
                         && Drained(Run(s0, us, call, old(heap.next)).slots, us)
  {
    ghost var us, s0 := queue.updaters, Slots(queue.updaters);
    assert forall k :: 0 <= k < |us| ==> SlotValid(s0[us[k]]);
    RunDrains(s0, us, call, heap.next);
    var threw := StartDispatch(doc, queue, target, "on" + eventName, trace);
    if threw {
      return Thrown;
    }
    ghost var e1 := trace.events;
    EndDispatch(queue, trace, call, heap);
    assert Flushed(us, s0, e1, old(heap.next), call, trace, heap);
    r := Done(());
  }

  /** The start of dispatchEvent: set the batching flag, then bubble. */
  method StartDispatch(doc: Document, queue: UpdateQueue, target: nat, eventType: string, trace: Trace) returns (threw: bool)
    requires doc.Valid()
    modifies queue, trace
    ensures var w := Bubble(doc.nodes, doc.parent, Some(target), eventType);
            threw == w.threw && trace.events == old(trace.events) + w.events
    ensures queue.isBatchingUpdate && queue.updaters == old(queue.updaters)
    ensures Slots(queue.updaters) == old(Slots(queue.updaters)) && (old(Linked(queue.updaters)) ==> Linked(queue.updaters))
  {
    queue.SetBatching(true);
    threw := BubbleWalk(doc, target, eventType, trace);
  }

  /** The end of dispatchEvent: clear the batching flag, then run batchUpdate. */
  method EndDispatch(queue: UpdateQueue, trace: Trace, call: Call, heap: Heap)
    requires Linked(queue.updaters)
    modifies queue, trace, heap, (set u | u in queue.updaters), (set u | u in queue.updaters :: u.instance)
    ensures !queue.isBatchingUpdate && queue.updaters == []
    ensures Flushed(old(queue.updaters), old(Slots(queue.updaters)), old(trace.events), old(heap.next), call, trace, heap)
  {
    queue.SetBatching(false);
    assert Slots(queue.updaters) == old(Slots(queue.updaters)) && Linked(queue.updaters);
    queue.BatchUpdate(trace, call, heap);
  }
}
