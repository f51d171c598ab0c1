/**
 The queue of things to apply, and its single consumer. Row events are queued in the order of the binary log;
 a function to run later ("write function") may be queued between them. The consumer groups row events into
 batches but must keep the order.
 */
module ApplyQueue {
  import opened Wrappers
  import opened KeyOrder
  import opened TableEvents

  datatype Item<E> = Dml(event: E) | WriteFunc(id: nat)

  /**
   What the consumer has done: a batch in one transaction, or one write function. Attempts that were rolled back
   before the batch was committed had built its first `rebuilt` events.
   */
  datatype Execution<E> = Batch(events: seq<E>, rebuilt: nat) | Ran(id: nat)

  function DmlItems<E>(events: seq<E>): (items: seq<Item<E>>)
    ensures |items| == |events|
    ensures forall i :: 0 <= i < |items| ==> items[i] == Dml(events[i])
  {
    seq(|events|, i requires 0 <= i < |events| => Dml(events[i]))
  }

  /** The queue items behind a list of executions, in order. */
  function ItemsOf<E>(executions: seq<Execution<E>>): seq<Item<E>> {
    if executions == [] then [] else
    var last := executions[|executions| - 1];
    ItemsOf(executions[..|executions| - 1]) +
    match last
    case Batch(events, _) => DmlItems(events)
    case Ran(id) => [WriteFunc(id)]
  }

  function Arrived<E>(arrivals: seq<seq<Item<E>>>, n: nat): seq<Item<E>> {
    if n == 0 then [] else Arrived(arrivals, n - 1) + if n <= |arrivals| then arrivals[n - 1] else []
  }

  function Collected<E>(dmlEvents: seq<E>, nonDmlStructToApply: Option<nat>): seq<Item<E>> {
    DmlItems(dmlEvents) + if nonDmlStructToApply.Some? then [WriteFunc(nonDmlStructToApply.value)] else []
  }

  /**
   How many further items are taken: as many as are available, unless a write function comes first, and that is then the
   last one taken. What is taken was in the queue from the beginning.
   */
  predicate IsTaken<E>(queue: seq<Item<E>>, availableEvents: int, receives: nat) {
    && receives <= |queue|
    && (receives == 0 || receives <= availableEvents)
    && (forall i :: 0 <= i < receives - 1 ==> queue[i].Dml?)
    && (receives < availableEvents ==> receives > 0 && queue[receives - 1].WriteFunc?)
  }

  /** This leaves no choice. */
  lemma OneNumberIsTaken<E>(queue: seq<Item<E>>, availableEvents: int, n: nat, m: nat)
    requires IsTaken(queue, availableEvents, n) && IsTaken(queue, availableEvents, m)
    ensures n == m
  {
  }

  /** Items that come in while the batch is collected queue up behind those that were there. */
  function Queued<E>(queue: seq<Item<E>>, arrivals: seq<seq<Item<E>>>, n: nat): seq<Item<E>>
    requires n <= |queue|
  {
    queue[n..] + Arrived(arrivals, n)
  }

  lemma ReceivesFromQueue<E>(queue: seq<Item<E>>, arrivals: seq<seq<Item<E>>>, n: nat, now: seq<Item<E>>)
    requires n < |queue|
    requires now == Queued(queue, arrivals, n) + if n < |arrivals| then arrivals[n] else []
    ensures now != [] && now[0] == queue[n] && now[1..] == Queued(queue, arrivals, n + 1)
  {
  }

  /** The state of collecting a batch after some receives. */
  predicate Collecting<E(==)>(queue: seq<Item<E>>, event: E, dmlEvents: seq<E>, nonDmlStructToApply: Option<nat>,
                              receives: nat) {
    && receives <= |queue|
    && (forall i :: 0 <= i < receives - 1 ==> queue[i].Dml?)
    && (nonDmlStructToApply.Some? <==> receives > 0 && queue[receives - 1].WriteFunc?)
    && dmlEvents != [] && Collected(dmlEvents, nonDmlStructToApply) == [Dml(event)] + queue[..receives]
  }

  lemma CollectsNext<E>(queue: seq<Item<E>>, event: E, dmlEvents: seq<E>, receives: nat)
    requires Collecting(queue, event, dmlEvents, None, receives) && receives < |queue|
    ensures
      match queue[receives]
      case WriteFunc(id) => Collecting(queue, event, dmlEvents, Some(id), receives + 1)
      case Dml(e) => Collecting(queue, event, dmlEvents + [e], None, receives + 1)
  {
    CollectOne(dmlEvents, queue[receives]);
    assert queue[..receives + 1] == queue[..receives] + [queue[receives]];
  }

  lemma CollectedIsTaken<E>(queue: seq<Item<E>>, event: E, dmlEvents: seq<E>, nonDmlStructToApply: Option<nat>,
                            receives: nat, availableEvents: int)
    requires Collecting(queue, event, dmlEvents, nonDmlStructToApply, receives) && (receives == 0 || receives <= availableEvents)
    requires receives >= availableEvents || nonDmlStructToApply.Some?
    ensures IsTaken(queue, availableEvents, receives)
  {
  }

  lemma CollectOne<E>(dmlEvents: seq<E>, item: Item<E>)
    ensures Collected(dmlEvents, None) + [item]
            == if item.Dml? then Collected(dmlEvents + [item.event], None) else Collected(dmlEvents, Some(item.id))
  {
  }

  /**
   With one event in hand, these many more items are taken: as many as the queue has and a batch of that size still
   holds, unless a write function ends the batch.
   */
  predicate FillsBatch<E>(queue: seq<Item<E>>, dmlBatchSize: int, receives: nat) {
    && receives <= |queue|
    && (receives == 0 || 1 + receives <= dmlBatchSize)
    && (forall i :: 0 <= i < receives - 1 ==> queue[i].Dml?)
    && (receives < |queue| && 1 + receives < dmlBatchSize ==> receives > 0 && queue[receives - 1].WriteFunc?)
  }

  /** What one handling of row events executes: one batch, and perhaps one write function. */
  predicate OneBatch<E(==)>(before: seq<Execution<E>>, after: seq<Execution<E>>, items: seq<Item<E>>, rebuilt: nat) {
    var n := |before|;
    && before < after && |after| <= n + 2 && after[n].Batch? && (|after| == n + 2 ==> after[n + 1].Ran?)
    && after[n].events != [] && after[n].rebuilt == rebuilt
    && DmlItems(after[n].events) + (if |after| == n + 2 then [WriteFunc(after[n + 1].id)] else []) == items
  }

  /** A batch, and the write function that ended it, are executed as they were collected. */
  lemma ExecutesCollected<E>(executions: seq<Execution<E>>, dmlEvents: seq<E>, rebuilt: nat,
                             nonDmlStructToApply: Option<nat>)
    requires dmlEvents != []
    ensures
      var batched := executions + [Batch(dmlEvents, rebuilt)];
      var after := if nonDmlStructToApply.Some? then batched + [Ran(nonDmlStructToApply.value)] else batched;
      && ItemsOf(after) == ItemsOf(executions) + Collected(dmlEvents, nonDmlStructToApply)
      && OneBatch(executions, after, Collected(dmlEvents, nonDmlStructToApply), rebuilt)
  {
    var batched := executions + [Batch(dmlEvents, rebuilt)];
    assert batched[..|executions|] == executions;
    if nonDmlStructToApply.Some? {
      assert (batched + [Ran(nonDmlStructToApply.value)])[..|batched|] == batched;
    }
  }

  lemma CollectedFirst<E>(before: seq<Item<E>>, event: E, queue: seq<Item<E>>, arrived: seq<Item<E>>, n: nat)
    requires n <= |queue|
    ensures before + ([Dml(event)] + queue[..n]) + (queue[n..] + arrived) == before + ([Dml(event)] + queue + arrived)
  {
    assert queue[..n] + queue[n..] == queue;
  }

  class Migrator<E(==)> {
    var applyEventsQueue: seq<Item<E>>
    var executed: seq<Execution<E>>

    constructor ()
      ensures applyEventsQueue == [] && executed == []
    {
      applyEventsQueue, executed := [], [];
    }

    /** Receives up to `availableEvents` more items, stopping behind a write function. */
    method CollectBatch(event: E, availableEvents: int, arrivals: seq<seq<Item<E>>>)
      returns (dmlEvents: seq<E>, nonDmlStructToApply: Option<nat>, receives: nat)
      requires availableEvents <= |applyEventsQueue|
      modifies this`applyEventsQueue
      ensures IsTaken(old(applyEventsQueue), availableEvents, receives)
      ensures dmlEvents != [] && Collected(dmlEvents, nonDmlStructToApply) == [Dml(event)] + old(applyEventsQueue)[..receives]
      ensures applyEventsQueue == Queued(old(applyEventsQueue), arrivals, receives)
    {
      dmlEvents, nonDmlStructToApply, receives := [event], None, 0;
      ghost var queue := applyEventsQueue;
      while receives < availableEvents && nonDmlStructToApply == None
        invariant Collecting(queue, event, dmlEvents, nonDmlStructToApply, receives)
        invariant receives == 0 || receives <= availableEvents
        invariant applyEventsQueue == Queued(queue, arrivals, receives)
        decreases availableEvents - receives
      {
        CollectsNext(queue, event, dmlEvents, receives);
        applyEventsQueue := applyEventsQueue + if receives < |arrivals| then arrivals[receives] else [];
        ReceivesFromQueue(queue, arrivals, receives, applyEventsQueue);
        var additionalStruct := applyEventsQueue[0];
        applyEventsQueue := applyEventsQueue[1..];
        receives := receives + 1;
        match additionalStruct {
          case WriteFunc(id) =>
            nonDmlStructToApply := Some(id);
          case Dml(e) =>
            dmlEvents := dmlEvents + [e];
        }
      }
      CollectedIsTaken(queue, event, dmlEvents, nonDmlStructToApply, receives, availableEvents);
    }

    /**
     Handles one item that was taken from the queue. While it collects a batch, other goroutines may add
     items: `arrivals[i]` is what comes in before the i-th further receive. Each receive finds an item, since
     nobody else takes any. The batch is retried until it is committed; `rebuilt` is how many events the attempts
     before that have built.
     */
    method OnApplyEventStruct(first: Item<E>, dmlBatchSize: int, arrivals: seq<seq<Item<E>>>, rebuilt: nat)
      returns (receives: nat)
      modifies this
      // Nothing is lost, nothing overtakes: what was executed, then what is still queued, is the old order.
      ensures ItemsOf(executed) + applyEventsQueue
              == old(ItemsOf(executed)) + [first] + old(applyEventsQueue) + Arrived(arrivals, receives)
      ensures first.WriteFunc? ==> receives == 0 && executed == old(executed) + [Ran(first.id)]
      // Row events make one batch, as large as the queue and the batch size allow; a write function ends it and runs after
      // it.
      ensures first.Dml? ==> FillsBatch(old(applyEventsQueue), dmlBatchSize, receives)
      ensures first.Dml? ==> OneBatch(old(executed), executed, [first] + old(applyEventsQueue)[..receives], rebuilt)
    {
      receives := 0;
      match first
      case WriteFunc(id) =>
        executed := executed + [Ran(id)];
        assert executed[..|executed| - 1] == old(executed);
        assert old(ItemsOf(executed)) + [first] + old(applyEventsQueue) + []
            == old(ItemsOf(executed)) + [first] + old(applyEventsQueue);
      case Dml(event) =>
        receives := ApplyRowEvents(event, dmlBatchSize, arrivals, rebuilt);
        assert old(ItemsOf(executed)) + ([first] + old(applyEventsQueue) + Arrived(arrivals, receives))
            == old(ItemsOf(executed)) + [first] + old(applyEventsQueue) + Arrived(arrivals, receives);
    }

    /** Collects a batch that begins with `event`, and executes it. */
    method ApplyRowEvents(event: E, dmlBatchSize: int, arrivals: seq<seq<Item<E>>>, rebuilt: nat) returns (receives: nat)
      modifies this
      ensures ItemsOf(executed) + applyEventsQueue
              == old(ItemsOf(executed)) + ([Dml(event)] + old(applyEventsQueue) + Arrived(arrivals, receives))
      ensures FillsBatch(old(applyEventsQueue), dmlBatchSize, receives)
      ensures OneBatch(old(executed), executed, [Dml(event)] + old(applyEventsQueue)[..receives], rebuilt)
    {
      var availableEvents: int := |applyEventsQueue|;
      if availableEvents > dmlBatchSize - 1 {
        availableEvents := dmlBatchSize - 1;
      }
      var dmlEvents, nonDmlStructToApply;
      dmlEvents, nonDmlStructToApply, receives := CollectBatch(event, availableEvents, arrivals);
      ExecutesCollected(executed, dmlEvents, rebuilt, nonDmlStructToApply);
      executed := executed + [Batch(dmlEvents, rebuilt)];
      if nonDmlStructToApply.Some? {
        executed := executed + [Ran(nonDmlStructToApply.value)];
      }
      CollectedFirst(old(ItemsOf(executed)), event, old(applyEventsQueue), Arrived(arrivals, receives), receives);
    }
  }

  // ---- Batching does not change the outcome ----

  /** All row events that were executed, in order. */
  function EventsOf<E>(executions: seq<Execution<E>>): seq<E> {
    if executions == [] then [] else
    var last := executions[|executions| - 1];
    EventsOf(executions[..|executions| - 1]) + if last.Batch? then last.events else []
  }

  /** The ghost table after the executions, each batch applied as a whole, as its last attempt has built it. */
  function GhostAfter<R, G>(g: map<Key, G>, executions: seq<Execution<Event<R>>>, p: R -> G): map<Key, G> {
    if executions == [] then g else
    var last := executions[|executions| - 1];
    var before := GhostAfter(g, executions[..|executions| - 1], p);
    if last.Batch? then ReplayAll(before, RetriedFirst(last.events, last.rebuilt), p) else before
  }

  /** No retried batch leaves a row behind. */
  ghost predicate HarmlessRetries<R, G>(g: map<Key, G>, executions: seq<Execution<Event<R>>>, p: R -> G) {
    executions == [] ||
    (var n := |executions| - 1;
     var last := executions[n];
     && HarmlessRetries(g, executions[..n], p)
     && (last.Batch? ==> HarmlessRetry(GhostAfter(g, executions[..n], p), last.events, last.rebuilt, p)))
  }

  /**
   Batches of any sizes, retried or not, leave the ghost table that applying the same events one by one leaves,
   provided that no retried key change finds a row under its old key.
   */
  lemma {:induction false} BatchingRefinesSingle<R, G>(g: map<Key, G>, executions: seq<Execution<Event<R>>>, p: R -> G)
    requires HarmlessRetries(g, executions, p)
    ensures GhostAfter(g, executions, p) == ReplayAll(g, EventsOf(executions), p)
  {
    if executions != [] {
      var n := |executions| - 1;
      BatchingRefinesSingle(g, executions[..n], p);
      var last := executions[n];
      if last.Batch? {
        HarmlessRetryIsReplay(GhostAfter(g, executions[..n], p), last.events, last.rebuilt, p);
      }
      ReplayAllAppend(g, EventsOf(executions[..n]), if last.Batch? then last.events else [], p);
    }
  }

  /** Batches that were never rolled back are harmless, and so are retried ones without key changes. */
  lemma {:induction false} RetriesWithoutKeyChanges<R, G>(g: map<Key, G>, executions: seq<Execution<Event<R>>>, p: R -> G)
    requires forall i :: 0 <= i < |executions| && executions[i].Batch? && executions[i].rebuilt > 0 ==>
               forall j :: 0 <= j < |executions[i].events| ==> !executions[i].events[j].Move?
    ensures HarmlessRetries(g, executions, p)
  {
    if executions != [] {
      var n := |executions| - 1;
      RetriesWithoutKeyChanges(g, executions[..n], p);
      if executions[n].Batch? && executions[n].rebuilt > 0 {
        NoMoveIsHarmless(GhostAfter(g, executions[..n], p), executions[n].events, executions[n].rebuilt, p);
      }
    }
  }

  lemma {:induction false} NoMoveIsHarmless<R, G>(g: map<Key, G>, es: seq<Event<R>>, n: nat, p: R -> G)
    requires forall j :: 0 <= j < |es| ==> !es[j].Move?
    ensures HarmlessRetry(g, es, n, p)
    decreases |es|
  {
    if es != [] && n > 0 {
      NoMoveIsHarmless(Replay(g, es[0], p), es[1..], n - 1, p);
    }
  }
}
