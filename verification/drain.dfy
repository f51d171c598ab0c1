/**
 The drain marker. To learn that everything logged so far has been applied, gh-ost writes a challenge into its
 changelog table, and waits until the challenge has come back through the binary log and the apply queue. The
 challenge is enqueued by a goroutine of its own, at any later time; challenges of earlier attempts, whose
 wait timed out, may still be anywhere on the way.
 */
module Drain {
  import opened Wrappers
  import opened ApplyQueue

  /** An entry of the binary log: a row event of the original table, or a challenge. */
  datatype Entry<E> = Row(event: E) | Challenge(id: nat)

  /**
   `batch` are row events that the consumer has taken but not applied, `held` is the write function it has
   taken but not finished.
   */
  datatype State<E> = State(
    log: seq<Entry<E>>,
    streamed: nat,
    inFlight: multiset<nat>,
    queue: seq<Item<E>>,
    batch: seq<E>,
    held: Option<nat>,
    applied: seq<E>)

  datatype Action<E> =
    | LogRow(event: E)
    | WriteChallenge(id: nat)
    | Stream              // the listener of the next log entry runs
    | Enqueue(id: nat)    // a challenge's goroutine reaches the queue
    | Take                // the consumer receives one item
    | ApplyBatch
    | Deliver             // the waiting main goroutine receives the held challenge

  const QueueCapacity := 1000

  predicate Enabled<E(==)>(s: State<E>, a: Action<E>) {
    match a
    case LogRow(_) => true
    case WriteChallenge(id) => Challenge(id) !in s.log
    case Stream => s.streamed < |s.log| && (s.log[s.streamed].Row? ==> |s.queue| < QueueCapacity)
    case Enqueue(id) => id in s.inFlight && |s.queue| < QueueCapacity
    case Take => s.queue != [] && s.held.None?
    case ApplyBatch => s.batch != []
    case Deliver => s.held.Some? && s.batch == []
  }

  function Do<E(==)>(s: State<E>, a: Action<E>): State<E>
    requires Enabled(s, a)
  {
    match a
    case LogRow(event) => s.(log := s.log + [Row(event)])
    case WriteChallenge(id) => s.(log := s.log + [Challenge(id)])
    case Stream =>
      (match s.log[s.streamed]
       case Row(event) => s.(streamed := s.streamed + 1, queue := s.queue + [Dml(event)])
       case Challenge(id) => s.(streamed := s.streamed + 1, inFlight := s.inFlight + multiset{id}))
    case Enqueue(id) => s.(inFlight := s.inFlight - multiset{id}, queue := s.queue + [WriteFunc(id)])
    case Take =>
      (match s.queue[0]
       case Dml(event) => s.(queue := s.queue[1..], batch := s.batch + [event])
       case WriteFunc(id) => s.(queue := s.queue[1..], held := Some(id)))
    case ApplyBatch => s.(applied := s.applied + s.batch, batch := [])
    case Deliver => s.(held := None)
  }

  predicate Init<E>(s: State<E>) {
    s.streamed == 0 && s.inFlight == multiset{} && s.queue == [] && s.batch == [] && s.held.None? && s.applied == []
    && s.log == []
  }

  function Rows<E>(log: seq<Entry<E>>): seq<E> {
    if log == [] then [] else
    var last := log[|log| - 1];
    Rows(log[..|log| - 1]) + if last.Row? then [last.event] else []
  }

  function RowItems<E>(queue: seq<Item<E>>): seq<E> {
    if queue == [] then [] else
    var last := queue[|queue| - 1];
    RowItems(queue[..|queue| - 1]) + if last.Dml? then [last.event] else []
  }

  lemma {:induction false} RowsPrefix<E>(log: seq<Entry<E>>, i: nat, j: nat)
    requires i <= j <= |log|
    ensures Rows(log[..i]) <= Rows(log[..j])
  {
    if i < j {
      RowsPrefix(log, i, j - 1);
      assert log[..j][..j - 1] == log[..j - 1];
    }
  }

  lemma {:induction false} RowItemsHead<E>(queue: seq<Item<E>>)
    requires queue != []
    ensures RowItems(queue) == (if queue[0].Dml? then [queue[0].event] else []) + RowItems(queue[1..])
  {
    if |queue| > 1 {
      var n := |queue| - 1;
      RowItemsHead(queue[..n]);
      assert queue[..n][1..] == queue[1..][..n - 1];
    }
  }

  /** How many row events were logged before the challenge `id`. */
  function Ahead<E(==)>(log: seq<Entry<E>>, id: nat): nat {
    if log == [] then 0
    else if log[|log| - 1] == Challenge(id) then |Rows(log[..|log| - 1])|
    else Ahead(log[..|log| - 1], id)
  }

  ghost predicate ChallengesOnce<E>(log: seq<Entry<E>>) {
    forall i, j :: 0 <= i < j < |log| && log[i].Challenge? ==> log[j] != log[i]
  }

  lemma {:induction false} AheadAt<E>(log: seq<Entry<E>>, j: nat)
    requires ChallengesOnce(log) && j < |log| && log[j].Challenge?
    ensures Ahead(log, log[j].id) == |Rows(log[..j])|
  {
    var n := |log| - 1;
    if j < n {
      AheadAt(log[..n], j);
      assert log[..n][..j] == log[..j];
    }
  }

  lemma {:induction false} AheadAppend<E>(log: seq<Entry<E>>, entry: Entry<E>, id: nat)
    requires entry != Challenge(id)
    ensures Ahead(log + [entry], id) == Ahead(log, id)
  {
    assert (log + [entry])[..|log|] == log;
  }

  lemma {:induction false} LogAppend<E>(log: seq<Entry<E>>, entry: Entry<E>)
    ensures Rows(log + [entry]) == Rows(log) + if entry.Row? then [entry.event] else []
    ensures entry.Challenge? ==> Ahead(log + [entry], entry.id) == |Rows(log)|
  {
    assert (log + [entry])[..|log|] == log;
  }

  // ---- The invariant: every row event logged before a challenge is ahead of it, wherever the challenge is ----

  ghost predicate OrderOk<E>(s: State<E>) {
    && s.streamed <= |s.log|
    && ChallengesOnce(s.log)
    && Rows(s.log[..s.streamed]) == s.applied + s.batch + RowItems(s.queue)
  }

  /** The challenge is known, and at most `done` row events precede it. */
  ghost predicate Answers<E>(s: State<E>, id: nat, done: nat) {
    Challenge(id) in s.log && Ahead(s.log, id) <= done
  }

  ghost predicate InFlightOk<E>(s: State<E>) {
    forall id :: id in s.inFlight ==> Answers(s, id, |s.applied| + |s.batch| + |RowItems(s.queue)|)
  }

  ghost predicate QueueOk<E>(s: State<E>) {
    forall i :: 0 <= i < |s.queue| && s.queue[i].WriteFunc? ==>
      Answers(s, s.queue[i].id, |s.applied| + |s.batch| + |RowItems(s.queue[..i])|)
  }

  ghost predicate HeldOk<E>(s: State<E>) {
    s.held.Some? ==> Answers(s, s.held.value, |s.applied| + |s.batch|)
  }

  ghost predicate Inv<E>(s: State<E>) {
    OrderOk(s) && InFlightOk(s) && QueueOk(s) && HeldOk(s)
  }

  lemma InitInv<E>(s: State<E>)
    requires Init(s)
    ensures Inv(s)
  {
  }

  lemma LogInv<E>(s: State<E>, a: Action<E>)
    requires Inv(s) && (a.LogRow? || a.WriteChallenge?) && Enabled(s, a)
    ensures Inv(Do(s, a))
  {
    LogOrder(s, a);
    LogKeepsAnswers(s, a);
  }

  lemma LogOrder<E>(s: State<E>, a: Action<E>)
    requires OrderOk(s) && (a.LogRow? || a.WriteChallenge?) && Enabled(s, a)
    ensures OrderOk(Do(s, a))
  {
    assert Do(s, a).log[..s.streamed] == s.log[..s.streamed];
  }

  lemma LogKeepsAnswers<E>(s: State<E>, a: Action<E>)
    requires InFlightOk(s) && QueueOk(s) && HeldOk(s) && (a.LogRow? || a.WriteChallenge?) && Enabled(s, a)
    ensures InFlightOk(Do(s, a)) && QueueOk(Do(s, a)) && HeldOk(Do(s, a))
  {
    LogKeepsAhead(s, a);
  }

  lemma LogKeepsAhead<E>(s: State<E>, a: Action<E>)
    requires (a.LogRow? || a.WriteChallenge?) && Enabled(s, a)
    ensures forall id :: Challenge(id) in s.log ==>
              Challenge(id) in Do(s, a).log && Ahead(Do(s, a).log, id) == Ahead(s.log, id)
  {
    var t := Do(s, a);
    forall id | Challenge(id) in s.log
      ensures Challenge(id) in t.log && Ahead(t.log, id) == Ahead(s.log, id)
    {
      AheadAppend(s.log, t.log[|s.log|], id);
    }
  }

  lemma StreamRowInv<E>(s: State<E>)
    requires Inv(s) && Enabled(s, Stream) && s.log[s.streamed].Row?
    ensures Inv(Do(s, Stream))
  {
    var t := Do(s, Stream);
    var n := s.streamed;
    assert s.log[..n + 1][..n] == s.log[..n];
    assert t.queue[..|s.queue|] == s.queue;
    forall i | 0 <= i < |s.queue|
      ensures t.queue[..i] == s.queue[..i]
    {
    }
  }

  lemma StreamChallengeInv<E>(s: State<E>)
    requires Inv(s) && Enabled(s, Stream) && s.log[s.streamed].Challenge?
    ensures Inv(Do(s, Stream))
  {
    var n := s.streamed;
    assert s.log[..n + 1][..n] == s.log[..n];
    AheadAt(s.log, n);
  }

  lemma EnqueueInv<E>(s: State<E>, id: nat)
    requires Inv(s) && Enabled(s, Enqueue(id))
    ensures Inv(Do(s, Enqueue(id)))
  {
    var t := Do(s, Enqueue(id));
    assert t.queue[..|s.queue|] == s.queue;
    forall i | 0 <= i < |s.queue|
      ensures t.queue[..i] == s.queue[..i]
    {
    }
  }

  lemma TakeRowInv<E>(s: State<E>)
    requires Inv(s) && Enabled(s, Take) && s.queue[0].Dml?
    ensures Inv(Do(s, Take))
  {
    RowItemsHead(s.queue);
    TakeQueue(s);
    var d, rest := [s.queue[0].event], RowItems(s.queue[1..]);
    assert s.applied + s.batch + (d + rest) == s.applied + (s.batch + d) + rest;
  }

  lemma TakeWriteFuncInv<E>(s: State<E>)
    requires Inv(s) && Enabled(s, Take) && s.queue[0].WriteFunc?
    ensures Inv(Do(s, Take))
  {
    RowItemsHead(s.queue);
    TakeQueue(s);
    HeldAnswers(s);
    assert RowItems(Do(s, Take).queue) == RowItems(s.queue);
  }

  /** The write function at the head of the queue has nothing but what was applied or taken before it. */
  lemma HeldAnswers<E>(s: State<E>)
    requires QueueOk(s) && s.queue != [] && s.queue[0].WriteFunc?
    ensures Answers(s, s.queue[0].id, |s.applied| + |s.batch|)
  {
    assert s.queue[..0] == [];
    assert Answers(s, s.queue[0].id, |s.applied| + |s.batch| + |RowItems(s.queue[..0])|);
  }

  lemma TakeQueue<E>(s: State<E>)
    requires QueueOk(s) && Enabled(s, Take)
    ensures QueueOk(Do(s, Take))
  {
    var t := Do(s, Take);
    forall i | 0 <= i < |t.queue| && t.queue[i].WriteFunc?
      ensures Answers(t, t.queue[i].id, |t.applied| + |t.batch| + |RowItems(t.queue[..i])|)
    {
      var here := s.queue[..i + 1];
      RowItemsHead(here);
      assert here[1..] == t.queue[..i] && here[0] == s.queue[0];
      assert s.queue[i + 1] == t.queue[i];
    }
  }

  lemma StepInv<E>(s: State<E>, a: Action<E>)
    requires Inv(s) && Enabled(s, a)
    ensures Inv(Do(s, a))
  {
    match a
    case LogRow(_) => LogInv(s, a);
    case WriteChallenge(_) => LogInv(s, a);
    case Stream => if s.log[s.streamed].Row? { StreamRowInv(s); } else { StreamChallengeInv(s); }
    case Enqueue(id) => EnqueueInv(s, id);
    case Take => if s.queue[0].Dml? { TakeRowInv(s); } else { TakeWriteFuncInv(s); }
    case ApplyBatch =>
    case Deliver =>
  }

  /** The state after a list of actions, if each was enabled when its turn came. */
  ghost predicate Reaches<E>(s: State<E>, actions: seq<Action<E>>, t: State<E>)
    decreases |actions|
  {
    if actions == [] then s == t
    else Enabled(s, actions[0]) && Reaches(Do(s, actions[0]), actions[1..], t)
  }

  lemma {:induction false} ReachesInv<E>(s: State<E>, actions: seq<Action<E>>, t: State<E>)
    requires Inv(s) && Reaches(s, actions, t)
    ensures Inv(t)
    decreases |actions|
  {
    if actions != [] {
      StepInv(s, actions[0]);
      ReachesInv(Do(s, actions[0]), actions[1..], t);
    }
  }

  /** When a challenge is delivered, every row event logged before it has been applied, in log order. */
  lemma DeliveredMeansApplied<E>(s: State<E>, j: nat)
    requires Inv(s) && Enabled(s, Deliver)
    requires j < |s.log| && s.log[j] == Challenge(s.held.value)
    ensures Rows(s.log[..j]) <= s.applied
  {
    AheadAt(s.log, j);
    if j <= s.streamed {
      RowsPrefix(s.log, j, s.streamed);
    } else {
      RowsPrefix(s.log, s.streamed, j);
    }
  }

  /**
   The drain marker, over every run: whatever challenges of earlier attempts are still on the way, and in
   whatever order the challenges reach the queue.
   */
  lemma {:induction false} DrainMarker<E>(start: State<E>, actions: seq<Action<E>>, s: State<E>, j: nat)
    requires Init(start) && Reaches(start, actions, s) && Enabled(s, Deliver)
    requires j < |s.log| && s.log[j] == Challenge(s.held.value)
    ensures Rows(s.log[..j]) <= s.applied
  {
    InitInv(start);
    ReachesInv(start, actions, s);
    DeliveredMeansApplied(s, j);
  }
}
