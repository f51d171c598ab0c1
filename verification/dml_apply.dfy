/**
 Applying a batch of row events: all statements of all events run in one transaction, and the counters move
 only when it commits.
 */
module DmlApply {
  import opened Wrappers
  import opened KeyOrder
  import opened RangeComparison
  import opened ColumnTypes
  import opened TableEvents
  import opened DmlQueries
  import opened DmlReplay

  ghost predicate AllImagesOk(m: Mapping, es: seq<Images>) {
    forall i :: 0 <= i < |es| ==> ImagesOk(m, es[i])
  }

  /** Shared and mapped columns correspond one to one. */
  ghost predicate Aligned(m: Mapping) {
    |m.sharedColumns.columns| == |m.mappedSharedColumns.columns|
  }

  lemma StatementsWellFormed(m: Mapping, e: Images)
    requires Aligned(m) && ImagesOk(m, e)
    ensures AllWellFormed(StatementsOf(m, e))
  {
    EqualsMeaning(Names(m.uniqueKeyColumns.columns), seq(|m.uniqueKeyColumns.columns|, _ => "?"), map[],
                  seq(|m.uniqueKeyColumns.columns|, _ => 0));
  }

  /** The ghost table after the statements of a batch. */
  ghost function ExecuteBatch(m: Mapping, g: map<Key, Row>, es: seq<Images>): map<Key, Row>
    requires Aligned(m) && AllImagesOk(m, es)
  {
    if es == [] then g else
    var n := |es| - 1;
    StatementsWellFormed(m, es[n]);
    ExecuteAll(m, ExecuteBatch(m, g, es[..n]), StatementsOf(m, es[n]))
  }

  ghost function BatchDelta(m: Mapping, es: seq<Images>): int
    requires AllImagesOk(m, es)
  {
    if es == [] then 0 else
    var n := |es| - 1;
    BatchDelta(m, es[..n]) + TotalDelta(Built(m, es[n].dml, es[n].where, es[n].new_))
  }

  lemma {:induction false} ExecuteAllAppend(m: Mapping, g: map<Key, Row>, ss: seq<Statement>, s: Statement)
    requires AllWellFormed(ss) && WellFormed(s)
    ensures AllWellFormed(ss + [s])
    ensures ExecuteAll(m, g, ss + [s]) == Execute(m, ExecuteAll(m, g, ss), s)
    decreases ss
  {
    if ss == [] {
      assert ss + [s] == [s];
      ExecuteOne(m, g, s);
    } else {
      assert (ss + [s])[1..] == ss[1..] + [s];
      ExecuteAllAppend(m, Execute(m, g, ss[0]), ss[1..], s);
    }
  }

  lemma {:induction false} TotalDeltaAppend(built: seq<DmlBuildResult>, b: DmlBuildResult)
    ensures TotalDelta(built + [b]) == TotalDelta(built) + b.rowsDelta
  {
    if built == [] {
      assert (built + [b])[1..] == [];
    } else {
      assert (built + [b])[1..] == built[1..] + [b];
      TotalDeltaAppend(built[1..], b);
    }
  }

  lemma {:induction false} BatchStep(m: Mapping, g: map<Key, Row>, es: seq<Images>, i: nat)
    requires Aligned(m) && i < |es| && AllImagesOk(m, es[..i]) && ImagesOk(m, es[i])
    ensures AllImagesOk(m, es[..i + 1]) && AllWellFormed(StatementsOf(m, es[i]))
    ensures ExecuteBatch(m, g, es[..i + 1]) == ExecuteAll(m, ExecuteBatch(m, g, es[..i]), StatementsOf(m, es[i]))
    ensures BatchDelta(m, es[..i + 1]) ==
            BatchDelta(m, es[..i]) + TotalDelta(Built(m, es[i].dml, es[i].where, es[i].new_))
  {
    StatementsWellFormed(m, es[i]);
    assert es[..i + 1][..i] == es[..i];
  }

  /** Every statement of every event of the batch has run, in order; `delta` is the sum of the row deltas. */
  ghost predicate RunsBatch(m: Mapping, es: seq<Images>, g: map<Key, Row>, g': map<Key, Row>, delta: int) {
    Aligned(m) && AllImagesOk(m, es) && g' == ExecuteBatch(m, g, es) && delta == BatchDelta(m, es)
  }

  /** The statements of the first `k` results have run. */
  ghost predicate RanFirst(m: Mapping, tx: map<Key, Row>, built: seq<DmlBuildResult>, k: nat, table: map<Key, Row>,
                           delta: int)
    requires k <= |built|
  {
    && AllWellFormed(Statements(built[..k]))
    && table == ExecuteAll(m, tx, Statements(built[..k])) && delta == TotalDelta(built[..k])
  }

  lemma RunNext(m: Mapping, tx: map<Key, Row>, built: seq<DmlBuildResult>, k: nat, table: map<Key, Row>, delta: int)
    requires k < |built| && WellFormed(built[k].statement) && RanFirst(m, tx, built, k, table, delta)
    ensures RanFirst(m, tx, built, k + 1, Execute(m, table, built[k].statement), delta + built[k].rowsDelta)
  {
    ExecuteAllAppend(m, tx, Statements(built[..k]), built[k].statement);
    TotalDeltaAppend(built[..k], built[k]);
    assert Statements(built[..k + 1]) == Statements(built[..k]) + [built[k].statement];
    assert built[..k + 1] == built[..k] + [built[k]];
  }

  // ---- The applier ----

  /** Where the server fails, if it does. Statements are counted over the whole batch. */
  datatype Fault = NoFault | OnBegin | OnStatement(n: nat) | OnCommit

  /** How many statements are built for a batch. */
  ghost function StatementCount(m: Mapping, es: seq<Images>): nat
    requires AllImagesOk(m, es)
  {
    if es == [] then 0 else
    var n := |es| - 1;
    StatementCount(m, es[..n]) + |StatementsOf(m, es[n])|
  }

  lemma {:induction false} CountGrows(m: Mapping, es: seq<Images>, i: nat)
    requires i <= |es| && AllImagesOk(m, es)
    ensures AllImagesOk(m, es[..i]) && StatementCount(m, es[..i]) <= StatementCount(m, es)
  {
    if i < |es| {
      CountGrows(m, es[..|es| - 1], i);
      assert es[..|es| - 1][..i] == es[..i];
    } else {
      assert es[..i] == es;
    }
  }

  /** The fault befalls one of these statements. */
  predicate Interrupts(fault: Fault, executed: nat, statements: nat) {
    fault.OnStatement? && executed <= fault.n < executed + statements
  }

  /** The statements of the first `n` events can be built, and none of them fails. */
  ghost predicate Runs(m: Mapping, es: seq<Images>, n: nat, fault: Fault) {
    n <= |es| && AllImagesOk(m, es[..n]) && !Interrupts(fault, 0, StatementCount(m, es[..n]))
  }

  /** When the transaction of a batch commits: every event can be built, and nothing fails. */
  ghost predicate Commits(m: Mapping, es: seq<Images>, fault: Fault) {
    fault != OnBegin && fault != OnCommit && Runs(m, es, |es|, fault)
  }

  /**
   How many events an attempt builds: all of them, or those before the first that cannot be built, or those up to the
   first of which a statement fails.
   */
  ghost predicate StopsAt(m: Mapping, es: seq<Images>, fault: Fault, built: nat) {
    || (built == |es| && Runs(m, es, built, fault))
    || (built < |es| && Runs(m, es, built, fault) && !ImagesOk(m, es[built]))
    || (0 < built <= |es| && Runs(m, es, built - 1, fault) && ImagesOk(m, es[built - 1]) && !Runs(m, es, built, fault))
  }

  /** An attempt that does not get past some event does not get to the end. */
  lemma RunsFurther(m: Mapping, es: seq<Images>, i: nat, fault: Fault)
    requires i <= |es| && Runs(m, es, |es|, fault)
    ensures Runs(m, es, i, fault) && (i < |es| ==> ImagesOk(m, es[i]))
  {
    assert es[..|es|] == es;
    CountGrows(m, es, i);
  }

  lemma {:induction false} RunsOneFurther(m: Mapping, es: seq<Images>, i: nat, fault: Fault)
    requires i < |es| && Runs(m, es, i, fault) && ImagesOk(m, es[i])
    ensures AllImagesOk(m, es[..i + 1])
    ensures StatementCount(m, es[..i + 1]) == StatementCount(m, es[..i]) + |StatementsOf(m, es[i])|
    ensures Runs(m, es, i + 1, fault) <==> !Interrupts(fault, StatementCount(m, es[..i]), |StatementsOf(m, es[i])|)
  {
    assert es[..i + 1][..i] == es[..i];
  }

  function ImagesOf(event: BinlogDMLEvent): Images
    reads event
  {
    Images(event.dml, event.whereColumnValues, event.newColumnValues)
  }

  function ImagesOfAll(events: seq<BinlogDMLEvent>): (es: seq<Images>)
    reads events
    ensures |es| == |events|
    ensures forall i :: 0 <= i < |es| ==> es[i] == ImagesOf(events[i])
  {
    seq(|events|, i requires 0 <= i < |events| reads events => ImagesOf(events[i]))
  }

  ghost predicate DistinctEvents(events: seq<BinlogDMLEvent>) {
    forall i, j :: 0 <= i < j < |events| ==> events[i] != events[j]
  }

  /** The images of an update have one value for each column; the test of its key columns relies on that. */
  ghost predicate UpdatesOk(m: Mapping, events: seq<BinlogDMLEvent>)
    reads events
  {
    forall i :: 0 <= i < |events| && events[i].dml == UpdateDML ==>
      |events[i].whereColumnValues| == |events[i].newColumnValues| == |m.tableColumns.columns|
  }

  class Applier {
    const mapping: Mapping
    const countTableRows: bool
    var ghostTable: map<Key, Row>
    var totalDMLEventsApplied: int
    var rowsDeltaEstimate: int

    constructor (mapping: Mapping, countTableRows: bool)
      ensures this.mapping == mapping && this.countTableRows == countTableRows
      ensures ghostTable == map[] && totalDMLEventsApplied == 0 && rowsDeltaEstimate == 0
    {
      this.mapping, this.countTableRows := mapping, countTableRows;
      ghostTable, totalDMLEventsApplied, rowsDeltaEstimate := map[], 0, 0;
    }

    /** Executes the statements built for one event inside the open transaction. */
    method ExecuteResults(tx: map<Key, Row>, results: seq<Result<DmlBuildResult>>, ghost built: seq<DmlBuildResult>,
                          fault: Fault, executed: nat)
      returns (r: Result<(map<Key, Row>, int, nat)>)
      requires |results| == |built| && forall i :: 0 <= i < |results| ==> results[i] == Ok(built[i])
      requires AllWellFormed(Statements(built))
      ensures r.Ok? ==> r.value.0 == ExecuteAll(mapping, tx, Statements(built))
      ensures r.Ok? ==> r.value.1 == TotalDelta(built) && r.value.2 == executed + |results|
      ensures r.Err? <==> Interrupts(fault, executed, |results|)
    {
      var table, delta := tx, 0;
      for k := 0 to |results|
        invariant RanFirst(mapping, tx, built, k, table, delta)
        invariant !Interrupts(fault, executed, k)
      {
        if fault == OnStatement(executed + k) {
          return Err("statement failed");
        }
        var result := results[k].value;
        assert WellFormed(Statements(built)[k]);
        RunNext(mapping, tx, built, k, table, delta);
        table := Execute(mapping, table, result.statement);
        delta := delta + result.rowsDelta;
      }
      assert built[..|built|] == built;
      return Ok((table, delta, executed + |results|));
    }

    /** `e` are the images of the event before it is built. */
    method ApplyEvent(tx: map<Key, Row>, event: BinlogDMLEvent, ghost e: Images, fault: Fault, executed: nat)
      returns (r: Result<(map<Key, Row>, int, nat)>)
      requires Buildable(mapping) && e == ImagesOf(event)
      requires event.dml == UpdateDML ==> |event.whereColumnValues| == |event.newColumnValues| == |mapping.tableColumns.columns|
      modifies event`dml
      ensures r.Ok? ==> ImagesOk(mapping, e) && AllWellFormed(StatementsOf(mapping, e))
      ensures r.Ok? ==> r.value.0 == ExecuteAll(mapping, tx, StatementsOf(mapping, e))
      ensures r.Ok? ==> r.value.1 == TotalDelta(Built(mapping, e.dml, e.where, e.new_))
      ensures ImagesOf(event) == if ImagesOk(mapping, e) then Rebuilt(mapping, e) else e
      ensures r.Ok? <==> ImagesOk(mapping, e) && !Interrupts(fault, executed, |StatementsOf(mapping, e)|)
      ensures r.Ok? ==> r.value.2 == executed + |StatementsOf(mapping, e)|
    {
      var results := BuildDMLEventQuery(mapping, event);
      if results[0].Err? {
        return Err(results[0].message);
      }
      StatementsWellFormed(mapping, e);
      r := ExecuteResults(tx, results, Built(mapping, e.dml, e.where, e.new_), fault, executed);
    }

    /**
     `built` counts the events that this attempt has built, and so perhaps overwritten; `delta` is the sum of the row
     deltas.
     */
    method ApplyDMLEventQueries(dmlEvents: seq<BinlogDMLEvent>, fault: Fault)
      returns (r: Result<()>, ghost built: nat, ghost delta: int)
      requires Buildable(mapping)
      requires DistinctEvents(dmlEvents) && UpdatesOk(mapping, dmlEvents)
      modifies this`ghostTable, this`totalDMLEventsApplied, this`rowsDeltaEstimate, (set e | e in dmlEvents)`dml
      // A committed batch has run every statement of every event, in order.
      ensures r.Ok? ==> RunsBatch(mapping, old(ImagesOfAll(dmlEvents)), old(ghostTable), ghostTable, delta)
      ensures r.Ok? ==> totalDMLEventsApplied == old(totalDMLEventsApplied) + |dmlEvents|
      ensures r.Ok? ==> rowsDeltaEstimate == old(rowsDeltaEstimate) + if countTableRows then delta else 0
      // A failed batch has left the table and the counters alone.
      ensures r.Err? ==> ghostTable == old(ghostTable) && totalDMLEventsApplied == old(totalDMLEventsApplied)
                         && rowsDeltaEstimate == old(rowsDeltaEstimate)
      // Either way, the first events are as one build leaves them, and the others are untouched.
      ensures BuiltUpTo(mapping, dmlEvents, old(ImagesOfAll(dmlEvents)), built) && (r.Ok? ==> built == |dmlEvents|)
      ensures if fault == OnBegin then built == 0 else StopsAt(mapping, old(ImagesOfAll(dmlEvents)), fault, built)
      // It commits exactly if every event can be built and nothing fails.
      ensures r.Ok? <==> Commits(mapping, old(ImagesOfAll(dmlEvents)), fault)
    {
      if fault == OnBegin {
        return Err("begin failed"), 0, 0;
      }
      var tx;
      tx, built := BuildAndExecute(dmlEvents, fault);
      if tx.Err? {
        return Err(tx.message), built, 0;
      }
      if fault == OnCommit {
        return Err("commit failed"), built, 0;
      }
      ghostTable := tx.value.0;
      totalDMLEventsApplied := totalDMLEventsApplied + |dmlEvents|;
      if countTableRows {
        rowsDeltaEstimate := rowsDeltaEstimate + tx.value.1;
      }
      return Ok(()), built, tx.value.1;
    }

    /** One round of the loop below. */
    method BuildNext(dmlEvents: seq<BinlogDMLEvent>, i: nat, event: BinlogDMLEvent, tx: map<Key, Row>, fault: Fault,
                     executed: nat,
                     ghost es: seq<Images>)
      returns (r: Result<(map<Key, Row>, int, nat)>)
      requires Buildable(mapping) && i < |dmlEvents| && event == dmlEvents[i] && BuiltUpTo(mapping, dmlEvents, es, i)
      requires forall j :: 0 <= j < |dmlEvents| && j != i ==> dmlEvents[j] != event
      requires es[i].dml == UpdateDML ==> |es[i].where| == |es[i].new_| == |mapping.tableColumns.columns|
      modifies event`dml
      ensures BuiltUpTo(mapping, dmlEvents, es, if ImagesOk(mapping, es[i]) then i + 1 else i)
      ensures r.Ok? ==> ImagesOk(mapping, es[i]) && AllWellFormed(StatementsOf(mapping, es[i]))
      ensures r.Ok? ==> r.value.0 == ExecuteAll(mapping, tx, StatementsOf(mapping, es[i]))
      ensures r.Ok? ==> r.value.1 == TotalDelta(Built(mapping, es[i].dml, es[i].where, es[i].new_))
      ensures r.Ok? <==> ImagesOk(mapping, es[i]) && !Interrupts(fault, executed, |StatementsOf(mapping, es[i])|)
      ensures r.Ok? ==> r.value.2 == executed + |StatementsOf(mapping, es[i])|
    {
      assert ImagesOf(event) == es[i];
      r := ApplyEvent(tx, event, es[i], fault, executed);
    }

    /** The loop over the events: the transaction's table and the sum of the row deltas. */
    method BuildAndExecute(dmlEvents: seq<BinlogDMLEvent>, fault: Fault)
      returns (r: Result<(map<Key, Row>, int)>, ghost built: nat)
      requires Buildable(mapping)
      requires DistinctEvents(dmlEvents) && UpdatesOk(mapping, dmlEvents)
      modifies (set e | e in dmlEvents)`dml
      ensures r.Ok? ==> RunsBatch(mapping, old(ImagesOfAll(dmlEvents)), ghostTable, r.value.0, r.value.1)
      ensures BuiltUpTo(mapping, dmlEvents, old(ImagesOfAll(dmlEvents)), built) && (r.Ok? ==> built == |dmlEvents|)
      ensures StopsAt(mapping, old(ImagesOfAll(dmlEvents)), fault, built)
      ensures r.Ok? <==> Runs(mapping, old(ImagesOfAll(dmlEvents)), |dmlEvents|, fault)
    {
      ghost var es := ImagesOfAll(dmlEvents);
      var tx, totalDelta, executed := ghostTable, 0, 0;
      for i := 0 to |dmlEvents|
        invariant BuiltUpTo(mapping, dmlEvents, es, i)
        invariant RanEvents(mapping, es, i, fault, ghostTable, tx, totalDelta, executed)
      {
        var applied := BuildNext(dmlEvents, i, dmlEvents[i], tx, fault, executed, es);
        if applied.Err? {
          CannotGoOn(mapping, es, i, fault, ghostTable, tx, totalDelta, executed);
          return Err(applied.message), if ImagesOk(mapping, es[i]) then i + 1 else i;
        }
        RanOneMore(mapping, es, i, fault, ghostTable, tx, totalDelta, executed);
        tx, totalDelta, executed := applied.value.0, totalDelta + applied.value.1, applied.value.2;
      }
      RanAll(mapping, es, fault, ghostTable, tx, totalDelta, executed);
      return Ok((tx, totalDelta)), |dmlEvents|;
    }
  }

  /** The loop over the events has got behind the first `i` of them. */
  ghost predicate RanEvents(m: Mapping, es: seq<Images>, i: nat, fault: Fault, g: map<Key, Row>,
                            tx: map<Key, Row>, delta: int, executed: nat)
  {
    && Aligned(m) && Runs(m, es, i, fault) && executed == StatementCount(m, es[..i])
    && tx == ExecuteBatch(m, g, es[..i]) && delta == BatchDelta(m, es[..i])
  }

  lemma {:induction false} RanOneMore(m: Mapping, es: seq<Images>, i: nat, fault: Fault, g: map<Key, Row>,
                                      tx: map<Key, Row>, delta: int, executed: nat)
    requires RanEvents(m, es, i, fault, g, tx, delta, executed) && i < |es| && ImagesOk(m, es[i])
    requires !Interrupts(fault, executed, |StatementsOf(m, es[i])|)
    ensures AllWellFormed(StatementsOf(m, es[i]))
    ensures RanEvents(m, es, i + 1, fault, g, ExecuteAll(m, tx, StatementsOf(m, es[i])),
                      delta + TotalDelta(Built(m, es[i].dml, es[i].where, es[i].new_)), executed + |StatementsOf(m, es[i])|)
  {
    RunsOneFurther(m, es, i, fault);
    BatchStep(m, g, es, i);
  }

  lemma RanAll(m: Mapping, es: seq<Images>, fault: Fault, g: map<Key, Row>, tx: map<Key, Row>, delta: int, executed: nat)
    requires RanEvents(m, es, |es|, fault, g, tx, delta, executed)
    ensures RunsBatch(m, es, g, tx, delta) && Runs(m, es, |es|, fault) && StopsAt(m, es, fault, |es|)
  {
    assert es[..|es|] == es;
  }

  lemma CannotGoOn(m: Mapping, es: seq<Images>, i: nat, fault: Fault, g: map<Key, Row>,
                   tx: map<Key, Row>, delta: int, executed: nat)
    requires RanEvents(m, es, i, fault, g, tx, delta, executed) && i < |es|
    requires ImagesOk(m, es[i]) ==> Interrupts(fault, executed, |StatementsOf(m, es[i])|)
    ensures !Runs(m, es, |es|, fault) && StopsAt(m, es, fault, if ImagesOk(m, es[i]) then i + 1 else i)
  {
    if ImagesOk(m, es[i]) {
      RunsOneFurther(m, es, i, fault);
    }
    if Runs(m, es, |es|, fault) {
      RunsFurther(m, es, i, fault);
      RunsFurther(m, es, i + 1, fault);
    }
  }

  /** The first `n` events are as one build leaves them, and the others as they were. */
  ghost predicate BuiltUpTo(m: Mapping, events: seq<BinlogDMLEvent>, es: seq<Images>, n: nat)
    reads events
  {
    && n <= |events| == |es|
    && (forall i :: 0 <= i < n ==> ImagesOk(m, es[i]) && ImagesOf(events[i]) == Rebuilt(m, es[i]))
    && (forall i :: n <= i < |events| ==> ImagesOf(events[i]) == es[i])
  }

  // ---- Batches of fresh events ----

  ghost predicate AllChangesOk(m: Mapping, cs: seq<RowChange>) {
    forall i :: 0 <= i < |cs| ==> ChangeOk(m, cs[i])
  }

  ghost function FreshAll(m: Mapping, cs: seq<RowChange>): (es: seq<Images>)
    requires AllChangesOk(m, cs)
    ensures |es| == |cs|
    ensures forall i :: 0 <= i < |es| ==> es[i] == Fresh(m, cs[i])
  {
    if cs == [] then [] else FreshAll(m, cs[..|cs| - 1]) + [Fresh(m, cs[|cs| - 1])]
  }

  function Events(m: Mapping, cs: seq<RowChange>): (es: seq<Event<OriginalRow>>)
    ensures |es| == |cs|
  {
    if cs == [] then [] else Events(m, cs[..|cs| - 1]) + [ToEvent(m, cs[|cs| - 1])]
  }

  /** The images of a batch of which earlier attempts have built the first `rebuilt` events. */
  ghost function AttemptedAll(m: Mapping, cs: seq<RowChange>, rebuilt: nat): (es: seq<Images>)
    requires m.Valid() && AllChangesOk(m, cs)
    ensures |es| == |cs|
  {
    if cs == [] then [] else
    var n := |cs| - 1;
    FreshIsOk(m, cs[n]);
    AttemptedAll(m, cs[..n], rebuilt) + [Attempted(m, cs[n], n < rebuilt)]
  }

  /** The events that such a batch amounts to. */
  function AttemptedEvents(m: Mapping, cs: seq<RowChange>, rebuilt: nat): (es: seq<Event<OriginalRow>>)
    ensures |es| == |cs|
  {
    if cs == [] then [] else
    var n := |cs| - 1;
    AttemptedEvents(m, cs[..n], rebuilt) + [AttemptedEvent(m, cs[n], n < rebuilt)]
  }

  /**
   A batch does to the ghost table what replaying its events one by one does: all of them fresh, if it is the
   first attempt, and otherwise with the first of them as a rolled-back attempt has left them.
   */
  lemma {:induction false} BatchIsReplay(m: Mapping, g: map<Key, Row>, cs: seq<RowChange>, rebuilt: nat)
    requires m.Valid() && Aligned(m) && AllChangesOk(m, cs) && GhostTable(m, g)
    ensures AllImagesOk(m, AttemptedAll(m, cs, rebuilt))
    ensures ExecuteBatch(m, g, AttemptedAll(m, cs, rebuilt)) == ReplayAll(g, AttemptedEvents(m, cs, rebuilt), m.ProjectRow)
    ensures GhostTable(m, ReplayAll(g, AttemptedEvents(m, cs, rebuilt), m.ProjectRow))
  {
    if cs != [] {
      var n := |cs| - 1;
      var earlier := AttemptedEvents(m, cs[..n], rebuilt);
      var before := ReplayAll(g, earlier, m.ProjectRow);
      var last := AttemptedEvent(m, cs[n], n < rebuilt);
      BatchIsReplay(m, g, cs[..n], rebuilt);
      AttemptIsReplay(m, before, cs[n], n < rebuilt);
      ReplayAllAppend(g, earlier, [last], m.ProjectRow);
      ReplayOne(before, last, m.ProjectRow);
      LastAttempt(m, g, cs, rebuilt);
    }
  }

  lemma LastAttempt(m: Mapping, g: map<Key, Row>, cs: seq<RowChange>, rebuilt: nat)
    requires m.Valid() && Aligned(m) && AllChangesOk(m, cs) && cs != []
    requires AllImagesOk(m, AttemptedAll(m, cs[..|cs| - 1], rebuilt))
    ensures var n := |cs| - 1;
            && ImagesOk(m, Fresh(m, cs[n])) && ImagesOk(m, Attempted(m, cs[n], n < rebuilt))
            && AllImagesOk(m, AttemptedAll(m, cs, rebuilt))
            && AllWellFormed(StatementsOf(m, Attempted(m, cs[n], n < rebuilt)))
            && ExecuteBatch(m, g, AttemptedAll(m, cs, rebuilt))
               == ExecuteAll(m, ExecuteBatch(m, g, AttemptedAll(m, cs[..n], rebuilt)),
                             StatementsOf(m, Attempted(m, cs[n], n < rebuilt)))
  {
    var n := |cs| - 1;
    var es := AttemptedAll(m, cs, rebuilt);
    AttemptIsOk(m, cs[n], n < rebuilt);
    AttemptedParts(m, cs, rebuilt);
    BatchStep(m, g, es, n);
    assert es[..n + 1] == es;
  }

  lemma {:induction false} AttemptedParts(m: Mapping, cs: seq<RowChange>, rebuilt: nat)
    requires m.Valid() && AllChangesOk(m, cs) && cs != [] && ImagesOk(m, Fresh(m, cs[|cs| - 1]))
    ensures var n := |cs| - 1;
            && AttemptedAll(m, cs, rebuilt)[..n] == AttemptedAll(m, cs[..n], rebuilt)
            && AttemptedAll(m, cs, rebuilt)[n] == Attempted(m, cs[n], n < rebuilt)
  {
  }

  lemma AttemptIsOk(m: Mapping, c: RowChange, retried: bool)
    requires m.Valid() && ChangeOk(m, c)
    ensures ImagesOk(m, Fresh(m, c)) && ImagesOk(m, Attempted(m, c, retried))
  {
    FreshIsOk(m, c);
  }

  lemma {:induction false} FirstAttemptIsFresh(m: Mapping, cs: seq<RowChange>)
    requires m.Valid() && AllChangesOk(m, cs)
    ensures AttemptedAll(m, cs, 0) == FreshAll(m, cs) && AttemptedEvents(m, cs, 0) == Events(m, cs)
  {
    if cs != [] {
      FirstAttemptIsFresh(m, cs[..|cs| - 1]);
    }
  }

  lemma {:induction false} LastImages(m: Mapping, cs: seq<RowChange>)
    requires AllChangesOk(m, cs) && cs != []
    ensures FreshAll(m, cs)[..|cs| - 1] == FreshAll(m, cs[..|cs| - 1])
    ensures FreshAll(m, cs)[|cs| - 1] == Fresh(m, cs[|cs| - 1])
  {
  }

  lemma {:induction false} ReplayOne<R, G>(g: map<Key, G>, e: Event<R>, p: R -> G)
    ensures ReplayAll(g, [e], p) == Replay(g, e, p)
  {
    assert [e][1..] == [];
    assert ReplayAll(Replay(g, e, p), [], p) == Replay(g, e, p);
  }

  /** What became of one attempt at a batch. */
  datatype Attempt = Committed(changes: seq<RowChange>) | RolledBack(changes: seq<RowChange>)

  /** The estimate after a sequence of attempts, each at fresh events, by the applier's contract. */
  ghost function Estimate(m: Mapping, attempts: seq<Attempt>): int
    requires m.Valid() && Aligned(m) && forall i :: 0 <= i < |attempts| ==> AllChangesOk(m, attempts[i].changes)
  {
    if attempts == [] then 0 else
    var last := attempts[|attempts| - 1];
    Estimate(m, attempts[..|attempts| - 1]) +
    match last
    case RolledBack(_) => 0
    case Committed(changes) => BatchIsOk(m, changes); BatchDelta(m, FreshAll(m, changes))
  }

  lemma {:induction false} BatchIsOk(m: Mapping, cs: seq<RowChange>)
    requires m.Valid() && AllChangesOk(m, cs)
    ensures AllImagesOk(m, FreshAll(m, cs))
  {
    forall i | 0 <= i < |cs|
      ensures ImagesOk(m, FreshAll(m, cs)[i])
    {
      assert ChangeOk(m, cs[i]);
      FreshIsOk(m, cs[i]);
    }
  }

  lemma FreshIsOk(m: Mapping, c: RowChange)
    requires m.Valid() && ChangeOk(m, c)
    ensures ImagesOk(m, Fresh(m, c))
  {
  }

  /** The changes that were applied, in order. */
  function Applied(attempts: seq<Attempt>): seq<RowChange> {
    if attempts == [] then [] else
    var last := attempts[|attempts| - 1];
    Applied(attempts[..|attempts| - 1]) + if last.Committed? then last.changes else []
  }

  /** One batch: its deltas are the net number of rows its changes added to the original. */
  lemma {:induction false} BatchDeltaCountsRows(m: Mapping, t: map<Key, OriginalRow>, cs: seq<RowChange>)
    requires m.Valid() && AllChangesOk(m, cs) && AllApplicable(t, Events(m, cs))
    ensures AllImagesOk(m, FreshAll(m, cs))
    ensures BatchDelta(m, FreshAll(m, cs)) == |ApplyAll(t, Events(m, cs))| - |t|
  {
    BatchIsOk(m, cs);
    if cs != [] {
      var n := |cs| - 1;
      ApplyAllAppend(t, Events(m, cs[..n]), [ToEvent(m, cs[n])]);
      BatchDeltaCountsRows(m, t, cs[..n]);
      LastDelta(m, cs);
      DeltaCountsRows(m, ApplyAll(t, Events(m, cs[..n])), cs[n]);
    }
  }

  lemma {:induction false} LastDelta(m: Mapping, cs: seq<RowChange>)
    requires m.Valid() && AllChangesOk(m, cs) && cs != []
    ensures AllImagesOk(m, FreshAll(m, cs)) && AllImagesOk(m, FreshAll(m, cs[..|cs| - 1]))
    ensures ImagesOk(m, Fresh(m, cs[|cs| - 1]))
    ensures var e := Fresh(m, cs[|cs| - 1]);
            BatchDelta(m, FreshAll(m, cs)) ==
            BatchDelta(m, FreshAll(m, cs[..|cs| - 1])) + TotalDelta(Built(m, e.dml, e.where, e.new_))
  {
    BatchIsOk(m, cs);
    LastImages(m, cs);
  }

  lemma {:induction false} ApplyAllAppend<R>(t: map<Key, R>, xs: seq<Event<R>>, ys: seq<Event<R>>)
    ensures ApplyAll(t, xs + ys) == ApplyAll(ApplyAll(t, xs), ys)
    ensures AllApplicable(t, xs + ys) <==> AllApplicable(t, xs) && AllApplicable(ApplyAll(t, xs), ys)
    ensures |ys| == 1 ==> ApplyAll(ApplyAll(t, xs), ys) == Apply(ApplyAll(t, xs), ys[0])
    ensures |ys| == 1 ==> (AllApplicable(ApplyAll(t, xs), ys) <==> Applicable(ApplyAll(t, xs), ys[0]))
    decreases xs
  {
    if xs == [] {
      assert xs + ys == ys;
      if |ys| == 1 {
        assert ys[1..] == [];
        assert ApplyAll(Apply(t, ys[0]), []) == Apply(t, ys[0]);
      }
    } else {
      assert (xs + ys)[1..] == xs[1..] + ys;
      ApplyAllAppend(Apply(t, xs[0]), xs[1..], ys);
    }
  }

  lemma {:induction false} EventsAppend(m: Mapping, xs: seq<RowChange>, ys: seq<RowChange>)
    ensures Events(m, xs + ys) == Events(m, xs) + Events(m, ys)
  {
    if ys == [] {
      assert xs + ys == xs;
    } else {
      var n := |ys| - 1;
      assert (xs + ys)[..|xs| + n] == xs + ys[..n];
      EventsAppend(m, xs, ys[..n]);
    }
  }

  /**
   Row-count conservation: over any sequence of committed and rolled-back batches of fresh events, the
   estimate is the net number of rows that the applied events added to the original table.
   */
  lemma {:induction false} EstimateCountsRows(m: Mapping, t: map<Key, OriginalRow>, attempts: seq<Attempt>)
    requires m.Valid() && Aligned(m)
    requires forall i :: 0 <= i < |attempts| ==> AllChangesOk(m, attempts[i].changes)
    requires AllApplicable(t, Events(m, Applied(attempts)))
    ensures Estimate(m, attempts) == |ApplyAll(t, Events(m, Applied(attempts)))| - |t|
  {
    if attempts != [] {
      var n := |attempts| - 1;
      assert AllChangesOk(m, attempts[n].changes);
      AppliedSplits(m, t, attempts);
      EstimateCountsRows(m, t, attempts[..n]);
      if attempts[n].Committed? {
        BatchDeltaCountsRows(m, ApplyAll(t, Events(m, Applied(attempts[..n]))), attempts[n].changes);
      }
    }
  }

  /** The changes of the last attempt come behind those of the earlier ones. */
  lemma AppliedSplits(m: Mapping, t: map<Key, OriginalRow>, attempts: seq<Attempt>)
    requires attempts != [] && AllApplicable(t, Events(m, Applied(attempts)))
    ensures
      var n := |attempts| - 1;
      var before := ApplyAll(t, Events(m, Applied(attempts[..n])));
      && AllApplicable(t, Events(m, Applied(attempts[..n])))
      && (attempts[n].RolledBack? ==> ApplyAll(t, Events(m, Applied(attempts))) == before)
      && (attempts[n].Committed? ==>
            && AllApplicable(before, Events(m, attempts[n].changes))
            && ApplyAll(t, Events(m, Applied(attempts))) == ApplyAll(before, Events(m, attempts[n].changes)))
  {
    var n := |attempts| - 1;
    var earlier := Applied(attempts[..n]);
    if attempts[n].Committed? {
      EventsAppend(m, earlier, attempts[n].changes);
      ApplyAllAppend(t, Events(m, earlier), Events(m, attempts[n].changes));
    } else {
      assert Applied(attempts) == earlier;
    }
  }
}
