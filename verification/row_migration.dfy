/**
 The migration of actual rows. The steps of the migration are what the applier does: a batch of row events replayed,
 or rolled back, is a call of the applier on the decoded events, and a chunk copied is its statement. What the swap
 installs is spelled out row for row and column for column.
 */
module RowMigration {
  import opened Wrappers
  import opened KeyOrder
  import opened RangeComparison
  import opened ColumnTypes
  import opened TableEvents
  import opened DmlQueries
  import opened DmlReplay
  import opened DmlApply
  import ChunkIteration
  import ChunkCopy
  import C = Convergence
  import R = RowCopy
  import X = CutOver
  import M = Migration

  type Tables = C.State<OriginalRow, Row>

  // ---- A batch is a call of the applier ----

  /** Replaying the pending events one by one is replaying them as the rolled-back attempts have left them. */
  lemma {:induction false} ReplayManyIsReplayAll<T, G>(tables: C.State<T, G>, n: nat, p: T -> G)
    requires n <= |tables.backlog|
    ensures M.ReplayMany(tables, n, p).ghostTable
            == ReplayAll(tables.ghostTable, RetriedFirst(tables.backlog[..n], tables.rebuilt), p)
    decreases n
  {
    if n > 0 {
      var next := C.Do(tables, C.ReplayNext, p);
      var events := RetriedFirst(tables.backlog[..n], tables.rebuilt);
      assert events[1..] == RetriedFirst(next.backlog[..n - 1], next.rebuilt);
      ReplayManyIsReplayAll(next, n - 1, p);
    }
  }

  lemma {:induction false} AttemptedEventsAreRetried(m: Mapping, cs: seq<RowChange>, rebuilt: nat)
    ensures AttemptedEvents(m, cs, rebuilt) == RetriedFirst(Events(m, cs), rebuilt)
  {
    if cs != [] {
      AttemptedEventsAreRetried(m, cs[..|cs| - 1], rebuilt);
    }
  }

  /** The events of a batch, in terms of the tables: they are the first ones pending. */
  ghost predicate FirstPending(m: Mapping, tables: Tables, cs: seq<RowChange>) {
    m.Valid() && AllChangesOk(m, cs) && GhostTable(m, tables.ghostTable) && Events(m, cs) <= tables.backlog
  }

  /** Replaying a batch comes to running the statements that are built for it. */
  lemma {:induction false} ReplayIsExecuteBatch(m: Mapping, tables: Tables, cs: seq<RowChange>)
    requires FirstPending(m, tables, cs)
    ensures AllImagesOk(m, AttemptedAll(m, cs, tables.rebuilt))
    ensures M.ReplayMany(tables, |cs|, m.ProjectRow).ghostTable
            == ExecuteBatch(m, tables.ghostTable, AttemptedAll(m, cs, tables.rebuilt))
    ensures GhostTable(m, M.ReplayMany(tables, |cs|, m.ProjectRow).ghostTable)
  {
    BatchIsReplay(m, tables.ghostTable, cs, tables.rebuilt);
    AttemptedEventsAreRetried(m, cs, tables.rebuilt);
    assert tables.backlog[..|cs|] == Events(m, cs);
    ReplayManyIsReplayAll(tables, |cs|, m.ProjectRow);
  }

  lemma {:induction false} AttemptedAt(m: Mapping, cs: seq<RowChange>, rebuilt: nat, i: nat)
    requires m.Valid() && AllChangesOk(m, cs) && i < |cs|
    ensures ImagesOk(m, Fresh(m, cs[i])) && AttemptedAll(m, cs, rebuilt)[i] == Attempted(m, cs[i], i < rebuilt)
  {
    FreshIsOk(m, cs[i]);
    if i < |cs| - 1 {
      AttemptedAt(m, cs[..|cs| - 1], rebuilt, i);
    }
  }

  /** Building an event twice leaves it as building it once does. */
  lemma RebuiltTwice(m: Mapping, e: Images)
    requires ImagesOk(m, e)
    ensures ImagesOk(m, Rebuilt(m, e)) && Rebuilt(m, Rebuilt(m, e)) == Rebuilt(m, e)
  {
  }

  /** An attempt that has built the first `built` events leaves the batch as the step of the migration says. */
  lemma {:induction false} RolledBackImages(m: Mapping, events: seq<BinlogDMLEvent>, cs: seq<RowChange>, rebuilt: nat,
                                            built: nat)
    requires m.Valid() && AllChangesOk(m, cs)
    requires BuiltUpTo(m, events, AttemptedAll(m, cs, rebuilt), built)
    ensures ImagesOfAll(events) == AttemptedAll(m, cs, if rebuilt < built then built else rebuilt)
  {
    var after := if rebuilt < built then built else rebuilt;
    forall i | 0 <= i < |cs|
      ensures ImagesOf(events[i]) == AttemptedAll(m, cs, after)[i]
    {
      AttemptedAt(m, cs, rebuilt, i);
      AttemptedAt(m, cs, after, i);
      RebuiltTwice(m, Fresh(m, cs[i]));
    }
  }

  lemma {:induction false} AttemptedImagesOk(m: Mapping, cs: seq<RowChange>, rebuilt: nat)
    requires m.Valid() && AllChangesOk(m, cs)
    ensures AllImagesOk(m, AttemptedAll(m, cs, rebuilt))
  {
    forall i | 0 <= i < |cs| ensures ImagesOk(m, AttemptedAll(m, cs, rebuilt)[i]) {
      AttemptedAt(m, cs, rebuilt, i);
      RebuiltTwice(m, Fresh(m, cs[i]));
    }
  }

  /** The applier can be called on such a batch. */
  lemma {:induction false} BatchCanBeApplied(m: Mapping, events: seq<BinlogDMLEvent>, cs: seq<RowChange>, rebuilt: nat)
    requires m.Valid() && AllChangesOk(m, cs) && ImagesOfAll(events) == AttemptedAll(m, cs, rebuilt)
    ensures Buildable(m) && AllImagesOk(m, ImagesOfAll(events)) && |events| == |cs|
    ensures UpdatesOk(m, events)
  {
    ValidIsBuildable(m);
    AttemptedImagesOk(m, cs, rebuilt);
    forall i | 0 <= i < |events| && events[i].dml == UpdateDML
      ensures |events[i].whereColumnValues| == |events[i].newColumnValues| == |m.tableColumns.columns|
    {
      assert ImagesOk(m, ImagesOfAll(events)[i]);
    }
  }

  /**
   The consumer's call of the applier, on the events as rolled-back attempts have left them. If it commits, the ghost
   table is as after the replay of the batch; if it fails, the table is untouched, and the events are left as by the
   rollback of an attempt that built the first `built` of them.
   */
  method ApplyBatch(applier: Applier, dmlEvents: seq<BinlogDMLEvent>, fault: Fault, ghost tables: Tables,
                    ghost cs: seq<RowChange>)
    returns (r: Result<()>, ghost built: nat)
    requires FirstPending(applier.mapping, tables, cs)
    requires applier.ghostTable == tables.ghostTable
    requires DistinctEvents(dmlEvents)
    requires ImagesOfAll(dmlEvents) == AttemptedAll(applier.mapping, cs, tables.rebuilt)
    modifies applier`ghostTable, applier`totalDMLEventsApplied, applier`rowsDeltaEstimate, (set e | e in dmlEvents)`dml
    ensures r.Ok? ==> applier.ghostTable == M.ReplayMany(tables, |cs|, applier.mapping.ProjectRow).ghostTable
    ensures r.Err? ==>
              var after := C.Do(tables, C.RollBack(built), applier.mapping.ProjectRow);
              && built <= |cs| && applier.ghostTable == after.ghostTable
              && ImagesOfAll(dmlEvents) == AttemptedAll(applier.mapping, cs, after.rebuilt)
    ensures r.Ok? <==> Commits(applier.mapping, AttemptedAll(applier.mapping, cs, tables.rebuilt), fault)
  {
    ghost var m := applier.mapping;
    BatchCanBeApplied(m, dmlEvents, cs, tables.rebuilt);
    ghost var delta;
    r, built, delta := applier.ApplyDMLEventQueries(dmlEvents, fault);
    if r.Ok? {
      ReplayIsExecuteBatch(m, tables, cs);
    } else {
      RolledBackImages(m, dmlEvents, cs, tables.rebuilt, built);
    }
  }

  // ---- A chunk is a statement ----

  /** The copy step of the schedule is the execution of the applier's statement for the chosen chunk. */
  lemma {:induction false} CopyStepIsStatement(m: Mapping, s: R.State<OriginalRow, Row>,
                                               t: R.State<OriginalRow, Row>, query: ChunkIteration.RangeInsertQuery,
                                               args: seq<int>, keys: seq<Key>)
    requires m.Valid() && R.Next(s, R.CopyChunk, t, m.ProjectRow)
    requires OriginalTable(m, s.tables.visible) && (forall key :: key in keys <==> key in s.tables.visible)
    requires ChunkIteration.SelectsInterval(query.where, args, Names(m.uniqueKeyColumns.columns),
                                            R.Start(s), s.cursor.None?, s.pending.value)
    requires query.sharedColumns == Names(m.sharedColumns.columns)
    requires query.mappedColumns == Names(m.mappedSharedColumns.columns)
    ensures t.tables.ghostTable == ChunkCopy.ExecuteRangeInsert(m, s.tables.visible, s.tables.ghostTable, query, args, keys)
  {
    var lo, includeLo, hi := R.Start(s), s.cursor.None?, s.pending.value;
    ChunkCopy.RangeInsertMeaning(m, s.tables.visible, s.tables.ghostTable, query, args, keys, lo, includeLo, hi);
    assert ChunkCopy.Interval(lo, includeLo, hi) == iset key: Key | ChunkIteration.InInterval(key, lo, includeLo, hi);
  }

  // ---- The table that the swap installs ----

  /** A ghost row holds every shared column of its original under the mapped name, defaults elsewhere, and no more. */
  ghost predicate Holds(m: Mapping, row: OriginalRow, copied: Row) {
    var shared, mapped := m.sharedColumns.columns, Names(m.mappedSharedColumns.columns);
    && (forall j :: 0 <= j < |shared| && j < |mapped| ==>
          mapped[j] in copied && copied[mapped[j]] == m.Select(row, shared)[j])
    && (forall name :: name in m.ghostDefaults ==> name in copied && copied[name] == m.ghostDefaults[name])
    && (forall name :: name in copied ==> name in m.ghostDefaults || name in mapped)
  }

  lemma ProjectionHolds(m: Mapping, row: OriginalRow)
    requires m.Valid()
    ensures Holds(m, row, m.ProjectRow(row))
  {
    var mapped, values := Names(m.mappedSharedColumns.columns), m.Select(row, m.sharedColumns.columns);
    MappedNamesDistinct(m);
    ProjectionShape(m, row);
    forall j | 0 <= j < |mapped|
      ensures mapped[j] in m.ProjectRow(row) && m.ProjectRow(row)[mapped[j]] == values[j]
    {
      AssignSets(m.ghostDefaults, mapped, values, j);
    }
  }

  /**
   The theorem about the swap, for rows: in every run of safe steps in which main has not given up early, the table
   that the swap installs has the keys of the original, and under each of them the columns of its row.
   */
  lemma SwapInstallsRows(m: Mapping, run: seq<M.State<OriginalRow, Row>>, t: M.State<OriginalRow, Row>)
    requires m.Valid() && M.IsRun(run, m.ProjectRow)
    requires var s := run[|run| - 1];
      M.Next(s, M.Cutting(X.ResolveRename), t, m.ProjectRow) && X.CanSwap(s.cut) && !s.cut.gaveUpEarly
    ensures t.cut.originalName == Some(X.GhostTable) && t.cut.oldName == Some(X.OriginalTable)
    ensures var original, copied := t.copy.tables.visible, t.copy.tables.ghostTable;
      && original.Keys == copied.Keys && forall key :: key in original ==> Holds(m, original[key], copied[key])
  {
    M.SwapInstallsProjection(run, t, m.ProjectRow);
    var original, copied := t.copy.tables.visible, t.copy.tables.ghostTable;
    assert Project(original, m.ProjectRow).Keys == original.Keys;
    forall key | key in original
      ensures Holds(m, original[key], copied[key])
    {
      ProjectionHolds(m, original[key]);
    }
  }
}
