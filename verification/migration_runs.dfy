/**
 Runs of the whole migration that go wrong, from the start to the swap: one row is copied, the backlog is drained, and
 the cut-over makes way for the RENAME. In each of them one step is not safe, and the swap installs a table that lacks a
 row, or one that has a row too many.
 */
module MigrationRuns {
  import opened Wrappers
  import opened KeyOrder
  import opened TableEvents
  import opened Migration
  import C = Convergence
  import D = Drain
  import R = RowCopy
  import X = CutOver
  import RowCopyRuns
  import CutOverRuns

  type S = State<int, int>

  const Same := RowCopyRuns.Same
  const K1 := RowCopyRuns.K1
  const K2 := RowCopyRuns.K2

  ghost predicate Link(s: S, t: S) {
    exists step: Step<int> :: Next(s, step, t, Same)
  }

  /** A stretch of a run. */
  ghost predicate Connects(run: seq<S>, s: S, t: S) {
    && run != [] && run[0] == s && run[|run| - 1] == t
    && forall i :: 0 <= i < |run| - 1 ==> Link(run[i], run[i + 1])
  }

  lemma Extend(run: seq<S>, s: S, t: S, u: S)
    requires Connects(run, s, t) && Link(t, u)
    ensures Connects(run + [u], s, u)
  {
    var longer := run + [u];
    forall i | 0 <= i < |longer| - 1 ensures Link(longer[i], longer[i + 1]) {
      if i < |run| - 1 {
        assert longer[i] == run[i] && longer[i + 1] == run[i + 1];
      }
    }
  }

  /** A step of row copy is one of the migration. */
  lemma CopyLifts(run: seq<S>, s: S, t: S, copy: R.State<int, int>)
    requires Connects(run, s, t) && RowCopyRuns.CopyStep(t.copy, copy)
    ensures Connects(run + [t.(copy := copy)], s, t.(copy := copy))
  {
    var step: R.Step<int> :| !step.Elsewhere? && R.Next(t.copy, step, copy, Same);
    assert Next(t, Copying(step), t.(copy := copy), Same);
    Extend(run, s, t, t.(copy := copy));
  }

  /** So are the actions of the cut-over, once row copy is over. */
  lemma {:induction false} CutLifts(run: seq<S>, s: S, t: S, actions: seq<X.Action<Event<int>>>, cut: X.State<Event<int>>)
    returns (longer: seq<S>)
    requires Connects(run, s, t) && X.Reaches(t.cut, actions, cut) && CutOverRuns.Quiet(actions)
    requires t.copy.finished && t.copy.tables.prepared == []
    ensures Connects(longer, s, t.(cut := cut))
    decreases |actions|
  {
    if actions == [] {
      longer := run;
    } else {
      var u := t.(cut := X.Do(t.cut, actions[0]));
      assert Next(t, Cutting(actions[0]), u, Same);
      Extend(run, s, t, u);
      longer := CutLifts(run + [u], s, u, actions[1..], cut);
    }
  }

  /** Row copy and cut-over before anything has happened. */
  const Before: X.State<Event<int>> :=
    var none := X.Channel([], 0);
    X.State(D.State([], 0, multiset{}, [], [], None, []), X.AwaitLocked, X.LBegin, X.RIdle,
            Some(X.OriginalTable), Some(X.GhostTable), None, false, false, false, X.NotIssued,
            none, none, none, none, none, none, false, None, false, false, false)

  /** The one visible row of the table is copied, and row copy is over. */
  lemma CopiesTheRow(s: S) returns (run: seq<S>, t: S)
    requires s.copy.tables.visible == map[K1 := 7] && s.copy.tables.ghostTable == map[]
    requires !C.Locked(s.copy.tables, K1)
    requires s.copy.rangeMin == s.copy.rangeMax == s.copy.cursor == s.copy.pending == None && !s.copy.finished
    ensures Connects(run, s, t) && t.cut == s.cut && t.copy.finished
    ensures t.copy.tables == s.copy.tables.(ghostTable := map[K1 := 7], covered := t.copy.tables.covered)
  {
    var c1 := RowCopyRuns.ReadsMin(s.copy);
    var c2 := RowCopyRuns.ReadsMax(c1);
    var c3 := RowCopyRuns.ChoosesChunk(c2);
    assert C.Locked(c3.tables, K1) <==> C.Locked(s.copy.tables, K1);
    var c4 := RowCopyRuns.CopiesChunk(c3);
    var c5 := RowCopyRuns.Finishes(c4);
    CopyLifts([s], s, s, c1);
    CopyLifts([s] + [s.(copy := c1)], s, s.(copy := c1), c2);
    CopyLifts([s] + [s.(copy := c1)] + [s.(copy := c2)], s, s.(copy := c2), c3);
    run := [s] + [s.(copy := c1)] + [s.(copy := c2)] + [s.(copy := c3)];
    CopyLifts(run, s, s.(copy := c3), c4);
    run := run + [s.(copy := c4)];
    CopyLifts(run, s, s.(copy := c4), c5);
    run := run + [s.(copy := c5)];
    t := s.(copy := c5);
  }

  lemma StartsRight(s: S)
    requires s.cut == Before && R.Init(s.copy) && s.copy.tables.backlog == []
    ensures Init(s) && CutOverRuns.FreshStart(s.cut) && CutOverRuns.NoRows(s.cut.drain)
  {
    assert D.Init(s.cut.drain);
    assert D.Rows(s.cut.drain.log) == [];
  }

  /** The RENAME commits, main not having given up on it early. */
  ghost predicate SwapsNext(s: S, t: S) {
    Next(s, Cutting(X.ResolveRename), t, Same) && X.CanSwap(s.cut) && !s.cut.gaveUpEarly
  }

  lemma SwapIsNext(s: S) returns (t: S)
    requires X.Enabled(s.cut, X.ResolveRename) && X.CanSwap(s.cut) && !s.cut.gaveUpEarly
    requires s.cut.ghostName == Some(X.GhostTable) && s.copy.finished && s.copy.tables.prepared == []
    ensures SwapsNext(s, t) && t.copy == s.copy && t.cut.originalName == Some(X.GhostTable)
  {
    t := s.(cut := X.Do(s.cut, X.ResolveRename));
  }

  /** From the end of row copy to the moment of the swap, and to the state behind it. */
  lemma CutsOver(run: seq<S>, s: S, u: S) returns (longer: seq<S>, t: S)
    requires Connects(run, s, u) && CutOverRuns.FreshStart(u.cut) && CutOverRuns.NoRows(u.cut.drain)
    requires u.copy.finished && u.copy.tables.prepared == []
    ensures longer != [] && t.copy == u.copy && Connects(longer, s, longer[|longer| - 1])
    ensures SwapsNext(longer[|longer| - 1], t) && t.cut.originalName == Some(X.GhostTable)
  {
    var actions, cut := CutOverRuns.ReachesTheSwap(u.cut);
    CutOverRuns.GhostIsNamed(u.cut, actions, cut);
    longer := CutLifts(run, s, u, actions, cut);
    t := SwapIsNext(u.(cut := cut));
  }

  /**
   The migration can lose a row: a transaction that was logged before anyone listened becomes visible once row copy is over,
   and the swap installs a table without its row.
   */
  lemma MigrationCanLoseARow() returns (run: seq<S>, t: S)
    ensures run != [] && Init(run[0]) && Connects(run, run[0], run[|run| - 1]) && SwapsNext(run[|run| - 1], t)
    ensures t.cut.originalName == Some(X.GhostTable)
    ensures K2 in t.copy.tables.visible && K2 !in t.copy.tables.ghostTable
  {
    var insert: Event<int> := Insert(K2, 5);
    var s: S := State(RowCopyRuns.OneRow([[insert]], map[K1 := 7, K2 := 5]), Before);
    RowCopyRuns.EarlyStart(s.copy, insert);
    StartsRight(s);
    var copied, u := CopiesTheRow(s);
    var v := ShowsEarly(copied, s, u, insert);
    run, t := CutsOver(copied + [v], s, v);
  }

  lemma ShowsEarly(run: seq<S>, s: S, u: S, insert: Event<int>) returns (v: S)
    requires Connects(run, s, u) && insert == Insert(K2, 5)
    requires u.copy.tables.prepared == [[insert]] && u.copy.tables.visible == map[K1 := 7]
    ensures v == u.(copy := v.copy) && Connects(run + [v], s, v)
    ensures v.copy == u.copy.(tables := v.copy.tables) && v.copy.tables.ghostTable == u.copy.tables.ghostTable
    ensures v.copy.tables.prepared == [] && K2 in v.copy.tables.visible
  {
    v := u.(copy := u.copy.(tables := C.Do(u.copy.tables, C.Show(0), Same)));
    assert Next(u, Show(0), v, Same);
    Extend(run, s, u, v);
    assert [insert][1..] == [];
    assert ApplyAll(u.copy.tables.visible, [insert]) == ApplyAll(Apply(u.copy.tables.visible, insert), []);
  }

  /** An update that changes the key is written by the application. */
  lemma WritesMove(run: seq<S>, s: S, u: S, move: Event<int>) returns (v: S)
    requires Connects(run, s, u) && move == Move(K1, K2, 8)
    requires u.cut == Before && u.copy.finished && u.copy.tables.prepared == [] && u.copy.tables.backlog == []
    requires u.copy.tables.logical == map[K1 := 7]
    ensures Connects(run + [v], s, v)
    ensures v.copy == u.copy.(tables := u.copy.tables.(logical := v.copy.tables.logical, prepared := [[move]], backlog := [move]))
    ensures v.cut == Before.(drain := Before.drain.(log := [D.Row(move)]))
  {
    assert [move][1..] == [];
    assert AllApplicable(u.copy.tables.logical, [move]);
    v := State(u.copy.(tables := C.Do(u.copy.tables, C.Log([move]), Same)), X.Do(u.cut, X.AppWrite(move)));
    assert Logs(u.cut, [move], v.cut);
    assert R.Next(u.copy, R.Elsewhere(C.Log([move])), v.copy, Same);
    assert Next(u, Write([move]), v, Same);
    Extend(run, s, u, v);
  }

  lemma ShowsMove(run: seq<S>, s: S, u: S, move: Event<int>) returns (v: S)
    requires Connects(run, s, u) && move == Move(K1, K2, 8)
    requires u.copy.tables.prepared == [[move]] && u.copy.tables.visible == map[K1 := 7] && u.copy.tables.early == 0
    ensures Connects(run + [v], s, v) && v.cut == u.cut
    ensures v.copy == u.copy.(tables := u.copy.tables.(visible := map[K2 := 8], prepared := []))
  {
    v := u.(copy := u.copy.(tables := C.Do(u.copy.tables, C.Show(0), Same)));
    assert [move][1..] == [];
    assert ApplyAll(map[K1 := 7], [move]) == ApplyAll(Apply(map[K1 := 7], move), []);
    assert v.copy.tables.visible == map[K2 := 8];
    assert Next(u, Show(0), v, Same);
    Extend(run, s, u, v);
  }

  lemma TakesMove(run: seq<S>, s: S, u: S, move: Event<int>) returns (longer: seq<S>, v: S)
    requires Connects(run, s, u)
    requires u.cut == Before.(drain := Before.drain.(log := [D.Row(move)]))
    ensures Connects(longer, s, v) && v.copy == u.copy
    ensures v.cut == u.cut.(drain := u.cut.drain.(streamed := 1, batch := [move]))
  {
    var w := u.(cut := X.Do(u.cut, X.Apply(D.Stream)));
    assert Next(u, Cutting(X.Apply(D.Stream)), w, Same);
    Extend(run, s, u, w);
    v := w.(cut := X.Do(w.cut, X.Apply(D.Take)));
    assert Next(w, Cutting(X.Apply(D.Take)), v, Same);
    Extend(run + [w], s, w, v);
    longer := run + [w] + [v];
  }

  /** The first attempt at the batch is rolled back. */
  lemma RollsBackMove(run: seq<S>, s: S, u: S, move: Event<int>) returns (v: S)
    requires Connects(run, s, u) && u.cut.drain.batch == [move] && u.copy.tables.backlog == [move]
    ensures Connects(run + [v], s, v) && v.cut == u.cut
    ensures v.copy == u.copy.(tables := u.copy.tables.(rebuilt := v.copy.tables.rebuilt)) && v.copy.tables.rebuilt > 0
  {
    v := u.(copy := u.copy.(tables := C.Do(u.copy.tables, C.RollBack(1), Same)));
    assert R.Next(u.copy, R.Elsewhere(C.RollBack(1)), v.copy, Same);
    assert Next(u, RollBack(1), v, Same);
    Extend(run, s, u, v);
  }

  /** And the second commits. */
  lemma RetriesMove(run: seq<S>, s: S, u: S, move: Event<int>) returns (v: S)
    requires Connects(run, s, u) && move == Move(K1, K2, 8)
    requires u.cut == Before.(drain := Before.drain.(log := [D.Row(move)], streamed := 1, batch := [move]))
    requires u.copy.tables.backlog == [move] && u.copy.tables.rebuilt > 0 && u.copy.tables.ghostTable == map[K1 := 7]
    ensures Connects(run + [v], s, v)
    ensures v.copy == u.copy.(tables := v.copy.tables) && v.copy.tables.ghostTable == map[K1 := 7, K2 := 8]
    ensures v.copy.tables.visible == u.copy.tables.visible && v.copy.tables.prepared == u.copy.tables.prepared
    ensures v.cut == u.cut.(drain := u.cut.drain.(batch := [], applied := [move]))
  {
    v := State(u.copy.(tables := ReplayMany(u.copy.tables, 1, Same)), X.Do(u.cut, X.Apply(D.ApplyBatch)));
    var next := C.Do(u.copy.tables, C.ReplayNext, Same);
    assert ReplayMany(u.copy.tables, 1, Same) == ReplayMany(next, 0, Same) == next;
    assert Next(u, Replay, v, Same);
    Extend(run, s, u, v);
  }

  lemma DrainedAgain(cut: X.State<Event<int>>, move: Event<int>)
    requires cut == Before.(drain := Before.drain.(log := [D.Row(move)], streamed := 1, applied := [move]))
    ensures CutOverRuns.FreshStart(cut) && CutOverRuns.NoRows(cut.drain)
  {
    D.LogAppend<Event<int>>([], D.Row(move));
    assert [] + [D.Row(move)] == cut.drain.log;
    assert cut.drain.log[..1] == cut.drain.log;
  }

  /**
   And it can keep a row that the original no longer has: a batch with a key-changing update is rolled back once, and
   the swap installs a table that still has the row under the old key.
   */
  lemma MigrationCanKeepAStaleRow() returns (run: seq<S>, t: S)
    ensures run != [] && Init(run[0]) && Connects(run, run[0], run[|run| - 1]) && SwapsNext(run[|run| - 1], t)
    ensures t.cut.originalName == Some(X.GhostTable)
    ensures K1 in t.copy.tables.ghostTable && K1 !in t.copy.tables.visible
  {
    var s: S := State(RowCopyRuns.OneRow([], map[K1 := 7]), Before);
    var move: Event<int> := Move(K1, K2, 8);
    StartsRight(s);
    var copied, u := CopiesTheRow(s);
    var v := WritesMove(copied, s, u, move);
    var w := ShowsMove(copied + [v], s, v, move);
    var taken, x := TakesMove(copied + [v] + [w], s, w, move);
    var y := RollsBackMove(taken, s, x, move);
    var z := RetriesMove(taken + [y], s, y, move);
    DrainedAgain(z.cut, move);
    run, t := CutsOver(taken + [y] + [z], s, z);
  }
}
