/**
 The whole migration can succeed from every start without a foreign table under the old name: whatever the table holds,
 whatever is pending or not yet visible, and whatever chunk size is used, a run of safe steps copies the table, drains
 the backlog and reaches the swap.
 */
module MigrationPossible {
  import opened Wrappers
  import opened KeyOrder
  import opened TableEvents
  import opened Migration
  import C = Convergence
  import D = Drain
  import R = RowCopy
  import X = CutOver
  import CutOverRuns
  import RowCopyPossible

  /** A stretch of a run of safe steps. */
  ghost predicate Leads<T(!new), G(!new)>(run: seq<State<T, G>>, s: State<T, G>, t: State<T, G>, p: T -> G) {
    && run != [] && run[0] == s && run[|run| - 1] == t
    && forall i :: 0 <= i < |run| - 1 ==> NextSome(run[i], run[i + 1], p)
  }

  lemma Extend<T(!new), G(!new)>(run: seq<State<T, G>>, s: State<T, G>, t: State<T, G>, u: State<T, G>, p: T -> G)
    requires Leads(run, s, t, p) && NextSome(t, u, p)
    ensures Leads(run + [u], s, u, p)
  {
    var longer := run + [u];
    forall i | 0 <= i < |longer| - 1 ensures NextSome(longer[i], longer[i + 1], p) {
      if i < |run| - 1 {
        assert longer[i] == run[i] && longer[i + 1] == run[i + 1];
      }
    }
  }

  // ---- Row copy ----

  lemma CopyStepLifts<T(!new), G(!new)>(cut: X.State<Event<T>>, copy: R.State<T, G>, copy': R.State<T, G>, p: T -> G)
    requires RowCopyPossible.CopyNext(copy, copy', p)
    ensures NextSome(State(copy, cut), State(copy', cut), p)
  {
    var e: R.Step<T> :| !e.Elsewhere? && R.Next(copy, e, copy', p) && R.Safe(copy, e, copy');
    assert Next(State(copy, cut), Copying(e), State(copy', cut), p);
    assert Safe(State(copy, cut), Copying(e), State(copy', cut), p);
  }

  lemma CopyRunLifts<T(!new), G(!new)>(s: State<T, G>, copies: seq<R.State<T, G>>, copy: R.State<T, G>, p: T -> G)
    returns (run: seq<State<T, G>>)
    requires RowCopyPossible.CopyRun(copies, s.copy, copy, p)
    ensures Leads(run, s, s.(copy := copy), p)
  {
    run := seq(|copies|, i requires 0 <= i < |copies| => State(copies[i], s.cut));
    forall i | 0 <= i < |run| - 1 ensures NextSome(run[i], run[i + 1], p) {
      CopyStepLifts(s.cut, copies[i], copies[i + 1], p);
    }
  }

  // ---- The cut-over ----

  /** Row copy is over, no transaction is open, and no batch was rolled back. */
  ghost predicate Ending<T, G>(s: State<T, G>, p: T -> G) {
    Inv(s, p) && s.copy.finished && s.copy.tables.prepared == [] && s.copy.tables.rebuilt == 0
  }

  lemma {:induction false} FreshReplay<T, G>(tables: C.State<T, G>, n: nat, p: T -> G)
    requires n <= |tables.backlog| && tables.rebuilt == 0
    ensures ReplaySafe(tables, n, p)
    ensures ReplayMany(tables, n, p).rebuilt == 0
    decreases n
  {
    if n > 0 {
      FreshReplay(C.Do(tables, C.ReplayNext, p), n - 1, p);
    }
  }

  /** The consumer applies its batch. */
  lemma BatchLifts<T(!new), G(!new)>(s: State<T, G>, p: T -> G) returns (t: State<T, G>)
    requires Ending(s, p) && X.Enabled(s.cut, X.Apply(D.ApplyBatch))
    ensures NextSome(s, t, p) && t.cut == X.Do(s.cut, X.Apply(D.ApplyBatch))
    ensures Ending(t, p)
  {
    BatchIsPending(s);
    var n := |s.cut.drain.batch|;
    FreshReplay(s.copy.tables, n, p);
    t := State(s.copy.(tables := ReplayMany(s.copy.tables, n, p)), X.Do(s.cut, X.Apply(D.ApplyBatch)));
    assert Next(s, Replay, t, p) && Safe(s, Replay, t, p);
    StepInv(s, Replay, t, p);
  }

  lemma ActionLifts<T(!new), G(!new)>(s: State<T, G>, a: X.Action<Event<T>>, p: T -> G) returns (t: State<T, G>)
    requires Ending(s, p) && X.Enabled(s.cut, a) && !a.AppWrite? && a != X.Apply(D.ApplyBatch)
    ensures NextSome(s, t, p) && t == s.(cut := X.Do(s.cut, a)) && Ending(t, p)
  {
    t := s.(cut := X.Do(s.cut, a));
    assert Next(s, Cutting(a), t, p) && Safe(s, Cutting(a), t, p);
    StepInv(s, Cutting(a), t, p);
  }

  lemma {:induction false} CutLifts<T(!new), G(!new)>(run: seq<State<T, G>>, s: State<T, G>, u: State<T, G>,
                                                    actions: seq<X.Action<Event<T>>>, cut: X.State<Event<T>>,
                                                    p: T -> G)
    returns (longer: seq<State<T, G>>, t: State<T, G>)
    requires Leads(run, s, u, p) && Ending(u, p) && X.Reaches(u.cut, actions, cut) && CutOverRuns.NoWrites(actions)
    ensures Leads(longer, s, t, p) && Ending(t, p) && t.cut == cut
    decreases |actions|
  {
    if actions == [] {
      longer, t := run, u;
    } else {
      var v;
      if actions[0] == X.Apply(D.ApplyBatch) {
        v := BatchLifts(u, p);
      } else {
        v := ActionLifts(u, actions[0], p);
      }
      Extend(run, s, u, v, p);
      longer, t := CutLifts(run + [v], s, v, actions[1..], cut, p);
    }
  }

  // ---- The start ----

  /** Nothing has been read yet, and only early transactions are open. */
  ghost predicate Starting<T, G>(s: State<T, G>) {
    && s.copy.rangeMin == s.copy.rangeMax == s.copy.cursor == s.copy.pending == None && !s.copy.finished
    && s.copy.tables.early == |s.copy.tables.prepared| && s.copy.tables.rebuilt == 0
  }

  lemma ShowLifts<T(!new), G(!new)>(s: State<T, G>, p: T -> G) returns (t: State<T, G>)
    requires Starting(s) && s.copy.tables.prepared != []
    ensures NextSome(s, t, p) && Starting(t) && t.cut == s.cut
    ensures |t.copy.tables.prepared| == |s.copy.tables.prepared| - 1
  {
    t := s.(copy := s.copy.(tables := C.Do(s.copy.tables, C.Show(0), p)));
    assert Next(s, Show(0), t, p) && Safe(s, Show(0), t, p);
  }

  /** The early transactions become visible. */
  lemma {:induction false} ShowsEarly<T(!new), G(!new)>(run: seq<State<T, G>>, s: State<T, G>, u: State<T, G>, p: T -> G)
    returns (longer: seq<State<T, G>>, t: State<T, G>)
    requires Leads(run, s, u, p) && Starting(u)
    ensures Leads(longer, s, t, p) && Starting(t) && t.copy.tables.prepared == [] && t.cut == u.cut
    decreases |u.copy.tables.prepared|
  {
    if u.copy.tables.prepared == [] {
      longer, t := run, u;
    } else {
      var v := ShowLifts(u, p);
      Extend(run, s, u, v, p);
      longer, t := ShowsEarly(run + [v], s, v, p);
    }
  }

  lemma Follow<T(!new), G(!new)>(run: seq<State<T, G>>, s: State<T, G>, t: State<T, G>, rest: seq<State<T, G>>,
                                 u: State<T, G>, p: T -> G)
    requires Leads(run, s, t, p) && Leads(rest, t, u, p)
    ensures Leads(run + rest[1..], s, u, p)
  {
    var longer := run + rest[1..];
    forall i | 0 <= i < |longer| - 1 ensures NextSome(longer[i], longer[i + 1], p) {
      if i < |run| - 1 {
        assert longer[i] == run[i] && longer[i + 1] == run[i + 1];
      } else {
        assert longer[i] == rest[i - |run| + 1] && longer[i + 1] == rest[i - |run| + 1 + 1];
      }
    }
  }

  // ---- The main result ----

  lemma CopiesVisible<T(!new), G(!new)>(s: State<T, G>, chunkSize: int, p: T -> G)
    returns (run: seq<State<T, G>>, t: State<T, G>)
    requires Starting(s) && s.copy.tables.prepared == [] && chunkSize > 0
    ensures Leads(run, s, t, p) && t.cut == s.cut && t.copy.finished
    ensures t.copy.tables.prepared == [] && t.copy.tables.rebuilt == 0
  {
    var keys := RowCopyPossible.Listing(s.copy.tables.visible.Keys);
    var copies, copy := RowCopyPossible.RowCopyCanFinish(s.copy, keys, chunkSize, p);
    run := CopyRunLifts(s, copies, copy, p);
    t := s.(copy := copy);
  }

  /** The table is copied in chunks of the given size, once what was logged early is visible. */
  lemma CopiesTheTable<T(!new), G(!new)>(s: State<T, G>, chunkSize: int, p: T -> G)
    returns (run: seq<State<T, G>>, t: State<T, G>)
    requires Init(s) && chunkSize > 0
    ensures Leads(run, s, t, p) && IsRun(run, p) && Ending(t, p) && t.cut == s.cut
  {
    var shown, u := ShowsEarly([s], s, s, p);
    var rest;
    rest, t := CopiesVisible(u, chunkSize, p);
    Follow(shown, s, u, rest, t, p);
    run := shown + rest[1..];
    RunInv(run, p);
  }

  /** The migration can succeed from every start, and installs the projected original. */
  lemma SucceedsFromAnyStart<T(!new), G(!new)>(s: State<T, G>, chunkSize: int, p: T -> G)
    returns (run: seq<State<T, G>>, t: State<T, G>)
    requires Init(s) && s.cut.oldName != Some(X.OtherTable) && chunkSize > 0
    ensures run != [] && run[0] == s && IsRun(run, p)
    ensures Next(run[|run| - 1], Cutting(X.ResolveRename), t, p) && !t.cut.gaveUpEarly
    ensures t.cut.originalName == Some(X.GhostTable)
    ensures t.copy.tables.ghostTable == Project(t.copy.tables.visible, p)
  {
    var copied, u := CopiesTheTable(s, chunkSize, p);
    var actions, cut := CutOverRuns.ReachesTheSwap(u.cut);
    var last;
    run, last := CutLifts(copied, s, u, actions, cut, p);
    t := last.(cut := X.Do(cut, X.ResolveRename));
    SwapInstallsProjection(run, t, p);
  }
}
