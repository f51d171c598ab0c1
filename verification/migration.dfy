/**
 The whole migration: row copy, replay of events and cut-over together. The events of the application's
 transactions are what the binary log of the drain holds, and what is pending for the ghost table is what has been
 logged and not yet applied. When the tables are swapped, the new one is the projected original.
 */
module Migration {
  import opened Wrappers
  import opened KeyOrder
  import opened TableEvents
  import C = Convergence
  import D = Drain
  import R = RowCopy
  import X = CutOver
  import CutOverInvariant
  import CutOverSafety

  datatype State<T, G> = State(copy: R.State<T, G>, cut: X.State<Event<T>>)

  datatype Step<T> =
    | Write(transaction: C.Transaction<T>)  // the application's transaction reaches the binary log
    | Show(i: nat)                          // and becomes visible
    | RollBack(n: nat)                      // an attempt at the batch fails when it has built its first n events
    | Replay                                // the consumer applies its batch to the ghost table
    | Copying(step: R.Step<T>)
    | Cutting(action: X.Action<Event<T>>)

  /** The events of a transaction are logged one after the other, with nothing between them. */
  ghost predicate Logs<T>(cut: X.State<Event<T>>, es: C.Transaction<T>, cut': X.State<Event<T>>)
    decreases es
  {
    if es == [] then cut' == cut
    else X.Enabled(cut, X.AppWrite(es[0])) && Logs(X.Do(cut, X.AppWrite(es[0])), es[1..], cut')
  }

  ghost function ReplayMany<T, G>(tables: C.State<T, G>, n: nat, p: T -> G): (after: C.State<T, G>)
    requires n <= |tables.backlog|
    ensures after.backlog == tables.backlog[n..] && after.covered == tables.covered && after.prepared == tables.prepared
    decreases n
  {
    if n == 0 then tables else ReplayMany(C.Do(tables, C.ReplayNext, p), n - 1, p)
  }

  /** None of the first `n` replays leaves a row behind. */
  ghost predicate ReplaySafe<T, G>(tables: C.State<T, G>, n: nat, p: T -> G)
    requires n <= |tables.backlog|
    decreases n
  {
    n == 0 || (!C.LeavesRowBehind(tables) && ReplaySafe(C.Do(tables, C.ReplayNext, p), n - 1, p))
  }

  /**
   RENAME waits for open transactions on the tables. The sessions of the cut-over start once row copy is over.
   */
  ghost predicate Next<T(!new), G(!new)>(s: State<T, G>, step: Step<T>, t: State<T, G>, p: T -> G) {
    match step
    case Write(transaction) =>
      && R.Next(s.copy, R.Elsewhere(C.Log(transaction)), t.copy, p)
      && Logs(s.cut, transaction, t.cut)
    case Show(i) => R.Next(s.copy, R.Elsewhere(C.Show(i)), t.copy, p) && t.cut == s.cut
    case RollBack(n) =>
      && n <= |s.cut.drain.batch|
      && R.Next(s.copy, R.Elsewhere(C.RollBack(n)), t.copy, p) && t.cut == s.cut
    case Replay =>
      var n := |s.cut.drain.batch|;
      && X.Enabled(s.cut, X.Apply(D.ApplyBatch)) && t.cut == X.Do(s.cut, X.Apply(D.ApplyBatch))
      && n <= |s.copy.tables.backlog| && t.copy == s.copy.(tables := ReplayMany(s.copy.tables, n, p))
    case Copying(e) => !e.Elsewhere? && R.Next(s.copy, e, t.copy, p) && t.cut == s.cut
    case Cutting(a) =>
      && !a.AppWrite? && a != X.Apply(D.ApplyBatch)
      && (!a.Apply? ==> s.copy.finished)
      && (a.ResolveRename? ==> s.copy.tables.prepared == [])
      && X.Enabled(s.cut, a) && t.cut == X.Do(s.cut, a) && t.copy == s.copy
  }

  /**
   The condition under which a step keeps the tables right: no retried key change leaves a row behind, and no
   plain query of row copy misses the row of an early transaction.
   */
  ghost predicate Safe<T(!new), G(!new)>(s: State<T, G>, step: Step<T>, t: State<T, G>, p: T -> G) {
    match step
    case Replay =>
      |s.cut.drain.batch| <= |s.copy.tables.backlog| ==> ReplaySafe(s.copy.tables, |s.cut.drain.batch|, p)
    case Copying(e) => !e.Elsewhere? ==> R.Safe(s.copy, e, t.copy)
    case _ => true
  }

  ghost predicate NextSome<T(!new), G(!new)>(s: State<T, G>, t: State<T, G>, p: T -> G) {
    exists step: Step<T> :: Next(s, step, t, p) && Safe(s, step, t, p)
  }

  /** What is pending is what has been logged and not been applied. */
  ghost predicate Coupled<T, G>(s: State<T, G>) {
    D.Rows(s.cut.drain.log) == s.cut.drain.applied + s.copy.tables.backlog
  }

  ghost predicate Init<T(!new), G(!new)>(s: State<T, G>) {
    R.Init(s.copy) && X.Init(s.cut) && Coupled(s)
  }

  /** A run of safe steps. */
  ghost predicate IsRun<T(!new), G(!new)>(run: seq<State<T, G>>, p: T -> G) {
    run != [] && Init(run[0]) && forall i :: 0 <= i < |run| - 1 ==> NextSome(run[i], run[i + 1], p)
  }

  ghost predicate Inv<T, G>(s: State<T, G>, p: T -> G) {
    R.ScheduleInv(s.copy) && C.Inv(s.copy.tables, p) && CutOverInvariant.Inv(s.cut) && Coupled(s)
  }

  lemma WriteLogsRow<E>(cut: X.State<E>, event: E)
    requires X.Enabled(cut, X.AppWrite(event))
    ensures D.Rows(X.Do(cut, X.AppWrite(event)).drain.log) == D.Rows(cut.drain.log) + [event]
    ensures X.Do(cut, X.AppWrite(event)).drain.applied == cut.drain.applied
  {
    D.LogAppend(cut.drain.log, D.Row(event));
  }

  lemma {:induction false} LogsRows<T>(cut: X.State<Event<T>>, es: C.Transaction<T>, cut': X.State<Event<T>>)
    requires Logs(cut, es, cut')
    ensures D.Rows(cut'.drain.log) == D.Rows(cut.drain.log) + es && cut'.drain.applied == cut.drain.applied
    decreases |es|
  {
    if es == [] {
      assert D.Rows(cut.drain.log) + es == D.Rows(cut.drain.log);
    } else {
      WriteLogsRow(cut, es[0]);
      LogsRows(X.Do(cut, X.AppWrite(es[0])), es[1..], cut');
      assert D.Rows(cut.drain.log) + [es[0]] + es[1..] == D.Rows(cut.drain.log) + es;
    }
  }

  lemma {:induction false} LogsInv<T>(cut: X.State<Event<T>>, es: C.Transaction<T>, cut': X.State<Event<T>>)
    requires CutOverInvariant.Inv(cut) && Logs(cut, es, cut')
    ensures CutOverInvariant.Inv(cut')
    decreases |es|
  {
    if es != [] {
      CutOverInvariant.StepInv(cut, X.AppWrite(es[0]));
      LogsInv(X.Do(cut, X.AppWrite(es[0])), es[1..], cut');
    }
  }

  lemma {:induction false} ReplayManyInv<T(!new), G(!new)>(tables: C.State<T, G>, n: nat, p: T -> G)
    requires C.Inv(tables, p) && n <= |tables.backlog| && ReplaySafe(tables, n, p)
    ensures C.Inv(ReplayMany(tables, n, p), p)
    decreases n
  {
    if n > 0 {
      C.StepExact(tables, C.ReplayNext, p);
      ReplayManyInv(C.Do(tables, C.ReplayNext, p), n - 1, p);
    }
  }

  /** The batch is the beginning of what is pending, so that replaying it is always possible. */
  lemma BatchIsPending<T, G>(s: State<T, G>)
    requires D.Inv(s.cut.drain) && Coupled(s)
    ensures s.cut.drain.batch <= s.copy.tables.backlog
  {
    var d := s.cut.drain;
    D.RowsPrefix(d.log, d.streamed, |d.log|);
    assert d.log[..|d.log|] == d.log;
    assert d.applied + d.batch <= d.applied + s.copy.tables.backlog;
    assert (d.applied + s.copy.tables.backlog)[|d.applied|..] == s.copy.tables.backlog;
    assert (d.applied + d.batch)[|d.applied|..] == d.batch;
  }

  lemma WriteInv<T(!new), G(!new)>(s: State<T, G>, step: Step<T>, t: State<T, G>, p: T -> G)
    requires Inv(s, p) && Next(s, step, t, p) && step.Write?
    ensures Inv(t, p)
  {
    LogsInv(s.cut, step.transaction, t.cut);
    LogsRows(s.cut, step.transaction, t.cut);
    LogKeepsCopy(s.copy, step.transaction, t.copy, p);
    AppendedLast(s.cut.drain.applied, s.copy.tables.backlog, step.transaction);
  }

  lemma AppendedLast<E>(applied: seq<E>, backlog: seq<E>, es: seq<E>)
    ensures applied + backlog + es == applied + (backlog + es)
  {
  }

  lemma LogKeepsCopy<T(!new), G(!new)>(copy: R.State<T, G>, transaction: C.Transaction<T>, copy': R.State<T, G>, p: T -> G)
    requires R.ScheduleInv(copy) && C.Inv(copy.tables, p) && R.Next(copy, R.Elsewhere(C.Log(transaction)), copy', p)
    ensures R.ScheduleInv(copy') && C.Inv(copy'.tables, p)
    ensures copy'.tables.backlog == copy.tables.backlog + transaction
  {
    R.ScheduleStep(copy, R.Elsewhere(C.Log(transaction)), copy', p);
    R.TablesExact(copy, R.Elsewhere(C.Log(transaction)), copy', p);
  }

  lemma ReplayKeepsCoupled<T, G>(s: State<T, G>, p: T -> G)
    requires D.Inv(s.cut.drain) && Coupled(s) && X.Enabled(s.cut, X.Apply(D.ApplyBatch))
    ensures
      var n, cut := |s.cut.drain.batch|, X.Do(s.cut, X.Apply(D.ApplyBatch));
      n <= |s.copy.tables.backlog| && D.Rows(cut.drain.log) == cut.drain.applied + s.copy.tables.backlog[n..]
  {
    BatchIsPending(s);
    var batch, backlog := s.cut.drain.batch, s.copy.tables.backlog;
    assert backlog == batch + backlog[|batch|..];
    assert s.cut.drain.applied + (batch + backlog[|batch|..]) == (s.cut.drain.applied + batch) + backlog[|batch|..];
  }

  lemma ReplayInv<T(!new), G(!new)>(s: State<T, G>, step: Step<T>, t: State<T, G>, p: T -> G)
    requires Inv(s, p) && Next(s, step, t, p) && step.Replay? && Safe(s, step, t, p)
    ensures Inv(t, p)
  {
    ReplayKeepsCoupled(s, p);
    ReplayManyInv(s.copy.tables, |s.cut.drain.batch|, p);
    ReplayKeepsSchedule(s.copy, |s.cut.drain.batch|, p);
    CutOverInvariant.StepInv(s.cut, X.Apply(D.ApplyBatch));
  }

  lemma {:induction false} ReplayKeepsSchedule<T, G>(copy: R.State<T, G>, n: nat, p: T -> G)
    requires R.ScheduleInv(copy) && n <= |copy.tables.backlog|
    ensures R.ScheduleInv(copy.(tables := ReplayMany(copy.tables, n, p)))
  {
    var after := copy.(tables := ReplayMany(copy.tables, n, p));
    forall key | R.Passed(after, key) ensures key in after.tables.covered {
      assert R.Passed(copy, key);
    }
  }

  lemma ApplyKeepsRows<E>(cut: X.State<E>, step: D.Action<E>)
    requires X.Enabled(cut, X.Apply(step)) && !step.ApplyBatch?
    ensures D.Rows(X.Do(cut, X.Apply(step)).drain.log) == D.Rows(cut.drain.log)
    ensures X.Do(cut, X.Apply(step)).drain.applied == cut.drain.applied
  {
  }

  lemma InjectKeepsRows<E>(cut: X.State<E>, ok: bool, id: nat, logged: bool)
    requires X.MainEnabled(cut, ok, id, logged) && cut.main.InjectChallenge?
    ensures D.Rows(X.DoMain(cut, ok, id, logged).drain.log) == D.Rows(cut.drain.log)
    ensures X.DoMain(cut, ok, id, logged).drain.applied == cut.drain.applied
  {
    D.LogAppend(cut.drain.log, D.Challenge(id));
  }

  lemma AwaitKeepsRows<E>(cut: X.State<E>, id: nat, logged: bool)
    requires X.MainEnabled(cut, true, id, logged) && cut.main.AwaitChallenge?
    ensures X.DoMain(cut, true, id, logged).drain.log == cut.drain.log
    ensures X.DoMain(cut, true, id, logged).drain.applied == cut.drain.applied
  {
    var t := X.DoMain(cut, true, id, logged);
    if cut.drain.held.value == cut.main.id {
      assert t == cut.(drain := D.Do(cut.drain, D.Deliver), drained := true, renamer := X.RBegin, main := X.AwaitRenameSession);
    } else {
      assert t == cut.(drain := D.Do(cut.drain, D.Deliver));
    }
  }

  lemma TimeoutKeepsRows<E>(cut: X.State<E>, id: nat, logged: bool)
    requires X.MainEnabled(cut, false, id, logged) && cut.main.AwaitChallenge?
    ensures X.DoMain(cut, false, id, logged).drain == cut.drain
  {
    assert X.DoMain(cut, false, id, logged) == cut.(main := X.SignalExit(false));
  }

  lemma LockerStarts<E>(cut: X.State<E>, ok: bool)
    requires X.LockerEnabled(cut, ok)
    requires cut.locker.LBegin? || cut.locker.LConnection? || cut.locker.LGetLock? || cut.locker.LSetTimeout?
    ensures X.DoLocker(cut, ok).drain == cut.drain
  {
  }

  lemma LockerLocks<E>(cut: X.State<E>, ok: bool)
    requires X.LockerEnabled(cut, ok)
    requires cut.locker.LDropStale? || cut.locker.LCreateSentry? || cut.locker.LLockTables? || cut.locker.LReportLocked?
    ensures X.DoLocker(cut, ok).drain == cut.drain
  {
  }

  lemma LockerWaits<E>(cut: X.State<E>, ok: bool)
    requires X.LockerEnabled(cut, ok)
    requires cut.locker.LAwaitOk? || cut.locker.LDropSentry? || cut.locker.LUnlock?
    ensures X.DoLocker(cut, ok).drain == cut.drain
  {
  }

  lemma LockerEnds<E>(cut: X.State<E>, ok: bool)
    requires X.LockerEnabled(cut, ok)
    requires cut.locker.LDefer1? || cut.locker.LDefer2? || cut.locker.LDefer3?
    ensures X.DoLocker(cut, ok).drain == cut.drain
  {
  }

  lemma RenamerStarts<E>(cut: X.State<E>, ok: bool)
    requires X.RenamerEnabled(cut, ok)
    requires cut.renamer.RBegin? || cut.renamer.RConnection? || cut.renamer.RSetTimeout?
    ensures X.DoRenamer(cut, ok).drain == cut.drain
  {
  }

  lemma RenamerRenames<E>(cut: X.State<E>, ok: bool)
    requires X.RenamerEnabled(cut, ok)
    requires cut.renamer.RIssue? || cut.renamer.RAwait?
    ensures X.DoRenamer(cut, ok).drain == cut.drain
  {
  }

  lemma RenamerEnds<E>(cut: X.State<E>, ok: bool)
    requires X.RenamerEnabled(cut, ok)
    requires cut.renamer.RDefer1? || cut.renamer.RDefer2? || cut.renamer.RSetFailed? || cut.renamer.RSignal?
    ensures X.DoRenamer(cut, ok).drain == cut.drain
  {
  }

  lemma MainStarts<E>(cut: X.State<E>, ok: bool, id: nat, logged: bool)
    requires X.MainEnabled(cut, ok, id, logged)
    requires cut.main.AwaitLocked? || cut.main.AwaitLockSession? || cut.main.AwaitRenameSession? || cut.main.AwaitRename?
    ensures X.DoMain(cut, ok, id, logged).drain == cut.drain
  {
  }

  lemma MainReleases<E>(cut: X.State<E>, ok: bool, id: nat, logged: bool)
    requires X.MainEnabled(cut, ok, id, logged)
    requires cut.main.CheckLock? || cut.main.Release? || cut.main.AwaitUnlocked?
    ensures X.DoMain(cut, ok, id, logged).drain == cut.drain
  {
  }

  lemma MainEnds<E>(cut: X.State<E>, ok: bool, id: nat, logged: bool)
    requires X.MainEnabled(cut, ok, id, logged)
    requires cut.main.AwaitRenamed? || cut.main.SignalExit? || cut.main.DropSentry?
    ensures X.DoMain(cut, ok, id, logged).drain == cut.drain
  {
  }

  lemma LockerKeepsDrain<E>(cut: X.State<E>, ok: bool)
    requires X.LockerEnabled(cut, ok)
    ensures X.DoLocker(cut, ok).drain == cut.drain
  {
    match cut.locker {
      case LBegin => LockerStarts(cut, ok);
      case LConnection => LockerStarts(cut, ok);
      case LGetLock => LockerStarts(cut, ok);
      case LSetTimeout => LockerStarts(cut, ok);
      case LDropStale => LockerLocks(cut, ok);
      case LCreateSentry => LockerLocks(cut, ok);
      case LLockTables => LockerLocks(cut, ok);
      case LReportLocked => LockerLocks(cut, ok);
      case LAwaitOk => LockerWaits(cut, ok);
      case LDropSentry => LockerWaits(cut, ok);
      case LUnlock => LockerWaits(cut, ok);
      case LDefer1 => LockerEnds(cut, ok);
      case LDefer2 => LockerEnds(cut, ok);
      case LDefer3 => LockerEnds(cut, ok);
    }
  }

  lemma RenamerKeepsDrain<E>(cut: X.State<E>, ok: bool)
    requires X.RenamerEnabled(cut, ok)
    ensures X.DoRenamer(cut, ok).drain == cut.drain
  {
    match cut.renamer {
      case RBegin => RenamerStarts(cut, ok);
      case RConnection => RenamerStarts(cut, ok);
      case RSetTimeout => RenamerStarts(cut, ok);
      case RIssue => RenamerRenames(cut, ok);
      case RAwait => RenamerRenames(cut, ok);
      case RDefer1(_) => RenamerEnds(cut, ok);
      case RDefer2(_) => RenamerEnds(cut, ok);
      case RSetFailed => RenamerEnds(cut, ok);
      case RSignal => RenamerEnds(cut, ok);
    }
  }

  lemma MainKeepsDrain<E>(cut: X.State<E>, ok: bool, id: nat, logged: bool)
    requires X.MainEnabled(cut, ok, id, logged) && !cut.main.InjectChallenge? && !cut.main.AwaitChallenge?
    ensures X.DoMain(cut, ok, id, logged).drain == cut.drain
  {
    match cut.main {
      case AwaitLocked => MainStarts(cut, ok, id, logged);
      case AwaitLockSession => MainStarts(cut, ok, id, logged);
      case AwaitRenameSession => MainStarts(cut, ok, id, logged);
      case AwaitRename => MainStarts(cut, ok, id, logged);
      case CheckLock => MainReleases(cut, ok, id, logged);
      case Release => MainReleases(cut, ok, id, logged);
      case AwaitUnlocked => MainReleases(cut, ok, id, logged);
      case AwaitRenamed => MainEnds(cut, ok, id, logged);
      case SignalExit(_) => MainEnds(cut, ok, id, logged);
      case DropSentry(_) => MainEnds(cut, ok, id, logged);
    }
  }

  lemma MainKeepsRows<E>(cut: X.State<E>, ok: bool, id: nat, logged: bool)
    requires X.MainEnabled(cut, ok, id, logged)
    ensures D.Rows(X.DoMain(cut, ok, id, logged).drain.log) == D.Rows(cut.drain.log)
    ensures X.DoMain(cut, ok, id, logged).drain.applied == cut.drain.applied
  {
    if cut.main.InjectChallenge? {
      InjectKeepsRows(cut, ok, id, logged);
    } else if !cut.main.AwaitChallenge? {
      MainKeepsDrain(cut, ok, id, logged);
    } else if ok {
      AwaitKeepsRows(cut, id, logged);
    } else {
      TimeoutKeepsRows(cut, id, logged);
    }
  }

  /** The session deaths and the RENAME leave the backlog alone. */
  lemma ServerKeepsDrain<E>(cut: X.State<E>, a: X.Action<E>)
    requires X.Enabled(cut, a) && (a.LockSessionDies? || a.RenameDies? || a.ResolveRename?)
    ensures X.Do(cut, a).drain == cut.drain
  {
  }

  /** No other action changes which row events are logged or applied. */
  lemma CuttingKeepsRows<E>(cut: X.State<E>, a: X.Action<E>)
    requires X.Enabled(cut, a) && !a.AppWrite? && a != X.Apply(D.ApplyBatch)
    ensures D.Rows(X.Do(cut, a).drain.log) == D.Rows(cut.drain.log) && X.Do(cut, a).drain.applied == cut.drain.applied
  {
    match a
    case Main(ok, id, logged) => MainKeepsRows(cut, ok, id, logged);
    case Locker(ok) => LockerKeepsDrain(cut, ok);
    case Renamer(ok) => RenamerKeepsDrain(cut, ok);
    case Apply(step) => ApplyKeepsRows(cut, step);
    case _ => ServerKeepsDrain(cut, a);
  }

  /** A step of row copy, or of the application, that the cut-over does not take part in. */
  lemma CopyInv<T(!new), G(!new)>(s: State<T, G>, e: R.Step<T>, t: State<T, G>, p: T -> G)
    requires Inv(s, p) && R.Next(s.copy, e, t.copy, p) && t.cut == s.cut && R.Safe(s.copy, e, t.copy)
    requires t.copy.tables.backlog == s.copy.tables.backlog
    ensures Inv(t, p)
  {
    R.ScheduleStep(s.copy, e, t.copy, p);
    R.TablesExact(s.copy, e, t.copy, p);
  }

  lemma CuttingInv<T(!new), G(!new)>(s: State<T, G>, a: X.Action<Event<T>>, t: State<T, G>, p: T -> G)
    requires Inv(s, p) && Next(s, Cutting(a), t, p)
    ensures Inv(t, p)
  {
    CutOverInvariant.StepInv(s.cut, a);
    CuttingKeepsRows(s.cut, a);
  }

  lemma StepInv<T(!new), G(!new)>(s: State<T, G>, step: Step<T>, t: State<T, G>, p: T -> G)
    requires Inv(s, p) && Next(s, step, t, p) && Safe(s, step, t, p)
    ensures Inv(t, p)
  {
    match step
    case Write(_) => WriteInv(s, step, t, p);
    case Show(i) => CopyInv(s, R.Elsewhere(C.Show(i)), t, p);
    case RollBack(n) => CopyInv(s, R.Elsewhere(C.RollBack(n)), t, p);
    case Replay => ReplayInv(s, step, t, p);
    case Copying(e) => CopyInv(s, e, t, p);
    case Cutting(a) => CuttingInv(s, a, t, p);
  }

  lemma EarlierRun<T(!new), G(!new)>(run: seq<State<T, G>>, p: T -> G)
    requires IsRun(run, p) && |run| > 1
    ensures IsRun(run[..|run| - 1], p) && NextSome(run[|run| - 2], run[|run| - 1], p)
  {
    var earlier := run[..|run| - 1];
    forall i | 0 <= i < |earlier| - 1 ensures NextSome(earlier[i], earlier[i + 1], p) {
      assert NextSome(run[i], run[i + 1], p);
    }
    assert NextSome(run[|run| - 2], run[|run| - 2 + 1], p);
  }

  lemma StartInv<T(!new), G(!new)>(s: State<T, G>, p: T -> G)
    requires Init(s)
    ensures Inv(s, p)
  {
    C.InitInv(s.copy.tables, p);
    CutOverInvariant.InitInv(s.cut);
  }

  lemma SomeStepInv<T(!new), G(!new)>(s: State<T, G>, t: State<T, G>, p: T -> G)
    requires Inv(s, p) && NextSome(s, t, p)
    ensures Inv(t, p)
  {
    var step: Step<T> :| Next(s, step, t, p) && Safe(s, step, t, p);
    StepInv(s, step, t, p);
  }

  lemma {:induction false} RunInv<T(!new), G(!new)>(run: seq<State<T, G>>, p: T -> G)
    requires IsRun(run, p)
    ensures Inv(run[|run| - 1], p)
  {
    if |run| == 1 {
      StartInv(run[0], p);
    } else {
      EarlierRun(run, p);
      RunInv(run[..|run| - 1], p);
      SomeStepInv(run[|run| - 2], run[|run| - 1], p);
    }
  }

  /** When the RENAME is about to commit, nothing is pending. */
  lemma NothingIsPending<T, G>(s: State<T, G>)
    requires CutOverInvariant.Inv(s.cut) && Coupled(s)
    requires s.cut.rename == X.Pending && X.CanSwap(s.cut) && !s.cut.gaveUpEarly
    ensures s.copy.tables.backlog == []
  {
    CutOverSafety.MarkMeansFullyApplied(s.cut);
    assert |s.cut.drain.applied + s.copy.tables.backlog| == |s.cut.drain.applied|;
  }

  lemma FinishedIsProjection<T(!new), G(!new)>(s: State<T, G>, p: T -> G)
    requires C.Inv(s.copy.tables, p) && R.ScheduleInv(s.copy) && s.copy.finished
    requires s.copy.tables.backlog == [] && s.copy.tables.prepared == []
    ensures s.copy.tables.ghostTable == Project(s.copy.tables.visible, p)
  {
    forall key ensures key in s.copy.tables.covered {
      assert R.Passed(s.copy, key);
    }
    C.ConvergenceAtTheEnd(s.copy.tables, p);
  }

  lemma SwapBinds<E>(cut: X.State<E>)
    requires CutOverInvariant.NamesOk(cut) && X.Enabled(cut, X.ResolveRename) && X.CanSwap(cut)
    ensures
      var t := X.Do(cut, X.ResolveRename);
      t.originalName == Some(X.GhostTable) && t.oldName == Some(X.OriginalTable)
  {
  }

  /**
   The purpose of it all. In every run of the whole migration in which every step is safe, if main has not given up
   on the RENAME before it was issued: the table that the swap installs under the original name is the projected
   original, row for row.
   */
  lemma SwapInstallsProjection<T(!new), G(!new)>(run: seq<State<T, G>>, t: State<T, G>, p: T -> G)
    requires IsRun(run, p)
    requires var s := run[|run| - 1];
      Next(s, Cutting(X.ResolveRename), t, p) && X.CanSwap(s.cut) && !s.cut.gaveUpEarly
    ensures t.cut.originalName == Some(X.GhostTable) && t.cut.oldName == Some(X.OriginalTable)
    ensures t.copy.tables.ghostTable == Project(t.copy.tables.visible, p)
  {
    var s := run[|run| - 1];
    RunInv(run, p);
    NothingIsPending(s);
    FinishedIsProjection(s, p);
    SwapBinds(s.cut);
  }
}
