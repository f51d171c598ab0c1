/**
 The invariant of the atomic cut-over: where the goroutines are relative to one another, which locks and names
 there are, and what main knows about the backlog. Every step keeps it.
 */
module CutOverInvariant {
  import opened Wrappers
  import opened CutOver
  import D = Drain

  // ---- The invariant ----

  predicate Locking(locker: LockPc) {
    locker.LBegin? || locker.LConnection? || locker.LGetLock? || locker.LSetTimeout? || locker.LDropStale?
    || locker.LCreateSentry? || locker.LLockTables? || locker.LReportLocked?
  }

  predicate BeforeRename(main: MainPc) {
    main.AwaitLocked? || main.AwaitLockSession? || main.InjectChallenge? || main.AwaitChallenge?
  }

  /** Where the goroutines are relative to one another. */
  ghost predicate OrderOk<E>(s: State<E>) {
    && (Locking(s.locker) ==> s.main == AwaitLocked && s.tableLocked.waiting == [])
    && (BeforeRename(s.main) ==> s.renamer == RIdle && s.okToUnlock == Channel([], 0))
    && (s.main == AwaitLocked && s.locker == LAwaitOk ==> s.tableLocked.waiting == [true])
    && (s.main == AwaitLocked && !Locking(s.locker) && s.locker != LAwaitOk ==>
          s.tableLocked.waiting != [] && !s.tableLocked.waiting[0])
    && (BeforeRename(s.main) && s.main != AwaitLocked ==> s.locker == LAwaitOk)
    && (s.renamer != RIdle ==> !BeforeRename(s.main) && s.drained)
    && (s.locker == LAwaitOk ==> |s.okToUnlock.waiting| == s.okToUnlock.sent)
  }

  /** What holds while the RENAME has not been issued. */
  ghost predicate EarlyOk<E>(s: State<E>) {
    // A RENAME yet to be issued finds the lock session waiting, unless main gave up on it.
    && (Early(s.renamer) && !s.gaveUpEarly ==>
          (s.main == AwaitRenameSession || s.main == AwaitRename) && s.locker == LAwaitOk && s.okToUnlock.sent == 0)
    && (s.rename != NotIssued ==> s.renamer != RIdle && !Early(s.renamer))
    && (s.renameKnownToHaveFailed ==> s.renamer != RIdle && !Early(s.renamer))
  }

  predicate BeforeLocked(locker: LockPc) {
    Locking(locker) && !locker.LReportLocked?
  }

  ghost predicate LocksOk<E>(s: State<E>) {
    && (s.tablesLocked ==> s.lockAlive && !BeforeLocked(s.locker) && s.rename != Committed)
    && (s.lockAlive && (s.locker.LReportLocked? || s.locker.LAwaitOk? || s.locker.LDropSentry? || s.locker.LUnlock?) ==> s.tablesLocked)
    && ((s.locker.LLockTables? || s.locker.LReportLocked? || s.locker.LAwaitOk?) && s.okToUnlock.sent == 0 ==>
          s.oldName == Some(SentryTable))
    && (s.tablesLocked && (s.locker.LReportLocked? || s.locker.LAwaitOk? || s.locker.LDropSentry?) ==>
          s.oldName == Some(SentryTable))
    && (s.main.DropSentry? || s.main.Returned? ==> s.okToUnlock.sent > 0)
  }

  /** The original name is always bound, and the original table is bound to it or to the old name. */
  ghost predicate NamesOk<E>(s: State<E>) {
    if s.rename == Committed then
      s.originalName == Some(GhostTable) && s.ghostName.None? && s.oldName == Some(OriginalTable)
    else
      && s.originalName == Some(OriginalTable) && s.ghostName == Some(GhostTable)
      && (s.oldName == None || s.oldName == Some(SentryTable) || s.oldName == Some(OtherTable))
  }

  /** What main knows about the backlog. */
  ghost predicate MarkOk<E>(s: State<E>) {
    && (s.main.AwaitChallenge? ==>
          s.mark.Some? && (D.Challenge(s.main.id) in s.drain.log ==> D.Ahead(s.drain.log, s.main.id) == s.mark.value))
    && (s.main.AwaitLocked? || s.main.AwaitLockSession? || s.main.InjectChallenge? ==> s.mark.None?)
    && (s.drained ==> s.mark.Some? && s.mark.value <= |s.drain.applied|)
    && (s.mark.Some? && s.tablesLocked ==> s.mark.value == Logged(s))
  }

  /** Once the sentry is out of the way of a pending RENAME, nothing has been logged since the challenge. */
  ghost predicate SwapOk<E>(s: State<E>) {
    && (s.rename == Pending && !s.gaveUpEarly && s.oldName != Some(SentryTable) ==> s.mark == Some(Logged(s)))
    && (s.rename == Committed && !s.gaveUpEarly ==> s.mark == Some(Logged(s)))
  }

  predicate ReportsSuccess(main: MainPc) {
    (main.SignalExit? || main.DropSentry? || main.Returned?) && main.success
  }

  /** The rename session has reported that it has renamed. */
  predicate Renamed(renamer: RenamePc) {
    renamer == RDefer1(true) || renamer == RDefer2(true) || renamer == RDone
  }

  /** The lock session has not said yet whether it has unlocked. */
  predicate BeforeUnlocked(locker: LockPc) {
    Locking(locker) || locker == LAwaitOk || locker == LDropSentry || locker == LUnlock
  }

  ghost predicate ReportOk<E>(s: State<E>) {
    && (true in s.tablesRenamed.waiting ==> s.rename == Committed)
    && (ReportsSuccess(s.main) ==> s.rename == Committed)
    && (true in s.tablesRenamed.waiting || ReportsSuccess(s.main) ==> Renamed(s.renamer))
    && (BeforeUnlocked(s.locker) ==> s.tableUnlocked.waiting == [] && s.main != AwaitRenamed && !ReportsSuccess(s.main))
  }

  ghost predicate Inv<E>(s: State<E>) {
    D.Inv(s.drain) && OrderOk(s) && EarlyOk(s) && LocksOk(s) && NamesOk(s) && MarkOk(s) && SwapOk(s) && ReportOk(s)
  }

  lemma InitInv<E>(s: State<E>)
    requires Init(s)
    ensures Inv(s)
  {
  }

  // The actors' steps, a few program counters at a time.

  lemma LockerConnects<E>(s: State<E>, ok: bool)
    requires Inv(s) && LockerEnabled(s, ok)
    requires s.locker.LBegin? || s.locker.LConnection? || s.locker.LGetLock? || s.locker.LSetTimeout?
    ensures Inv(DoLocker(s, ok))
  {
  }

  lemma LockerTakesLock<E>(s: State<E>, ok: bool)
    requires Inv(s) && LockerEnabled(s, ok)
    requires s.locker.LDropStale? || s.locker.LCreateSentry? || s.locker.LLockTables?
    ensures Inv(DoLocker(s, ok))
  {
  }

  lemma LockerWaits<E>(s: State<E>, ok: bool)
    requires Inv(s) && LockerEnabled(s, ok)
    requires s.locker.LReportLocked? || s.locker.LAwaitOk?
    ensures Inv(DoLocker(s, ok))
  {
  }

  lemma LockerDropsSentry<E>(s: State<E>, ok: bool)
    requires Inv(s) && LockerEnabled(s, ok)
    requires s.locker.LDropSentry?
    ensures Inv(DoLocker(s, ok))
  {
  }

  lemma LockerUnlocks<E>(s: State<E>, ok: bool)
    requires Inv(s) && LockerEnabled(s, ok)
    requires s.locker.LUnlock?
    ensures Inv(DoLocker(s, ok))
  {
    var t := DoLocker(s, ok);
    assert t == s.(tablesLocked := t.tablesLocked, tableUnlocked := Send(s.tableUnlocked, ok), locker := LDefer1);
  }

  lemma LockerDefers<E>(s: State<E>, ok: bool)
    requires Inv(s) && LockerEnabled(s, ok)
    requires s.locker.LDefer1? || s.locker.LDefer2? || s.locker.LDefer3?
    ensures Inv(DoLocker(s, ok))
  {
  }

  lemma RenamerConnects<E>(s: State<E>, ok: bool)
    requires Inv(s) && RenamerEnabled(s, ok)
    requires s.renamer.RBegin? || s.renamer.RConnection? || s.renamer.RSetTimeout?
    ensures Inv(DoRenamer(s, ok))
  {
  }

  lemma RenamerIssues<E>(s: State<E>, ok: bool)
    requires Inv(s) && RenamerEnabled(s, ok)
    requires s.renamer.RIssue?
    ensures Inv(DoRenamer(s, ok))
  {
  }

  lemma RenamerAnswers<E>(s: State<E>, ok: bool)
    requires Inv(s) && RenamerEnabled(s, ok)
    requires s.renamer.RAwait?
    ensures Inv(DoRenamer(s, ok))
  {
  }

  lemma RenamerDefers<E>(s: State<E>, ok: bool)
    requires Inv(s) && RenamerEnabled(s, ok)
    requires s.renamer.RDefer1? || s.renamer.RDefer2?
    ensures Inv(DoRenamer(s, ok))
  {
  }

  lemma RenamerSignals<E>(s: State<E>, ok: bool)
    requires Inv(s) && RenamerEnabled(s, ok)
    requires s.renamer.RSetFailed? || s.renamer.RSignal?
    ensures Inv(DoRenamer(s, ok))
  {
  }

  lemma MainAwaitsLock<E>(s: State<E>, ok: bool, id: nat, logged: bool)
    requires Inv(s) && MainEnabled(s, ok, id, logged)
    requires s.main.AwaitLocked? || s.main.AwaitLockSession?
    ensures Inv(DoMain(s, ok, id, logged))
  {
  }

  lemma MainInjects<E>(s: State<E>, ok: bool, id: nat, logged: bool)
    requires Inv(s) && MainEnabled(s, ok, id, logged)
    requires s.main.InjectChallenge?
    ensures Inv(DoMain(s, ok, id, logged))
  {
    if logged {
      MainLogsChallenge(s, ok, id);
    } else {
      MainLogsNothing(s, ok, id);
    }
  }

  lemma MainLogsChallenge<E>(s: State<E>, ok: bool, id: nat)
    requires Inv(s) && MainEnabled(s, ok, id, true) && s.main.InjectChallenge?
    ensures Inv(DoMain(s, ok, id, true))
  {
    D.LogAppend(s.drain.log, D.Challenge(id));
    D.StepInv(s.drain, D.WriteChallenge(id));
    var t := DoMain(s, ok, id, true);
    assert t == s.(drain := t.drain, mark := t.mark, main := t.main);
  }

  lemma MainLogsNothing<E>(s: State<E>, ok: bool, id: nat)
    requires Inv(s) && MainEnabled(s, ok, id, false) && s.main.InjectChallenge?
    ensures Inv(DoMain(s, ok, id, false))
  {
    var t := DoMain(s, ok, id, false);
    assert t == s.(mark := t.mark, main := t.main);
  }

  lemma MainDrains<E>(s: State<E>, ok: bool, id: nat, logged: bool)
    requires Inv(s) && MainEnabled(s, ok, id, logged)
    requires s.main.AwaitChallenge?
    ensures Inv(DoMain(s, ok, id, logged))
  {
    if !ok {
      MainTimesOut(s, id, logged);
    } else if s.drain.held.value != s.main.id {
      MainSkipsStaleChallenge(s, id, logged);
    } else {
      MainIsDrained(s, id, logged);
    }
  }

  lemma MainTimesOut<E>(s: State<E>, id: nat, logged: bool)
    requires Inv(s) && MainEnabled(s, false, id, logged) && s.main.AwaitChallenge?
    ensures Inv(DoMain(s, false, id, logged))
  {
  }

  lemma MainSkipsStaleChallenge<E>(s: State<E>, id: nat, logged: bool)
    requires Inv(s) && MainEnabled(s, true, id, logged) && s.main.AwaitChallenge?
    requires s.drain.held.value != s.main.id
    ensures Inv(DoMain(s, true, id, logged))
  {
    D.StepInv(s.drain, D.Deliver);
  }

  lemma MainIsDrained<E>(s: State<E>, id: nat, logged: bool)
    requires Inv(s) && MainEnabled(s, true, id, logged) && s.main.AwaitChallenge?
    requires s.drain.held.value == s.main.id
    ensures Inv(DoMain(s, true, id, logged))
  {
    D.StepInv(s.drain, D.Deliver);
  }

  lemma MainAwaitsRename<E>(s: State<E>, ok: bool, id: nat, logged: bool)
    requires Inv(s) && MainEnabled(s, ok, id, logged)
    requires s.main.AwaitRenameSession? || s.main.AwaitRename?
    ensures Inv(DoMain(s, ok, id, logged))
  {
  }

  lemma MainReleases<E>(s: State<E>, ok: bool, id: nat, logged: bool)
    requires Inv(s) && MainEnabled(s, ok, id, logged)
    requires s.main.CheckLock? || s.main.Release?
    ensures Inv(DoMain(s, ok, id, logged))
  {
  }

  lemma MainAwaitsOutcome<E>(s: State<E>, ok: bool, id: nat, logged: bool)
    requires Inv(s) && MainEnabled(s, ok, id, logged)
    requires s.main.AwaitUnlocked? || s.main.AwaitRenamed?
    ensures Inv(DoMain(s, ok, id, logged))
  {
  }

  lemma MainExits<E>(s: State<E>, ok: bool, id: nat, logged: bool)
    requires Inv(s) && MainEnabled(s, ok, id, logged)
    requires s.main.SignalExit? || s.main.DropSentry?
    ensures Inv(DoMain(s, ok, id, logged))
  {
  }

  lemma LockerInv<E>(s: State<E>, ok: bool)
    requires Inv(s) && LockerEnabled(s, ok)
    ensures Inv(DoLocker(s, ok))
  {
    match s.locker {
      case LBegin => LockerConnects(s, ok);
      case LConnection => LockerConnects(s, ok);
      case LGetLock => LockerConnects(s, ok);
      case LSetTimeout => LockerConnects(s, ok);
      case LDropStale => LockerTakesLock(s, ok);
      case LCreateSentry => LockerTakesLock(s, ok);
      case LLockTables => LockerTakesLock(s, ok);
      case LReportLocked => LockerWaits(s, ok);
      case LAwaitOk => LockerWaits(s, ok);
      case LDropSentry => LockerDropsSentry(s, ok);
      case LUnlock => LockerUnlocks(s, ok);
      case LDefer1 => LockerDefers(s, ok);
      case LDefer2 => LockerDefers(s, ok);
      case LDefer3 => LockerDefers(s, ok);
    }
  }

  lemma RenamerInv<E>(s: State<E>, ok: bool)
    requires Inv(s) && RenamerEnabled(s, ok)
    ensures Inv(DoRenamer(s, ok))
  {
    match s.renamer {
      case RBegin => RenamerConnects(s, ok);
      case RConnection => RenamerConnects(s, ok);
      case RSetTimeout => RenamerConnects(s, ok);
      case RIssue => RenamerIssues(s, ok);
      case RAwait => RenamerAnswers(s, ok);
      case RDefer1(_) => RenamerDefers(s, ok);
      case RDefer2(_) => RenamerDefers(s, ok);
      case RSetFailed => RenamerSignals(s, ok);
      case RSignal => RenamerSignals(s, ok);
    }
  }

  lemma MainInv<E>(s: State<E>, ok: bool, id: nat, logged: bool)
    requires Inv(s) && MainEnabled(s, ok, id, logged)
    ensures Inv(DoMain(s, ok, id, logged))
  {
    match s.main {
      case AwaitLocked => MainAwaitsLock(s, ok, id, logged);
      case AwaitLockSession => MainAwaitsLock(s, ok, id, logged);
      case InjectChallenge => MainInjects(s, ok, id, logged);
      case AwaitChallenge(_) => MainDrains(s, ok, id, logged);
      case AwaitRenameSession => MainAwaitsRename(s, ok, id, logged);
      case AwaitRename => MainAwaitsRename(s, ok, id, logged);
      case CheckLock => MainReleases(s, ok, id, logged);
      case Release => MainReleases(s, ok, id, logged);
      case AwaitUnlocked => MainAwaitsOutcome(s, ok, id, logged);
      case AwaitRenamed => MainAwaitsOutcome(s, ok, id, logged);
      case SignalExit(_) => MainExits(s, ok, id, logged);
      case DropSentry(_) => MainExits(s, ok, id, logged);
    }
  }

  lemma LockSessionDiesInv<E>(s: State<E>)
    requires Inv(s) && Enabled(s, LockSessionDies)
    ensures Inv(Do(s, LockSessionDies))
  {
  }

  lemma RenameDiesInv<E>(s: State<E>)
    requires Inv(s) && Enabled(s, RenameDies)
    ensures Inv(Do(s, RenameDies))
  {
  }

  lemma RenameCommitsInv<E>(s: State<E>)
    requires Inv(s) && Enabled(s, ResolveRename) && CanSwap(s)
    ensures Inv(Do(s, ResolveRename))
  {
    var t := Do(s, ResolveRename);
    assert NamesOk(t);
    assert SwapOk(t);
    assert LocksOk(t);
  }

  lemma RenameFailsInv<E>(s: State<E>)
    requires Inv(s) && Enabled(s, ResolveRename) && !CanSwap(s)
    ensures Inv(Do(s, ResolveRename))
  {
  }

  lemma AppWriteInv<E>(s: State<E>, event: E)
    requires Inv(s) && Enabled(s, AppWrite(event))
    ensures Inv(Do(s, AppWrite(event)))
  {
    D.StepInv(s.drain, D.LogRow(event));
    if s.main.AwaitChallenge? {
      D.AheadAppend(s.drain.log, D.Row(event), s.main.id);
    }
  }

  lemma ApplyInv<E>(s: State<E>, step: D.Action<E>)
    requires Inv(s) && Enabled(s, Apply(step))
    ensures Inv(Do(s, Apply(step)))
  {
    var t := Do(s, Apply(step));
    D.StepInv(s.drain, step);
    ApplyKeepsLog(s.drain, step);
    assert t == s.(drain := t.drain);
  }

  lemma ApplyKeepsLog<E>(d: D.State<E>, step: D.Action<E>)
    requires D.Enabled(d, step) && !step.LogRow? && !step.WriteChallenge?
    ensures D.Do(d, step).log == d.log && |d.applied| <= |D.Do(d, step).applied|
  {
  }

  lemma StepInv<E>(s: State<E>, a: Action<E>)
    requires Inv(s) && Enabled(s, a)
    ensures Inv(Do(s, a))
  {
    match a
    case Main(ok, id, logged) => MainInv(s, ok, id, logged);
    case Locker(ok) => LockerInv(s, ok);
    case Renamer(ok) => RenamerInv(s, ok);
    case AppWrite(event) => AppWriteInv(s, event);
    case Apply(step) => ApplyInv(s, step);
    case LockSessionDies => LockSessionDiesInv(s);
    case RenameDies => RenameDiesInv(s);
    case ResolveRename => if CanSwap(s) { RenameCommitsInv(s); } else { RenameFailsInv(s); }
  }

  lemma {:induction false} ReachesInv<E>(s: State<E>, actions: seq<Action<E>>, t: State<E>)
    requires Inv(s) && Reaches(s, actions, t)
    ensures Inv(t)
    decreases |actions|
  {
    if actions != [] {
      StepInv(s, actions[0]);
      ReachesInv(Do(s, actions[0]), actions[1..], t);
    }
  }

  // ---- Runs end to end ----

  lemma {:induction false} ReachesAppend<E>(s: State<E>, xs: seq<Action<E>>, t: State<E>, ys: seq<Action<E>>, u: State<E>)
    requires Reaches(s, xs, t) && Reaches(t, ys, u)
    ensures Reaches(s, xs + ys, u)
    decreases |xs|
  {
    if xs == [] {
      assert xs + ys == ys;
    } else {
      assert (xs + ys)[1..] == xs[1..] + ys;
      ReachesAppend(Do(s, xs[0]), xs[1..], t, ys, u);
    }
  }

  lemma {:induction false} ReachesOne<E>(s: State<E>, a: Action<E>)
    requires Enabled(s, a)
    ensures Reaches(s, [a], Do(s, a))
  {
    assert [a][1..] == [];
  }
}
