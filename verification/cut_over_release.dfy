/**
 What follows an error in the cut-over: every error fails it, a failed RENAME is announced to those who wait, and the
 table lock is given up, so that the application can go on.
 */
module CutOverRelease {
  import opened Wrappers
  import opened CutOver
  import opened CutOverInvariant
  import opened CutOverFailure

  // ---- Every error fails the cut-over ----

  /** The message that main receives next, if it waits for one that can report an error, reports one. */
  predicate ErrorReported<E>(s: State<E>) {
    || (s.main == AwaitLocked && s.tableLocked.waiting != [] && !s.tableLocked.waiting[0])
    || (s.main == AwaitUnlocked && s.tableUnlocked.waiting != [] && !s.tableUnlocked.waiting[0])
    || (s.main == AwaitRenamed && s.tablesRenamed.waiting != [] && !s.tablesRenamed.waiting[0])
  }

  /** Main itself can fail or time out here. */
  predicate CanFail(main: MainPc) {
    main.InjectChallenge? || main.AwaitChallenge? || main.AwaitRename? || main.CheckLock?
  }

  lemma LockErrorFails<E>(s: State<E>, ok: bool, id: nat, logged: bool)
    requires MainEnabled(s, ok, id, logged) && ErrorReported(s) && s.main == AwaitLocked
    ensures MainFailed(DoMain(s, ok, id, logged).main)
  {
  }

  lemma UnlockErrorFails<E>(s: State<E>, ok: bool, id: nat, logged: bool)
    requires MainEnabled(s, ok, id, logged) && ErrorReported(s) && s.main == AwaitUnlocked
    ensures MainFailed(DoMain(s, ok, id, logged).main)
  {
  }

  lemma RenameErrorFails<E>(s: State<E>, ok: bool, id: nat, logged: bool)
    requires MainEnabled(s, ok, id, logged) && ErrorReported(s) && s.main == AwaitRenamed
    ensures MainFailed(DoMain(s, ok, id, logged).main)
  {
  }

  /** An error that is received fails the cut-over. */
  lemma ReportedErrorFails<E>(s: State<E>, ok: bool, id: nat, logged: bool)
    requires MainEnabled(s, ok, id, logged) && ErrorReported(s)
    ensures MainFailed(DoMain(s, ok, id, logged).main)
  {
    match s.main
    case AwaitLocked => LockErrorFails(s, ok, id, logged);
    case AwaitUnlocked => UnlockErrorFails(s, ok, id, logged);
    case AwaitRenamed => RenameErrorFails(s, ok, id, logged);
  }

  lemma ChallengeErrorFails<E>(s: State<E>, id: nat, logged: bool)
    requires MainEnabled(s, false, id, logged) && s.main.InjectChallenge?
    ensures MainFailed(DoMain(s, false, id, logged).main)
  {
  }

  lemma DrainTimeoutFails<E>(s: State<E>, id: nat, logged: bool)
    requires MainEnabled(s, false, id, logged) && s.main.AwaitChallenge?
    ensures MainFailed(DoMain(s, false, id, logged).main)
  {
    assert DoMain(s, false, id, logged) == s.(main := SignalExit(false));
  }

  lemma CheckErrorFails<E>(s: State<E>, id: nat, logged: bool)
    requires MainEnabled(s, false, id, logged) && (s.main.AwaitRename? || s.main.CheckLock?)
    ensures MainFailed(DoMain(s, false, id, logged).main)
  {
  }

  /** So does an error or a timeout of its own. */
  lemma OwnErrorFails<E>(s: State<E>, id: nat, logged: bool)
    requires MainEnabled(s, false, id, logged) && CanFail(s.main)
    ensures MainFailed(DoMain(s, false, id, logged).main)
  {
    if s.main.InjectChallenge? {
      ChallengeErrorFails(s, id, logged);
    } else if s.main.AwaitChallenge? {
      DrainTimeoutFails(s, id, logged);
    } else {
      CheckErrorFails(s, id, logged);
    }
  }

  // ---- A failed rename session ----

  lemma TwoRenamerSteps<E>(s: State<E>) returns (t: State<E>)
    requires RenamerEnabled(s, false) && RenamerEnabled(DoRenamer(s, false), false)
    ensures t == DoRenamer(DoRenamer(s, false), false)
    ensures Reaches(s, [Renamer(false), Renamer(false)], t)
  {
    var s1 := Do(s, Renamer(false));
    t := Do(s1, Renamer(false));
    ReachesOne(s, Renamer(false));
    ReachesOne(s1, Renamer(false));
    ReachesAppend(s, [Renamer(false)], s1, [Renamer(false)], t);
    assert [Renamer(false)] + [Renamer(false)] == [Action<E>.Renamer(false), Renamer(false)];
  }

  lemma BothReceivesAnswered<E>(s: State<E>) returns (t: State<E>)
    requires s.renamer == RDefer1(false)
    ensures Reaches(s, [Renamer(false), Renamer(false)], t)
    ensures t == s.(renameSession := Send(s.renameSession, false), tablesRenamed := Send(s.tablesRenamed, false),
                    renamer := RSetFailed)
  {
    t := TwoRenamerSteps(s);
  }

  lemma FailureMarked<E>(s: State<E>) returns (t: State<E>)
    requires s.renamer == RSetFailed
    ensures Reaches(s, [Renamer(false), Renamer(false)], t)
    ensures t == s.(renameKnownToHaveFailed := true, okToUnlock := Send(s.okToUnlock, true), renamer := RDone)
  {
    t := TwoRenamerSteps(s);
  }

  /**
   When the rename session ends without having renamed, it answers both of main's receives with an error, marks the
   RENAME as failed, and gives the lock session the word.
   */
  lemma RenameFailureIsAnnounced<E>(s: State<E>) returns (actions: seq<Action<E>>, t: State<E>)
    requires s.renamer == RDefer1(false)
    ensures Reaches(s, actions, t) && (forall i :: 0 <= i < |actions| ==> actions[i].Renamer?)
    ensures t == s.(renameSession := Send(s.renameSession, false), tablesRenamed := Send(s.tablesRenamed, false),
                    renameKnownToHaveFailed := true, okToUnlock := Send(s.okToUnlock, true), renamer := RDone)
  {
    var middle := BothReceivesAnswered(s);
    t := FailureMarked(middle);
    var two := [Action<E>.Renamer(false), Renamer(false)];
    ReachesAppend(s, two, middle, two, t);
    actions := two + two;
  }

  // ---- A statement that fails ----

  /** The session can fail here: at a statement of its own, or in waiting for the answer to the RENAME. */
  predicate RenameStatement(renamer: RenamePc) {
    renamer.RConnection? || renamer.RSetTimeout? || renamer.RIssue? || renamer.RAwait?
  }

  lemma ConnectionFails<E>(s: State<E>)
    requires s.renamer.RConnection? || s.renamer.RSetTimeout?
    ensures DoRenamer(s, false) == s.(renamer := RDefer1(false))
  {
  }

  lemma IssuingFails<E>(s: State<E>)
    requires s.renamer.RIssue? || s.renamer.RAwait?
    ensures DoRenamer(s, false) == s.(tablesRenamed := Send(s.tablesRenamed, false), renamer := RDefer1(false))
  {
  }

  lemma FailedStatementWontSucceed<E>(s: State<E>)
    requires RenameStatement(s.renamer) && NoSuccess(s)
    ensures WontSucceed(DoRenamer(s, false)) && DoRenamer(s, false).rename == s.rename
  {
    if s.renamer.RConnection? || s.renamer.RSetTimeout? {
      ConnectionFails(s);
    } else {
      IssuingFails(s);
      SendsNoSuccess(s.tablesRenamed);
    }
  }

  predicate NoSuccess<E>(s: State<E>) {
    true !in s.tablesRenamed.waiting && !ReportsSuccess(s.main)
  }

  predicate LeavingFailed(renamer: RenamePc) {
    renamer == RDefer1(false) || renamer == RDefer2(false) || renamer == RSetFailed || renamer == RSignal || renamer == RDone
  }

  /** The rename session is on its way out without having reported that it has renamed. */
  predicate WontSucceed<E>(s: State<E>) {
    NoSuccess(s) && LeavingFailed(s.renamer)
  }

  lemma SendsNoSuccess(c: Channel)
    requires true !in c.waiting
    ensures true !in Send(c, false).waiting
  {
  }

  lemma RenamerAnswersFirst<E>(s: State<E>, ok: bool)
    requires s.renamer == RDefer1(false)
    ensures DoRenamer(s, ok) == s.(renameSession := Send(s.renameSession, false), renamer := RDefer2(false))
  {
  }

  lemma RenamerAnswersSecond<E>(s: State<E>, ok: bool)
    requires s.renamer == RDefer2(false)
    ensures DoRenamer(s, ok) == s.(tablesRenamed := Send(s.tablesRenamed, false), renamer := RSetFailed)
  {
  }

  lemma RenamerMarksFailure<E>(s: State<E>, ok: bool)
    requires s.renamer == RSetFailed
    ensures DoRenamer(s, ok) == s.(renameKnownToHaveFailed := true, renamer := RSignal)
  {
  }

  lemma RenamerSignalsFailure<E>(s: State<E>, ok: bool)
    requires s.renamer == RSignal
    ensures DoRenamer(s, ok) == s.(okToUnlock := Send(s.okToUnlock, true), renamer := RDone)
  {
  }

  /** What the rename session changes when it ends. */
  predicate StillWontSucceed<E>(s: State<E>, t: State<E>) {
    (WontSucceed(s) ==> WontSucceed(t)) && t.rename == s.rename
  }

  lemma FirstWontSucceed<E>(s: State<E>, ok: bool)
    requires s.renamer == RDefer1(false)
    ensures StillWontSucceed(s, DoRenamer(s, ok))
  {
    RenamerAnswersFirst(s, ok);
  }

  lemma SecondWontSucceed<E>(s: State<E>, ok: bool)
    requires s.renamer == RDefer2(false)
    ensures StillWontSucceed(s, DoRenamer(s, ok))
  {
    RenamerAnswersSecond(s, ok);
    if true !in s.tablesRenamed.waiting {
      SendsNoSuccess(s.tablesRenamed);
    }
  }

  lemma MarkingWontSucceed<E>(s: State<E>, ok: bool)
    requires s.renamer == RSetFailed
    ensures StillWontSucceed(s, DoRenamer(s, ok))
  {
    RenamerMarksFailure(s, ok);
  }

  lemma SignallingWontSucceed<E>(s: State<E>, ok: bool)
    requires s.renamer == RSignal
    ensures StillWontSucceed(s, DoRenamer(s, ok))
  {
    RenamerSignalsFailure(s, ok);
  }

  lemma RenamerWontSucceed<E>(s: State<E>, a: Action<E>)
    requires WontSucceed(s) && Enabled(s, a) && a.Renamer?
    ensures StillWontSucceed(s, Do(s, a))
  {
    match s.renamer
    case RDefer1(_) => FirstWontSucceed(s, a.ok);
    case RDefer2(_) => SecondWontSucceed(s, a.ok);
    case RSetFailed => MarkingWontSucceed(s, a.ok);
    case RSignal => SignallingWontSucceed(s, a.ok);
  }

  /** The step is none of the rename session's. */
  predicate RenameUntouched<E>(s: State<E>, t: State<E>) {
    t.rename == s.rename && t.renamer == s.renamer && (NoSuccess(s) ==> NoSuccess(t))
  }

  lemma AwaitingLeavesRename<E>(s: State<E>, ok: bool, id: nat, logged: bool)
    requires MainEnabled(s, ok, id, logged) && (s.main.AwaitRenameSession? || s.main.AwaitRename?)
    ensures RenameUntouched(s, DoMain(s, ok, id, logged))
  {
  }

  lemma ReleasingLeavesRename<E>(s: State<E>, ok: bool, id: nat, logged: bool)
    requires MainEnabled(s, ok, id, logged) && (s.main.CheckLock? || s.main.Release?)
    ensures RenameUntouched(s, DoMain(s, ok, id, logged))
  {
  }

  lemma OutcomeLeavesRename<E>(s: State<E>, ok: bool, id: nat, logged: bool)
    requires MainEnabled(s, ok, id, logged) && (s.main.AwaitUnlocked? || s.main.AwaitRenamed?)
    ensures RenameUntouched(s, DoMain(s, ok, id, logged))
  {
  }

  lemma ExitLeavesRename<E>(s: State<E>, ok: bool, id: nat, logged: bool)
    requires MainEnabled(s, ok, id, logged) && (s.main.SignalExit? || s.main.DropSentry?)
    ensures RenameUntouched(s, DoMain(s, ok, id, logged))
  {
  }

  lemma MainLeavesRename<E>(s: State<E>, ok: bool, id: nat, logged: bool)
    requires MainEnabled(s, ok, id, logged) && !BeforeRename(s.main)
    ensures RenameUntouched(s, DoMain(s, ok, id, logged))
  {
    if s.main.AwaitRenameSession? || s.main.AwaitRename? {
      AwaitingLeavesRename(s, ok, id, logged);
    } else if s.main.CheckLock? || s.main.Release? {
      ReleasingLeavesRename(s, ok, id, logged);
    } else if s.main.AwaitUnlocked? || s.main.AwaitRenamed? {
      OutcomeLeavesRename(s, ok, id, logged);
    } else {
      ExitLeavesRename(s, ok, id, logged);
    }
  }

  lemma ConnectingLeavesRename<E>(s: State<E>, ok: bool)
    requires LockerEnabled(s, ok) && (s.locker.LBegin? || s.locker.LConnection? || s.locker.LGetLock?)
    ensures RenameUntouched(s, DoLocker(s, ok))
  {
  }

  lemma CreatingLeavesRename<E>(s: State<E>, ok: bool)
    requires LockerEnabled(s, ok) && (s.locker.LSetTimeout? || s.locker.LDropStale? || s.locker.LCreateSentry?)
    ensures RenameUntouched(s, DoLocker(s, ok))
  {
  }

  lemma LockingLeavesRename<E>(s: State<E>, ok: bool)
    requires LockerEnabled(s, ok) && (s.locker.LLockTables? || s.locker.LReportLocked? || s.locker.LAwaitOk?)
    ensures RenameUntouched(s, DoLocker(s, ok))
  {
  }

  lemma UnlockingLeavesRename<E>(s: State<E>, ok: bool)
    requires LockerEnabled(s, ok) && (s.locker.LDropSentry? || s.locker.LUnlock?)
    ensures RenameUntouched(s, DoLocker(s, ok))
  {
  }

  lemma DeferringLeavesRename<E>(s: State<E>, ok: bool)
    requires LockerEnabled(s, ok) && (s.locker.LDefer1? || s.locker.LDefer2? || s.locker.LDefer3?)
    ensures RenameUntouched(s, DoLocker(s, ok))
  {
  }

  lemma LockerLeavesRename<E>(s: State<E>, ok: bool)
    requires LockerEnabled(s, ok)
    ensures RenameUntouched(s, DoLocker(s, ok))
  {
    if s.locker.LBegin? || s.locker.LConnection? || s.locker.LGetLock? {
      ConnectingLeavesRename(s, ok);
    } else if s.locker.LSetTimeout? || s.locker.LDropStale? || s.locker.LCreateSentry? {
      CreatingLeavesRename(s, ok);
    } else if s.locker.LLockTables? || s.locker.LReportLocked? || s.locker.LAwaitOk? {
      LockingLeavesRename(s, ok);
    } else if s.locker.LDropSentry? || s.locker.LUnlock? {
      UnlockingLeavesRename(s, ok);
    } else {
      DeferringLeavesRename(s, ok);
    }
  }

  /** What the server, the application and the drain cannot change. */
  predicate OthersOnly<E>(s: State<E>, t: State<E>) {
    && t.main == s.main && t.locker == s.locker && t.renamer == s.renamer
    && t.tablesRenamed == s.tablesRenamed && t.tableUnlocked == s.tableUnlocked
    && (s.rename == NotIssued ==> t.rename == NotIssued)
  }

  lemma SessionsDie<E>(s: State<E>, a: Action<E>)
    requires Enabled(s, a) && (a.LockSessionDies? || a.RenameDies?)
    ensures OthersOnly(s, Do(s, a))
  {
  }

  lemma ServerResolves<E>(s: State<E>, a: Action<E>)
    requires Enabled(s, a) && a.ResolveRename?
    ensures OthersOnly(s, Do(s, a))
  {
  }

  lemma DrainMoves<E>(s: State<E>, a: Action<E>)
    requires Enabled(s, a) && (a.AppWrite? || a.Apply?)
    ensures OthersOnly(s, Do(s, a))
  {
  }

  lemma OtherSteps<E>(s: State<E>, a: Action<E>)
    requires Enabled(s, a) && !a.Main? && !a.Locker? && !a.Renamer?
    ensures OthersOnly(s, Do(s, a))
  {
    if a.LockSessionDies? || a.RenameDies? {
      SessionsDie(s, a);
    } else if a.ResolveRename? {
      ServerResolves(s, a);
    } else {
      DrainMoves(s, a);
    }
  }

  lemma StepWontSucceed<E>(s: State<E>, a: Action<E>)
    requires WontSucceed(s) && !BeforeRename(s.main) && Enabled(s, a)
    ensures WontSucceed(Do(s, a))
    ensures s.rename == NotIssued ==> Do(s, a).rename == NotIssued
  {
    match a
    case Main(ok, id, logged) => MainLeavesRename(s, ok, id, logged);
    case Renamer(ok) => RenamerWontSucceed(s, a);
    case Locker(ok) => LockerLeavesRename(s, ok);
    case _ => OtherSteps(s, a);
  }

  lemma {:induction false} NeverSucceeds<E>(s: State<E>, actions: seq<Action<E>>, t: State<E>)
    requires Inv(s) && WontSucceed(s) && Reaches(s, actions, t)
    ensures Inv(t) && WontSucceed(t)
    ensures s.rename == NotIssued ==> t.rename == NotIssued
    decreases |actions|
  {
    if actions != [] {
      StepInv(s, actions[0]);
      StepWontSucceed(s, actions[0]);
      NeverSucceeds(Do(s, actions[0]), actions[1..], t);
    }
  }

  /**
   If a statement of the rename session fails, the cut-over does not succeed; and if it fails before the RENAME, no
   RENAME is ever issued. It does not succeed either if the answer to the RENAME gets lost, though the server may go on.
   */
  lemma {:induction false} RenameFailureEndsTheAttempt<E>(s: State<E>, actions: seq<Action<E>>, t: State<E>)
    requires Inv(s) && RenameStatement(s.renamer) && Reaches(DoRenamer(s, false), actions, t)
    ensures t.main != Returned(true)
    ensures s.rename == NotIssued ==> t.rename == NotIssued && t.originalName == Some(OriginalTable)
  {
    StepInv(s, Renamer(false));
    FailedStatementWontSucceed(s);
    NeverSucceeds(DoRenamer(s, false), actions, t);
  }

  /** The lock session can fail at a statement before it has the lock. */
  predicate LockStatement(locker: LockPc) {
    Locking(locker) && locker != LReportLocked
  }

  lemma LockStatementFails<E>(s: State<E>)
    requires LockStatement(s.locker)
    ensures DoLocker(s, false)
            == s.(tableLocked := Send(s.tableLocked, false), locker := if s.locker == LBegin then LDone else LDefer1)
  {
  }

  /** The lock session is on its way out, or has ended, and main fails or is about to. */
  predicate GivenUp<E>(s: State<E>) {
    && (s.locker == LDefer1 || s.locker == LDefer2 || s.locker == LDefer3 || s.locker == LDone)
    && s.rename == NotIssued && s.renamer == RIdle && (s.main == AwaitLocked || MainFailed(s.main))
  }

  lemma LockErrorReceived<E>(s: State<E>, ok: bool, id: nat, logged: bool)
    requires MainEnabled(s, ok, id, logged) && s.main == AwaitLocked && !s.tableLocked.waiting[0]
    ensures DoMain(s, ok, id, logged) == s.(tableLocked := Receive(s.tableLocked), main := SignalExit(false))
  {
  }

  lemma MainGivesUp<E>(s: State<E>, a: Action<E>)
    requires GivenUp(s) && Enabled(s, a) && a.Main?
    requires s.main == AwaitLocked ==> !s.tableLocked.waiting[0]
    ensures GivenUp(Do(s, a))
  {
    if s.main == AwaitLocked {
      LockErrorReceived(s, a.ok, a.id, a.logged);
    } else {
      MainDoesNotIssue(s, a.ok, a.id, a.logged);
      ExitLeavesLocker(s, a.ok, a.id, a.logged);
    }
  }

  lemma ExitLeavesLocker<E>(s: State<E>, ok: bool, id: nat, logged: bool)
    requires MainEnabled(s, ok, id, logged) && (s.main.SignalExit? || s.main.DropSentry?)
    ensures DoMain(s, ok, id, logged).locker == s.locker
  {
  }

  lemma FirstGivesUp<E>(s: State<E>, ok: bool)
    requires GivenUp(s) && s.locker == LDefer1
    ensures GivenUp(DoLocker(s, ok))
  {
    LockerAnswersFirst(s, ok);
  }

  lemma SecondGivesUp<E>(s: State<E>, ok: bool)
    requires GivenUp(s) && s.locker == LDefer2
    ensures GivenUp(DoLocker(s, ok))
  {
    LockerAnswersSecond(s, ok);
  }

  lemma ThirdGivesUp<E>(s: State<E>, ok: bool)
    requires GivenUp(s) && s.locker == LDefer3
    ensures GivenUp(DoLocker(s, ok))
  {
    LockerAnswersThird(s, ok);
  }

  lemma LockerGivesUp<E>(s: State<E>, a: Action<E>)
    requires GivenUp(s) && Enabled(s, a) && a.Locker?
    ensures GivenUp(Do(s, a))
  {
    match s.locker
    case LDefer1 => FirstGivesUp(s, a.ok);
    case LDefer2 => SecondGivesUp(s, a.ok);
    case LDefer3 => ThirdGivesUp(s, a.ok);
  }

  lemma OtherGivesUp<E>(s: State<E>, a: Action<E>)
    requires GivenUp(s) && Enabled(s, a) && !a.Main? && !a.Locker? && !a.Renamer?
    ensures GivenUp(Do(s, a))
  {
    OtherSteps(s, a);
  }

  lemma StepGivenUp<E>(s: State<E>, a: Action<E>)
    requires GivenUp(s) && Enabled(s, a)
    requires s.main == AwaitLocked && s.tableLocked.waiting != [] ==> !s.tableLocked.waiting[0]
    ensures GivenUp(Do(s, a))
  {
    match a
    case Main(ok, id, logged) => MainGivesUp(s, a);
    case Locker(ok) => LockerGivesUp(s, a);
    case Renamer(ok) =>
    case _ => OtherGivesUp(s, a);
  }

  lemma LockerAnswersFirst<E>(s: State<E>, ok: bool)
    requires s.locker == LDefer1
    ensures DoLocker(s, ok) == s.(lockSession := Send(s.lockSession, false), locker := LDefer2)
  {
  }

  lemma LockerAnswersSecond<E>(s: State<E>, ok: bool)
    requires s.locker == LDefer2
    ensures DoLocker(s, ok) == s.(tableLocked := Send(s.tableLocked, false), locker := LDefer3)
  {
  }

  lemma LockerAnswersThird<E>(s: State<E>, ok: bool)
    requires s.locker == LDefer3
    ensures DoLocker(s, ok) == s.(tableUnlocked := Send(s.tableUnlocked, false), locker := LDone)
  {
  }

  lemma {:induction false} NeverLocks<E>(s: State<E>, actions: seq<Action<E>>, t: State<E>)
    requires Inv(s) && GivenUp(s) && Reaches(s, actions, t)
    ensures Inv(t) && GivenUp(t)
    decreases |actions|
  {
    if actions != [] {
      StepInv(s, actions[0]);
      StepGivenUp(s, actions[0]);
      NeverLocks(Do(s, actions[0]), actions[1..], t);
    }
  }

  /** If a statement of the lock session fails, no RENAME is ever issued and the cut-over does not succeed. */
  lemma {:induction false} LockFailureEndsTheAttempt<E>(s: State<E>, actions: seq<Action<E>>, t: State<E>)
    requires Inv(s) && LockStatement(s.locker) && Reaches(DoLocker(s, false), actions, t)
    ensures t.rename == NotIssued && t.originalName == Some(OriginalTable) && t.main != Returned(true)
  {
    StepInv(s, Locker(false));
    LockStatementFails(s);
    NeverLocks(DoLocker(s, false), actions, t);
  }

  /** By the time the lock session has ended, it has sent an answer on each of its three channels. */
  lemma LockerAnswersAll<E>(s: State<E>) returns (actions: seq<Action<E>>, t: State<E>)
    requires s.locker == LDefer1
    ensures Reaches(s, actions, t) && (forall i :: 0 <= i < |actions| ==> actions[i].Locker?)
    ensures t == s.(lockSession := Send(s.lockSession, false), tableLocked := Send(s.tableLocked, false),
                    tableUnlocked := Send(s.tableUnlocked, false), locker := LDone)
  {
    var one := [Action<E>.Locker(true)];
    LockerAnswersFirst(s, true);
    ReachesOne(s, Locker(true));
    var s1 := DoLocker(s, true);
    LockerAnswersSecond(s1, true);
    ReachesOne(s1, Locker(true));
    var s2 := DoLocker(s1, true);
    LockerAnswersThird(s2, true);
    ReachesOne(s2, Locker(true));
    t := DoLocker(s2, true);
    ReachesAppend(s, one, s1, one, s2);
    ReachesAppend(s, one + one, s2, one, t);
    actions := one + one + one;
  }

  /** Unlocking has failed: main has the error still before it, or has failed for this or another reason. */
  predicate UnlockFailed<E>(s: State<E>) {
    && !BeforeUnlocked(s.locker)
    && (|| MainFailed(s.main)
        || (s.tableUnlocked.waiting != [] && !s.tableUnlocked.waiting[0] && s.main != AwaitRenamed && !ReportsSuccess(s.main)))
  }

  lemma StartUnlockFailed<E>(s: State<E>, ok: bool, id: nat, logged: bool)
    requires UnlockFailed(s) && MainEnabled(s, ok, id, logged) && (s.main.AwaitLocked? || s.main.AwaitLockSession?)
    ensures UnlockFailed(DoMain(s, ok, id, logged))
  {
  }

  lemma InjectUnlockFailed<E>(s: State<E>, ok: bool, id: nat, logged: bool)
    requires UnlockFailed(s) && MainEnabled(s, ok, id, logged) && (s.main.InjectChallenge?)
    ensures UnlockFailed(DoMain(s, ok, id, logged))
  {
  }

  lemma DrainUnlockFailed<E>(s: State<E>, ok: bool, id: nat, logged: bool)
    requires UnlockFailed(s) && MainEnabled(s, ok, id, logged) && s.main.AwaitChallenge?
    ensures UnlockFailed(DoMain(s, ok, id, logged))
  {
    var t := DoMain(s, ok, id, logged);
    if !ok {
      assert t == s.(main := SignalExit(false));
    } else if s.drain.held.value == s.main.id {
      assert t == s.(drain := t.drain, drained := true, renamer := RBegin, main := AwaitRenameSession);
    } else {
      assert t == s.(drain := t.drain);
    }
  }

  lemma AwaitUnlockFailed<E>(s: State<E>, ok: bool, id: nat, logged: bool)
    requires UnlockFailed(s) && MainEnabled(s, ok, id, logged) && (s.main.AwaitRenameSession? || s.main.AwaitRename?)
    ensures UnlockFailed(DoMain(s, ok, id, logged))
  {
  }

  lemma ReleaseUnlockFailed<E>(s: State<E>, ok: bool, id: nat, logged: bool)
    requires UnlockFailed(s) && MainEnabled(s, ok, id, logged) && (s.main.CheckLock? || s.main.Release?)
    ensures UnlockFailed(DoMain(s, ok, id, logged))
  {
  }

  lemma ReceiveUnlockFailed<E>(s: State<E>, ok: bool, id: nat, logged: bool)
    requires UnlockFailed(s) && MainEnabled(s, ok, id, logged) && (s.main.AwaitUnlocked?)
    ensures UnlockFailed(DoMain(s, ok, id, logged))
  {
  }

  lemma ExitUnlockFailed<E>(s: State<E>, ok: bool, id: nat, logged: bool)
    requires UnlockFailed(s) && MainEnabled(s, ok, id, logged) && (s.main.SignalExit? || s.main.DropSentry?)
    ensures UnlockFailed(DoMain(s, ok, id, logged))
  {
  }

  lemma AnswersUnlockFailed<E>(s: State<E>, ok: bool)
    requires UnlockFailed(s) && LockerEnabled(s, ok) && (s.locker.LDefer1? || s.locker.LDefer2?)
    ensures UnlockFailed(DoLocker(s, ok))
  {
  }

  lemma EndsUnlockFailed<E>(s: State<E>, ok: bool)
    requires UnlockFailed(s) && LockerEnabled(s, ok) && (s.locker.LDefer3?)
    ensures UnlockFailed(DoLocker(s, ok))
  {
  }

  lemma ConnectsUnlockFailed<E>(s: State<E>, ok: bool)
    requires UnlockFailed(s) && RenamerEnabled(s, ok) && (s.renamer.RBegin? || s.renamer.RConnection? || s.renamer.RSetTimeout?)
    ensures UnlockFailed(DoRenamer(s, ok))
  {
  }

  lemma IssuesUnlockFailed<E>(s: State<E>, ok: bool)
    requires UnlockFailed(s) && RenamerEnabled(s, ok) && (s.renamer.RIssue? || s.renamer.RAwait?)
    ensures UnlockFailed(DoRenamer(s, ok))
  {
  }

  lemma DefersUnlockFailed<E>(s: State<E>, ok: bool)
    requires UnlockFailed(s) && RenamerEnabled(s, ok) && (s.renamer.RDefer1? || s.renamer.RDefer2?)
    ensures UnlockFailed(DoRenamer(s, ok))
  {
  }

  lemma SignalsUnlockFailed<E>(s: State<E>, ok: bool)
    requires UnlockFailed(s) && RenamerEnabled(s, ok) && (s.renamer.RSetFailed? || s.renamer.RSignal?)
    ensures UnlockFailed(DoRenamer(s, ok))
  {
  }

  lemma MainUnlockFailed<E>(s: State<E>, ok: bool, id: nat, logged: bool)
    requires UnlockFailed(s) && MainEnabled(s, ok, id, logged)
    ensures UnlockFailed(DoMain(s, ok, id, logged))
  {
    match s.main
    case AwaitLocked => StartUnlockFailed(s, ok, id, logged);
    case AwaitLockSession => StartUnlockFailed(s, ok, id, logged);
    case InjectChallenge => InjectUnlockFailed(s, ok, id, logged);
    case AwaitChallenge(_) => DrainUnlockFailed(s, ok, id, logged);
    case AwaitRenameSession => AwaitUnlockFailed(s, ok, id, logged);
    case AwaitRename => AwaitUnlockFailed(s, ok, id, logged);
    case CheckLock => ReleaseUnlockFailed(s, ok, id, logged);
    case Release => ReleaseUnlockFailed(s, ok, id, logged);
    case AwaitUnlocked => ReceiveUnlockFailed(s, ok, id, logged);
    case AwaitRenamed =>
    case SignalExit(_) => ExitUnlockFailed(s, ok, id, logged);
    case DropSentry(_) => ExitUnlockFailed(s, ok, id, logged);
  }

  lemma LockerUnlockFailed<E>(s: State<E>, ok: bool)
    requires UnlockFailed(s) && LockerEnabled(s, ok)
    ensures UnlockFailed(DoLocker(s, ok))
  {
    match s.locker
    case LDefer1 => AnswersUnlockFailed(s, ok);
    case LDefer2 => AnswersUnlockFailed(s, ok);
    case LDefer3 => EndsUnlockFailed(s, ok);
  }

  lemma RenamerUnlockFailed<E>(s: State<E>, ok: bool)
    requires UnlockFailed(s) && RenamerEnabled(s, ok)
    ensures UnlockFailed(DoRenamer(s, ok))
  {
    match s.renamer
    case RBegin => ConnectsUnlockFailed(s, ok);
    case RConnection => ConnectsUnlockFailed(s, ok);
    case RSetTimeout => ConnectsUnlockFailed(s, ok);
    case RIssue => IssuesUnlockFailed(s, ok);
    case RAwait => IssuesUnlockFailed(s, ok);
    case RDefer1(_) => DefersUnlockFailed(s, ok);
    case RDefer2(_) => DefersUnlockFailed(s, ok);
    case RSetFailed => SignalsUnlockFailed(s, ok);
    case RSignal => SignalsUnlockFailed(s, ok);
  }

  lemma StepUnlockFailed<E>(s: State<E>, a: Action<E>)
    requires UnlockFailed(s) && Enabled(s, a)
    ensures UnlockFailed(Do(s, a))
  {
    match a
    case Main(ok, id, logged) => MainUnlockFailed(s, ok, id, logged);
    case Locker(ok) => LockerUnlockFailed(s, ok);
    case Renamer(ok) => RenamerUnlockFailed(s, ok);
    case _ => OtherSteps(s, a);
  }

  lemma {:induction false} StaysUnlockFailed<E>(s: State<E>, actions: seq<Action<E>>, t: State<E>)
    requires UnlockFailed(s) && Reaches(s, actions, t)
    ensures UnlockFailed(t)
    decreases |actions|
  {
    if actions != [] {
      StepUnlockFailed(s, actions[0]);
      StaysUnlockFailed(Do(s, actions[0]), actions[1..], t);
    }
  }

  lemma UnlockingFails<E>(s: State<E>)
    requires s.locker == LUnlock
    ensures DoLocker(s, false) == s.(tableUnlocked := Send(s.tableUnlocked, false), locker := LDefer1)
  {
  }

  /** If the lock session fails to unlock, the cut-over does not succeed. */
  lemma {:induction false} UnlockFailureEndsTheAttempt<E>(s: State<E>, actions: seq<Action<E>>, t: State<E>)
    requires Inv(s) && s.locker == LUnlock && Reaches(DoLocker(s, false), actions, t)
    ensures t.main != Returned(true)
  {
    UnlockingFails(s);
    StaysUnlockFailed(DoLocker(s, false), actions, t);
  }

  // ---- The lock is given up ----

  /** The lock session need not wait for main. */
  predicate NotWaiting<E>(s: State<E>) {
    s.locker == LAwaitOk ==> s.okToUnlock.waiting != []
  }

  /** Giving up on the RENAME, releasing the lock and ending each give the lock session the word at once. */
  lemma MainLetsGo<E>(s: State<E>, ok: bool, id: nat, logged: bool)
    requires MainEnabled(s, ok, id, logged)
    requires (s.main == AwaitRename && !ok) || s.main == Release || s.main.SignalExit?
    ensures NotWaiting(DoMain(s, ok, id, logged))
  {
  }

  predicate Unlocking(locker: LockPc) {
    locker == LAwaitOk || locker == LDropSentry || locker == LUnlock
  }

  function UnlockRank(locker: LockPc): nat {
    match locker
    case LAwaitOk => 3
    case LDropSentry => 2
    case LUnlock => 1
    case _ => 0
  }

  lemma UnlockStep<E>(s: State<E>)
    requires Inv(s) && Unlocking(s.locker) && NotWaiting(s)
    ensures LockerEnabled(s, s.lockAlive)
    ensures
      var t := DoLocker(s, s.lockAlive);
      && UnlockRank(t.locker) < UnlockRank(s.locker) && NotWaiting(t) && t.main == s.main
      && if s.locker == LUnlock then !t.tablesLocked else Unlocking(t.locker)
  {
  }

  /** Then the lock session gives up the table lock by itself, whether it is still alive or not. */
  lemma {:induction false} LockIsReleased<E>(s: State<E>) returns (actions: seq<Action<E>>, t: State<E>)
    requires Inv(s) && Unlocking(s.locker) && NotWaiting(s)
    ensures Reaches(s, actions, t) && (forall i :: 0 <= i < |actions| ==> actions[i].Locker?)
    ensures !t.tablesLocked && t.main == s.main
    decreases UnlockRank(s.locker)
  {
    var a := Locker(s.lockAlive);
    UnlockStep(s);
    StepInv(s, a);
    ReachesOne(s, a);
    if s.locker == LUnlock {
      actions, t := [a], Do(s, a);
    } else {
      var rest;
      rest, t := LockIsReleased(Do(s, a));
      ReachesAppend(s, [a], Do(s, a), rest, t);
      actions := [a] + rest;
    }
  }

  /** The rename session has just failed, at its very beginning or later. */
  predicate JustFailed<E>(s: State<E>) {
    s.renamer == RSetFailed || s.renamer == RDefer1(false)
  }

  lemma FailureGivesTheWord<E>(s: State<E>) returns (actions: seq<Action<E>>, t: State<E>)
    requires JustFailed(s)
    ensures Reaches(s, actions, t) && (forall i :: 0 <= i < |actions| ==> actions[i].Renamer?)
    ensures t.okToUnlock.waiting != [] && t.locker == s.locker && t.main == s.main
  {
    if s.renamer == RSetFailed {
      actions := [Renamer(false), Renamer(false)];
      t := FailureMarked(s);
    } else {
      actions, t := RenameFailureIsAnnounced(s);
    }
  }

  lemma BeginFails<E>(s: State<E>)
    requires s.renamer == RBegin
    ensures JustFailed(DoRenamer(s, false)) && DoRenamer(s, false).locker == s.locker && DoRenamer(s, false).main == s.main
  {
  }

  lemma StatementJustFails<E>(s: State<E>)
    requires RenameStatement(s.renamer)
    ensures JustFailed(DoRenamer(s, false)) && DoRenamer(s, false).locker == s.locker && DoRenamer(s, false).main == s.main
  {
    if s.renamer.RConnection? || s.renamer.RSetTimeout? {
      ConnectionFails(s);
    } else {
      IssuingFails(s);
    }
  }

  lemma FailsAtOnce<E>(s: State<E>)
    requires s.renamer == RBegin || RenameStatement(s.renamer)
    ensures Enabled(s, Renamer(false))
    ensures var t := Do(s, Renamer(false)); JustFailed(t) && t.locker == s.locker && t.main == s.main
  {
    if s.renamer == RBegin {
      BeginFails(s);
    } else {
      StatementJustFails(s);
    }
  }

  lemma SessionsRelease<E>(s: State<E>) returns (actions: seq<Action<E>>, t: State<E>)
    requires Inv(s) && Unlocking(s.locker) && JustFailed(s)
    ensures Reaches(s, actions, t) && (forall i :: 0 <= i < |actions| ==> actions[i].Renamer? || actions[i].Locker?)
    ensures !t.tablesLocked && t.main == s.main
  {
    var announcing, told := FailureGivesTheWord(s);
    ReachesInv(s, announcing, told);
    var releasing;
    releasing, t := LockIsReleased(told);
    ReachesAppend(s, announcing, told, releasing, t);
    actions := announcing + releasing;
  }

  /**
   When the rename session fails, wherever it does, the two sessions give up the table lock by themselves, even if main
   stays blocked for ever.
   */
  lemma RenameFailureReleasesTheLock<E>(s: State<E>) returns (actions: seq<Action<E>>, t: State<E>)
    requires Inv(s) && Unlocking(s.locker) && (s.renamer == RBegin || RenameStatement(s.renamer))
    ensures actions != [] && actions[0] == Renamer(false) && Reaches(s, actions, t)
    ensures forall i :: 0 <= i < |actions| ==> actions[i].Renamer? || actions[i].Locker?
    ensures !t.tablesLocked && t.main == s.main
  {
    FailsAtOnce(s);
    StepInv(s, Renamer(false));
    ReachesOne(s, Renamer(false));
    var rest;
    rest, t := SessionsRelease(Do(s, Renamer(false)));
    ReachesAppend(s, [Renamer(false)], Do(s, Renamer(false)), rest, t);
    actions := [Renamer(false)] + rest;
  }
}
