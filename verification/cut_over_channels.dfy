/**
 The channels of the atomic cut-over. Go's channels block: a sender when the buffer is full, a receiver when it
 is empty. No sender ever blocks, because no channel is sent more messages than it has room for; and main is
 never left waiting, with one exception, a rename session whose transaction cannot begin.
 */
module CutOverChannels {
  import opened CutOver
  import opened CutOverInvariant
  import D = Drain

  const OkToUnlockCapacity := 4
  const ErrorCapacity := 2

  /** Upper bounds on the messages sent so far, by the program counter of the sender. */
  function MayHaveSentTableLocked(locker: LockPc): nat {
    match locker
    case LDefer3 => 2
    case LDone => 2
    case _ => if Locking(locker) then 0 else 1
  }

  function MayHaveSentLockSession(locker: LockPc): nat {
    match locker
    case LBegin => 0
    case LConnection => 0
    case LDefer2 => 2
    case LDefer3 => 2
    case LDone => 2
    case _ => 1
  }

  function MayHaveSentTableUnlocked(locker: LockPc): nat {
    match locker
    case LDefer1 => 1
    case LDefer2 => 1
    case LDefer3 => 1
    case LDone => 2
    case _ => 0
  }

  function MayHaveSentRenameSession(renamer: RenamePc): nat {
    match renamer
    case RIdle => 0
    case RBegin => 0
    case RConnection => 0
    case RSetTimeout => 1
    case RIssue => 1
    case RAwait => 1
    case RDefer1(_) => 1
    case _ => 2
  }

  function MayHaveSentTablesRenamed(renamer: RenamePc): nat {
    match renamer
    case RDefer1(_) => 1
    case RDefer2(_) => 1
    case RSetFailed => 2
    case RSignal => 2
    case RDone => 2
    case _ => 0
  }

  function MayHaveSentOk(main: MainPc, renamer: RenamePc): nat {
    (match main
     case AwaitUnlocked => 1
     case AwaitRenamed => 1
     case SignalExit(_) => 1
     case DropSentry(_) => 2
     case Returned(_) => 2
     case _ => 0)
    + (if renamer == RDone then 1 else 0)
  }

  predicate BoundOk(c: Channel, bound: nat) {
    |c.waiting| <= c.sent <= bound
  }

  ghost predicate BoundsOk<E>(s: State<E>) {
    && BoundOk(s.tableLocked, MayHaveSentTableLocked(s.locker))
    && BoundOk(s.lockSession, MayHaveSentLockSession(s.locker))
    && BoundOk(s.tableUnlocked, MayHaveSentTableUnlocked(s.locker))
    && BoundOk(s.renameSession, MayHaveSentRenameSession(s.renamer))
    && BoundOk(s.tablesRenamed, MayHaveSentTablesRenamed(s.renamer))
    && BoundOk(s.okToUnlock, MayHaveSentOk(s.main, s.renamer))
  }

  /** Main's program counters from the start of the rename session to the last receive. */
  predicate Renaming(main: MainPc) {
    main.AwaitRenameSession? || main.AwaitRename? || main.CheckLock? || main.Release? || main.AwaitUnlocked?
    || main.AwaitRenamed?
  }

  /** The lock session holds the lock, or is about to give it up. */
  predicate Holding(locker: LockPc) {
    locker.LAwaitOk? || locker.LDropSentry? || locker.LUnlock?
  }

  predicate Connected(locker: LockPc) {
    Holding(locker) || (Locking(locker) && !locker.LBegin? && !locker.LConnection?)
  }

  predicate Reporting(renamer: RenamePc) {
    renamer.RSetFailed? || renamer.RSignal? || renamer.RDone?
  }

  /** What main is waiting for, or will wait for, has been sent or is still to come. */
  ghost predicate AnswersOk<E>(s: State<E>) {
    && (s.main == AwaitLocked && Connected(s.locker) ==> s.lockSession.waiting != [])
    && (s.main == AwaitLockSession ==> s.lockSession.waiting != [])
    && (Renaming(s.main) && s.main != AwaitRenamed ==> Holding(s.locker) || s.tableUnlocked.waiting != [])
    && (s.main == AwaitUnlocked ==> s.okToUnlock.sent > 0)
    && (Renaming(s.main) ==> s.renamer != RIdle)
    && (Renaming(s.main) && Reporting(s.renamer) ==> s.renameBeginFailed || s.tablesRenamed.waiting != [])
    && (s.main == AwaitRenameSession && !s.renamer.RBegin? && !s.renamer.RConnection? && !s.renamer.RDefer1? ==>
          s.renameBeginFailed || s.renameSession.waiting != [])
    && (s.renamer.RBegin? || s.renamer.RConnection? ==> s.main == AwaitRenameSession)
    && (s.renameBeginFailed ==> s.main == AwaitRenameSession && s.renameSession.sent == 0 && Reporting(s.renamer))
  }

  ghost predicate ChannelsOk<E>(s: State<E>) {
    OrderOk(s) && BoundsOk(s) && AnswersOk(s)
  }

  function LockerSteps(locker: LockPc): nat {
    match locker
    case LBegin => 14
    case LConnection => 13
    case LGetLock => 12
    case LSetTimeout => 11
    case LDropStale => 10
    case LCreateSentry => 9
    case LLockTables => 8
    case LReportLocked => 7
    case LAwaitOk => 6
    case LDropSentry => 5
    case LUnlock => 4
    case LDefer1 => 3
    case LDefer2 => 2
    case LDefer3 => 1
    case LDone => 0
  }

  function RenamerSteps(renamer: RenamePc): nat {
    match renamer
    case RIdle => 9
    case RBegin => 9
    case RConnection => 8
    case RSetTimeout => 7
    case RIssue => 6
    case RAwait => 5
    case RDefer1(_) => 4
    case RDefer2(_) => 3
    case RSetFailed => 2
    case RSignal => 1
    case RDone => 0
  }

  /** How many steps the lock session and the rename session can still take. */
  function StepsLeft<E>(s: State<E>): nat {
    LockerSteps(s.locker) + RenamerSteps(s.renamer)
  }

  ghost predicate LockerSpent<E>(s: State<E>, t: State<E>) {
    && LockerSteps(t.locker) < LockerSteps(s.locker)
    && t.renamer == s.renamer && t.main == s.main && t.renameBeginFailed == s.renameBeginFailed
  }

  ghost predicate RenamerSpent<E>(s: State<E>, t: State<E>) {
    && RenamerSteps(t.renamer) < RenamerSteps(s.renamer)
    && t.locker == s.locker && t.main == s.main && (s.renameBeginFailed ==> t.renameBeginFailed)
  }

  ghost predicate NothingSpent<E>(s: State<E>, t: State<E>) {
    StepsLeft(t) == StepsLeft(s) && t.renameBeginFailed == s.renameBeginFailed
  }

  lemma LockerConnects<E>(s: State<E>, ok: bool)
    requires ChannelsOk(s) && LockerEnabled(s, ok)
    requires s.locker.LBegin? || s.locker.LConnection?
    ensures BoundsOk(DoLocker(s, ok)) && AnswersOk(DoLocker(s, ok))
    ensures LockerSpent(s, DoLocker(s, ok))
  {
  }

  lemma LockerTakesLock<E>(s: State<E>, ok: bool)
    requires ChannelsOk(s) && LockerEnabled(s, ok)
    requires s.locker.LGetLock? || s.locker.LSetTimeout? || s.locker.LDropStale? || s.locker.LCreateSentry? || s.locker.LLockTables?
    ensures BoundsOk(DoLocker(s, ok)) && AnswersOk(DoLocker(s, ok))
    ensures LockerSpent(s, DoLocker(s, ok))
  {
  }

  lemma LockerHolds<E>(s: State<E>, ok: bool)
    requires ChannelsOk(s) && LockerEnabled(s, ok)
    requires s.locker.LReportLocked? || s.locker.LAwaitOk? || s.locker.LDropSentry?
    ensures BoundsOk(DoLocker(s, ok)) && AnswersOk(DoLocker(s, ok))
    ensures LockerSpent(s, DoLocker(s, ok))
  {
  }

  lemma LockerUnlocks<E>(s: State<E>, ok: bool)
    requires ChannelsOk(s) && LockerEnabled(s, ok)
    requires s.locker.LUnlock?
    ensures BoundsOk(DoLocker(s, ok)) && AnswersOk(DoLocker(s, ok))
    ensures LockerSpent(s, DoLocker(s, ok))
  {
    var t := DoLocker(s, ok);
    assert t == s.(tablesLocked := t.tablesLocked, tableUnlocked := Send(s.tableUnlocked, ok), locker := LDefer1);
  }

  lemma LockerDefers<E>(s: State<E>, ok: bool)
    requires ChannelsOk(s) && LockerEnabled(s, ok)
    requires s.locker.LDefer1? || s.locker.LDefer2? || s.locker.LDefer3?
    ensures BoundsOk(DoLocker(s, ok)) && AnswersOk(DoLocker(s, ok))
    ensures LockerSpent(s, DoLocker(s, ok))
  {
  }

  lemma LockerKeepsChannels<E>(s: State<E>, ok: bool)
    requires ChannelsOk(s) && LockerEnabled(s, ok)
    ensures BoundsOk(DoLocker(s, ok)) && AnswersOk(DoLocker(s, ok))
    ensures LockerSpent(s, DoLocker(s, ok))
  {
    match s.locker {
      case LBegin => LockerConnects(s, ok);
      case LConnection => LockerConnects(s, ok);
      case LGetLock => LockerTakesLock(s, ok);
      case LSetTimeout => LockerTakesLock(s, ok);
      case LDropStale => LockerTakesLock(s, ok);
      case LCreateSentry => LockerTakesLock(s, ok);
      case LLockTables => LockerTakesLock(s, ok);
      case LReportLocked => LockerHolds(s, ok);
      case LAwaitOk => LockerHolds(s, ok);
      case LDropSentry => LockerHolds(s, ok);
      case LUnlock => LockerUnlocks(s, ok);
      case LDefer1 => LockerDefers(s, ok);
      case LDefer2 => LockerDefers(s, ok);
      case LDefer3 => LockerDefers(s, ok);
    }
  }

  lemma RenamerConnects<E>(s: State<E>, ok: bool)
    requires ChannelsOk(s) && RenamerEnabled(s, ok)
    requires s.renamer.RBegin? || s.renamer.RConnection?
    ensures BoundsOk(DoRenamer(s, ok)) && AnswersOk(DoRenamer(s, ok))
    ensures RenamerSpent(s, DoRenamer(s, ok))
  {
  }

  lemma RenamerRenames<E>(s: State<E>, ok: bool)
    requires ChannelsOk(s) && RenamerEnabled(s, ok)
    requires s.renamer.RSetTimeout? || s.renamer.RIssue? || s.renamer.RAwait?
    ensures BoundsOk(DoRenamer(s, ok)) && AnswersOk(DoRenamer(s, ok))
    ensures RenamerSpent(s, DoRenamer(s, ok))
  {
  }

  lemma RenamerDefers<E>(s: State<E>, ok: bool)
    requires ChannelsOk(s) && RenamerEnabled(s, ok)
    requires s.renamer.RDefer1? || s.renamer.RDefer2?
    ensures BoundsOk(DoRenamer(s, ok)) && AnswersOk(DoRenamer(s, ok))
    ensures RenamerSpent(s, DoRenamer(s, ok))
  {
  }

  lemma RenamerSignals<E>(s: State<E>, ok: bool)
    requires ChannelsOk(s) && RenamerEnabled(s, ok)
    requires s.renamer.RSetFailed? || s.renamer.RSignal?
    ensures BoundsOk(DoRenamer(s, ok)) && AnswersOk(DoRenamer(s, ok))
    ensures RenamerSpent(s, DoRenamer(s, ok))
  {
  }

  lemma RenamerKeepsChannels<E>(s: State<E>, ok: bool)
    requires ChannelsOk(s) && RenamerEnabled(s, ok)
    ensures BoundsOk(DoRenamer(s, ok)) && AnswersOk(DoRenamer(s, ok))
    ensures RenamerSpent(s, DoRenamer(s, ok))
  {
    match s.renamer {
      case RBegin => RenamerConnects(s, ok);
      case RConnection => RenamerConnects(s, ok);
      case RSetTimeout => RenamerRenames(s, ok);
      case RIssue => RenamerRenames(s, ok);
      case RAwait => RenamerRenames(s, ok);
      case RDefer1(_) => RenamerDefers(s, ok);
      case RDefer2(_) => RenamerDefers(s, ok);
      case RSetFailed => RenamerSignals(s, ok);
      case RSignal => RenamerSignals(s, ok);
    }
  }

  lemma MainAwaitsLock<E>(s: State<E>, ok: bool, id: nat, logged: bool)
    requires ChannelsOk(s) && MainEnabled(s, ok, id, logged)
    requires s.main.AwaitLocked? || s.main.AwaitLockSession?
    ensures BoundsOk(DoMain(s, ok, id, logged)) && AnswersOk(DoMain(s, ok, id, logged))
    ensures NothingSpent(s, DoMain(s, ok, id, logged))
  {
  }

  lemma MainInjects<E>(s: State<E>, ok: bool, id: nat, logged: bool)
    requires ChannelsOk(s) && MainEnabled(s, ok, id, logged)
    requires s.main.InjectChallenge?
    ensures BoundsOk(DoMain(s, ok, id, logged)) && AnswersOk(DoMain(s, ok, id, logged))
    ensures NothingSpent(s, DoMain(s, ok, id, logged))
  {
    var t := DoMain(s, ok, id, logged);
    assert t == s.(drain := t.drain, mark := t.mark, main := t.main);
    assert t.main == SignalExit(false) || t.main.AwaitChallenge?;
  }

  lemma MainTimesOut<E>(s: State<E>, id: nat, logged: bool)
    requires ChannelsOk(s) && MainEnabled(s, false, id, logged) && s.main.AwaitChallenge?
    ensures BoundsOk(DoMain(s, false, id, logged)) && AnswersOk(DoMain(s, false, id, logged))
    ensures NothingSpent(s, DoMain(s, false, id, logged))
  {
    assert DoMain(s, false, id, logged) == s.(main := SignalExit(false));
  }

  lemma MainSkipsChallenge<E>(s: State<E>, id: nat, logged: bool)
    requires ChannelsOk(s) && MainEnabled(s, true, id, logged) && s.main.AwaitChallenge?
    requires s.drain.held.value != s.main.id
    ensures BoundsOk(DoMain(s, true, id, logged)) && AnswersOk(DoMain(s, true, id, logged))
    ensures NothingSpent(s, DoMain(s, true, id, logged))
  {
    var t := DoMain(s, true, id, logged);
    assert t == s.(drain := t.drain);
  }

  lemma MainIsDrained<E>(s: State<E>, id: nat, logged: bool)
    requires ChannelsOk(s) && MainEnabled(s, true, id, logged) && s.main.AwaitChallenge?
    requires s.drain.held.value == s.main.id
    ensures BoundsOk(DoMain(s, true, id, logged)) && AnswersOk(DoMain(s, true, id, logged))
    ensures NothingSpent(s, DoMain(s, true, id, logged))
  {
    var t := DoMain(s, true, id, logged);
    assert t == s.(drain := t.drain, drained := true, main := AwaitRenameSession, renamer := RBegin);
    assert s.renamer == RIdle && s.locker == LAwaitOk;
  }

  lemma MainDrains<E>(s: State<E>, ok: bool, id: nat, logged: bool)
    requires ChannelsOk(s) && MainEnabled(s, ok, id, logged) && s.main.AwaitChallenge?
    ensures BoundsOk(DoMain(s, ok, id, logged)) && AnswersOk(DoMain(s, ok, id, logged))
    ensures NothingSpent(s, DoMain(s, ok, id, logged))
  {
    if !ok {
      MainTimesOut(s, id, logged);
    } else if s.drain.held.value != s.main.id {
      MainSkipsChallenge(s, id, logged);
    } else {
      MainIsDrained(s, id, logged);
    }
  }

  lemma MainAwaitsRename<E>(s: State<E>, ok: bool, id: nat, logged: bool)
    requires ChannelsOk(s) && MainEnabled(s, ok, id, logged)
    requires s.main.AwaitRenameSession? || s.main.AwaitRename?
    ensures BoundsOk(DoMain(s, ok, id, logged)) && AnswersOk(DoMain(s, ok, id, logged))
    ensures NothingSpent(s, DoMain(s, ok, id, logged))
  {
  }

  lemma MainReleases<E>(s: State<E>, ok: bool, id: nat, logged: bool)
    requires ChannelsOk(s) && MainEnabled(s, ok, id, logged)
    requires s.main.CheckLock? || s.main.Release?
    ensures BoundsOk(DoMain(s, ok, id, logged)) && AnswersOk(DoMain(s, ok, id, logged))
    ensures NothingSpent(s, DoMain(s, ok, id, logged))
  {
  }

  lemma MainAwaitsOutcome<E>(s: State<E>, ok: bool, id: nat, logged: bool)
    requires ChannelsOk(s) && MainEnabled(s, ok, id, logged)
    requires s.main.AwaitUnlocked? || s.main.AwaitRenamed?
    ensures BoundsOk(DoMain(s, ok, id, logged)) && AnswersOk(DoMain(s, ok, id, logged))
    ensures NothingSpent(s, DoMain(s, ok, id, logged))
  {
  }

  lemma MainExits<E>(s: State<E>, ok: bool, id: nat, logged: bool)
    requires ChannelsOk(s) && MainEnabled(s, ok, id, logged)
    requires s.main.SignalExit? || s.main.DropSentry?
    ensures BoundsOk(DoMain(s, ok, id, logged)) && AnswersOk(DoMain(s, ok, id, logged))
    ensures NothingSpent(s, DoMain(s, ok, id, logged))
  {
  }

  lemma MainKeepsChannels<E>(s: State<E>, ok: bool, id: nat, logged: bool)
    requires ChannelsOk(s) && MainEnabled(s, ok, id, logged)
    ensures BoundsOk(DoMain(s, ok, id, logged)) && AnswersOk(DoMain(s, ok, id, logged))
    ensures NothingSpent(s, DoMain(s, ok, id, logged))
  {
    match s.main {
      case AwaitLocked => MainAwaitsLock(s, ok, id, logged);
      case AwaitLockSession => MainAwaitsLock(s, ok, id, logged);
      case InjectChallenge => MainInjects(s, ok, id, logged);
      case AwaitChallenge(_) => MainDrains(s, ok, id, logged);
      case AwaitRenameSession => MainAwaitsRename(s, ok, id, logged);
      case AwaitRename => MainAwaitsRename(s, ok, id, logged);
      case CheckLock => MainReleases(s, ok, id, logged);
      case Release => MainReleases(s, ok, id, logged);
      case AwaitUnlocked => MainAwaitsOutcome(s, ok, id, logged);
      case AwaitRenamed => MainAwaitsOutcome(s, ok, id, logged);
      case SignalExit(_) => MainExits(s, ok, id, logged);
      case DropSentry(_) => MainExits(s, ok, id, logged);
    }
  }

  /** No goroutine of the cut-over has moved, and no channel has been used. */
  ghost predicate StandStill<E>(s: State<E>, t: State<E>) {
    && t.main == s.main && t.locker == s.locker && t.renamer == s.renamer && t.renameBeginFailed == s.renameBeginFailed
    && t.tableLocked == s.tableLocked && t.lockSession == s.lockSession && t.tableUnlocked == s.tableUnlocked
    && t.renameSession == s.renameSession && t.tablesRenamed == s.tablesRenamed && t.okToUnlock == s.okToUnlock
  }

  lemma ServerStandsStill<E>(s: State<E>, a: Action<E>)
    requires Enabled(s, a) && (a.LockSessionDies? || a.RenameDies? || a.ResolveRename?)
    ensures StandStill(s, Do(s, a))
  {
    if a.ResolveRename? {
      var t := Do(s, a);
      assert t == s.(rename := t.rename, oldName := t.oldName, originalName := t.originalName, ghostName := t.ghostName);
    }
  }

  lemma BacklogStandsStill<E>(s: State<E>, a: Action<E>)
    requires Enabled(s, a) && (a.AppWrite? || a.Apply?)
    ensures StandStill(s, Do(s, a))
  {
    var t := Do(s, a);
    assert t == s.(drain := t.drain);
  }

  lemma StandStillKeepsChannels<E>(s: State<E>, t: State<E>)
    requires BoundsOk(s) && AnswersOk(s) && StandStill(s, t)
    ensures BoundsOk(t) && AnswersOk(t) && NothingSpent(s, t)
  {
  }

  lemma OthersKeepChannels<E>(s: State<E>, a: Action<E>)
    requires ChannelsOk(s) && Enabled(s, a) && !a.Main? && !a.Locker? && !a.Renamer?
    ensures BoundsOk(Do(s, a)) && AnswersOk(Do(s, a))
    ensures NothingSpent(s, Do(s, a))
  {
    if a.AppWrite? || a.Apply? {
      BacklogStandsStill(s, a);
    } else {
      ServerStandsStill(s, a);
    }
    StandStillKeepsChannels(s, Do(s, a));
  }

  lemma {:induction false} ReachesChannelsOk<E>(s: State<E>, actions: seq<Action<E>>, t: State<E>)
    requires Inv(s) && ChannelsOk(s) && Reaches(s, actions, t)
    ensures ChannelsOk(t)
    decreases |actions|
  {
    if actions != [] {
      var u := Do(s, actions[0]);
      StepInv(s, actions[0]);
      StepKeepsChannels(s, actions[0]);
      ReachesChannelsOk(u, actions[1..], t);
    }
  }

  lemma StepKeepsChannels<E>(s: State<E>, a: Action<E>)
    requires ChannelsOk(s) && Enabled(s, a)
    ensures BoundsOk(Do(s, a)) && AnswersOk(Do(s, a))
  {
    match a
    case Main(ok, id, logged) => MainKeepsChannels(s, ok, id, logged);
    case Locker(ok) => LockerKeepsChannels(s, ok);
    case Renamer(ok) => RenamerKeepsChannels(s, ok);
    case _ => OthersKeepChannels(s, a);
  }

  // ---- Main results ----

  /** No channel ever holds more than it has room for. */
  ghost predicate Fits<E>(s: State<E>) {
    && s.okToUnlock.sent < OkToUnlockCapacity && |s.okToUnlock.waiting| <= s.okToUnlock.sent
    && BoundOk(s.tableLocked, ErrorCapacity) && BoundOk(s.lockSession, ErrorCapacity)
    && BoundOk(s.tableUnlocked, ErrorCapacity)
    && BoundOk(s.renameSession, ErrorCapacity) && BoundOk(s.tablesRenamed, ErrorCapacity)
  }

  lemma {:induction false} ReachableChannelsOk<E>(start: State<E>, actions: seq<Action<E>>, s: State<E>)
    requires Init(start) && Reaches(start, actions, s)
    ensures Inv(s) && ChannelsOk(s)
  {
    InitInv(start);
    ReachesInv(start, actions, s);
    ReachesChannelsOk(start, actions, s);
  }

  /**
   No sender ever blocks: over a whole run, on all error paths, at most three messages are sent on the channel
   with room for four, and at most two on each of the others.
   */
  lemma {:induction false} SendersNeverBlock<E>(start: State<E>, actions: seq<Action<E>>, s: State<E>)
    requires Init(start) && Reaches(start, actions, s)
    ensures Fits(s)
  {
    ReachableChannelsOk(start, actions, s);
    BoundsFit(s);
  }

  lemma BoundsFit<E>(s: State<E>)
    requires BoundsOk(s)
    ensures Fits(s)
  {
  }

  /** Main is blocked in a receive on an empty channel. */
  ghost predicate Blocked<E>(s: State<E>) {
    || (s.main == AwaitLocked && s.tableLocked.waiting == [])
    || (s.main == AwaitLockSession && s.lockSession.waiting == [])
    || (s.main == AwaitRenameSession && s.renameSession.waiting == [])
    || (s.main == AwaitUnlocked && s.tableUnlocked.waiting == [])
    || (s.main == AwaitRenamed && s.tablesRenamed.waiting == [])
  }

  /**
   The step of the goroutine that main waits for, at its worst: every statement fails or times out, except that
   the transaction of the rename session begins.
   */
  function Answer<E>(s: State<E>): Action<E> {
    if s.main == AwaitRenameSession || s.main == AwaitRenamed then Renamer(s.renamer.RBegin?) else Locker(false)
  }

  function SessionSteps<E>(actions: seq<Action<E>>): nat {
    if actions == [] then 0
    else (if actions[0].Locker? || actions[0].Renamer? then 1 else 0) + SessionSteps(actions[1..])
  }

  lemma SessionStepIsSpent<E>(s: State<E>, a: Action<E>)
    requires ChannelsOk(s) && Enabled(s, a)
    ensures SessionSteps([a]) + StepsLeft(Do(s, a)) <= StepsLeft(s)
    ensures s.renameBeginFailed ==> Do(s, a).renameBeginFailed
  {
    assert [a][1..] == [];
    match a
    case Main(ok, id, logged) => MainKeepsChannels(s, ok, id, logged);
    case Locker(ok) => LockerKeepsChannels(s, ok);
    case Renamer(ok) => RenamerKeepsChannels(s, ok);
    case _ => OthersKeepChannels(s, a);
  }

  /** What the lemmas about runs keep: the invariants, at the price of the steps that the sessions take. */
  ghost predicate RunOk<E>(s: State<E>) {
    Inv(s) && ChannelsOk(s)
  }

  lemma StepKeepsRunOk<E>(s: State<E>, a: Action<E>)
    requires RunOk(s) && Enabled(s, a)
    ensures RunOk(Do(s, a))
  {
    StepInv(s, a);
    StepKeepsChannels(s, a);
  }

  lemma {:induction false} StepIsSpent<E>(s: State<E>, actions: seq<Action<E>>, rest: nat)
    requires RunOk(s) && actions != [] && Enabled(s, actions[0])
    requires SessionSteps(actions[1..]) + rest <= StepsLeft(Do(s, actions[0]))
    ensures SessionSteps(actions) + rest <= StepsLeft(s)
  {
    SessionStepIsSpent(s, actions[0]);
    assert [actions[0]][1..] == [];
  }

  /** In a run of any length, the two sessions take only so many steps. */
  lemma {:induction false} SessionsFinish<E>(s: State<E>, actions: seq<Action<E>>, t: State<E>)
    requires RunOk(s) && Reaches(s, actions, t)
    ensures SessionSteps(actions) + StepsLeft(t) <= StepsLeft(s)
    decreases |actions|
  {
    if actions != [] {
      StepKeepsRunOk(s, actions[0]);
      SessionsFinish(Do(s, actions[0]), actions[1..], t);
      StepIsSpent(s, actions, StepsLeft(t));
    }
  }

  lemma AnswererIsEnabled<E>(s: State<E>)
    requires ChannelsOk(s) && Blocked(s) && !s.renameBeginFailed
    ensures Enabled(s, Answer(s))
    ensures !Do(s, Answer(s)).renameBeginFailed && Do(s, Answer(s)).main == s.main
    ensures StepsLeft(Do(s, Answer(s))) < StepsLeft(s)
  {
    if s.main == AwaitRenameSession || s.main == AwaitRenamed {
      assert s.renamer != RIdle && s.renamer != RDone;
      RenamerKeepsChannels(s, s.renamer.RBegin?);
    } else {
      assert s.locker != LDone && (s.locker == LAwaitOk ==> s.okToUnlock.waiting != []);
      LockerKeepsChannels(s, false);
    }
  }

  /**
   Main is never left waiting, provided the transaction of the rename session begins: whenever main is blocked,
   the goroutine that has to answer can go on by itself until main is not. As the two sessions take only so many
   steps in any run, main is answered in every run in which a session that can go on does go on.
   */
  lemma {:induction false} BlockedMainIsAnswered<E>(s: State<E>) returns (actions: seq<Action<E>>, t: State<E>)
    requires RunOk(s) && !s.renameBeginFailed
    ensures Reaches(s, actions, t) && !Blocked(t) && t.main == s.main
    ensures SessionSteps(actions) == |actions|
    decreases StepsLeft(s)
  {
    if !Blocked(s) {
      return [], s;
    }
    AnswererIsEnabled(s);
    var next := Do(s, Answer(s));
    StepKeepsRunOk(s, Answer(s));
    var rest;
    rest, t := BlockedMainIsAnswered(next);
    actions := [Answer(s)] + rest;
    AnswersFirst(s, rest, t);
  }

  lemma {:induction false} AnswersFirst<E>(s: State<E>, rest: seq<Action<E>>, t: State<E>)
    requires Enabled(s, Answer(s)) && Reaches(Do(s, Answer(s)), rest, t) && SessionSteps(rest) == |rest|
    ensures Reaches(s, [Answer(s)] + rest, t) && SessionSteps([Answer(s)] + rest) == 1 + |rest|
  {
    assert ([Answer(s)] + rest)[1..] == rest;
  }

  lemma {:induction false} StaysFailed<E>(s: State<E>, actions: seq<Action<E>>, t: State<E>)
    requires RunOk(s) && s.renameBeginFailed && Reaches(s, actions, t)
    ensures t.renameBeginFailed
    decreases |actions|
  {
    if actions != [] {
      StepKeepsRunOk(s, actions[0]);
      SessionStepIsSpent(s, actions[0]);
      StaysFailed(Do(s, actions[0]), actions[1..], t);
    }
  }

  /**
   The exception: once the transaction of the rename session has failed to begin, main waits for the session's
   id forever, whatever happens.
   */
  lemma {:induction false} FailedBeginHangsMain<E>(s: State<E>, actions: seq<Action<E>>, t: State<E>)
    requires RunOk(s) && s.renameBeginFailed && Reaches(s, actions, t)
    ensures t.main == AwaitRenameSession && Blocked(t)
  {
    StaysFailed(s, actions, t);
    ReachesChannelsOk(s, actions, t);
  }
}
