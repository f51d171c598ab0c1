/**
 When a cut-over can succeed. It can from every start, unless a table that is not gh-ost's own has the old name; as
 long as it has, no attempt succeeds.
 */
module CutOverPossible {
  import opened Wrappers
  import opened CutOver
  import opened CutOverInvariant
  import opened CutOverSafety
  import opened CutOverRuns

  /** The lock session has not got past dropping a stale sentry table, and never will. */
  predicate Stuck<E>(s: State<E>) {
    s.oldName == Some(OtherTable) &&
    (s.locker == LBegin || s.locker == LConnection || s.locker == LGetLock || s.locker == LSetTimeout
     || s.locker == LDropStale || s.locker == LDefer1 || s.locker == LDefer2 || s.locker == LDefer3 || s.locker == LDone)
  }

  lemma LockerStaysStuck<E>(s: State<E>, ok: bool)
    requires Stuck(s) && LockerEnabled(s, ok)
    ensures Stuck(DoLocker(s, ok))
  {
    if s.locker == LDropStale {
      assert DoLocker(s, ok) == LockFails(s);
    } else if s.locker == LBegin || s.locker == LConnection {
      ConnectingStaysStuck(s, ok);
    } else if s.locker == LGetLock || s.locker == LSetTimeout {
      PreparingStaysStuck(s, ok);
    } else {
      DeferringStaysStuck(s, ok);
    }
  }

  lemma ConnectingStaysStuck<E>(s: State<E>, ok: bool)
    requires Stuck(s) && LockerEnabled(s, ok) && (s.locker == LBegin || s.locker == LConnection)
    ensures Stuck(DoLocker(s, ok))
  {
  }

  lemma PreparingStaysStuck<E>(s: State<E>, ok: bool)
    requires Stuck(s) && LockerEnabled(s, ok) && (s.locker == LGetLock || s.locker == LSetTimeout)
    ensures Stuck(DoLocker(s, ok))
  {
  }

  lemma DeferringStaysStuck<E>(s: State<E>, ok: bool)
    requires Stuck(s) && LockerEnabled(s, ok) && (s.locker == LDefer1 || s.locker == LDefer2 || s.locker == LDefer3)
    ensures Stuck(DoLocker(s, ok))
  {
  }

  /** Neither the lock session nor the foreign table is touched. */
  predicate LeftAlone<E>(s: State<E>, t: State<E>) {
    t.oldName == s.oldName && t.locker == s.locker
  }

  lemma MainStarts<E>(s: State<E>, ok: bool, id: nat, logged: bool)
    requires MainEnabled(s, ok, id, logged) && (s.main.AwaitLocked? || s.main.AwaitLockSession?)
    requires s.oldName == Some(OtherTable)
    ensures LeftAlone(s, DoMain(s, ok, id, logged))
  {
  }

  lemma MainInjects<E>(s: State<E>, ok: bool, id: nat, logged: bool)
    requires MainEnabled(s, ok, id, logged) && (s.main.InjectChallenge?)
    requires s.oldName == Some(OtherTable)
    ensures LeftAlone(s, DoMain(s, ok, id, logged))
  {
  }

  lemma MainDrains<E>(s: State<E>, ok: bool, id: nat, logged: bool)
    requires MainEnabled(s, ok, id, logged) && s.main.AwaitChallenge?
    ensures LeftAlone(s, DoMain(s, ok, id, logged))
  {
    if !ok {
      assert DoMain(s, false, id, logged) == s.(main := SignalExit(false));
    } else {
      MainReceives(s, id, logged);
    }
  }

  lemma MainReceives<E>(s: State<E>, id: nat, logged: bool)
    requires MainEnabled(s, true, id, logged) && s.main.AwaitChallenge?
    ensures LeftAlone(s, DoMain(s, true, id, logged))
  {
    var t := DoMain(s, true, id, logged);
    if s.drain.held.value == s.main.id {
      assert t == s.(drain := t.drain, drained := true, renamer := RBegin, main := AwaitRenameSession);
    } else {
      assert t == s.(drain := t.drain);
    }
  }

  lemma MainAwaitsRename<E>(s: State<E>, ok: bool, id: nat, logged: bool)
    requires MainEnabled(s, ok, id, logged) && (s.main.AwaitRenameSession? || s.main.AwaitRename?)
    requires s.oldName == Some(OtherTable)
    ensures LeftAlone(s, DoMain(s, ok, id, logged))
  {
  }

  lemma MainReleases<E>(s: State<E>, ok: bool, id: nat, logged: bool)
    requires MainEnabled(s, ok, id, logged) && (s.main.CheckLock? || s.main.Release?)
    requires s.oldName == Some(OtherTable)
    ensures LeftAlone(s, DoMain(s, ok, id, logged))
  {
  }

  lemma MainAwaitsOutcome<E>(s: State<E>, ok: bool, id: nat, logged: bool)
    requires MainEnabled(s, ok, id, logged) && (s.main.AwaitUnlocked? || s.main.AwaitRenamed?)
    requires s.oldName == Some(OtherTable)
    ensures LeftAlone(s, DoMain(s, ok, id, logged))
  {
  }

  lemma MainExits<E>(s: State<E>, ok: bool, id: nat, logged: bool)
    requires MainEnabled(s, ok, id, logged) && (s.main.SignalExit? || s.main.DropSentry?)
    requires s.oldName == Some(OtherTable)
    ensures LeftAlone(s, DoMain(s, ok, id, logged))
  {
  }

  lemma RenamerConnects<E>(s: State<E>, ok: bool)
    requires RenamerEnabled(s, ok) && (s.renamer.RBegin? || s.renamer.RConnection?)
    ensures LeftAlone(s, DoRenamer(s, ok))
  {
  }

  lemma RenamerIssues<E>(s: State<E>, ok: bool)
    requires RenamerEnabled(s, ok) && (s.renamer.RSetTimeout? || s.renamer.RIssue?)
    ensures LeftAlone(s, DoRenamer(s, ok))
  {
  }

  lemma RenamerAnswers<E>(s: State<E>, ok: bool)
    requires RenamerEnabled(s, ok) && (s.renamer.RAwait? || s.renamer.RDefer1?)
    ensures LeftAlone(s, DoRenamer(s, ok))
  {
  }

  lemma RenamerDefers<E>(s: State<E>, ok: bool)
    requires RenamerEnabled(s, ok) && (s.renamer.RDefer2? || s.renamer.RSetFailed? || s.renamer.RSignal?)
    ensures LeftAlone(s, DoRenamer(s, ok))
  {
  }

  lemma MainLeavesAlone<E>(s: State<E>, ok: bool, id: nat, logged: bool)
    requires MainEnabled(s, ok, id, logged) && s.oldName == Some(OtherTable)
    ensures LeftAlone(s, DoMain(s, ok, id, logged))
  {
    match s.main {
      case AwaitLocked => MainStarts(s, ok, id, logged);
      case AwaitLockSession => MainStarts(s, ok, id, logged);
      case InjectChallenge => MainInjects(s, ok, id, logged);
      case AwaitChallenge(_) => MainDrains(s, ok, id, logged);
      case AwaitRenameSession => MainAwaitsRename(s, ok, id, logged);
      case AwaitRename => MainAwaitsRename(s, ok, id, logged);
      case CheckLock => MainReleases(s, ok, id, logged);
      case Release => MainReleases(s, ok, id, logged);
      case AwaitUnlocked => MainAwaitsOutcome(s, ok, id, logged);
      case AwaitRenamed => MainAwaitsOutcome(s, ok, id, logged);
      case SignalExit(_) => MainExits(s, ok, id, logged);
      case DropSentry(_) => MainExits(s, ok, id, logged);
    }
  }

  lemma RenamerLeavesAlone<E>(s: State<E>, ok: bool)
    requires RenamerEnabled(s, ok)
    ensures LeftAlone(s, DoRenamer(s, ok))
  {
    match s.renamer {
      case RBegin => RenamerConnects(s, ok);
      case RConnection => RenamerConnects(s, ok);
      case RSetTimeout => RenamerIssues(s, ok);
      case RIssue => RenamerIssues(s, ok);
      case RAwait => RenamerAnswers(s, ok);
      case RDefer1(_) => RenamerAnswers(s, ok);
      case RDefer2(_) => RenamerDefers(s, ok);
      case RSetFailed => RenamerDefers(s, ok);
      case RSignal => RenamerDefers(s, ok);
    }
  }

  lemma OthersLeaveAlone<E>(s: State<E>, a: Action<E>)
    requires Enabled(s, a) && !a.Main? && !a.Locker? && !a.Renamer? && s.oldName.Some?
    ensures LeftAlone(s, Do(s, a))
  {
  }

  lemma StepStaysStuck<E>(s: State<E>, a: Action<E>)
    requires Stuck(s) && Enabled(s, a)
    ensures Stuck(Do(s, a))
  {
    match a
    case Main(ok, id, logged) => MainLeavesAlone(s, ok, id, logged);
    case Locker(ok) => LockerStaysStuck(s, ok);
    case Renamer(ok) => RenamerLeavesAlone(s, ok);
    case _ => OthersLeaveAlone(s, a);
  }

  lemma {:induction false} StaysStuck<E>(s: State<E>, actions: seq<Action<E>>, t: State<E>)
    requires Stuck(s) && Reaches(s, actions, t)
    ensures Stuck(t)
    decreases |actions|
  {
    if actions != [] {
      StepStaysStuck(s, actions[0]);
      StaysStuck(Do(s, actions[0]), actions[1..], t);
    }
  }

  // ---- Main results ----

  /** A foreign table under the old name stays there, no RENAME commits, and main never reports success. */
  lemma {:induction false} ForeignTableIsKept<E>(start: State<E>, actions: seq<Action<E>>, s: State<E>)
    requires Init(start) && start.oldName == Some(OtherTable) && Reaches(start, actions, s)
    ensures s.oldName == Some(OtherTable) && s.rename != Committed && s.main != Returned(true)
  {
    StaysStuck(start, actions, s);
    InitInv(start);
    ReachesInv(start, actions, s);
  }

  /** The cut-over can end with success, main not giving up early. */
  ghost predicate CanSucceed<E(!new)>(s: State<E>) {
    exists actions: seq<Action<E>>, t: State<E> :: Reaches(s, actions, t) && t.main == Returned(true) && !t.gaveUpEarly
  }

  /**
   Exactly when a cut-over can succeed: whatever the backlog, and whatever earlier attempts have left behind, unless a
   foreign table has the old name.
   */
  lemma CanSucceedExactly<E(!new)>(s: State<E>)
    requires Init(s)
    ensures CanSucceed(s) <==> s.oldName != Some(OtherTable)
  {
    if s.oldName == Some(OtherTable) {
      forall actions: seq<Action<E>>, t: State<E> | Reaches(s, actions, t)
        ensures t.main != Returned(true)
      {
        ForeignTableIsKept(s, actions, t);
      }
    } else {
      var actions, t := CutOverCanSucceed(s);
    }
  }
}
