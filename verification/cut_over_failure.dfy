/**
 What an error of the atomic cut-over means. The design promises that a failed cut-over leaves the original table
 in place. It does so exactly when the RENAME can no longer go through at the moment main fails.
 */
module CutOverFailure {
  import opened Wrappers
  import opened CutOver
  import opened CutOverInvariant
  import opened CutOverSafety
  import opened CutOverRuns
  import D = Drain

  /** Main has failed: it will report an error, or has done so. */
  predicate MainFailed(main: MainPc) {
    (main.SignalExit? || main.DropSentry? || main.Returned?) && !main.success
  }

  /** The lock session is still alive to drop the sentry table, for which main's failure gives the word. */
  predicate LockerCanDrop<E>(s: State<E>) {
    s.lockAlive && (s.locker == LAwaitOk || s.locker == LDropSentry)
  }

  /**
   The RENAME went through, or it waits, or it has yet to be issued, and the sentry table that is in its way is gone
   or can still be dropped. Main itself drops it only before the RENAME is issued.
   */
  predicate CanStillSwap<E(==)>(s: State<E>) {
    || s.rename == Committed
    || (s.rename == Pending && (s.oldName.None? || LockerCanDrop(s)))
    || (Early(s.renamer) && (s.oldName.None? || LockerCanDrop(s) || (s.oldName == Some(SentryTable) && !s.main.Returned?)))
  }

  // ---- If the RENAME cannot go through when main fails, it never does ----

  /** The lock session does not create a sentry table again once main has failed. */
  predicate FailedForGood<E(==)>(s: State<E>) {
    MainFailed(s.main) && !Locking(s.locker) && !CanStillSwap(s)
  }

  lemma MainStaysFailed<E>(s: State<E>, ok: bool, id: nat, logged: bool)
    requires FailedForGood(s) && MainEnabled(s, ok, id, logged)
    ensures FailedForGood(DoMain(s, ok, id, logged))
  {
    if s.main.SignalExit? {
      MainSignals(s, ok, id, logged);
    } else {
      MainDropsSentry(s, ok, id, logged);
    }
  }

  lemma MainSignals<E>(s: State<E>, ok: bool, id: nat, logged: bool)
    requires s.main == SignalExit(false) && MainEnabled(s, ok, id, logged)
    ensures DoMain(s, ok, id, logged) == s.(okToUnlock := Send(s.okToUnlock, true), main := DropSentry(false))
  {
  }

  lemma MainDropsSentry<E>(s: State<E>, ok: bool, id: nat, logged: bool)
    requires s.main == DropSentry(false) && MainEnabled(s, ok, id, logged) && FailedForGood(s)
    ensures FailedForGood(DoMain(s, ok, id, logged))
  {
    var t := DoMain(s, ok, id, logged);
    assert t == s.(oldName := t.oldName, main := Returned(false));
  }

  lemma LockerDoesNotHelp<E>(s: State<E>, ok: bool)
    requires FailedForGood(s) && LockerEnabled(s, ok)
    ensures FailedForGood(DoLocker(s, ok))
  {
    if s.locker == LAwaitOk {
      assert DoLocker(s, ok) == s.(okToUnlock := Receive(s.okToUnlock), locker := LDropSentry);
    } else if s.locker == LDropSentry {
      LockerFailsToDrop(s, ok);
    } else if s.locker == LUnlock {
      LockerUnlocks(s, ok);
    } else {
      LockerDefers(s, ok);
    }
  }

  lemma LockerFailsToDrop<E>(s: State<E>, ok: bool)
    requires FailedForGood(s) && LockerEnabled(s, ok) && s.locker == LDropSentry
    ensures FailedForGood(DoLocker(s, ok))
  {
    var t := DoLocker(s, ok);
    assert t == s.(oldName := t.oldName, locker := LUnlock);
  }

  lemma LockerUnlocks<E>(s: State<E>, ok: bool)
    requires FailedForGood(s) && LockerEnabled(s, ok) && s.locker == LUnlock
    ensures FailedForGood(DoLocker(s, ok))
  {
  }

  lemma LockerDefers<E>(s: State<E>, ok: bool)
    requires FailedForGood(s) && LockerEnabled(s, ok) && (s.locker == LDefer1 || s.locker == LDefer2 || s.locker == LDefer3)
    ensures FailedForGood(DoLocker(s, ok))
  {
  }

  lemma RenamerDoesNotHelp<E>(s: State<E>, ok: bool)
    requires FailedForGood(s) && RenamerEnabled(s, ok)
    ensures FailedForGood(DoRenamer(s, ok))
  {
    match s.renamer {
      case RBegin => RenamerConnects(s, ok);
      case RConnection => RenamerConnects(s, ok);
      case RSetTimeout => RenamerIssues(s, ok);
      case RIssue => RenamerIssues(s, ok);
      case RAwait => RenamerAnswers(s, ok);
      case RDefer1(_) => RenamerAnswers(s, ok);
      case RDefer2(_) => RenamerDefers(s, ok);
      case RSetFailed => RenamerDefers(s, ok);
      case RSignal => RenamerDefers(s, ok);
    }
  }

  lemma RenamerConnects<E>(s: State<E>, ok: bool)
    requires FailedForGood(s) && RenamerEnabled(s, ok) && (s.renamer == RBegin || s.renamer == RConnection)
    ensures FailedForGood(DoRenamer(s, ok))
  {
  }

  lemma RenamerIssues<E>(s: State<E>, ok: bool)
    requires FailedForGood(s) && RenamerEnabled(s, ok) && (s.renamer == RSetTimeout || s.renamer == RIssue)
    ensures FailedForGood(DoRenamer(s, ok))
  {
  }

  lemma RenamerAnswers<E>(s: State<E>, ok: bool)
    requires FailedForGood(s) && RenamerEnabled(s, ok) && (s.renamer == RAwait || s.renamer.RDefer1?)
    ensures FailedForGood(DoRenamer(s, ok))
  {
  }

  lemma RenamerDefers<E>(s: State<E>, ok: bool)
    requires FailedForGood(s) && RenamerEnabled(s, ok)
    requires s.renamer.RDefer2? || s.renamer == RSetFailed || s.renamer == RSignal
    ensures FailedForGood(DoRenamer(s, ok))
  {
  }

  lemma OthersDoNotHelp<E>(s: State<E>, a: Action<E>)
    requires FailedForGood(s) && Enabled(s, a) && !a.Main? && !a.Locker? && !a.Renamer?
    ensures FailedForGood(Do(s, a))
  {
  }

  lemma {:induction false} StaysFailedForGood<E>(s: State<E>, actions: seq<Action<E>>, t: State<E>)
    requires FailedForGood(s) && Reaches(s, actions, t)
    ensures FailedForGood(t)
    decreases |actions|
  {
    if actions != [] {
      match actions[0] {
        case Main(ok, id, logged) => MainStaysFailed(s, ok, id, logged);
        case Locker(ok) => LockerDoesNotHelp(s, ok);
        case Renamer(ok) => RenamerDoesNotHelp(s, ok);
        case _ => OthersDoNotHelp(s, actions[0]);
      }
      StaysFailedForGood(Do(s, actions[0]), actions[1..], t);
    }
  }

  // ---- If it can, some continuation lets it through ----

  /** A state on the way to the swap: `t` was reached from `s`, and nothing has been given away. */
  ghost predicate OnTheWay<E>(s: State<E>, actions: seq<Action<E>>, t: State<E>) {
    Reaches(s, actions, t) && Inv(t) && MainFailed(t.main) && CanStillSwap(t) && t.gaveUpEarly == s.gaveUpEarly
  }

  lemma OnTheWayAppend<E>(s: State<E>, xs: seq<Action<E>>, t: State<E>, ys: seq<Action<E>>, u: State<E>)
    requires OnTheWay(s, xs, t) && OnTheWay(t, ys, u)
    ensures OnTheWay(s, xs + ys, u)
  {
    ReachesAppend(s, xs, t, ys, u);
  }

  lemma OneStep<E>(s: State<E>, a: Action<E>)
    requires Inv(s) && Enabled(s, a)
    requires var t := Do(s, a); MainFailed(t.main) && CanStillSwap(t) && t.gaveUpEarly == s.gaveUpEarly
    ensures OnTheWay(s, [a], Do(s, a))
  {
    StepInv(s, a);
    ReachesOne(s, a);
  }

  lemma NoStep<E>(s: State<E>)
    requires Inv(s) && MainFailed(s.main) && CanStillSwap(s)
    ensures OnTheWay(s, [], s)
  {
  }

  /** Main tells the lock session to go on. */
  lemma Signals<E>(s: State<E>) returns (actions: seq<Action<E>>, t: State<E>)
    requires Inv(s) && MainFailed(s.main) && CanStillSwap(s)
    ensures OnTheWay(s, actions, t) && !t.main.SignalExit?
  {
    if s.main.SignalExit? {
      t := Do(s, Main(true, 0, false));
      assert t == s.(okToUnlock := Send(s.okToUnlock, true), main := DropSentry(false));
      OneStep(s, Main(true, 0, false));
      actions := [Main(true, 0, false)];
    } else {
      NoStep(s);
      actions, t := [], s;
    }
  }

  /** The lock session drops the sentry table. */
  lemma LockerDrops<E>(s: State<E>) returns (actions: seq<Action<E>>, t: State<E>)
    requires Inv(s) && MainFailed(s.main) && !s.main.SignalExit? && CanStillSwap(s) && s.rename != Committed
    requires LockerCanDrop(s)
    ensures OnTheWay(s, actions, t) && t.rename != Committed && t.oldName.None?
    decreases s.locker == LAwaitOk
  {
    var next := Do(s, Locker(true));
    OneStep(s, Locker(true));
    if s.locker == LDropSentry {
      actions, t := [Locker(true)], next;
    } else {
      var rest;
      rest, t := LockerDrops(next);
      OnTheWayAppend(s, [Locker(true)], next, rest, t);
      actions := [Locker(true)] + rest;
    }
  }

  /** The table lock goes with its session. */
  lemma Unlocks<E>(s: State<E>) returns (actions: seq<Action<E>>, t: State<E>)
    requires Inv(s) && MainFailed(s.main) && CanStillSwap(s) && s.rename != Committed
    requires s.oldName.None? || (Early(s.renamer) && s.oldName == Some(SentryTable) && s.main.DropSentry?)
    ensures OnTheWay(s, actions, t) && !t.tablesLocked
    ensures t.rename == s.rename && t.oldName == s.oldName && t.main == s.main && t.renamer == s.renamer
  {
    if s.tablesLocked {
      t := Do(s, LockSessionDies);
      assert t == s.(lockAlive := false, tablesLocked := false, userLock := false);
      OneStep(s, LockSessionDies);
      actions := [LockSessionDies];
    } else {
      NoStep(s);
      actions, t := [], s;
    }
  }

  /** Main drops the sentry table before the RENAME is issued. */
  lemma MainDrops<E>(s: State<E>) returns (actions: seq<Action<E>>, t: State<E>)
    requires Inv(s) && s.main == DropSentry(false) && Early(s.renamer) && s.oldName == Some(SentryTable)
    requires !s.tablesLocked
    ensures OnTheWay(s, actions, t) && t.rename != Committed && t.oldName.None?
  {
    t := Do(s, Main(true, 0, false));
    assert t == s.(oldName := None, main := Returned(false));
    OneStep(s, Main(true, 0, false));
    actions := [Main(true, 0, false)];
  }

  /** One way or the other the sentry table goes. */
  lemma SentryGoes<E>(s: State<E>) returns (actions: seq<Action<E>>, t: State<E>)
    requires Inv(s) && MainFailed(s.main) && !s.main.SignalExit? && CanStillSwap(s) && s.rename != Committed
    ensures OnTheWay(s, actions, t) && t.rename != Committed && t.oldName.None?
  {
    if s.oldName.None? {
      NoStep(s);
      actions, t := [], s;
    } else if LockerCanDrop(s) {
      actions, t := LockerDrops(s);
    } else {
      var xs, u := Unlocks(s);
      var ys;
      ys, t := MainDrops(u);
      OnTheWayAppend(s, xs, u, ys, t);
      actions := xs + ys;
    }
  }

  /** The RENAME is issued, if need be, and commits. */
  lemma Commits<E>(s: State<E>) returns (actions: seq<Action<E>>, t: State<E>)
    requires Inv(s) && MainFailed(s.main) && CanStillSwap(s) && s.rename != Committed
    requires s.oldName.None? && !s.tablesLocked
    ensures OnTheWay(s, actions, t) && t.rename == Committed
  {
    var xs, u := [], s;
    if s.rename != Pending {
      xs, u := IssuesLate(s);
      ReachesInv(s, xs, u);
    }
    t := Do(u, ResolveRename);
    StepInv(u, ResolveRename);
    ReachesOne(u, ResolveRename);
    ReachesAppend(s, xs, u, [ResolveRename], t);
    actions := xs + [ResolveRename];
  }

  /** The tables are swapped although main has failed. */
  lemma SwapsAfterAll<E>(s: State<E>) returns (actions: seq<Action<E>>, t: State<E>)
    requires Inv(s) && MainFailed(s.main) && !s.main.SignalExit? && CanStillSwap(s)
    ensures OnTheWay(s, actions, t) && t.rename == Committed
  {
    if s.rename == Committed {
      NoStep(s);
      return [], s;
    }
    var xs, u := SentryGoes(s);
    var ys, v := Unlocks(u);
    var zs;
    zs, t := Commits(v);
    OnTheWayAppend(s, xs, u, ys, v);
    OnTheWayAppend(s, xs + ys, v, zs, t);
    actions := xs + ys + zs;
  }

  lemma Returns<E>(s: State<E>) returns (actions: seq<Action<E>>, t: State<E>)
    requires Inv(s) && MainFailed(s.main) && s.rename == Committed
    ensures OnTheWay(s, actions, t) && t.rename == Committed && t.main == Returned(false)
    decreases if s.main.SignalExit? then 2 else if s.main.DropSentry? then 1 else 0
  {
    if s.main.Returned? {
      NoStep(s);
      actions, t := [], s;
    } else {
      var next := Do(s, Main(false, 0, false));
      OneStep(s, Main(false, 0, false));
      var rest;
      rest, t := Returns(next);
      OnTheWayAppend(s, [Main(false, 0, false)], next, rest, t);
      actions := [Main(false, 0, false)] + rest;
    }
  }

  lemma FailsSwapped<E>(s: State<E>) returns (actions: seq<Action<E>>, t: State<E>)
    requires Inv(s) && MainFailed(s.main) && CanStillSwap(s)
    ensures Reaches(s, actions, t) && t.main == Returned(false) && t.rename == Committed && t.gaveUpEarly == s.gaveUpEarly
  {
    var xs, u := Signals(s);
    var ys, v := SwapsAfterAll(u);
    var zs;
    zs, t := Returns(v);
    OnTheWayAppend(s, xs, u, ys, v);
    OnTheWayAppend(s, xs + ys, v, zs, t);
    actions := xs + ys + zs;
  }

  // ---- Main results ----

  /** The cut-over can end from here with an error and with the tables swapped. */
  ghost predicate CanEndSwapped<E(!new)>(s: State<E>) {
    exists actions: seq<Action<E>>, t: State<E> :: Reaches(s, actions, t) && t.main == Returned(false) && t.rename == Committed
  }

  /**
   Exactly when an error means that the tables were not swapped: once main has failed, some continuation ends with
   the error and with the tables swapped if and only if the RENAME can still go through.
   */
  lemma ErrorMeansNotSwappedExactly<E(!new)>(s: State<E>)
    requires Inv(s) && MainFailed(s.main)
    ensures CanEndSwapped(s) <==> CanStillSwap(s)
  {
    if CanStillSwap(s) {
      var actions, t := FailsSwapped(s);
    } else {
      forall actions: seq<Action<E>>, t: State<E> | Reaches(s, actions, t)
        ensures t.rename != Committed
      {
        StaysFailedForGood(s, actions, t);
      }
    }
  }

  predicate FailedBeforeRename<E>(s: State<E>) {
    MainFailed(s.main) && !Locking(s.locker) && s.renamer == RIdle && s.rename == NotIssued
  }

  lemma NothingIsIssued<E>(s: State<E>, a: Action<E>)
    requires FailedBeforeRename(s) && Enabled(s, a)
    ensures FailedBeforeRename(Do(s, a))
  {
    match a
    case Main(ok, id, logged) => MainDoesNotIssue(s, ok, id, logged);
    case Locker(ok) => LockerDoesNotIssue(s, ok);
    case _ =>
  }

  lemma MainDoesNotIssue<E>(s: State<E>, ok: bool, id: nat, logged: bool)
    requires FailedBeforeRename(s) && MainEnabled(s, ok, id, logged)
    ensures FailedBeforeRename(DoMain(s, ok, id, logged))
  {
    if s.main.SignalExit? {
      MainSignals(s, ok, id, logged);
    } else {
      var t := DoMain(s, ok, id, logged);
      assert t == s.(oldName := t.oldName, main := Returned(false));
    }
  }

  lemma LockerDoesNotIssue<E>(s: State<E>, ok: bool)
    requires FailedBeforeRename(s) && LockerEnabled(s, ok)
    ensures FailedBeforeRename(DoLocker(s, ok))
  {
    if s.locker == LAwaitOk || s.locker == LDropSentry || s.locker == LUnlock {
      HoldingDoesNotIssue(s, ok);
    } else {
      DeferringDoesNotIssue(s, ok);
    }
  }

  lemma HoldingDoesNotIssue<E>(s: State<E>, ok: bool)
    requires FailedBeforeRename(s) && LockerEnabled(s, ok)
    requires s.locker == LAwaitOk || s.locker == LDropSentry || s.locker == LUnlock
    ensures FailedBeforeRename(DoLocker(s, ok))
  {
  }

  lemma DeferringDoesNotIssue<E>(s: State<E>, ok: bool)
    requires FailedBeforeRename(s) && LockerEnabled(s, ok)
    requires s.locker == LDefer1 || s.locker == LDefer2 || s.locker == LDefer3
    ensures FailedBeforeRename(DoLocker(s, ok))
  {
  }

  /** If main fails before it has started the rename session, no RENAME is ever issued, whatever follows. */
  lemma {:induction false} FailingBeforeTheRename<E>(s: State<E>, actions: seq<Action<E>>, t: State<E>)
    requires Inv(s) && MainFailed(s.main) && s.renamer == RIdle && Reaches(s, actions, t)
    ensures t.rename == NotIssued
    decreases |actions|
  {
    if actions != [] {
      StepInv(s, actions[0]);
      NothingIsIssued(s, actions[0]);
      FailingBeforeTheRename(Do(s, actions[0]), actions[1..], t);
    }
  }

  /**
   If main fails while the RENAME waits behind the lock, because it did not see the RENAME in time or because its
   check of the lock session failed, the error that it returns can hide a swap.
   */
  lemma FailingAfterTheRename<E>(s: State<E>, id: nat, logged: bool) returns (actions: seq<Action<E>>, t: State<E>)
    requires Inv(s) && s.rename == Pending && s.tablesLocked && s.locker == LAwaitOk
    requires s.main == AwaitRename || s.main == CheckLock
    ensures actions != [] && actions[0] == Main(false, id, logged)
    ensures Reaches(s, actions, t) && t.main == Returned(false) && t.rename == Committed && t.gaveUpEarly == s.gaveUpEarly
  {
    var next := Do(s, Main(false, id, logged));
    StepInv(s, Main(false, id, logged));
    ReachesOne(s, Main(false, id, logged));
    var rest;
    rest, t := FailsSwapped(next);
    ReachesAppend(s, [Main(false, id, logged)], next, rest, t);
    actions := [Main(false, id, logged)] + rest;
  }

  /** A run from the start in which the cut-over returns an error and the tables are swapped, safely at that. */
  lemma CutOverCanFailSwapped<E>(s: State<E>) returns (actions: seq<Action<E>>, t: State<E>)
    requires FreshStart(s)
    ensures Reaches(s, actions, t) && t.main == Returned(false) && t.rename == Committed && !t.gaveUpEarly
  {
    var xs, u := DrainsAndConnects(s);
    var v := Do(Do(u, Renamer(true)), Renamer(true));
    ReachesOne(u, Renamer(true));
    ReachesOne(Do(u, Renamer(true)), Renamer(true));
    ReachesAppend(u, [Renamer(true)], Do(u, Renamer(true)), [Renamer(true)], v);
    InitInv(s);
    ReachesAppend(s, xs, u, [Renamer(true)] + [Renamer(true)], v);
    ReachesInv(s, xs + ([Renamer(true)] + [Renamer(true)]), v);
    var zs;
    zs, t := FailingAfterTheRename(v, 0, false);
    ReachesAppend(s, xs + ([Renamer(true)] + [Renamer(true)]), v, zs, t);
    actions := xs + ([Renamer(true)] + [Renamer(true)]) + zs;
  }
}
