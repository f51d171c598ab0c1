/**
 Runs of the atomic cut-over from its start: one that swaps the tables, one in which main gives up while the RENAME
 has not been issued, and one in which the rename session cannot begin. They show that the theorems about the
 cut-over and their exceptions speak of runs that exist.
 */
module CutOverRuns {
  import opened Wrappers
  import opened CutOver
  import opened CutOverInvariant
  import opened CutOverSafety
  import C = CutOverChannels
  import D = Drain
  import Q = ApplyQueue

  /**
   A cut-over can start with any backlog, with challenges of earlier attempts anywhere on the way, and with a sentry
   table that an earlier attempt has left. Only a foreign table under the old name is in its way.
   */
  ghost predicate FreshStart<E>(s: State<E>) {
    Init(s) && s.oldName != Some(OtherTable)
  }

  /** The application does not write, and no batch is applied: the goroutines of the cut-over have it to themselves. */
  ghost predicate Quiet<E>(actions: seq<Action<E>>) {
    forall i :: 0 <= i < |actions| ==> !actions[i].AppWrite? && actions[i] != Apply(D.ApplyBatch)
  }

  /** The application does not write. */
  ghost predicate NoWrites<E>(actions: seq<Action<E>>) {
    forall i :: 0 <= i < |actions| ==> !actions[i].AppWrite?
  }

  lemma Three<E>(s: State<E>, a: Action<E>, b: Action<E>, c: Action<E>) returns (actions: seq<Action<E>>)
    requires Enabled(s, a) && Enabled(Do(s, a), b) && Enabled(Do(Do(s, a), b), c)
    ensures Reaches(s, actions, Do(Do(Do(s, a), b), c)) && actions == [a, b, c]
  {
    var s1 := Do(s, a);
    var s2 := Do(s1, b);
    ReachesOne(s, a);
    ReachesOne(s1, b);
    ReachesOne(s2, c);
    ReachesAppend(s, [a], s1, [b], s2);
    ReachesAppend(s, [a] + [b], s2, [c], Do(s2, c));
    actions := [a] + [b] + [c];
  }

  /** The lock session connects. */
  lemma Connects<E>(s: State<E>) returns (actions: seq<Action<E>>, t: State<E>)
    requires s.locker == LBegin && s.lockSession == Channel([], 0)
    ensures Reaches(s, actions, t) && Quiet(actions)
    ensures t == s.(lockAlive := true, lockSession := Channel([true], 1), userLock := true, locker := LSetTimeout)
  {
    var s1 := Do(s, Locker(true));
    var s2 := Do(s1, Locker(true));
    t := Do(s2, Locker(true));
    actions := Three(s, Locker(true), Locker(true), Locker(true));
  }

  /** It creates the sentry table. */
  lemma CreatesSentry<E>(s: State<E>) returns (actions: seq<Action<E>>, t: State<E>)
    requires s.locker == LSetTimeout && s.lockAlive && (s.oldName == None || s.oldName == Some(SentryTable))
    ensures Reaches(s, actions, t) && Quiet(actions)
    ensures t == s.(oldName := Some(SentryTable), locker := LLockTables)
  {
    var s1 := Do(s, Locker(true));
    var s2 := Do(s1, Locker(true));
    t := Do(s2, Locker(true));
    actions := Three(s, Locker(true), Locker(true), Locker(true));
  }

  /** It locks both tables, and main learns of it. */
  lemma LocksTables<E>(s: State<E>) returns (actions: seq<Action<E>>, t: State<E>)
    requires s.locker == LLockTables && s.lockAlive && s.originalName.Some? && s.oldName.Some?
    requires s.main == AwaitLocked && s.tableLocked == Channel([], 0)
    ensures Reaches(s, actions, t) && Quiet(actions)
    ensures t == s.(tablesLocked := true, tableLocked := Channel([], 1), locker := LAwaitOk, main := AwaitLockSession)
  {
    var s1 := Do(s, Locker(true));
    var s2 := Do(s1, Locker(true));
    t := Do(s2, Main(true, 0, true));
    actions := Three(s, Locker(true), Locker(true), Main(true, 0, true));
  }

  /** A number that no challenge in the log has. */
  function FreshId<E>(log: seq<D.Entry<E>>): nat {
    if log == [] then 0
    else
      var last, id := log[|log| - 1], FreshId(log[..|log| - 1]);
      if last.Challenge? && last.id >= id then last.id + 1 else id
  }

  lemma {:induction false} FreshIdIsFresh<E>(log: seq<D.Entry<E>>, id: nat)
    requires FreshId(log) <= id
    ensures D.Challenge(id) !in log
  {
    if log != [] {
      FreshIdIsFresh(log[..|log| - 1], id);
      assert log == log[..|log| - 1] + [log[|log| - 1]];
    }
  }

  /** Main writes its challenge. */
  lemma Challenges<E>(s: State<E>) returns (actions: seq<Action<E>>, t: State<E>, id: nat)
    requires s.main == AwaitLockSession && s.lockSession == Channel([true], 1)
    ensures Reaches(s, actions, t) && Quiet(actions) && D.Challenge(id) !in s.drain.log
    ensures t == s.(lockSession := Channel([], 1), main := AwaitChallenge(id), mark := Some(Logged(s)),
                    drain := D.Do(s.drain, D.WriteChallenge(id)))
  {
    id := FreshId(s.drain.log);
    FreshIdIsFresh(s.drain.log, id);
    var s1 := Do(s, Main(true, 0, true));
    t := Do(s1, Main(true, id, true));
    ReachesOne(s, Main(true, 0, true));
    ReachesOne(s1, Main(true, id, true));
    ReachesAppend(s, [Main(true, 0, true)], s1, [Main(true, id, true)], t);
    actions := [Main(true, 0, true)] + [Main(true, id, true)];
  }

  // ---- Draining ----

  /** The challenge has been logged, and has yet to be delivered. */
  ghost predicate OnItsWay<E>(d: D.State<E>, id: nat) {
    || (exists i :: d.streamed <= i < |d.log| && d.log[i] == D.Challenge(id))
    || id in d.inFlight
    || (exists i :: 0 <= i < |d.queue| && d.queue[i] == Q.WriteFunc(id))
    || d.held == Some(id)
  }

  /** What to do next to bring it through. Nothing else is enqueued, and what was taken before is applied or delivered. */
  function NextDrain<E>(d: D.State<E>, id: nat): D.Action<E> {
    if d.held.Some? then if d.batch != [] then D.ApplyBatch else D.Deliver
    else if d.queue != [] then D.Take
    else if d.streamed < |d.log| then D.Stream
    else D.Enqueue(id)
  }

  function StepsToDrain<E>(d: D.State<E>, id: nat): int {
    5 * (|d.log| - d.streamed) + 4 * d.inFlight[id] + 3 * |d.queue|
    + (if d.held.Some? then 2 else 0) + (if d.batch != [] then 1 else 0)
  }

  /** No row event is left to apply. */
  ghost predicate NoRows<E>(d: D.State<E>) {
    && d.batch == [] && (forall i :: d.streamed <= i < |d.log| ==> d.log[i].Challenge?)
    && forall i :: 0 <= i < |d.queue| ==> d.queue[i].WriteFunc?
  }

  ghost predicate Drainable<E>(d: D.State<E>, id: nat) {
    d.streamed <= |d.log| && OnItsWay(d, id)
  }

  lemma StreamBrings<E>(d: D.State<E>, id: nat)
    requires Drainable(d, id) && d.held.None? && d.queue == [] && d.streamed < |d.log|
    ensures D.Enabled(d, D.Stream) && Drainable(D.Do(d, D.Stream), id)
    ensures 0 <= StepsToDrain(D.Do(d, D.Stream), id) < StepsToDrain(d, id)
    ensures NoRows(d) ==> NoRows(D.Do(d, D.Stream))
  {
    var e := D.Do(d, D.Stream);
    if id !in e.inFlight {
      var i :| d.streamed <= i < |d.log| && d.log[i] == D.Challenge(id);
      assert i != d.streamed && e.log[i] == D.Challenge(id);
    }
  }

  lemma EnqueueBrings<E>(d: D.State<E>, id: nat)
    requires Drainable(d, id) && d.held.None? && d.queue == [] && d.streamed == |d.log|
    ensures D.Enabled(d, D.Enqueue(id)) && Drainable(D.Do(d, D.Enqueue(id)), id)
    ensures 0 <= StepsToDrain(D.Do(d, D.Enqueue(id)), id) < StepsToDrain(d, id)
    ensures NoRows(d) ==> NoRows(D.Do(d, D.Enqueue(id)))
  {
    var e := D.Do(d, D.Enqueue(id));
    assert e.queue[0] == Q.WriteFunc(id);
  }

  lemma TakeBrings<E>(d: D.State<E>, id: nat)
    requires Drainable(d, id) && d.held.None? && d.queue != []
    ensures D.Enabled(d, D.Take) && Drainable(D.Do(d, D.Take), id)
    ensures 0 <= StepsToDrain(D.Do(d, D.Take), id) < StepsToDrain(d, id)
    ensures NoRows(d) ==> NoRows(D.Do(d, D.Take))
  {
    var e := D.Do(d, D.Take);
    if i :| 0 <= i < |d.queue| && d.queue[i] == Q.WriteFunc(id) {
      assert i > 0 ==> e.queue[i - 1] == Q.WriteFunc(id);
    } else if i :| d.streamed <= i < |d.log| && d.log[i] == D.Challenge(id) {
      assert e.log[i] == D.Challenge(id);
    }
  }

  /** Applying the batch, and delivering a challenge that is not the own one. */
  lemma ConsumeBrings<E>(d: D.State<E>, id: nat)
    requires Drainable(d, id) && d.held.Some? && (d.batch == [] ==> d.held != Some(id))
    ensures var a := NextDrain(d, id);
      && D.Enabled(d, a) && Drainable(D.Do(d, a), id)
      && 0 <= StepsToDrain(D.Do(d, a), id) < StepsToDrain(d, id) && (NoRows(d) ==> NoRows(D.Do(d, a)))
  {
    var e := D.Do(d, NextDrain(d, id));
    if i :| 0 <= i < |d.queue| && d.queue[i] == Q.WriteFunc(id) {
      assert e.queue[i] == Q.WriteFunc(id);
    } else if i :| d.streamed <= i < |d.log| && d.log[i] == D.Challenge(id) {
      assert e.log[i] == D.Challenge(id);
    }
  }

  /** One step towards the delivery of the own challenge. */
  lemma DrainStep<E>(d: D.State<E>, id: nat)
    requires Drainable(d, id) && !(d.held == Some(id) && d.batch == [])
    ensures var a := NextDrain(d, id);
      && D.Enabled(d, a) && Drainable(D.Do(d, a), id)
      && 0 <= StepsToDrain(D.Do(d, a), id) < StepsToDrain(d, id) && (NoRows(d) ==> NoRows(D.Do(d, a)))
  {
    if d.held.Some? {
      ConsumeBrings(d, id);
    } else if d.queue != [] {
      TakeBrings(d, id);
    } else if d.streamed < |d.log| {
      StreamBrings(d, id);
    } else {
      EnqueueBrings(d, id);
    }
  }

  /** The same as a step of the cut-over: main itself receives the challenges, and skips those of earlier attempts. */
  lemma Progresses<E>(s: State<E>, id: nat) returns (a: Action<E>)
    requires s.main == AwaitChallenge(id) && Drainable(s.drain, id) && !(s.drain.held == Some(id) && s.drain.batch == [])
    ensures Enabled(s, a) && Do(s, a) == s.(drain := D.Do(s.drain, NextDrain(s.drain, id)))
    ensures !a.AppWrite? && (NoRows(s.drain) ==> a != Apply(D.ApplyBatch))
  {
    DrainStep(s.drain, id);
    if NextDrain(s.drain, id) == D.Deliver {
      a := Main(true, 0, false);
    } else {
      a := Apply(NextDrain(s.drain, id));
    }
  }

  ghost predicate Undisturbed<E>(actions: seq<Action<E>>, noRows: bool) {
    NoWrites(actions) && (noRows ==> Quiet(actions))
  }

  lemma UndisturbedAppend<E>(a: Action<E>, rest: seq<Action<E>>, noRows: bool)
    requires !a.AppWrite? && (noRows ==> a != Apply(D.ApplyBatch)) && Undisturbed(rest, noRows)
    ensures Undisturbed([a] + rest, noRows)
  {
  }

  lemma {:induction false} OneThen<E>(s: State<E>, a: Action<E>, rest: seq<Action<E>>, t: State<E>)
    requires Enabled(s, a) && Reaches(Do(s, a), rest, t)
    ensures Reaches(s, [a] + rest, t)
  {
    assert ([a] + rest)[1..] == rest;
  }

  /** Whatever is on the way, the own challenge passes through, and main is drained. */
  lemma {:induction false} Drains<E>(s: State<E>, id: nat) returns (actions: seq<Action<E>>, t: State<E>)
    requires s.main == AwaitChallenge(id) && Drainable(s.drain, id)
    ensures Reaches(s, actions, t) && Undisturbed(actions, NoRows(s.drain))
    ensures t == s.(drain := t.drain, drained := true, renamer := RBegin, main := AwaitRenameSession)
    decreases StepsToDrain(s.drain, id)
  {
    if s.drain.held == Some(id) && s.drain.batch == [] {
      t := Do(s, Main(true, 0, true));
      ReachesOne(s, Main(true, 0, true));
      actions := [Main(true, 0, true)];
    } else {
      var a := Progresses(s, id);
      DrainStep(s.drain, id);
      var rest;
      rest, t := Drains(Do(s, a), id);
      OneThen(s, a, rest, t);
      UndisturbedAppend(a, rest, NoRows(s.drain));
      actions := [a] + rest;
    }
  }

  // ---- The rename ----

  /** The rename session connects. */
  lemma RenameConnects<E>(s: State<E>) returns (actions: seq<Action<E>>, t: State<E>)
    requires s.main == AwaitRenameSession && s.renamer == RBegin && s.renameSession == Channel([], 0)
    ensures Reaches(s, actions, t) && Quiet(actions)
    ensures t == s.(renameSession := Channel([], 1), renamer := RSetTimeout, main := AwaitRename)
  {
    var s1 := Do(s, Renamer(true));
    var s2 := Do(s1, Renamer(true));
    t := Do(s2, Main(true, 0, true));
    actions := Three(s, Renamer(true), Renamer(true), Main(true, 0, true));
  }

  /** It issues the RENAME, and main sees it blocked. */
  lemma Issues<E>(s: State<E>) returns (actions: seq<Action<E>>, t: State<E>)
    requires s.main == AwaitRename && s.renamer == RSetTimeout
    ensures Reaches(s, actions, t) && Quiet(actions)
    ensures t == s.(rename := Pending, renamer := RAwait, main := CheckLock)
  {
    var s1 := Do(s, Renamer(true));
    var s2 := Do(s1, Renamer(true));
    t := Do(s2, Main(true, 0, true));
    actions := Three(s, Renamer(true), Renamer(true), Main(true, 0, true));
  }

  /** Main releases the lock session. */
  lemma Releases<E>(s: State<E>) returns (actions: seq<Action<E>>, t: State<E>)
    requires s.main == CheckLock && s.userLock && s.okToUnlock == Channel([], 0) && s.locker == LAwaitOk
    ensures Reaches(s, actions, t) && Quiet(actions)
    ensures t == s.(okToUnlock := Channel([], 1), main := AwaitUnlocked, locker := LDropSentry)
  {
    var s1 := Do(s, Main(true, 0, true));
    var s2 := Do(s1, Main(true, 0, true));
    t := Do(s2, Locker(true));
    actions := Three(s, Main(true, 0, true), Main(true, 0, true), Locker(true));
  }

  /** The sentry and the lock go. */
  lemma Unlocks<E>(s: State<E>) returns (actions: seq<Action<E>>, t: State<E>)
    requires s.locker == LDropSentry && s.lockAlive && s.tableUnlocked == Channel([], 0)
    ensures Reaches(s, actions, t) && Quiet(actions)
    ensures t == s.(oldName := None, tableUnlocked := Channel([true], 1), locker := LDefer1, tablesLocked := false)
  {
    var s1 := Do(s, Locker(true));
    t := Do(s1, Locker(true));
    ReachesOne(s, Locker(true));
    ReachesOne(s1, Locker(true));
    ReachesAppend(s, [Locker(true)], s1, [Locker(true)], t);
    actions := [Locker(true)] + [Locker(true)];
  }

  /** Main learns of both. */
  lemma Learns<E>(s: State<E>) returns (actions: seq<Action<E>>, t: State<E>)
    requires s.main == AwaitUnlocked && s.renamer == RAwait && s.rename == Committed
    requires s.tableUnlocked == Channel([true], 1) && s.tablesRenamed == Channel([], 0)
    ensures Reaches(s, actions, t)
    ensures t == s.(tableUnlocked := Channel([], 1), tablesRenamed := Channel([], 1), renamer := RDefer1(true), main := SignalExit(true))
  {
    var s1 := Do(s, Renamer(true));
    var s2 := Do(s1, Main(true, 0, true));
    t := Do(s2, Main(true, 0, true));
    actions := Three(s, Renamer(true), Main(true, 0, true), Main(true, 0, true));
  }

  /** The lock session has done its part. */
  lemma LocksUp<E>(s: State<E>) returns (actions: seq<Action<E>>, t: State<E>)
    requires s.main == AwaitLocked && s.locker == LBegin && s.originalName.Some?
    requires s.oldName == None || s.oldName == Some(SentryTable)
    requires s.lockSession == s.tableLocked == Channel([], 0)
    ensures Reaches(s, actions, t) && Quiet(actions)
    ensures t == s.(lockAlive := true, lockSession := Channel([true], 1), userLock := true, oldName := Some(SentryTable),
                    tablesLocked := true, tableLocked := Channel([], 1), locker := LAwaitOk, main := AwaitLockSession)
  {
    var a1, s1 := Connects(s);
    var a2, s2 := CreatesSentry(s1);
    var a3;
    a3, t := LocksTables(s2);
    ReachesAppend(s, a1, s1, a2, s2);
    ReachesAppend(s, a1 + a2, s2, a3, t);
    actions := a1 + a2 + a3;
  }

  lemma ChallengeIsOnItsWay<E>(d: D.State<E>, id: nat)
    requires d.streamed <= |d.log| && D.Challenge(id) !in d.log
    ensures Drainable(D.Do(d, D.WriteChallenge(id)), id)
    ensures NoRows(d) ==> NoRows(D.Do(d, D.WriteChallenge(id)))
  {
    var e := D.Do(d, D.WriteChallenge(id));
    assert e.log[|d.log|] == D.Challenge(id);
  }

  /** Main has its challenge answered. */
  lemma ChallengesAndDrains<E>(s: State<E>) returns (actions: seq<Action<E>>, t: State<E>)
    requires s.main == AwaitLockSession && s.lockSession == Channel([true], 1) && s.drain.streamed <= |s.drain.log|
    ensures Reaches(s, actions, t) && Undisturbed(actions, NoRows(s.drain))
    ensures t == s.(lockSession := Channel([], 1), mark := Some(Logged(s)), drain := t.drain, drained := true,
                    renamer := RBegin, main := AwaitRenameSession)
  {
    var a1, s1, id := Challenges(s);
    ChallengeIsOnItsWay(s.drain, id);
    var a2;
    a2, t := Drains(s1, id);
    ReachesAppend(s, a1, s1, a2, t);
    actions := a1 + a2;
  }

  /** The tables are locked, the backlog is drained, and the rename session starts. */
  lemma LocksAndDrains<E>(s: State<E>) returns (actions: seq<Action<E>>, t: State<E>)
    requires FreshStart(s)
    ensures Reaches(s, actions, t) && Undisturbed(actions, NoRows(s.drain))
    ensures t.main == AwaitRenameSession && t.renamer == RBegin && !t.gaveUpEarly && !t.renameBeginFailed
    ensures t.locker == LAwaitOk && t.lockAlive && t.userLock && t.originalName.Some? && t.ghostName.Some?
    ensures t.okToUnlock == t.tableUnlocked == t.tablesRenamed == t.renameSession == Channel([], 0)
  {
    var a1, s1 := LocksUp(s);
    var a2;
    a2, t := ChallengesAndDrains(s1);
    ReachesAppend(s, a1, s1, a2, t);
    actions := a1 + a2;
  }

  /** Main has the id of the rename session, and the RENAME has not been issued. */
  lemma DrainsAndConnects<E>(s: State<E>) returns (actions: seq<Action<E>>, t: State<E>)
    requires FreshStart(s)
    ensures Reaches(s, actions, t) && Undisturbed(actions, NoRows(s.drain))
    ensures t.main == AwaitRename && t.renamer == RSetTimeout && !t.gaveUpEarly
    ensures t.locker == LAwaitOk && t.lockAlive && t.userLock && t.originalName.Some? && t.ghostName.Some?
    ensures t.okToUnlock == t.tableUnlocked == t.tablesRenamed == Channel([], 0)
  {
    var a1, s1 := LocksAndDrains(s);
    var a2;
    a2, t := RenameConnects(s1);
    ReachesAppend(s, a1, s1, a2, t);
    actions := a1 + a2;
  }

  /** The RENAME has been seen waiting, and nothing is in its way any more. */
  lemma MakesWay<E>(s: State<E>) returns (actions: seq<Action<E>>, t: State<E>)
    requires s.main == AwaitRename && s.renamer == RSetTimeout && !s.gaveUpEarly
    requires s.locker == LAwaitOk && s.lockAlive && s.userLock && s.originalName.Some? && s.ghostName.Some?
    requires s.okToUnlock == s.tableUnlocked == s.tablesRenamed == Channel([], 0)
    ensures Reaches(s, actions, t) && Quiet(actions) && Enabled(t, ResolveRename) && CanSwap(t) && !t.gaveUpEarly
    ensures t.main == AwaitUnlocked && t.renamer == RAwait
    ensures t.tableUnlocked == Channel([true], 1) && t.tablesRenamed == Channel([], 0)
  {
    var a1, s1 := Issues(s);
    var a2, s2 := Releases(s1);
    var a3;
    a3, t := Unlocks(s2);
    ReachesAppend(s, a1, s1, a2, s2);
    ReachesAppend(s, a1 + a2, s2, a3, t);
    actions := a1 + a2 + a3;
  }

  /** The run up to the moment of the swap. */
  lemma ReachesTheSwap<E>(s: State<E>) returns (actions: seq<Action<E>>, t: State<E>)
    requires FreshStart(s)
    ensures Reaches(s, actions, t) && Undisturbed(actions, NoRows(s.drain))
    ensures Enabled(t, ResolveRename) && CanSwap(t) && !t.gaveUpEarly
    ensures t.main == AwaitUnlocked && t.renamer == RAwait
    ensures t.tableUnlocked == Channel([true], 1) && t.tablesRenamed == Channel([], 0)
  {
    var a1, s1 := DrainsAndConnects(s);
    var a2;
    a2, t := MakesWay(s1);
    ReachesAppend(s, a1, s1, a2, t);
    actions := a1 + a2;
  }

  lemma {:induction false} GhostIsNamed<E>(s: State<E>, actions: seq<Action<E>>, t: State<E>)
    requires Init(s) && Reaches(s, actions, t) && t.rename == Pending
    ensures t.ghostName == Some(GhostTable)
  {
    InitInv(s);
    ReachesInv(s, actions, t);
  }

  lemma SwapsAndLearns<E>(s: State<E>) returns (actions: seq<Action<E>>, t: State<E>)
    requires Enabled(s, ResolveRename) && CanSwap(s) && !s.gaveUpEarly
    requires s.main == AwaitUnlocked && s.renamer == RAwait
    requires s.tableUnlocked == Channel([true], 1) && s.tablesRenamed == Channel([], 0)
    ensures Reaches(s, actions, t) && t.main == SignalExit(true) && !t.gaveUpEarly
  {
    var s1 := Do(s, ResolveRename);
    var rest;
    rest, t := Learns(s1);
    ReachesOne(s, ResolveRename);
    ReachesAppend(s, [ResolveRename], s1, rest, t);
    actions := [ResolveRename] + rest;
  }

  /**
   Whatever is in the backlog, and whether or not an earlier attempt has left its sentry table or its challenges, there
   is a run that succeeds without main ever giving up.
   */
  lemma CutOverCanSucceed<E>(s: State<E>) returns (actions: seq<Action<E>>, t: State<E>)
    requires FreshStart(s)
    ensures Reaches(s, actions, t) && t.main == Returned(true) && !t.gaveUpEarly
  {
    var a1, s1 := ReachesTheSwap(s);
    var a2, s2 := SwapsAndLearns(s1);
    var s3 := Do(s2, Main(true, 0, true));
    t := Do(s3, Main(false, 0, true));
    ReachesOne(s2, Main(true, 0, true));
    ReachesOne(s3, Main(false, 0, true));
    ReachesAppend(s, a1, s1, a2, s2);
    ReachesAppend(s, a1 + a2, s2, [Main(true, 0, true)], s3);
    ReachesAppend(s, a1 + a2 + [Main(true, 0, true)], s3, [Main(false, 0, true)], t);
    actions := a1 + a2 + [Main(true, 0, true)] + [Main(false, 0, true)];
  }

  /** A run that loses a write exists. In it, main gives up while the rename session is slow. */
  lemma CutOverCanLoseAWrite<E>(s: State<E>, event: E) returns (actions: seq<Action<E>>, t: State<E>)
    requires FreshStart(s)
    ensures Reaches(s, actions, t) && Enabled(t, ResolveRename) && CanSwap(t) && !FullyApplied(t)
  {
    var a1, s1 := DrainsAndConnects(s);
    InitInv(s);
    ReachesInv(s, a1, s1);
    var a2;
    a2, t := GivingUpEarlyCanLoseAWrite(s1, event);
    ReachesAppend(s, a1, s1, a2, t);
    actions := a1 + a2;
  }

  /**
   A run after which main hangs exists: the transaction of the rename session cannot begin, and from then on main
   waits for the session's id in every continuation.
   */
  lemma CutOverCanHang<E>(s: State<E>) returns (actions: seq<Action<E>>, t: State<E>)
    requires FreshStart(s)
    ensures Reaches(s, actions, t)
    ensures forall more: seq<Action<E>>, u: State<E> :: Reaches(t, more, u) ==> u.main == AwaitRenameSession && C.Blocked(u)
  {
    var a1, s1 := LocksAndDrains(s);
    t := Do(s1, Renamer(false));
    ReachesOne(s1, Renamer(false));
    ReachesAppend(s, a1, s1, [Renamer(false)], t);
    actions := a1 + [Renamer(false)];
    C.ReachableChannelsOk(s, actions, t);
    forall more: seq<Action<E>>, u: State<E> | Reaches(t, more, u)
      ensures u.main == AwaitRenameSession && C.Blocked(u)
    {
      C.FailedBeginHangsMain(t, more, u);
    }
  }
}
