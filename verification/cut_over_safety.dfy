/**
 What the atomic cut-over guarantees, and the one case in which it does not.
 */
module CutOverSafety {
  import opened Wrappers
  import opened CutOver
  import opened CutOverInvariant
  import D = Drain

  // ---- Main results ----

  /** Every row event logged on the original has been applied to the ghost table. */
  ghost predicate FullyApplied<E>(s: State<E>) {
    s.drain.applied == D.Rows(s.drain.log)
  }

  lemma MarkMeansFullyApplied<E>(s: State<E>)
    requires Inv(s) && s.drained && s.mark == Some(Logged(s))
    ensures FullyApplied(s)
  {
    D.RowsPrefix(s.drain.log, s.drain.streamed, |s.drain.log|);
    assert s.drain.log[..|s.drain.log|] == s.drain.log;
  }

  /**
   Safety of the swap, in every interleaving, with any failures: when the RENAME is about to commit, every row
   event logged on the original has been applied to the ghost table, and none has been logged since main wrote
   its challenge. The one exception is a run in which main gave up waiting for the RENAME to appear before the
   rename session had issued it.
   */
  lemma {:induction false} SwapIsSafe<E>(start: State<E>, actions: seq<Action<E>>, s: State<E>)
    requires Init(start) && Reaches(start, actions, s)
    requires Enabled(s, ResolveRename) && CanSwap(s) && !s.gaveUpEarly
    ensures s.drained && FullyApplied(s) && s.mark == Some(Logged(s))
  {
    InitInv(start);
    ReachesInv(start, actions, s);
    MarkMeansFullyApplied(s);
  }

  /** Main reports success only after the tables were swapped. The converse does not hold. */
  lemma {:induction false} SuccessMeansSwapped<E>(start: State<E>, actions: seq<Action<E>>, s: State<E>)
    requires Init(start) && Reaches(start, actions, s) && s.main == Returned(true)
    ensures s.rename == Committed && (!s.gaveUpEarly ==> FullyApplied(s))
  {
    InitInv(start);
    ReachesInv(start, actions, s);
    if !s.gaveUpEarly {
      MarkMeansFullyApplied(s);
    }
  }

  /** Throughout, the original name is bound, and the original table is found under it or under the old name. */
  lemma {:induction false} NamesStayBound<E>(start: State<E>, actions: seq<Action<E>>, s: State<E>)
    requires Init(start) && Reaches(start, actions, s)
    ensures s.originalName == Some(OriginalTable) || s.originalName == Some(GhostTable)
    ensures s.originalName == Some(OriginalTable) || s.oldName == Some(OriginalTable)
    ensures s.originalName == Some(GhostTable) <==> s.rename == Committed
  {
    InitInv(start);
    ReachesInv(start, actions, s);
  }

  // ---- The exception ----

  function EarlyRank(renamer: RenamePc): nat {
    match renamer
    case RBegin => 4
    case RConnection => 3
    case RSetTimeout => 2
    case RIssue => 1
    case _ => 0
  }

  ghost predicate IssuesNext<E>(s: State<E>, t: State<E>) {
    && !t.tablesLocked && CanSwap(t) && t.drain == s.drain && t.main == s.main && t.gaveUpEarly == s.gaveUpEarly
    && (if s.renamer == RIssue then t.rename == Pending
        else Early(t.renamer) && EarlyRank(t.renamer) < EarlyRank(s.renamer))
  }

  lemma ConnectStep<E>(s: State<E>)
    requires (s.renamer == RBegin || s.renamer == RConnection) && !s.tablesLocked && CanSwap(s)
    ensures IssuesNext(s, DoRenamer(s, true))
  {
  }

  lemma IssueStep<E>(s: State<E>)
    requires (s.renamer == RSetTimeout || s.renamer == RIssue) && !s.tablesLocked && CanSwap(s)
    ensures IssuesNext(s, DoRenamer(s, true))
  {
  }

  /** Nothing stops a slow rename session from issuing its RENAME after the sentry and the lock are gone. */
  lemma {:induction false} IssuesLate<E>(s: State<E>) returns (actions: seq<Action<E>>, t: State<E>)
    requires Early(s.renamer) && !s.tablesLocked && CanSwap(s)
    ensures Reaches(s, actions, t) && t.rename == Pending && !t.tablesLocked && CanSwap(t)
    ensures t.drain == s.drain && t.main == s.main && t.gaveUpEarly == s.gaveUpEarly
    decreases EarlyRank(s.renamer)
  {
    var next := Do(s, Renamer(true));
    if s.renamer == RBegin || s.renamer == RConnection {
      ConnectStep(s);
    } else {
      IssueStep(s);
    }
    ReachesOne(s, Renamer(true));
    if s.renamer == RIssue {
      actions, t := [Renamer(true)], next;
    } else {
      var rest;
      rest, t := IssuesLate(next);
      actions := [Renamer(true)] + rest;
      ReachesAppend(s, [Renamer(true)], next, rest, t);
    }
  }

  /** Main has given up on a RENAME that was never issued, and the table lock may still be held. */
  ghost predicate Abandoned<E>(s: State<E>) {
    && s.main == DropSentry(false) && Early(s.renamer) && s.rename == NotIssued
    && s.originalName == Some(OriginalTable) && s.ghostName == Some(GhostTable) && s.oldName == Some(SentryTable)
    && (s.tablesLocked ==> s.lockAlive)
  }

  lemma GivesUp<E>(s: State<E>) returns (actions: seq<Action<E>>, t: State<E>)
    requires Inv(s) && s.main == AwaitRename && Early(s.renamer) && !s.gaveUpEarly
    ensures actions != [] && actions[0] == Main(false, 0, false)
    ensures Reaches(s, actions, t) && Abandoned(t) && t.drain == s.drain
  {
    var s1 := Do(s, Main(false, 0, false));
    t := Do(s1, Main(true, 0, false));
    ReachesOne(s, Main(false, 0, false));
    ReachesOne(s1, Main(true, 0, false));
    ReachesAppend(s, [Main(false, 0, false)], s1, [Main(true, 0, false)], t);
    actions := [Main(false, 0, false)] + [Main(true, 0, false)];
  }

  lemma LosesLock<E>(s: State<E>) returns (actions: seq<Action<E>>, t: State<E>)
    requires Abandoned(s)
    ensures Reaches(s, actions, t) && Abandoned(t) && !t.tablesLocked && t.drain == s.drain
  {
    if s.lockAlive {
      t := Do(s, LockSessionDies);
      ReachesOne(s, LockSessionDies);
      actions := [LockSessionDies];
    } else {
      actions, t := [], s;
    }
  }

  lemma DropsSentryAndWrites<E>(s: State<E>, event: E) returns (actions: seq<Action<E>>, t: State<E>)
    requires Abandoned(s) && !s.tablesLocked
    ensures Reaches(s, actions, t) && Early(t.renamer) && !t.tablesLocked && CanSwap(t)
    ensures t.drain == D.Do(s.drain, D.LogRow(event))
  {
    var s1 := Do(s, Main(true, 0, false));
    t := Do(s1, AppWrite(event));
    ReachesOne(s, Main(true, 0, false));
    ReachesOne(s1, AppWrite(event));
    ReachesAppend(s, [Main(true, 0, false)], s1, [AppWrite(event)], t);
    actions := [Main(true, 0, false)] + [AppWrite(event)];
  }

  /**
   The exception is real, and it is exact: from every state in which main may give up while the RENAME has not
   been issued, giving up can lead to a swap that loses a write. The sentry table is then dropped, the
   application writes to the original, and the late RENAME finds its target free.
   */
  lemma GivingUpEarlyCanLoseAWrite<E>(s: State<E>, event: E) returns (actions: seq<Action<E>>, t: State<E>)
    requires Inv(s) && s.main == AwaitRename && Early(s.renamer) && !s.gaveUpEarly
    ensures actions != [] && actions[0] == Main(false, 0, false)
    ensures Reaches(s, actions, t)
    ensures Enabled(t, ResolveRename) && CanSwap(t) && !FullyApplied(t)
  {
    var xs, s1 := GivesUp(s);
    var ys, s2 := LosesLock(s1);
    var zs, s3 := DropsSentryAndWrites(s2, event);
    var ws;
    ws, t := IssuesLate(s3);
    ReachesAppend(s, xs, s1, ys, s2);
    ReachesAppend(s, xs + ys, s2, zs, s3);
    ReachesAppend(s, xs + ys + zs, s3, ws, t);
    actions := xs + ys + zs + ws;
    OneMoreRow(s, event);
  }

  /** A row event that was just logged has not been applied. */
  lemma OneMoreRow<E>(s: State<E>, event: E)
    requires D.Inv(s.drain)
    ensures D.Rows(s.drain.log + [D.Row(event)]) != s.drain.applied
  {
    D.LogAppend(s.drain.log, D.Row(event));
    D.RowsPrefix(s.drain.log, s.drain.streamed, |s.drain.log|);
    assert s.drain.log[..|s.drain.log|] == s.drain.log;
  }
}
