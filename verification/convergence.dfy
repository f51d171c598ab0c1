/**
 Convergence of chunk copy and event replay.

 The application changes the original table in transactions. A transaction is first written to the binary
 log, and only later do its row changes become visible; until then its rows are locked. The streamer may
 deliver its events at once. One writer replays the pending events on the ghost table, and copies chunks of
 the visible original with `insert ignore ... select ... lock in share mode`.

 Two things can go wrong, and the results below say exactly when. A batch of events whose transaction is rolled
 back is built a second time, and a key-changing update has then become an insert. And a transaction that was
 logged before anyone listened, but is not visible yet, is known neither from its events nor to a plain query.
 */
module Convergence {
  import opened Wrappers
  import opened KeyOrder
  import opened TableEvents

  type Transaction<R> = seq<Event<R>>

  /**
   `logical` is the original with every logged transaction applied, visible or not. `base` is the original
   as it was when the first pending event was logged. `covered` are the keys whose copying is over. The first
   `early` of the prepared transactions were logged before there was a listener; their events are never pending.
   The first `rebuilt` of the pending events have been built before, by an attempt that was rolled back.
   */
  datatype State<R, G> = State(
    visible: map<Key, R>,
    prepared: seq<Transaction<R>>,
    logical: map<Key, R>,
    base: map<Key, R>,
    backlog: seq<Event<R>>,
    ghostTable: map<Key, G>,
    covered: iset<Key>,
    early: nat,
    rebuilt: nat)

  datatype Step<R> =
    | Log(transaction: Transaction<R>)   // the application's transaction reaches the binary log
    | Show(i: nat)                       // its row changes become visible and its locks go
    | ReplayNext                         // the first pending event is applied to the ghost table
    | RollBack(n: nat)                   // a transaction that built the first n pending events is rolled back
    | Observe(keys: iset<Key>)           // a plain query finds no row under these keys
    | Copy(keys: iset<Key>)              // one chunk

  predicate Touches<R>(e: Event<R>, key: Key) {
    match e
    case Insert(k, _) => k == key
    case Delete(k) => k == key
    case Update(k, _) => k == key
    case Move(from, to, _) => from == key || to == key
  }

  predicate TouchesAny<R>(es: seq<Event<R>>, key: Key) {
    exists i :: 0 <= i < |es| && Touches(es[i], key)
  }

  ghost predicate Locked<R, G>(s: State<R, G>, key: Key) {
    exists i :: 0 <= i < |s.prepared| && TouchesAny(s.prepared[i], key)
  }

  /** With `shareMode`, a chunk copy waits for locked rows. */
  ghost predicate Enabled<R(!new), G(!new)>(s: State<R, G>, step: Step<R>, shareMode: bool) {
    match step
    case Log(transaction) =>
      AllApplicable(s.logical, transaction) &&
      forall key :: TouchesAny(transaction, key) ==> !Locked(s, key)
    case Show(i) => i < |s.prepared|
    case ReplayNext => s.backlog != []
    case RollBack(n) => n <= |s.backlog|
    case Observe(keys) => forall key :: key in keys ==> key !in s.visible
    case Copy(keys) => shareMode ==> forall key :: key in keys ==> !Locked(s, key)
  }

  /** `insert ignore` leaves the rows alone that the ghost table already has. */
  ghost function InsertIgnore<R, G>(g: map<Key, G>, t: map<Key, R>, keys: iset<Key>, p: R -> G): map<Key, G> {
    (map key | key in t && key in keys :: p(t[key])) + g
  }

  ghost function Do<R, G>(s: State<R, G>, step: Step<R>, p: R -> G): State<R, G>
    requires step.Show? ==> step.i < |s.prepared|
    requires step.ReplayNext? ==> s.backlog != []
  {
    match step
    case Log(transaction) =>
      s.(logical := ApplyAll(s.logical, transaction), backlog := s.backlog + transaction,
         prepared := s.prepared + [transaction])
    case Show(i) =>
      s.(visible := ApplyAll(s.visible, s.prepared[i]), prepared := s.prepared[..i] + s.prepared[i + 1..],
         early := if i < s.early then s.early - 1 else s.early)
    case ReplayNext =>
      var built := if s.rebuilt > 0 then Retried(s.backlog[0]) else s.backlog[0];
      s.(ghostTable := Replay(s.ghostTable, built, p), base := Apply(s.base, s.backlog[0]), backlog := s.backlog[1..],
         rebuilt := if s.rebuilt > 0 then s.rebuilt - 1 else 0)
    case RollBack(n) => s.(rebuilt := if s.rebuilt < n then n else s.rebuilt)
    case Observe(keys) => s.(covered := s.covered + keys)
    case Copy(keys) =>
      s.(ghostTable := InsertIgnore(s.ghostTable, s.visible, keys, p), covered := s.covered + keys)
  }

  /**
   The migration starts with an empty ghost table, with events pending from some earlier moment, and perhaps with
   transactions that were logged before anyone listened and are not visible yet.
   */
  ghost predicate Init<R(!new), G(!new)>(s: State<R, G>) {
    && s.ghostTable == map[] && s.covered == iset{} && s.early == |s.prepared| && s.rebuilt == 0
    && AllApplicable(s.base, s.backlog) && s.logical == ApplyAll(s.base, s.backlog)
    && forall key :: LocksOk(s, key) && EarlyOk(s, key)
  }

  ghost predicate StepTo<R(!new), G(!new)>(s: State<R, G>, t: State<R, G>, p: R -> G, shareMode: bool) {
    exists step: Step<R> :: Enabled(s, step, shareMode) && t == Do(s, step, p)
  }

  ghost predicate IsRun<R(!new), G(!new)>(run: seq<State<R, G>>, p: R -> G, shareMode: bool) {
    && run != [] && Init(run[0])
    && forall i :: 0 <= i < |run| - 1 ==> StepTo(run[i], run[i + 1], p, shareMode)
  }

  // ---- One key at a time ----

  function At<V>(t: map<Key, V>, key: Key): Option<V> {
    if key in t then Some(t[key]) else None
  }

  function ApplyAt<R>(o: Option<R>, e: Event<R>, key: Key): Option<R> {
    if !Touches(e, key) then o else
    match e
    case Insert(_, row) => Some(row)
    case Delete(_) => None
    case Update(_, row) => Some(row)
    case Move(_, to, row) => if key == to then Some(row) else None
  }

  function ReplayAt<R, G>(o: Option<G>, e: Event<R>, key: Key, p: R -> G): Option<G> {
    if !Touches(e, key) then o else
    match e
    case Insert(_, row) => Some(p(row))
    case Delete(_) => None
    case Update(_, row) => if o.Some? then Some(p(row)) else None
    case Move(_, to, row) => if key == to then Some(p(row)) else None
  }

  predicate OkAt<R>(o: Option<R>, e: Event<R>, key: Key) {
    Touches(e, key) ==>
    match e
    case Insert(_, _) => o.None?
    case Delete(_) => o.Some?
    case Update(_, _) => o.Some?
    case Move(from, to, _) => from != to && (if key == to then o.None? else o.Some?)
  }

  function ApplyAllAt<R>(o: Option<R>, es: seq<Event<R>>, key: Key): Option<R>
    decreases es
  {
    if es == [] then o else ApplyAllAt(ApplyAt(o, es[0], key), es[1..], key)
  }

  function ReplayAllAt<R, G>(o: Option<G>, es: seq<Event<R>>, key: Key, p: R -> G): Option<G>
    decreases es
  {
    if es == [] then o else ReplayAllAt(ReplayAt(o, es[0], key, p), es[1..], key, p)
  }

  predicate OkAllAt<R>(o: Option<R>, es: seq<Event<R>>, key: Key)
    decreases es
  {
    es == [] || (OkAt(o, es[0], key) && OkAllAt(ApplyAt(o, es[0], key), es[1..], key))
  }

  lemma {:induction false} TablesByKey<R>(t: map<Key, R>, es: seq<Event<R>>, key: Key)
    ensures At(ApplyAll(t, es), key) == ApplyAllAt(At(t, key), es, key)
    ensures AllApplicable(t, es) ==> OkAllAt(At(t, key), es, key)
    decreases es
  {
    if es != [] {
      TablesByKey(Apply(t, es[0]), es[1..], key);
    }
  }

  lemma {:induction false} GhostByKey<R, G>(g: map<Key, G>, es: seq<Event<R>>, key: Key, p: R -> G)
    ensures At(ReplayAll(g, es, p), key) == ReplayAllAt(At(g, key), es, key, p)
    decreases es
  {
    if es != [] {
      GhostByKey(Replay(g, es[0], p), es[1..], key, p);
    }
  }

  lemma {:induction false} SplitAt<R, G>(o: Option<R>, g: Option<G>, xs: seq<Event<R>>, ys: seq<Event<R>>, key: Key,
                                         p: R -> G)
    ensures ApplyAllAt(o, xs + ys, key) == ApplyAllAt(ApplyAllAt(o, xs, key), ys, key)
    ensures ReplayAllAt(g, xs + ys, key, p) == ReplayAllAt(ReplayAllAt(g, xs, key, p), ys, key, p)
    ensures OkAllAt(o, xs + ys, key) <==> OkAllAt(o, xs, key) && OkAllAt(ApplyAllAt(o, xs, key), ys, key)
    decreases xs
  {
    if xs == [] {
      assert xs + ys == ys;
    } else {
      assert (xs + ys)[1..] == xs[1..] + ys;
      SplitAt(ApplyAt(o, xs[0], key), ReplayAt(g, xs[0], key, p), xs[1..], ys, key, p);
    }
  }

  /** The ghost table has exactly the projected row, or has none where the original has none. */
  predicate Mirrors<R, G(==)>(g: Option<G>, o: Option<R>, p: R -> G) {
    match o
    case None => g.None?
    case Some(row) => g == Some(p(row))
  }

  // ---- Valid histories of one key ----

  /** Once a key is mirrored, the rest of a valid history keeps it mirrored. */
  lemma {:induction false} MirrorStays<R, G>(o: Option<R>, g: Option<G>, es: seq<Event<R>>, key: Key, p: R -> G)
    requires OkAllAt(o, es, key) && Mirrors(g, o, p)
    ensures Mirrors(ReplayAllAt(g, es, key, p), ApplyAllAt(o, es, key), p)
    decreases es
  {
    if es != [] {
      MirrorStays(ApplyAt(o, es[0], key), ReplayAt(g, es[0], key, p), es[1..], key, p);
    }
  }

  /** A key that is missing from the ghost table stays missing, or becomes right. */
  lemma {:induction false} NeverWrong<R, G>(o: Option<R>, g: Option<G>, es: seq<Event<R>>, key: Key, p: R -> G)
    requires OkAllAt(o, es, key) && (g.None? || Mirrors(g, o, p))
    ensures var r := ReplayAllAt(g, es, key, p); r.None? || Mirrors(r, ApplyAllAt(o, es, key), p)
    decreases es
  {
    if es != [] {
      NeverWrong(ApplyAt(o, es[0], key), ReplayAt(g, es[0], key, p), es[1..], key, p);
    }
  }

  /** A row in the ghost table can only be lost by a delete, after which the original has none either. */
  lemma {:induction false} PresenceStays<R, G>(o: Option<R>, g: Option<G>, es: seq<Event<R>>, key: Key, p: R -> G)
    requires OkAllAt(o, es, key) && (o.Some? ==> g.Some?)
    ensures ApplyAllAt(o, es, key).Some? ==> ReplayAllAt(g, es, key, p).Some?
    decreases es
  {
    if es != [] {
      PresenceStays(ApplyAt(o, es[0], key), ReplayAt(g, es[0], key, p), es[1..], key, p);
    }
  }

  /** Whatever row the ghost table has, the first pending event for its key makes it right. */
  lemma {:induction false} FirstEventMirrors<R, G>(o: Option<R>, g: Option<G>, es: seq<Event<R>>, key: Key, p: R -> G)
    requires OkAllAt(o, es, key) && g.Some?
    ensures if TouchesAny(es, key) then Mirrors(ReplayAllAt(g, es, key, p), ApplyAllAt(o, es, key), p)
            else ReplayAllAt(g, es, key, p) == g && ApplyAllAt(o, es, key) == o
    decreases es
  {
    if es != [] {
      if Touches(es[0], key) {
        MirrorStays(ApplyAt(o, es[0], key), ReplayAt(g, es[0], key, p), es[1..], key, p);
      } else {
        FirstEventMirrors(o, g, es[1..], key, p);
        assert TouchesAny(es, key) <==> TouchesAny(es[1..], key) by {
          if i :| 0 <= i < |es[1..]| && Touches(es[1..][i], key) {
            assert Touches(es[i + 1], key);
          }
          if i :| 0 <= i < |es| && Touches(es[i], key) {
            assert es[i] == es[1..][i - 1];
          }
        }
      }
    }
  }

  // ---- The invariant ----

  /** The ghost table's row for a key, once everything pending has been replayed. */
  function Caught<R, G>(s: State<R, G>, key: Key, p: R -> G): Option<G> {
    ReplayAllAt(At(s.ghostTable, key), s.backlog, key, p)
  }

  ghost predicate HistoryOk<R, G>(s: State<R, G>, key: Key) {
    && OkAllAt(At(s.base, key), s.backlog, key)
    && At(s.logical, key) == ApplyAllAt(At(s.base, key), s.backlog, key)
  }

  ghost predicate LocksOk<R, G>(s: State<R, G>, key: Key) {
    && (!Locked(s, key) ==> At(s.visible, key) == At(s.logical, key))
    && (forall i :: 0 <= i < |s.prepared| && TouchesAny(s.prepared[i], key) ==>
          At(s.logical, key) == ApplyAllAt(At(s.visible, key), s.prepared[i], key))
    && (forall i, j :: 0 <= i < j < |s.prepared| ==> !TouchesAny(s.prepared[i], key) || !TouchesAny(s.prepared[j], key))
  }

  /** An early transaction that is not visible yet has changed this key. */
  ghost predicate EarlyLocked<R, G>(s: State<R, G>, key: Key) {
    exists i :: 0 <= i < s.early && i < |s.prepared| && TouchesAny(s.prepared[i], key)
  }

  /** While it is locked, nobody else changes the key, and no chunk copy reads it. */
  ghost predicate EarlyOk<R, G>(s: State<R, G>, key: Key) {
    && s.early <= |s.prepared|
    && (EarlyLocked(s, key) ==> !TouchesAny(s.backlog, key) && key !in s.ghostTable)
  }

  ghost predicate GhostOk<R, G>(s: State<R, G>, key: Key, p: R -> G) {
    // A covered key is right once the backlog is replayed; any other key is right or missing.
    && (key in s.covered ==> Mirrors(Caught(s, key, p), At(s.logical, key), p))
    && (Caught(s, key, p).None? || Mirrors(Caught(s, key, p), At(s.logical, key), p))
    // A row that only a hidden transaction inserts is known from its event, unless it was logged too early.
    && (key !in s.visible && !EarlyLocked(s, key) ==> Mirrors(Caught(s, key, p), At(s.logical, key), p))
  }

  ghost predicate Inv<R, G>(s: State<R, G>, p: R -> G) {
    forall key :: KeyOk(s, key, p)
  }

  ghost predicate KeyOk<R, G>(s: State<R, G>, key: Key, p: R -> G) {
    HistoryOk(s, key) && LocksOk(s, key) && EarlyOk(s, key) && GhostOk(s, key, p)
  }

  lemma InitInv<R(!new), G(!new)>(s: State<R, G>, p: R -> G)
    requires Init(s)
    ensures Inv(s, p)
  {
    forall key
      ensures KeyOk(s, key, p)
    {
      TablesByKey(s.base, s.backlog, key);
      NeverWrong(At(s.base, key), None, s.backlog, key, p);
      assert LocksOk(s, key) && EarlyOk(s, key);
      assert Locked(s, key) ==> EarlyLocked(s, key);
    }
  }

  lemma {:induction false} LogInv<R, G>(s: State<R, G>, transaction: Transaction<R>, p: R -> G, key: Key)
    requires Inv(s, p)
    requires AllApplicable(s.logical, transaction)
    requires TouchesAny(transaction, key) ==> !Locked(s, key)
    ensures KeyOk(Do(s, Log(transaction), p), key, p)
  {
    var t := Do(s, Log(transaction), p);
    var o, g := At(s.logical, key), Caught(s, key, p);
    assert KeyOk(s, key, p);
    TablesByKey(s.logical, transaction, key);
    SplitAt(At(s.base, key), At(s.ghostTable, key), s.backlog, transaction, key, p);
    NeverWrong(o, g, transaction, key, p);
    if Mirrors(g, o, p) {
      MirrorStays(o, g, transaction, key, p);
    }
    LogLocks(s, transaction, p, key);
    LogEarly(s, transaction, p, key);
  }

  lemma LogEarly<R, G>(s: State<R, G>, transaction: Transaction<R>, p: R -> G, key: Key)
    requires EarlyOk(s, key) && (TouchesAny(transaction, key) ==> !Locked(s, key))
    ensures EarlyOk(Do(s, Log(transaction), p), key)
    ensures EarlyLocked(Do(s, Log(transaction), p), key) <==> EarlyLocked(s, key)
  {
    var t := Do(s, Log(transaction), p);
    forall i | 0 <= i < |s.prepared| ensures t.prepared[i] == s.prepared[i] { }
    if EarlyLocked(s, key) {
      assert Locked(s, key);
      TouchesAppend(s.backlog, transaction, key);
    }
  }

  lemma TouchesAppend<R>(xs: seq<Event<R>>, ys: seq<Event<R>>, key: Key)
    ensures TouchesAny(xs + ys, key) <==> TouchesAny(xs, key) || TouchesAny(ys, key)
  {
    if i :| 0 <= i < |xs| && Touches(xs[i], key) {
      assert Touches((xs + ys)[i], key);
    }
    if i :| 0 <= i < |ys| && Touches(ys[i], key) {
      assert Touches((xs + ys)[|xs| + i], key);
    }
  }

  lemma LogLocks<R, G>(s: State<R, G>, transaction: Transaction<R>, p: R -> G, key: Key)
    requires LocksOk(s, key)
    requires TouchesAny(transaction, key) ==> !Locked(s, key)
    ensures LocksOk(Do(s, Log(transaction), p), key)
  {
    var t := Do(s, Log(transaction), p);
    var n := |s.prepared|;
    assert t.prepared[n] == transaction;
    TablesByKey(s.logical, transaction, key);
    if !TouchesAny(transaction, key) {
      Untouched(At(s.logical, key), transaction, key);
      assert Locked(t, key) <==> Locked(s, key) by {
        forall i | 0 <= i < n ensures t.prepared[i] == s.prepared[i] { }
      }
    } else {
      assert TouchesAny(t.prepared[n], key);
    }
  }

  lemma {:induction false} Untouched<R>(o: Option<R>, es: seq<Event<R>>, key: Key)
    requires !TouchesAny(es, key)
    ensures ApplyAllAt(o, es, key) == o
    decreases es
  {
    if es != [] {
      forall i | 0 <= i < |es[1..]| ensures !Touches(es[1..][i], key) {
        assert es[1..][i] == es[i + 1];
      }
      assert !Touches(es[0], key);
      Untouched(o, es[1..], key);
    }
  }

  lemma ShowInv<R, G>(s: State<R, G>, i: nat, p: R -> G, key: Key)
    requires Inv(s, p) && i < |s.prepared|
    ensures KeyOk(Do(s, Show(i), p), key, p)
  {
    assert KeyOk(s, key, p);
    ShowLocks(s, i, p, key);
    ShowEarly(s, i, p, key);
    TablesByKey(s.visible, s.prepared[i], key);
    if !TouchesAny(s.prepared[i], key) {
      Untouched(At(s.visible, key), s.prepared[i], key);
    }
  }

  lemma ShowLocks<R, G>(s: State<R, G>, i: nat, p: R -> G, key: Key)
    requires LocksOk(s, key) && i < |s.prepared|
    ensures LocksOk(Do(s, Show(i), p), key)
  {
    var t := Do(s, Show(i), p);
    forall j | 0 <= j < |t.prepared|
      ensures t.prepared[j] == s.prepared[if j < i then j else j + 1]
    {
    }
    TablesByKey(s.visible, s.prepared[i], key);
    if TouchesAny(s.prepared[i], key) {
      assert !Locked(t, key);
    } else {
      Untouched(At(s.visible, key), s.prepared[i], key);
      if !Locked(t, key) {
        forall j | 0 <= j < |s.prepared| ensures !TouchesAny(s.prepared[j], key) {
          if j < i {
            assert t.prepared[j] == s.prepared[j];
          } else if j > i {
            assert t.prepared[j - 1] == s.prepared[j];
          }
        }
      }
    }
  }

  lemma ShowEarly<R, G>(s: State<R, G>, i: nat, p: R -> G, key: Key)
    requires EarlyOk(s, key) && i < |s.prepared|
    ensures EarlyOk(Do(s, Show(i), p), key)
    ensures EarlyLocked(Do(s, Show(i), p), key) ==> EarlyLocked(s, key)
    ensures EarlyLocked(s, key) && !TouchesAny(s.prepared[i], key) ==> EarlyLocked(Do(s, Show(i), p), key)
  {
    var t := Do(s, Show(i), p);
    forall j | 0 <= j < |t.prepared|
      ensures t.prepared[j] == s.prepared[if j < i then j else j + 1]
    {
    }
    if j :| 0 <= j < s.early && j != i && TouchesAny(s.prepared[j], key) {
      assert TouchesAny(t.prepared[if j < i then j else j - 1], key);
    }
  }

  lemma RollBackInv<R, G>(s: State<R, G>, n: nat, p: R -> G, key: Key)
    requires Inv(s, p) && n <= |s.backlog|
    ensures KeyOk(Do(s, RollBack(n), p), key, p)
  {
    assert KeyOk(s, key, p);
    assert Locked(Do(s, RollBack(n), p), key) <==> Locked(s, key);
  }

  // ---- Replay ----

  /**
   The next event is a key-changing update that a rolled-back attempt has built, the ghost table still has a row
   under its old key, and no other pending event concerns that key.
   */
  ghost predicate LeavesRowBehind<R, G>(s: State<R, G>)
    requires s.backlog != []
  {
    var e := s.backlog[0];
    s.rebuilt > 0 && e.Move? && e.from in s.ghostTable && !TouchesAny(s.backlog[1..], e.from)
  }

  /** The first pending event and the rest, at one key. */
  lemma HistoryTail<R, G>(s: State<R, G>, key: Key, p: R -> G)
    requires HistoryOk(s, key) && EarlyOk(s, key) && s.backlog != []
    ensures HistoryOk(Do(s, ReplayNext, p), key)
  {
    assert At(Do(s, ReplayNext, p).base, key) == ApplyAt(At(s.base, key), s.backlog[0], key);
    if Touches(s.backlog[0], key) {
      assert TouchesAny(s.backlog, key);
    }
  }

  lemma ReplayKeepsLocks<R, G>(s: State<R, G>, key: Key, p: R -> G)
    requires LocksOk(s, key) && EarlyOk(s, key) && s.backlog != []
    ensures LocksOk(Do(s, ReplayNext, p), key) && EarlyOk(Do(s, ReplayNext, p), key)
    ensures EarlyLocked(Do(s, ReplayNext, p), key) <==> EarlyLocked(s, key)
  {
    var t := Do(s, ReplayNext, p);
    assert Locked(t, key) <==> Locked(s, key);
    assert s.backlog == [s.backlog[0]] + s.backlog[1..];
    TouchesAppend([s.backlog[0]], s.backlog[1..], key);
    assert Touches(s.backlog[0], key) ==> TouchesAny([s.backlog[0]], key) by {
      assert [s.backlog[0]][0] == s.backlog[0];
    }
  }

  /** The replayed row at one key: as for a fresh event, but for the old key of a rebuilt key change. */
  lemma ReplayedAt<R, G>(s: State<R, G>, key: Key, p: R -> G)
    requires s.backlog != []
    ensures var e := s.backlog[0];
            At(Do(s, ReplayNext, p).ghostTable, key)
            == if s.rebuilt > 0 && e.Move? && key == e.from && key != e.to then At(s.ghostTable, key)
               else ReplayAt(At(s.ghostTable, key), e, key, p)
  {
  }

  /** Replaying the next event keeps a key right if and only if it leaves no row behind there. */
  lemma ReplayExact<R, G>(s: State<R, G>, p: R -> G, key: Key)
    requires Inv(s, p) && s.backlog != []
    ensures KeyOk(Do(s, ReplayNext, p), key, p) <==> !(LeavesRowBehind(s) && key == s.backlog[0].from)
  {
    var t, e := Do(s, ReplayNext, p), s.backlog[0];
    assert KeyOk(s, key, p);
    HistoryTail(s, key, p);
    ReplayKeepsLocks(s, key, p);
    ReplayedAt(s, key, p);
    if s.rebuilt > 0 && e.Move? && key == e.from && key in s.ghostTable {
      assert Touches(e, key) && OkAt(At(s.base, key), e, key);
      assert At(t.base, key) == None && At(t.ghostTable, key).Some?;
      FirstEventMirrors(None, At(t.ghostTable, key), t.backlog, key, p);
    }
  }

  // ---- Chunk copy, and plain queries ----

  function Projected<R, G>(o: Option<R>, p: R -> G): Option<G> {
    if o.Some? then Some(p(o.value)) else None
  }

  /**
   A read is stale at a key if the ghost table has no row there, no pending event concerns the key, and a logged
   transaction that is not visible yet has already changed what the visible row, or its absence, projects to.
   */
  ghost predicate StaleRead<R, G>(s: State<R, G>, key: Key, p: R -> G) {
    && key !in s.ghostTable && !TouchesAny(s.backlog, key)
    && !Mirrors(Projected(At(s.visible, key), p), At(s.logical, key), p)
  }

  /**
   What a chunk copy needs, exactly. After it, every key of the chunk is right (once the backlog is replayed)
   if and only if it was not read stale.
   */
  lemma CopyExact<R, G>(s: State<R, G>, keys: iset<Key>, p: R -> G, key: Key)
    requires Inv(s, p)
    ensures var t := Do(s, Copy(keys), p);
            Mirrors(Caught(t, key, p), At(t.logical, key), p)
            <==> if key in keys then !StaleRead(s, key, p) else Mirrors(Caught(s, key, p), At(s.logical, key), p)
  {
    assert KeyOk(s, key, p);
    var t := Do(s, Copy(keys), p);
    if key in keys {
      if key in s.ghostTable {
        assert At(t.ghostTable, key) == At(s.ghostTable, key);
        PresenceStays(At(s.base, key), At(s.ghostTable, key), s.backlog, key, p);
      } else if key in s.visible {
        assert At(t.ghostTable, key) == Some(p(s.visible[key]));
        FirstEventMirrors(At(s.base, key), At(t.ghostTable, key), s.backlog, key, p);
      } else {
        assert At(t.ghostTable, key) == At(s.ghostTable, key) == None;
        if !TouchesAny(s.backlog, key) {
          NothingReplayed(None, s.backlog, key, p);
        }
      }
    } else {
      assert At(t.ghostTable, key) == At(s.ghostTable, key);
    }
  }

  lemma {:induction false} NothingReplayed<R, G>(g: Option<G>, es: seq<Event<R>>, key: Key, p: R -> G)
    requires !TouchesAny(es, key)
    ensures ReplayAllAt(g, es, key, p) == g
    decreases es
  {
    if es != [] {
      assert es == [es[0]] + es[1..];
      TouchesAppend([es[0]], es[1..], key);
      assert !Touches([es[0]][0], key);
      NothingReplayed(g, es[1..], key, p);
    }
  }

  /** A copy that waits for locked rows never reads a stale row. */
  lemma LockedReadIsNotStale<R, G>(s: State<R, G>, p: R -> G, key: Key)
    requires Inv(s, p) && !Locked(s, key)
    ensures !StaleRead(s, key, p)
  {
    assert KeyOk(s, key, p);
  }

  lemma CopyInv<R, G>(s: State<R, G>, keys: iset<Key>, p: R -> G, key: Key)
    requires Inv(s, p) && (key in keys ==> !Locked(s, key))
    ensures KeyOk(Do(s, Copy(keys), p), key, p)
  {
    assert KeyOk(s, key, p);
    var t := Do(s, Copy(keys), p);
    CopyExact(s, keys, p, key);
    assert Locked(t, key) <==> Locked(s, key);
    assert EarlyLocked(t, key) <==> EarlyLocked(s, key);
    assert EarlyLocked(s, key) ==> Locked(s, key);
    if key in keys {
      LockedReadIsNotStale(s, p, key);
    } else {
      assert At(t.ghostTable, key) == At(s.ghostTable, key);
    }
  }

  /** An early transaction that is not visible yet puts a row at this key. A plain query cannot see it. */
  ghost predicate MissesRow<R, G>(s: State<R, G>, key: Key) {
    EarlyLocked(s, key) && key in s.logical
  }

  /** Taking a plain query's word for it that there is no row is right if and only if it does not miss one. */
  lemma ObserveExact<R, G>(s: State<R, G>, keys: iset<Key>, p: R -> G, key: Key)
    requires Inv(s, p) && (key in keys ==> key !in s.visible)
    ensures KeyOk(Do(s, Observe(keys), p), key, p) <==> (key in keys && key !in s.covered ==> !MissesRow(s, key))
  {
    assert KeyOk(s, key, p);
    var t := Do(s, Observe(keys), p);
    assert Locked(t, key) <==> Locked(s, key);
    assert EarlyLocked(t, key) <==> EarlyLocked(s, key);
    if EarlyLocked(s, key) {
      NothingReplayed(At(s.ghostTable, key), s.backlog, key, p);
    }
  }

  // ---- Steps and runs ----

  /** The exact condition for a step to keep the invariant. Only replay and plain queries have one. */
  ghost predicate Safe<R, G>(s: State<R, G>, step: Step<R>)
    requires step.ReplayNext? ==> s.backlog != []
  {
    match step
    case ReplayNext => !LeavesRowBehind(s)
    case Observe(keys) => forall key :: key in keys && key !in s.covered ==> !MissesRow(s, key)
    case _ => true
  }

  /** An enabled step keeps the invariant if and only if it is safe. */
  lemma StepExact<R(!new), G(!new)>(s: State<R, G>, step: Step<R>, p: R -> G)
    requires Inv(s, p) && Enabled(s, step, true)
    ensures Inv(Do(s, step, p), p) <==> Safe(s, step)
  {
    var t := Do(s, step, p);
    match step
    case ReplayNext =>
      forall key ensures KeyOk(t, key, p) <==> !(LeavesRowBehind(s) && key == s.backlog[0].from) {
        ReplayExact(s, p, key);
      }
      if LeavesRowBehind(s) {
        assert !KeyOk(t, s.backlog[0].from, p);
      }
    case Observe(keys) =>
      forall key ensures KeyOk(t, key, p) <==> (key in keys && key !in s.covered ==> !MissesRow(s, key)) {
        ObserveExact(s, keys, p, key);
      }
    case Log(transaction) => forall key ensures KeyOk(t, key, p) { LogInv(s, transaction, p, key); }
    case Show(i) => forall key ensures KeyOk(t, key, p) { ShowInv(s, i, p, key); }
    case RollBack(n) => forall key ensures KeyOk(t, key, p) { RollBackInv(s, n, p, key); }
    case Copy(keys) => forall key ensures KeyOk(t, key, p) { CopyInv(s, keys, p, key); }
  }

  /** Without rolled-back key changes, and with no early transaction left, every step is safe. */
  lemma PlainStepsAreSafe<R, G>(s: State<R, G>, step: Step<R>)
    requires step.ReplayNext? ==> s.backlog != []
    requires s.early == 0
    requires s.rebuilt > 0 && s.backlog != [] && s.backlog[0].Move? ==> s.backlog[0].from !in s.ghostTable
    ensures Safe(s, step)
  {
  }

  ghost predicate SafeTo<R(!new), G(!new)>(s: State<R, G>, t: State<R, G>, p: R -> G) {
    exists step: Step<R> :: Enabled(s, step, true) && Safe(s, step) && t == Do(s, step, p)
  }

  /** A run, with share mode, in which every step is safe. */
  ghost predicate IsSafeRun<R(!new), G(!new)>(run: seq<State<R, G>>, p: R -> G) {
    && run != [] && Init(run[0])
    && forall i :: 0 <= i < |run| - 1 ==> SafeTo(run[i], run[i + 1], p)
  }

  lemma {:induction false} RunInv<R(!new), G(!new)>(run: seq<State<R, G>>, p: R -> G)
    requires IsSafeRun(run, p)
    ensures Inv(run[|run| - 1], p)
  {
    var n := |run| - 1;
    if n == 0 {
      InitInv(run[0], p);
    } else {
      var earlier := run[..n];
      assert IsSafeRun(earlier, p) by {
        forall i | 0 <= i < n - 1 ensures SafeTo(earlier[i], earlier[i + 1], p) {
          assert SafeTo(run[i], run[i + 1], p);
        }
      }
      RunInv(earlier, p);
      assert SafeTo(run[n - 1], run[n], p);
      var step: Step<R> :| Enabled(run[n - 1], step, true) && Safe(run[n - 1], step) && run[n] == Do(run[n - 1], step, p);
      StepExact(run[n - 1], step, p);
    }
  }

  /**
   Convergence. In every run of safe steps, replaying the pending events on the ghost table gives, for each covered key,
   exactly the projected row of the original or no row when it has none; for any other key, no row or exactly
   that row.
   */
  lemma Convergence<R(!new), G(!new)>(run: seq<State<R, G>>, p: R -> G, key: Key)
    requires IsSafeRun(run, p)
    ensures var s := run[|run| - 1];
            var caught := At(ReplayAll(s.ghostTable, s.backlog, p), key);
            && (key in s.covered ==> Mirrors(caught, At(s.logical, key), p))
            && (caught.None? || Mirrors(caught, At(s.logical, key), p))
  {
    var s := run[|run| - 1];
    RunInv(run, p);
    assert KeyOk(s, key, p);
    GhostByKey(s.ghostTable, s.backlog, key, p);
  }

  /** Once every key is covered and nothing is pending or hidden, the ghost table is the projected original. */
  lemma ConvergenceAtTheEnd<R, G>(s: State<R, G>, p: R -> G)
    requires Inv(s, p)
    requires forall key :: key in s.covered
    requires s.backlog == [] && s.prepared == []
    ensures s.ghostTable == Project(s.visible, p)
  {
    forall key
      ensures At(s.ghostTable, key) == At(Project(s.visible, p), key)
    {
      assert KeyOk(s, key, p);
      assert !Locked(s, key);
    }
    assert forall key :: key in s.ghostTable <==> key in Project(s.visible, p) by {
      forall key ensures key in s.ghostTable <==> key in Project(s.visible, p) {
        assert At(s.ghostTable, key) == At(Project(s.visible, p), key);
      }
    }
    forall key | key in s.ghostTable ensures s.ghostTable[key] == Project(s.visible, p)[key] {
      assert At(s.ghostTable, key) == At(Project(s.visible, p), key);
    }
  }

  /**
   Without `lock in share mode` the claim is false. A transaction updates a row; its event is streamed and
   replayed, to no effect, since the row has not been copied; then the copy reads the row that is still
   visible, and nothing is left to correct it.
   */
  lemma WithoutShareModeARowGoesStale() returns (run: seq<State<int, int>>, p: int -> int)
    ensures IsRun(run, p, false)
    ensures var s := run[|run| - 1];
            && s.backlog == [] && s.prepared == [] && (forall key :: key in s.covered)
            && s.ghostTable != Project(s.visible, p)
  {
    p := (x: int) => x;
    var key := [1];
    var change := [Update(key, 1)];
    var s0: State<int, int> := State(map[key := 0], [], map[key := 0], map[key := 0], [], map[], iset{}, 0, 0);
    var s1 := Do(s0, Log(change), p);
    var s2 := Do(s1, ReplayNext, p);
    var s3 := Do(s2, Copy(AllKeys()), p);
    var s4 := Do(s3, Show(0), p);
    run := [s0, s1, s2, s3, s4];
    assert change[1..] == [];
    assert ApplyAll(s0.logical, change) == Apply(s0.logical, change[0]);
    assert AllApplicable(s0.logical, change);
    assert Enabled(s0, Log(change), false);
    assert s1.backlog == change;
    assert Enabled(s1, ReplayNext, false);
    assert s2.ghostTable == map[];
    assert Enabled(s2, Copy(AllKeys()), false);
    assert s3.prepared == [change] && s3.ghostTable == map[key := 0];
    assert Enabled(s3, Show(0), false);
    assert s4.visible == map[key := 1];
    assert StepTo(s0, s1, p, false) && StepTo(s1, s2, p, false) && StepTo(s2, s3, p, false) && StepTo(s3, s4, p, false);
  }
}
