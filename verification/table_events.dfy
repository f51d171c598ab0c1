/**
 Row events on a table that is a map from unique key to row: what an event does to the original table, and
 what replaying it does to the ghost table.
 */
module TableEvents {
  import opened Wrappers
  import opened KeyOrder

  datatype Event<+R> =
    | Insert(key: Key, row: R)
    | Delete(key: Key)
    | Update(key: Key, row: R)
    | Move(from: Key, to: Key, row: R)

  /** The server only logs changes that it could make. */
  predicate Applicable<R>(t: map<Key, R>, e: Event<R>) {
    match e
    case Insert(key, _) => key !in t
    case Delete(key) => key in t
    case Update(key, _) => key in t
    case Move(from, to, _) => from != to && from in t && to !in t
  }

  function Apply<R>(t: map<Key, R>, e: Event<R>): map<Key, R> {
    match e
    case Insert(key, row) => t[key := row]
    case Delete(key) => t - {key}
    case Update(key, row) => t[key := row]
    case Move(from, to, row) => (t - {from})[to := row]
  }

  /** `replace` overwrites, `update` changes a row that is there, `delete` removes; a move is delete and replace. */
  function Replay<R, G>(g: map<Key, G>, e: Event<R>, p: R -> G): map<Key, G> {
    match e
    case Insert(key, row) => g[key := p(row)]
    case Delete(key) => g - {key}
    case Update(key, row) => if key in g then g[key := p(row)] else g
    case Move(from, to, row) => (g - {from})[to := p(row)]
  }

  /** What a second build of an event applies: a key-changing update has become the insert of its new row. */
  function Retried<R>(e: Event<R>): Event<R> {
    if e.Move? then Insert(e.to, e.row) else e
  }

  /** Replaying the rebuilt event comes to the same if and only if no ghost row is left behind at the old key. */
  lemma ReplayRetried<R, G>(g: map<Key, G>, e: Event<R>, p: R -> G)
    requires e.Move? ==> e.from != e.to
    ensures Replay(g, Retried(e), p) == Replay(g, e, p) <==> !(e.Move? && e.from in g)
  {
    if e.Move? {
      if e.from in g {
        assert e.from in Replay(g, Retried(e), p) && e.from !in Replay(g, e, p);
      } else {
        assert g - {e.from} == g;
      }
    }
  }

  function Project<R, G>(t: map<Key, R>, p: R -> G): map<Key, G> {
    map key | key in t :: p(t[key])
  }

  /** On a ghost table that mirrors the original, replay keeps the mirror. */
  lemma ReplayMirrors<R, G>(t: map<Key, R>, e: Event<R>, p: R -> G)
    requires Applicable(t, e)
    ensures Replay(Project(t, p), e, p) == Project(Apply(t, e), p)
  {
    var left := Replay(Project(t, p), e, p);
    var right := Project(Apply(t, e), p);
    assert left.Keys == right.Keys;
  }

  function ReplayAll<R, G>(g: map<Key, G>, es: seq<Event<R>>, p: R -> G): map<Key, G>
    decreases es
  {
    if es == [] then g else ReplayAll(Replay(g, es[0], p), es[1..], p)
  }

  function ApplyAll<R>(t: map<Key, R>, es: seq<Event<R>>): map<Key, R>
    decreases es
  {
    if es == [] then t else ApplyAll(Apply(t, es[0]), es[1..])
  }

  predicate AllApplicable<R>(t: map<Key, R>, es: seq<Event<R>>)
    decreases es
  {
    es == [] || (Applicable(t, es[0]) && AllApplicable(Apply(t, es[0]), es[1..]))
  }

  lemma {:induction false} ReplayAllAppend<R, G>(g: map<Key, G>, xs: seq<Event<R>>, ys: seq<Event<R>>, p: R -> G)
    ensures ReplayAll(g, xs + ys, p) == ReplayAll(ReplayAll(g, xs, p), ys, p)
    decreases xs
  {
    if xs == [] {
      assert xs + ys == ys;
    } else {
      assert (xs + ys)[1..] == xs[1..] + ys;
      ReplayAllAppend(Replay(g, xs[0], p), xs[1..], ys, p);
    }
  }

  // ---- Batches that are built again ----

  /** The events of a batch of which an earlier attempt has built the first `n`. */
  function RetriedFirst<R>(es: seq<Event<R>>, n: nat): (r: seq<Event<R>>)
    ensures |r| == |es|
    ensures forall i :: 0 <= i < |es| ==> r[i] == if i < n then Retried(es[i]) else es[i]
  {
    seq(|es|, i requires 0 <= i < |es| => if i < n then Retried(es[i]) else es[i])
  }

  /** No key-changing update among the first `n` finds a ghost row under its old key when its turn comes. */
  ghost predicate HarmlessRetry<R, G>(g: map<Key, G>, es: seq<Event<R>>, n: nat, p: R -> G)
    decreases |es|
  {
    es == [] || n == 0 ||
    (!(es[0].Move? && es[0].from in g) && HarmlessRetry(Replay(g, es[0], p), es[1..], n - 1, p))
  }

  /** A harmless retry does to the ghost table what the fresh events do. */
  lemma {:induction false} HarmlessRetryIsReplay<R, G>(g: map<Key, G>, es: seq<Event<R>>, n: nat, p: R -> G)
    requires HarmlessRetry(g, es, n, p)
    ensures ReplayAll(g, RetriedFirst(es, n), p) == ReplayAll(g, es, p)
    decreases |es|
  {
    var r := RetriedFirst(es, n);
    if es == [] || n == 0 {
      assert r == es;
    } else {
      assert r[1..] == RetriedFirst(es[1..], n - 1);
      assert es[0].Move? ==> g - {es[0].from} == g;
      HarmlessRetryIsReplay(Replay(g, es[0], p), es[1..], n - 1, p);
    }
  }
}
