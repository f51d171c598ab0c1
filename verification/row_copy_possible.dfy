/**
 Row copy can always go on and finish: any table, cut every `chunkSize` keys, has a run of the schedule that copies
 exactly those chunks, step by safe step.
 */
module RowCopyPossible {
  import opened Wrappers
  import opened KeyOrder
  import opened TableEvents
  import opened ChunkIteration
  import opened RowCopy
  import C = Convergence

  // ---- Listing a table's keys in order ----

  lemma {:induction false} Insertion(keys: seq<Key>, key: Key) returns (longer: seq<Key>)
    requires Sorted(keys) && key !in keys
    ensures Sorted(longer) && forall k :: k in longer <==> k == key || k in keys
  {
    if keys == [] {
      longer := [key];
    } else {
      LessTotal(key, keys[0]);
      assert keys == [keys[0]] + keys[1..];
      if Less(key, keys[0]) {
        longer := [key] + keys;
        forall i | 0 < i < |longer| ensures Less(key, longer[i]) {
          if i > 1 {
            LessTransitive(key, keys[0], keys[i - 1]);
          }
        }
      } else {
        var rest := Insertion(keys[1..], key);
        longer := [keys[0]] + rest;
        forall i | 0 < i < |longer| ensures Less(keys[0], longer[i]) {
          assert longer[i] in rest;
        }
      }
    }
  }

  lemma {:induction false} Listing(domain: set<Key>) returns (keys: seq<Key>)
    ensures Sorted(keys) && forall k :: k in keys <==> k in domain
  {
    if domain == {} {
      keys := [];
    } else {
      var key :| key in domain;
      var rest := Listing(domain - {key});
      keys := Insertion(rest, key);
    }
  }

  // ---- Runs of the schedule alone ----

  /** A safe step of row copy itself. */
  ghost predicate CopyNext<R(!new), G(!new)>(s: State<R, G>, t: State<R, G>, p: R -> G) {
    exists step: Step<R> :: !step.Elsewhere? && Next(s, step, t, p) && Safe(s, step, t)
  }

  ghost predicate CopyRun<R(!new), G(!new)>(run: seq<State<R, G>>, s: State<R, G>, t: State<R, G>, p: R -> G) {
    && run != [] && run[0] == s && run[|run| - 1] == t
    && forall i :: 0 <= i < |run| - 1 ==> CopyNext(run[i], run[i + 1], p)
  }

  lemma OneMore<R(!new), G(!new)>(s: State<R, G>, run: seq<State<R, G>>, u: State<R, G>, t: State<R, G>, p: R -> G)
    requires CopyRun(run, u, t, p) && CopyNext(s, u, p)
    ensures CopyRun([s] + run, s, t, p)
  {
    var longer := [s] + run;
    forall i | 0 <= i < |longer| - 1 ensures CopyNext(longer[i], longer[i + 1], p) {
      assert i > 0 ==> longer[i] == run[i - 1] && longer[i + 1] == run[i];
    }
  }

  lemma OneStep<R(!new), G(!new)>(s: State<R, G>, t: State<R, G>, p: R -> G)
    requires CopyNext(s, t, p)
    ensures CopyRun([s] + [t], s, t, p)
  {
    OneMore(s, [t], t, t, p);
  }

  lemma TwoMore<R(!new), G(!new)>(s: State<R, G>, u: State<R, G>, run: seq<State<R, G>>, v: State<R, G>,
                                  t: State<R, G>, p: R -> G)
    requires CopyNext(s, u, p) && CopyNext(u, v, p) && CopyRun(run, v, t, p)
    ensures CopyRun([s] + ([u] + run), s, t, p) && ([s] + ([u] + run))[2..] == run
  {
    OneMore(u, run, v, t, p);
    OneMore(s, [u] + run, u, t, p);
  }

  /** No transaction is open, and `keys` are those of the table. */
  ghost predicate Calm<R, G>(s: State<R, G>, keys: seq<Key>) {
    && s.tables.prepared == [] && s.tables.early == 0
    && Sorted(keys) && forall k :: k in keys <==> k in s.tables.visible
  }

  /** The range is known, and the next chunk is to be chosen. */
  ghost predicate Ready<R, G>(s: State<R, G>) {
    s.rangeMin.Some? && s.rangeMax.Some? && s.pending.None? && !s.finished
  }

  /** Row copy has touched nothing but the ghost table. */
  ghost predicate OnlyCopied<R, G>(s: State<R, G>, t: State<R, G>) {
    t.tables == s.tables.(ghostTable := t.tables.ghostTable, covered := t.tables.covered)
  }

  // ---- Its steps ----

  lemma NothingIsMissed<R, G>(s: State<R, G>, key: Key)
    requires s.tables.early == 0
    ensures !C.MissesRow(s.tables, key)
  {
  }

  lemma Observing<R(!new), G(!new)>(s: State<R, G>, step: Step<R>, t: State<R, G>, p: R -> G)
    requires s.tables.early == 0 && Next(s, step, t, p) && (step.ReadMin? || step.ReadMax? || step.NoFurtherRange?)
    ensures CopyNext(s, t, p)
  {
    forall key ensures !C.MissesRow(s.tables, key) {
      NothingIsMissed(s, key);
    }
    assert Safe(s, step, t);
  }

  /** Any key of the rest of the range can end the next chunk, and the chunk up to it can be copied. */
  lemma ChunkIsCopied<R(!new), G(!new)>(s: State<R, G>, keys: seq<Key>, end: Key, p: R -> G)
    returns (chosen: State<R, G>, copied: State<R, G>)
    requires Calm(s, keys) && Ready(s) && InRest(s, end)
    ensures CopyNext(s, chosen, p) && CopyNext(chosen, copied, p)
    ensures OnlyCopied(s, copied) && Calm(copied, keys)
    ensures copied == s.(cursor := Some(end), tables := copied.tables)
  {
    chosen := s.(pending := Some(end));
    assert Next(s, ChooseChunk(end), chosen, p) && Safe(s, ChooseChunk(end), chosen);
    var chunk := iset key: Key | InInterval(key, Start(chosen), chosen.cursor.None?, end);
    copied := chosen.(cursor := Some(end), pending := None, tables := C.Do(chosen.tables, C.Copy(chunk), p));
    assert Next(chosen, CopyChunk, copied, p) && Safe(chosen, CopyChunk, copied);
  }

  /** When no key is left in range, row copy ends. */
  lemma NothingIsLeft<R(!new), G(!new)>(s: State<R, G>, keys: seq<Key>, p: R -> G) returns (t: State<R, G>)
    requires Calm(s, keys) && Ready(s) && Window(keys, Start(s), s.cursor.None?, s.rangeMax.value) == []
    ensures CopyNext(s, t, p) && t.finished && OnlyCopied(s, t)
  {
    QueryAnswers(keys, Start(s), s.cursor.None?, s.rangeMax.value);
    var rest := iset key: Key | InRest(s, key);
    t := s.(finished := true, tables := C.Do(s.tables, C.Observe(rest), p));
    assert Next(s, NoFurtherRange, t, p);
    Observing(s, NoFurtherRange, t, p);
  }

  // ---- The rest of the range ----

  /** The i-th chunk is the i-th piece: its last key ends it. */
  ghost predicate CopiesPieces<R, G>(run: seq<State<R, G>>, pieces: seq<seq<Key>>) {
    && |run| == 2 * |pieces| + 2
    && forall i :: 0 <= i < |pieces| ==> pieces[i] != [] && run[2 * i + 2].cursor == Some(pieces[i][|pieces[i]| - 1])
  }

  lemma FirstPiece<R, G>(s: State<R, G>, chosen: State<R, G>, rest: seq<State<R, G>>, piece: seq<Key>,
                         pieces: seq<seq<Key>>)
    requires CopiesPieces(rest, pieces) && piece != [] && rest[0].cursor == Some(piece[|piece| - 1])
    ensures CopiesPieces([s] + ([chosen] + rest), [piece] + pieces)
  {
    var run, all := [s] + ([chosen] + rest), [piece] + pieces;
    forall i | 0 <= i < |all| ensures all[i] != [] && run[2 * i + 2].cursor == Some(all[i][|all[i]| - 1]) {
      assert run[2 * i + 2] == rest[2 * i];
      if i > 0 {
        assert all[i] == pieces[i - 1] && rest[2 * i] == rest[2 * (i - 1) + 2];
      }
    }
  }

  /** A run to the end that copies these pieces. */
  ghost predicate CopiesAll<R(!new), G(!new)>(run: seq<State<R, G>>, s: State<R, G>, t: State<R, G>,
                                              pieces: seq<seq<Key>>, p: R -> G) {
    CopyRun(run, s, t, p) && t.finished && OnlyCopied(s, t) && CopiesPieces(run, pieces)
  }

  lemma ChunkFirst<R(!new), G(!new)>(s: State<R, G>, chosen: State<R, G>, copied: State<R, G>, rest: seq<State<R, G>>,
                                     t: State<R, G>, piece: seq<Key>, pieces: seq<seq<Key>>, p: R -> G)
    returns (run: seq<State<R, G>>)
    requires CopyNext(s, chosen, p) && CopyNext(chosen, copied, p) && OnlyCopied(s, copied)
    requires CopiesAll(rest, copied, t, pieces, p) && piece != [] && copied.cursor == Some(piece[|piece| - 1])
    ensures CopiesAll(run, s, t, [piece] + pieces, p)
  {
    TwoMore(s, chosen, rest, copied, t, p);
    run := [s] + ([chosen] + rest);
    FirstPiece(s, chosen, rest, piece, pieces);
  }

  /** The end of the first piece is a key of the rest, and behind it are the other pieces. */
  lemma FirstPieceEnds(keys: seq<Key>, lo: Key, includeLo: bool, hi: Key, chunkSize: int) returns (end: Key, n: nat)
    requires Sorted(keys) && chunkSize > 0 && Window(keys, lo, includeLo, hi) != []
    ensures
      var w := Window(keys, lo, includeLo, hi);
      && 0 < n <= |w| && end == w[n - 1] && InInterval(end, lo, includeLo, hi)
      && Window(keys, end, false, hi) == w[n..]
      && Pieces(w, chunkSize) == [w[..n]] + Pieces(w[n..], chunkSize)
  {
    var w := Window(keys, lo, includeLo, hi);
    n := if chunkSize <= |w| then chunkSize else |w|;
    end := w[n - 1];
    WindowMembers(keys, lo, includeLo, hi, end);
    WindowSplit(keys, lo, includeLo, hi, n - 1);
  }

  function Rest<R, G>(s: State<R, G>, keys: seq<Key>): seq<Key>
    requires s.rangeMin.Some? && s.rangeMax.Some?
  {
    Window(keys, Start(s), s.cursor.None?, s.rangeMax.value)
  }

  lemma CopiesNothing<R(!new), G(!new)>(s: State<R, G>, keys: seq<Key>, p: R -> G)
    returns (run: seq<State<R, G>>, t: State<R, G>)
    requires Calm(s, keys) && Ready(s) && Rest(s, keys) == []
    ensures CopiesAll(run, s, t, [], p)
  {
    t := NothingIsLeft(s, keys, p);
    OneStep(s, t, p);
    run := [s] + [t];
  }

  lemma CopiesOneChunk<R(!new), G(!new)>(s: State<R, G>, keys: seq<Key>, chunkSize: int, p: R -> G)
    returns (chosen: State<R, G>, copied: State<R, G>, piece: seq<Key>)
    requires Calm(s, keys) && Ready(s) && chunkSize > 0 && Rest(s, keys) != []
    ensures CopyNext(s, chosen, p) && CopyNext(chosen, copied, p)
    ensures Calm(copied, keys) && Ready(copied) && OnlyCopied(s, copied)
    ensures Pieces(Rest(s, keys), chunkSize) == [piece] + Pieces(Rest(copied, keys), chunkSize)
    ensures piece != [] && copied.cursor == Some(piece[|piece| - 1]) && |Rest(copied, keys)| < |Rest(s, keys)|
  {
    var end, n := FirstPieceEnds(keys, Start(s), s.cursor.None?, s.rangeMax.value, chunkSize);
    chosen, copied := ChunkIsCopied(s, keys, end, p);
    piece := Rest(s, keys)[..n];
  }

  /** From wherever the cursor is, the rest of the range can be copied in chunks of the given size. */
  lemma {:induction false} CopiesTheRest<R(!new), G(!new)>(s: State<R, G>, keys: seq<Key>, chunkSize: int, p: R -> G)
    returns (run: seq<State<R, G>>, t: State<R, G>)
    requires Calm(s, keys) && Ready(s) && chunkSize > 0
    ensures CopiesAll(run, s, t, Pieces(Rest(s, keys), chunkSize), p)
    decreases |Rest(s, keys)|
  {
    if Rest(s, keys) == [] {
      run, t := CopiesNothing(s, keys, p);
    } else {
      var chosen, copied, piece := CopiesOneChunk(s, keys, chunkSize, p);
      var rest;
      rest, t := CopiesTheRest(copied, keys, chunkSize, p);
      run := ChunkFirst(s, chosen, copied, rest, t, piece, Pieces(Rest(copied, keys), chunkSize), p);
    }
  }

  // ---- The whole table ----

  lemma FirstIsLeast<R>(keys: seq<Key>, t: map<Key, R>)
    requires Sorted(keys) && keys != [] && forall k :: k in keys <==> k in t
    ensures Least(t, keys[0]) && Greatest(t, keys[|keys| - 1])
  {
    assert keys[0] in keys && keys[|keys| - 1] in keys;
    forall k | k in t ensures AtMost(keys[0], k) && AtMost(k, keys[|keys| - 1]) {
      var i :| 0 <= i < |keys| && keys[i] == k;
    }
  }

  lemma {:induction false} WholeWindow(keys: seq<Key>, lo: Key, hi: Key)
    requires forall k :: k in keys ==> InInterval(k, lo, true, hi)
    ensures Window(keys, lo, true, hi) == keys
  {
    if keys != [] {
      WholeWindow(keys[1..], lo, hi);
    }
  }

  lemma ReadsRange<R(!new), G(!new)>(s: State<R, G>, keys: seq<Key>, p: R -> G)
    returns (atMin: State<R, G>, atMax: State<R, G>)
    requires Calm(s, keys) && keys != [] && s.rangeMin == s.rangeMax == s.cursor == s.pending == None && !s.finished
    ensures CopyNext(s, atMin, p) && CopyNext(atMin, atMax, p) && OnlyCopied(s, atMax) && Calm(atMax, keys)
    ensures atMax == s.(rangeMin := Some(keys[0]), rangeMax := Some(keys[|keys| - 1]), tables := atMax.tables)
  {
    var least, greatest := keys[0], keys[|keys| - 1];
    FirstIsLeast(keys, s.tables.visible);
    atMin := s.(rangeMin := Some(least), tables := C.Do(s.tables, C.Observe(iset key: Key | Less(key, least)), p));
    QueriesFindNothing(s, ReadMin, atMin);
    Observing(s, ReadMin, atMin, p);
    atMax := atMin.(rangeMax := Some(greatest), tables := C.Do(atMin.tables, C.Observe(iset key: Key | Less(greatest, key)), p));
    QueriesFindNothing(atMin, ReadMax, atMax);
    Observing(atMin, ReadMax, atMax, p);
  }

  lemma EmptyTable<R(!new), G(!new)>(s: State<R, G>, p: R -> G) returns (t: State<R, G>)
    requires s.tables.visible == map[] && s.tables.early == 0 && s.rangeMin.None? && !s.finished
    ensures CopyNext(s, t, p) && t.finished && OnlyCopied(s, t)
  {
    t := s.(finished := true, tables := C.Do(s.tables, C.Observe(AllKeys()), p));
    assert Next(s, ReadMin, t, p);
    Observing(s, ReadMin, t, p);
  }

  /**
   Every table can be copied from the start, in chunks of any size: unless it is empty, the range is read, and then the
   chunks are its keys cut every `chunkSize` keys.
   */
  lemma RowCopyCanFinish<R(!new), G(!new)>(s: State<R, G>, keys: seq<Key>, chunkSize: int, p: R -> G)
    returns (run: seq<State<R, G>>, t: State<R, G>)
    requires Calm(s, keys) && chunkSize > 0
    requires s.rangeMin == s.rangeMax == s.cursor == s.pending == None && !s.finished
    ensures CopyRun(run, s, t, p) && t.finished && OnlyCopied(s, t)
    ensures keys != [] ==> |run| >= 2 && CopiesPieces(run[2..], Pieces(keys, chunkSize))
  {
    if keys == [] {
      assert s.tables.visible == map[];
      t := EmptyTable(s, p);
      OneStep(s, t, p);
      run := [s] + [t];
    } else {
      var atMin, atMax := ReadsRange(s, keys, p);
      AllIsLeft(atMax, keys);
      var rest;
      rest, t := CopiesTheRest(atMax, keys, chunkSize, p);
      TwoMore(s, atMin, rest, atMax, t, p);
      run := [s] + ([atMin] + rest);
    }
  }

  lemma AllIsLeft<R, G>(s: State<R, G>, keys: seq<Key>)
    requires Calm(s, keys) && keys != [] && s.rangeMin == Some(keys[0]) && s.rangeMax == Some(keys[|keys| - 1]) && s.cursor.None?
    ensures Rest(s, keys) == keys
  {
    FirstIsLeast(keys, s.tables.visible);
    WholeWindow(keys, keys[0], keys[|keys| - 1]);
  }
}
