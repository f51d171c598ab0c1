/**
 Row copy of a table with one visible row, step by step. The runs of the whole migration are made of these.
 */
module RowCopyRuns {
  import opened Wrappers
  import opened KeyOrder
  import opened TableEvents
  import opened ChunkIteration
  import C = Convergence
  import opened RowCopy

  type Tables = C.State<int, int>
  type S = State<int, int>

  const K1: Key := [1]
  const K2: Key := [2]

  const Same: int -> int := (x: int) => x

  /** A table with one visible row, and the given early transactions. */
  function OneRow(prepared: seq<C.Transaction<int>>, logical: map<Key, int>): S {
    State(C.State(map[K1 := 7], prepared, logical, logical, [], map[], iset{}, |prepared|, 0), None, None, None, None, false)
  }

  /** A step of the schedule itself. */
  ghost predicate CopyStep(s: S, t: S) {
    exists step: Step<int> :: !step.Elsewhere? && Next(s, step, t, Same)
  }

  lemma ReadsMin(s: S) returns (t: S)
    requires s.tables.visible == map[K1 := 7] && s.rangeMin == None && !s.finished
    ensures CopyStep(s, t)
    ensures t == s.(rangeMin := Some(K1), tables := s.tables.(covered := t.tables.covered))
  {
    t := s.(rangeMin := Some(K1), tables := C.Do(s.tables, C.Observe(iset key: Key | Less(key, K1)), Same));
    assert K1 in s.tables.visible;
    QueriesFindNothing(s, ReadMin, t);
    assert Next(s, ReadMin, t, Same);
  }

  lemma ReadsMax(s: S) returns (t: S)
    requires s.tables.visible == map[K1 := 7] && s.rangeMin == Some(K1) && s.rangeMax == None
    ensures CopyStep(s, t)
    ensures t == s.(rangeMax := Some(K1), tables := s.tables.(covered := t.tables.covered))
  {
    t := s.(rangeMax := Some(K1), tables := C.Do(s.tables, C.Observe(iset key: Key | Less(K1, key)), Same));
    QueriesFindNothing(s, ReadMax, t);
    assert Next(s, ReadMax, t, Same);
  }

  lemma ChoosesChunk(s: S) returns (t: S)
    requires s.rangeMin == s.rangeMax == Some(K1) && s.cursor == s.pending == None && !s.finished
    ensures CopyStep(s, t) && t == s.(pending := Some(K1))
  {
    t := s.(pending := Some(K1));
    assert Next(s, ChooseChunk(K1), t, Same);
  }

  lemma CopiesChunk(s: S) returns (t: S)
    requires s.tables.visible == map[K1 := 7] && s.tables.ghostTable == map[] && !C.Locked(s.tables, K1)
    requires s.rangeMin == s.rangeMax == s.pending == Some(K1) && s.cursor == None
    ensures CopyStep(s, t)
    ensures t == s.(cursor := Some(K1), pending := None,
                    tables := s.tables.(ghostTable := map[K1 := 7], covered := t.tables.covered))
  {
    var keys := iset key: Key | InInterval(key, K1, true, K1);
    OnlyOneKey();
    t := s.(cursor := Some(K1), pending := None, tables := C.Do(s.tables, C.Copy(keys), Same));
    assert t.tables.ghostTable == map[K1 := 7];
    assert Next(s, CopyChunk, t, Same);
  }

  lemma Finishes(s: S) returns (t: S)
    requires s.rangeMin == s.rangeMax == s.cursor == Some(K1) && s.pending == None && !s.finished
    ensures CopyStep(s, t) && t.finished
    ensures t.tables == s.tables.(covered := t.tables.covered)
  {
    forall key ensures !InRest(s, key) {
      AtMostIsNotGreater(key, K1);
    }
    var rest := iset key: Key | InRest(s, key);
    t := s.(finished := true, tables := C.Do(s.tables, C.Observe(rest), Same));
    assert Next(s, NoFurtherRange, t, Same);
  }

  lemma OnlyOneKey()
    ensures forall key :: InInterval(key, K1, true, K1) <==> key == K1
  {
    forall key ensures InInterval(key, K1, true, K1) <==> key == K1 {
      AtMostIsNotGreater(K1, key);
    }
  }

  /** The start with an early transaction that inserts a second row. */
  lemma EarlyStart(s: S, insert: Event<int>)
    requires insert == Insert(K2, 5) && s == OneRow([[insert]], map[K1 := 7, K2 := 5])
    ensures Init(s) && !C.Locked(s.tables, K1)
  {
    forall key ensures C.LocksOk(s.tables, key) && C.EarlyOk(s.tables, key) {
      EarlyInsert(s.tables, insert, key);
    }
    forall i | 0 <= i < 1 ensures !C.TouchesAny(s.tables.prepared[i], K1) { }
  }

  lemma EarlyInsert(tables: Tables, insert: Event<int>, key: Key)
    requires insert == Insert(K2, 5) && tables.prepared == [[insert]] && tables.early == 1
    requires tables.visible == map[K1 := 7] && tables.logical == map[K1 := 7, K2 := 5]
    requires tables.backlog == [] && tables.ghostTable == map[]
    ensures C.LocksOk(tables, key) && C.EarlyOk(tables, key)
  {
    assert [insert][1..] == [];
    assert C.TouchesAny(tables.prepared[0], key) <==> key == K2 by {
      assert key == K2 ==> C.Touches(tables.prepared[0][0], key);
    }
    assert C.ApplyAllAt(C.At(tables.visible, key), [insert], key)
        == C.ApplyAllAt(C.ApplyAt(C.At(tables.visible, key), insert, key), [], key);
  }
}
