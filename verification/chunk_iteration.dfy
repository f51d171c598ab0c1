/**
 Row copy works through the unique key in chunks. Each step asks the server for the key that ends the next
 chunk, first with an OFFSET query and, when that finds nothing, with a temporary-table query; then it
 copies the rows of the interval.
 */
module ChunkIteration {
  import opened Wrappers
  import opened KeyOrder
  import opened RangeComparison

  /** The lower end of an interval is included only in the first iteration. */
  predicate InInterval(key: Key, lo: Key, includeLo: bool, hi: Key) {
    (if includeLo then AtMost(lo, key) else Less(lo, key)) && AtMost(key, hi)
  }

  // ---- Queries over one snapshot of the table, given by its keys in index order ----

  ghost predicate Sorted(keys: seq<Key>) {
    forall i, j :: 0 <= i < j < |keys| ==> Less(keys[i], keys[j])
  }

  ghost predicate Width(keys: seq<Key>, n: nat) {
    forall i :: 0 <= i < |keys| ==> |keys[i]| == n
  }

  predicate Distinct(columns: seq<string>) {
    forall i, j :: 0 <= i < j < |columns| ==> columns[i] != columns[j]
  }

  function RowWithKey(columns: seq<string>, key: Key): Row
    requires |columns| == |key|
  {
    if columns == [] then map[] else RowWithKey(columns[1..], key[1..])[columns[0] := key[0]]
  }

  lemma {:induction false} RowWithKeyHasKey(columns: seq<string>, key: Key)
    requires |columns| == |key| && Distinct(columns)
    ensures KeyOf(RowWithKey(columns, key), columns) == key
    ensures RowWithKey(columns, key).Keys == set c | c in columns
  {
    if columns != [] {
      RowWithKeyHasKey(columns[1..], key[1..]);
      var rest := RowWithKey(columns[1..], key[1..]);
      forall i | 0 <= i < |columns|
        ensures ColumnValue(RowWithKey(columns, key), columns[i]) == key[i]
      {
        if i > 0 {
          assert columns[i] == columns[1..][i - 1] && key[i] == key[1..][i - 1];
          assert KeyOf(rest, columns[1..])[i - 1] == ColumnValue(rest, columns[i]);
        }
      }
    }
  }

  datatype RangeEndQuery =
    | ViaOffset(where: Condition, offset: int)
    | ViaTemptable(where: Condition, limit: int)

  function Matching(where: Condition, args: seq<int>, columns: seq<string>, keys: seq<Key>): seq<Key>
    requires |args| == Placeholders(where)
    requires forall i :: 0 <= i < |keys| ==> |keys[i]| == |columns|
  {
    if keys == [] then [] else
    var first := if Eval(where, RowWithKey(columns, keys[0]), args) then [keys[0]] else [];
    first + Matching(where, args, columns, keys[1..])
  }

  /** `limit 1 offset n` over the ascending keys, against "the last of the first n" through a subquery. */
  function Pick(query: RangeEndQuery, found: seq<Key>): Option<Key> {
    match query
    case ViaOffset(_, offset) => if 0 <= offset < |found| then Some(found[offset]) else None
    case ViaTemptable(_, limit) =>
      if found == [] || limit <= 0 then None
      else if limit <= |found| then Some(found[limit - 1]) else Some(found[|found| - 1])
  }

  function Execute(query: RangeEndQuery, args: seq<int>, columns: seq<string>, keys: seq<Key>): Option<Key>
    requires |args| == Placeholders(query.where)
    requires forall i :: 0 <= i < |keys| ==> |keys[i]| == |columns|
  {
    Pick(query, Matching(query.where, args, columns, keys))
  }

  /** The keys of the table that lie in an interval. */
  function Window(keys: seq<Key>, lo: Key, includeLo: bool, hi: Key): seq<Key> {
    if keys == [] then [] else
    var first := if InInterval(keys[0], lo, includeLo, hi) then [keys[0]] else [];
    first + Window(keys[1..], lo, includeLo, hi)
  }

  lemma {:induction false} WindowMembers(keys: seq<Key>, lo: Key, includeLo: bool, hi: Key, key: Key)
    ensures key in Window(keys, lo, includeLo, hi) <==> key in keys && InInterval(key, lo, includeLo, hi)
  {
    if keys != [] {
      WindowMembers(keys[1..], lo, includeLo, hi, key);
      assert keys == [keys[0]] + keys[1..];
    }
  }

  // ---- The query builders ----

  function Signs(includeStart: bool): Sign {
    if includeStart then GreaterThanOrEquals else GreaterThan
  }

  /** A builder's where clause is right when it selects the interval by key, one argument a placeholder. */
  ghost predicate SelectsInterval(where: Condition, args: seq<int>, columns: seq<string>, lo: Key, includeLo: bool,
                                  hi: Key) {
    Placeholders(where) == |args| &&
    forall row: Row :: Eval(where, row, args) <==> InInterval(KeyOf(row, columns), lo, includeLo, hi)
  }

  /** `start and end`, with the arguments of `start` before those of `end`. */
  lemma {:induction false} BothConditions(start: Condition, end: Condition, a: seq<int>, b: seq<int>, row: Row)
    requires |a| == Placeholders(start) && |b| == Placeholders(end)
    ensures Placeholders(And([start, end])) == |a + b|
    ensures Eval(And([start, end]), row, a + b) <==> Eval(start, row, a) && Eval(end, row, b)
  {
    var parts := [start, end];
    assert parts[1..] == [end] && [end][1..] == [];
    assert (a + b)[..|a|] == a && (a + b)[|a|..] == b && b[..|b|] == b;
    assert PlaceholdersOfAll([end]) == |b|;
    assert EvalEvery(parts, row, a + b) <==> Eval(start, row, a) && EvalEvery([end], row, b);
    assert EvalEvery([end], row, b) <==> Eval(end, row, b) && EvalEvery([], row, b[|b|..]);
  }

  /** The where clause shared by the range-end queries and by the chunk copy. */
  method BuildIntervalCondition(columns: seq<string>, values: seq<string>, lo: Key, hi: Key, includeLo: bool)
    returns (r: Result<(Condition, seq<int>)>)
    requires |values| == |columns|
    ensures r.Ok? <==> 0 < |columns| == |lo| == |hi| && AllNamed(columns, values)
    ensures r.Ok? ==> SelectsInterval(r.value.0, r.value.1, columns, lo, includeLo, hi)
  {
    var start := BuildRangeComparison(columns, values, lo, Signs(includeLo));
    if start.Err? {
      return Err(start.message);
    }
    var end := BuildRangeComparison(columns, values, hi, LessThanOrEquals);
    if end.Err? {
      return Err(end.message);
    }
    var (startCondition, startArgs) := start.value;
    var (endCondition, endArgs) := end.value;
    BothConditions(startCondition, endCondition, startArgs, endArgs, map[]);
    forall row: Row
      ensures Eval(And([startCondition, endCondition]), row, startArgs + endArgs)
              <==> InInterval(KeyOf(row, columns), lo, includeLo, hi)
    {
      BothConditions(startCondition, endCondition, startArgs, endArgs, row);
    }
    return Ok((And([startCondition, endCondition]), startArgs + endArgs));
  }

  function PreparedValues(n: nat): (values: seq<string>)
    ensures |values| == n
  {
    seq(n, _ => "?")
  }

  method BuildUniqueKeyRangeEndPreparedQueryViaOffset(columns: seq<string>, lo: Key, hi: Key, chunkSize: int,
                                                      includeLo: bool)
    returns (r: Result<(RangeEndQuery, seq<int>)>)
    ensures r.Ok? <==> 0 < |columns| == |lo| == |hi| && "" !in columns
    ensures r.Ok? ==> r.value.0.ViaOffset? && r.value.0.offset == chunkSize - 1
    ensures r.Ok? ==> SelectsInterval(r.value.0.where, r.value.1, columns, lo, includeLo, hi)
  {
    if |columns| == 0 {
      return Err("no columns");
    }
    var condition := BuildIntervalCondition(columns, PreparedValues(|columns|), lo, hi, includeLo);
    if condition.Err? {
      return Err(condition.message);
    }
    return Ok((ViaOffset(condition.value.0, chunkSize - 1), condition.value.1));
  }

  method BuildUniqueKeyRangeEndPreparedQueryViaTemptable(columns: seq<string>, lo: Key, hi: Key, chunkSize: int,
                                                         includeLo: bool)
    returns (r: Result<(RangeEndQuery, seq<int>)>)
    ensures r.Ok? <==> 0 < |columns| == |lo| == |hi| && "" !in columns
    ensures r.Ok? ==> r.value.0.ViaTemptable? && r.value.0.limit == chunkSize
    ensures r.Ok? ==> SelectsInterval(r.value.0.where, r.value.1, columns, lo, includeLo, hi)
  {
    if |columns| == 0 {
      return Err("no columns");
    }
    var condition := BuildIntervalCondition(columns, PreparedValues(|columns|), lo, hi, includeLo);
    if condition.Err? {
      return Err(condition.message);
    }
    return Ok((ViaTemptable(condition.value.0, chunkSize), condition.value.1));
  }

  /** `insert ignore into ghost (mapped) select shared from original where ... [lock in share mode]` */
  datatype RangeInsertQuery = RangeInsertQuery(
    mappedColumns: seq<string>, sharedColumns: seq<string>, where: Condition, lockInShareMode: bool)

  method BuildRangeInsertPreparedQuery(sharedColumns: seq<string>, mappedColumns: seq<string>, columns: seq<string>,
                                       lo: Key, hi: Key, includeLo: bool, transactionalTable: bool)
    returns (r: Result<(RangeInsertQuery, seq<int>)>)
    ensures r.Ok? <==> sharedColumns != [] && 0 < |columns| == |lo| == |hi| && "" !in columns
    ensures r.Ok? ==> SelectsInterval(r.value.0.where, r.value.1, columns, lo, includeLo, hi)
    ensures r.Ok? ==> r.value.0.sharedColumns == sharedColumns && r.value.0.mappedColumns == mappedColumns
    ensures r.Ok? ==> r.value.0.lockInShareMode == transactionalTable
  {
    if |sharedColumns| == 0 {
      return Err("no shared columns");
    }
    var condition := BuildIntervalCondition(columns, PreparedValues(|columns|), lo, hi, includeLo);
    if condition.Err? {
      return Err(condition.message);
    }
    return Ok((RangeInsertQuery(mappedColumns, sharedColumns, condition.value.0, transactionalTable), condition.value.1));
  }

  /** A query with the right where clause sees exactly the keys of the interval. */
  lemma {:induction false} MatchingIsWindow(where: Condition, args: seq<int>, columns: seq<string>, keys: seq<Key>,
                                            lo: Key, includeLo: bool, hi: Key)
    requires SelectsInterval(where, args, columns, lo, includeLo, hi)
    requires Distinct(columns) && Width(keys, |columns|)
    ensures Matching(where, args, columns, keys) == Window(keys, lo, includeLo, hi)
  {
    if keys != [] {
      RowWithKeyHasKey(columns, keys[0]);
      assert Eval(where, RowWithKey(columns, keys[0]), args)
        <==> InInterval(KeyOf(RowWithKey(columns, keys[0]), columns), lo, includeLo, hi);
      MatchingIsWindow(where, args, columns, keys[1..], lo, includeLo, hi);
    }
  }

  // ---- Intervals of a sorted table ----

  /** The table above `w[j]` is the rest of the window `w`, and up to `w[j]` it is the first part. */
  lemma {:induction false} WindowSplit(keys: seq<Key>, lo: Key, includeLo: bool, hi: Key, j: nat)
    requires Sorted(keys)
    requires j < |Window(keys, lo, includeLo, hi)|
    ensures var w := Window(keys, lo, includeLo, hi);
            && Window(keys, lo, includeLo, w[j]) == w[..j + 1]
            && Window(keys, w[j], false, hi) == w[j + 1..]
  {
    if !InInterval(keys[0], lo, includeLo, hi) {
      WindowSplit(keys[1..], lo, includeLo, hi, j);
      SkippedFirst(keys, lo, includeLo, hi, j);
    } else if j == 0 {
      FirstCut(keys, lo, includeLo, hi);
    } else {
      WindowSplit(keys[1..], lo, includeLo, hi, j - 1);
      SplitLater(keys, lo, includeLo, hi, j);
    }
  }

  lemma {:induction false} SkippedFirst(keys: seq<Key>, lo: Key, includeLo: bool, hi: Key, j: nat)
    requires keys != [] && !InInterval(keys[0], lo, includeLo, hi)
    requires j < |Window(keys[1..], lo, includeLo, hi)|
    ensures var cut := Window(keys[1..], lo, includeLo, hi)[j];
            && Window(keys, lo, includeLo, cut) == Window(keys[1..], lo, includeLo, cut)
            && Window(keys, cut, false, hi) == Window(keys[1..], cut, false, hi)
  {
    var cut := Window(keys[1..], lo, includeLo, hi)[j];
    WindowMembers(keys[1..], lo, includeLo, hi, cut);
    OutsideStaysOutside(keys[0], lo, includeLo, cut, hi);
  }

  lemma {:induction false} FirstCut(keys: seq<Key>, lo: Key, includeLo: bool, hi: Key)
    requires Sorted(keys) && keys != []
    requires InInterval(keys[0], lo, includeLo, hi)
    ensures var w := Window(keys, lo, includeLo, hi);
            && Window(keys, lo, includeLo, w[0]) == w[..1]
            && Window(keys, w[0], false, hi) == w[1..]
  {
    AboveCutWindows(keys[1..], lo, includeLo, keys[0], hi);
    LessIrreflexive(keys[0]);
  }

  lemma {:induction false} LaterCut(keys: seq<Key>, lo: Key, includeLo: bool, hi: Key, j: nat)
    requires Sorted(keys) && keys != []
    requires InInterval(keys[0], lo, includeLo, hi)
    requires 0 < j < |Window(keys, lo, includeLo, hi)|
    ensures var cut := Window(keys, lo, includeLo, hi)[j];
            && j - 1 < |Window(keys[1..], lo, includeLo, hi)|
            && cut == Window(keys[1..], lo, includeLo, hi)[j - 1]
            && InInterval(keys[0], lo, includeLo, cut)
            && !InInterval(keys[0], cut, false, hi)
  {
    var rest := Window(keys[1..], lo, includeLo, hi);
    var cut := rest[j - 1];
    WindowMembers(keys[1..], lo, includeLo, hi, cut);
    var m :| 0 <= m < |keys[1..]| && keys[1..][m] == cut;
    assert Less(keys[0], keys[m + 1]);
    LessAsymmetric(keys[0], cut);
  }

  lemma {:induction false} SplitLater(keys: seq<Key>, lo: Key, includeLo: bool, hi: Key, j: nat)
    requires Sorted(keys) && keys != [] && InInterval(keys[0], lo, includeLo, hi)
    requires 0 < j < |Window(keys, lo, includeLo, hi)| == |Window(keys[1..], lo, includeLo, hi)| + 1
    requires var rest := Window(keys[1..], lo, includeLo, hi);
             && Window(keys[1..], lo, includeLo, rest[j - 1]) == rest[..j]
             && Window(keys[1..], rest[j - 1], false, hi) == rest[j..]
    ensures var w := Window(keys, lo, includeLo, hi);
            && Window(keys, lo, includeLo, w[j]) == w[..j + 1]
            && Window(keys, w[j], false, hi) == w[j + 1..]
  {
    LaterCut(keys, lo, includeLo, hi, j);
    var rest := Window(keys[1..], lo, includeLo, hi);
    SplitAfterFirst(keys, lo, includeLo, hi, rest, rest[j - 1], j);
  }

  lemma {:induction false} WindowFirst(keys: seq<Key>, lo: Key, includeLo: bool, hi: Key, rest: seq<Key>)
    requires keys != [] && Window(keys[1..], lo, includeLo, hi) == rest
    ensures Window(keys, lo, includeLo, hi) == if InInterval(keys[0], lo, includeLo, hi) then [keys[0]] + rest else rest
  {
  }

  lemma {:induction false} SplitAfterFirst(keys: seq<Key>, lo: Key, includeLo: bool, hi: Key, rest: seq<Key>, cut: Key,
                                           j: nat)
    requires keys != [] && 0 < j <= |rest| && cut == rest[j - 1]
    requires InInterval(keys[0], lo, includeLo, hi)
    requires InInterval(keys[0], lo, includeLo, cut) && !InInterval(keys[0], cut, false, hi)
    requires Window(keys[1..], lo, includeLo, hi) == rest
    requires Window(keys[1..], lo, includeLo, cut) == rest[..j] && Window(keys[1..], cut, false, hi) == rest[j..]
    ensures var w := [keys[0]] + rest;
            && Window(keys, lo, includeLo, hi) == w && w[j] == cut
            && Window(keys, lo, includeLo, cut) == w[..j + 1] && Window(keys, cut, false, hi) == w[j + 1..]
  {
    var w := [keys[0]] + rest;
    WindowFirst(keys, lo, includeLo, hi, rest);
    WindowFirst(keys, lo, includeLo, cut, rest[..j]);
    WindowFirst(keys, cut, false, hi, rest[j..]);
    assert w[..j + 1] == [keys[0]] + rest[..j] && w[j + 1..] == rest[j..];
  }

  /** A key outside an interval stays outside both halves of it. */
  lemma OutsideStaysOutside(key: Key, lo: Key, includeLo: bool, cut: Key, hi: Key)
    requires !InInterval(key, lo, includeLo, hi) && InInterval(cut, lo, includeLo, hi)
    ensures !InInterval(key, lo, includeLo, cut) && !InInterval(key, cut, false, hi)
  {
    if InInterval(key, lo, includeLo, cut) {
      AtMostTransitive(key, cut, hi);
    }
    if InInterval(key, cut, false, hi) {
      AtMostTransitive(lo, cut, key);
    }
  }

  lemma {:induction false} AboveCutWindows(keys: seq<Key>, lo: Key, includeLo: bool, cut: Key, hi: Key)
    requires InInterval(cut, lo, includeLo, hi)
    requires forall i :: 0 <= i < |keys| ==> Less(cut, keys[i])
    ensures Window(keys, lo, includeLo, cut) == []
    ensures Window(keys, cut, false, hi) == Window(keys, lo, includeLo, hi)
  {
    if keys != [] {
      LessAsymmetric(cut, keys[0]);
      AtMostTransitive(lo, cut, keys[0]);
      AboveCutWindows(keys[1..], lo, includeLo, cut, hi);
    }
  }

  // ---- Cutting a window into chunks ----

  function Pieces(w: seq<Key>, chunkSize: int): seq<seq<Key>>
    requires chunkSize > 0
    decreases |w|
  {
    if w == [] then [] else
    var n := if chunkSize <= |w| then chunkSize else |w|;
    [w[..n]] + Pieces(w[n..], chunkSize)
  }

  function Concat(chunks: seq<seq<Key>>): seq<Key> {
    if chunks == [] then [] else chunks[0] + Concat(chunks[1..])
  }

  /** `count` is n / chunkSize rounded up. */
  ghost predicate RoundedUp(count: nat, n: nat, chunkSize: int) {
    chunkSize * (count - 1) < n <= chunkSize * count
  }

  /** Cutting loses and repeats nothing, makes ceil(n / chunkSize) chunks, and all but the last are full. */
  lemma {:induction false} PiecesPartition(w: seq<Key>, chunkSize: int)
    requires chunkSize > 0
    ensures Concat(Pieces(w, chunkSize)) == w
    ensures RoundedUp(|Pieces(w, chunkSize)|, |w|, chunkSize)
    ensures forall i :: 0 <= i < |Pieces(w, chunkSize)| ==> 0 < |Pieces(w, chunkSize)[i]| <= chunkSize
    ensures forall i :: 0 <= i < |Pieces(w, chunkSize)| - 1 ==> |Pieces(w, chunkSize)[i]| == chunkSize
    decreases |w|
  {
    if w != [] {
      var n := if chunkSize <= |w| then chunkSize else |w|;
      PiecesPartition(w[n..], chunkSize);
      var m: nat := |Pieces(w[n..], chunkSize)|;
      assert chunkSize * m == chunkSize * (m - 1) + chunkSize && chunkSize * (m + 1) == chunkSize * m + chunkSize;
    }
  }

  // ---- The applier's chunk cursor ----

  /** What one statement meets: a reachable server with the table in some state, or an error. */
  datatype Server = Reachable(keys: seq<Key>) | Unreachable

  ghost predicate ServerOk(server: Server, n: nat) {
    server.Reachable? ==> Sorted(server.keys) && Width(server.keys, n)
  }

  /** The end of the next chunk of a window: its `size`-th key, or the last one if the query settles for less. */
  function RangeEnd(w: seq<Key>, size: int, viaTemptable: bool): Option<Key>
    requires size > 0
  {
    if size <= |w| then Some(w[size - 1])
    else if viaTemptable && w != [] then Some(w[|w| - 1])
    else None
  }

  /** What one of the two range-end queries is, whichever is asked for. */
  ghost predicate RangeEndQueryOk(query: RangeEndQuery, args: seq<int>, columns: seq<string>,
                                  lo: Key, includeLo: bool, hi: Key, size: int, viaTemptable: bool)
  {
    && SelectsInterval(query.where, args, columns, lo, includeLo, hi)
    && if viaTemptable then query.ViaTemptable? && query.limit == size else query.ViaOffset? && query.offset == size - 1
  }

  lemma {:induction false} ExecuteFindsRangeEnd(query: RangeEndQuery, args: seq<int>, columns: seq<string>,
                                                keys: seq<Key>, lo: Key, includeLo: bool, hi: Key, size: int,
                                                viaTemptable: bool)
    requires RangeEndQueryOk(query, args, columns, lo, includeLo, hi, size, viaTemptable) && size > 0
    requires Distinct(columns) && Width(keys, |columns|)
    ensures Execute(query, args, columns, keys) == RangeEnd(Window(keys, lo, includeLo, hi), size, viaTemptable)
  {
    MatchingIsWindow(query.where, args, columns, keys, lo, includeLo, hi);
  }

  lemma {:induction false} RangeEndIsInside(keys: seq<Key>, lo: Key, includeLo: bool, hi: Key, size: int,
                                            viaTemptable: bool)
    requires size > 0
    ensures var end := RangeEnd(Window(keys, lo, includeLo, hi), size, viaTemptable);
            end.Some? ==> end.value in keys && InInterval(end.value, lo, includeLo, hi)
  {
    var end := RangeEnd(Window(keys, lo, includeLo, hi), size, viaTemptable);
    if end.Some? {
      WindowMembers(keys, lo, includeLo, hi, end.value);
    }
  }

  /** What the two queries together find, each against what it meets. */
  function FindRangeEnd(atOffset: Server, offsetSize: int, atTemptable: Server, temptableSize: int,
                        lo: Key, includeLo: bool, hi: Key): Result<Option<Key>>
    requires offsetSize > 0 && temptableSize > 0
  {
    if atOffset.Unreachable? then Err("query error")
    else
      var end := RangeEnd(Window(atOffset.keys, lo, includeLo, hi), offsetSize, false);
      if end.Some? then Ok(end)
      else if atTemptable.Unreachable? then Err("query error")
      else Ok(RangeEnd(Window(atTemptable.keys, lo, includeLo, hi), temptableSize, true))
  }

  /** The end cuts exactly `n` of the keys of the rest of the range off, and is the last of them. */
  predicate CutsOff(keys: seq<Key>, lo: Key, includeLo: bool, hi: Key, end: Key, n: int) {
    end in Window(keys, lo, includeLo, hi) && |Window(keys, lo, includeLo, end)| == n
  }

  lemma {:induction false} KeyCutsOff(keys: seq<Key>, lo: Key, includeLo: bool, hi: Key, j: nat)
    requires Sorted(keys) && j < |Window(keys, lo, includeLo, hi)|
    ensures CutsOff(keys, lo, includeLo, hi, Window(keys, lo, includeLo, hi)[j], j + 1)
  {
    WindowSplit(keys, lo, includeLo, hi, j);
  }

  /** The end of a chunk of the given size, or of what is left if the query settles for less. */
  predicate EndsChunk(keys: seq<Key>, lo: Key, includeLo: bool, hi: Key, end: Option<Key>, size: int,
                      viaTemptable: bool) {
    var left := |Window(keys, lo, includeLo, hi)|;
    if left < size && (left == 0 || !viaTemptable) then end.None?
    else end.Some? && CutsOff(keys, lo, includeLo, hi, end.value, if size <= left then size else left)
  }

  lemma {:induction false} RangeEndEndsChunk(keys: seq<Key>, lo: Key, includeLo: bool, hi: Key, size: int,
                                             viaTemptable: bool)
    requires Sorted(keys) && size > 0
    ensures EndsChunk(keys, lo, includeLo, hi, RangeEnd(Window(keys, lo, includeLo, hi), size, viaTemptable), size, viaTemptable)
  {
    var left := |Window(keys, lo, includeLo, hi)|;
    if size <= left {
      KeyCutsOff(keys, lo, includeLo, hi, size - 1);
    } else if viaTemptable && left > 0 {
      KeyCutsOff(keys, lo, includeLo, hi, left - 1);
    }
  }

  /**
   A chunk has the size of the query that found its end, counted in what that query saw. Only if the first saw less than
   a whole chunk does the second decide, which settles for what is left, and finds no end only if it sees no key.
   */
  lemma {:induction false} FindRangeEndMeaning(atOffset: Server, offsetSize: int, atTemptable: Server,
                                               temptableSize: int, lo: Key, includeLo: bool, hi: Key)
    requires offsetSize > 0 && temptableSize > 0
    requires (atOffset.Reachable? ==> Sorted(atOffset.keys)) && (atTemptable.Reachable? ==> Sorted(atTemptable.keys))
    ensures
      var found := FindRangeEnd(atOffset, offsetSize, atTemptable, temptableSize, lo, includeLo, hi);
      if atOffset.Unreachable? then found.Err?
      else if |Window(atOffset.keys, lo, includeLo, hi)| >= offsetSize then
        found.Ok? && EndsChunk(atOffset.keys, lo, includeLo, hi, found.value, offsetSize, false)
      else if atTemptable.Unreachable? then found.Err?
      else found.Ok? && EndsChunk(atTemptable.keys, lo, includeLo, hi, found.value, temptableSize, true)
  {
    if atOffset.Reachable? {
      RangeEndEndsChunk(atOffset.keys, lo, includeLo, hi, offsetSize, false);
      if |Window(atOffset.keys, lo, includeLo, hi)| < offsetSize && atTemptable.Reachable? {
        RangeEndEndsChunk(atTemptable.keys, lo, includeLo, hi, temptableSize, true);
      }
    }
  }

  /** The statement of a chunk copy, its arguments, and the keys that it reads. */
  datatype Copied = Copied(query: RangeInsertQuery, args: seq<int>, keys: seq<Key>)

  class Applier {
    const uniqueKeyColumns: seq<string>
    const sharedColumns: seq<string>
    const mappedSharedColumns: seq<string>
    const isTransactionalTable: bool
    var migrationRangeMin: Option<Key>
    var migrationRangeMax: Option<Key>
    var iterationRangeMin: Option<Key>
    var iterationRangeMax: Option<Key>
    var iteration: nat

    constructor (uniqueKeyColumns: seq<string>, sharedColumns: seq<string>, mappedSharedColumns: seq<string>,
                 isTransactionalTable: bool)
      ensures this.uniqueKeyColumns == uniqueKeyColumns && this.sharedColumns == sharedColumns
      ensures this.mappedSharedColumns == mappedSharedColumns && this.isTransactionalTable == isTransactionalTable
      ensures migrationRangeMin == migrationRangeMax == iterationRangeMin == iterationRangeMax == None && iteration == 0
    {
      this.uniqueKeyColumns, this.sharedColumns := uniqueKeyColumns, sharedColumns;
      this.mappedSharedColumns, this.isTransactionalTable := mappedSharedColumns, isTransactionalTable;
      migrationRangeMin, migrationRangeMax := None, None;
      iterationRangeMin, iterationRangeMax := None, None;
      iteration := 0;
    }

    ghost predicate Valid()
      reads this
    {
      && uniqueKeyColumns != [] && "" !in uniqueKeyColumns && Distinct(uniqueKeyColumns)
      && (migrationRangeMin.Some? ==> |migrationRangeMin.value| == |uniqueKeyColumns|)
      && (migrationRangeMax.Some? ==> |migrationRangeMax.value| == |uniqueKeyColumns|)
      && (iterationRangeMin.Some? ==> |iterationRangeMin.value| == |uniqueKeyColumns|)
      && (iterationRangeMax.Some? ==> |iterationRangeMax.value| == |uniqueKeyColumns|)
    }

    /** Where the next chunk starts. */
    ghost function Cursor(): Key
      requires iterationRangeMax.Some? || migrationRangeMin.Some?
      reads this
    {
      if iterationRangeMax.Some? then iterationRangeMax.value else migrationRangeMin.value
    }

    /** The least and the greatest key, each read at its own moment; an empty table leaves no value. */
    method ReadMigrationRangeValues(atMin: Server, atMax: Server) returns (r: Result<()>)
      requires Valid() && ServerOk(atMin, |uniqueKeyColumns|) && ServerOk(atMax, |uniqueKeyColumns|)
      requires migrationRangeMin == migrationRangeMax == None
      modifies this`migrationRangeMin, this`migrationRangeMax
      ensures Valid()
      ensures r.Ok? <==> atMin.Reachable? && atMax.Reachable?
      ensures r.Ok? ==> (migrationRangeMin == None <==> atMin.keys == [])
      ensures r.Ok? && migrationRangeMin.Some? ==>
                migrationRangeMin.value in atMin.keys &&
                forall key :: key in atMin.keys ==> AtMost(migrationRangeMin.value, key)
      ensures r.Ok? ==> (migrationRangeMax == None <==> atMax.keys == [])
      ensures r.Ok? && migrationRangeMax.Some? ==>
                migrationRangeMax.value in atMax.keys &&
                forall key :: key in atMax.keys ==> AtMost(key, migrationRangeMax.value)
    {
      if atMin.Unreachable? {
        return Err("query error");
      }
      if |atMin.keys| > 0 {
        migrationRangeMin := Some(atMin.keys[0]);
      }
      if atMax.Unreachable? {
        return Err("query error");
      }
      if |atMax.keys| > 0 {
        migrationRangeMax := Some(atMax.keys[|atMax.keys| - 1]);
      }
      return Ok(());
    }

    /** Builds one of the two range-end queries. */
    method BuildRangeEnd(viaTemptable: bool, lo: Key, hi: Key, chunkSize: int)
      returns (r: Result<(RangeEndQuery, seq<int>)>)
      requires Valid() && |lo| == |hi| == |uniqueKeyColumns| && chunkSize > 0
      ensures r.Ok? && RangeEndQueryOk(r.value.0, r.value.1, uniqueKeyColumns, lo, iteration == 0, hi, chunkSize, viaTemptable)
    {
      if viaTemptable {
        r := BuildUniqueKeyRangeEndPreparedQueryViaTemptable(uniqueKeyColumns, lo, hi, chunkSize, iteration == 0);
      } else {
        r := BuildUniqueKeyRangeEndPreparedQueryViaOffset(uniqueKeyColumns, lo, hi, chunkSize, iteration == 0);
      }
    }

    /** Builds one of the two range-end queries, runs it, and scans at most one row. */
    method ReadRangeEnd(server: Server, viaTemptable: bool, lo: Key, hi: Key, chunkSize: int)
    returns (r: Result<Option<Key>>)
      requires Valid() && |lo| == |hi| == |uniqueKeyColumns| && chunkSize > 0
      requires ServerOk(server, |uniqueKeyColumns|)
      ensures r.Ok? <==> server.Reachable?
      ensures r.Ok? ==> r.value == RangeEnd(Window(server.keys, lo, iteration == 0, hi), chunkSize, viaTemptable)
    {
      var built := BuildRangeEnd(viaTemptable, lo, hi, chunkSize);
      if server.Unreachable? {
        return Err("query error");
      }
      var (query, args) := built.value;
      ExecuteFindsRangeEnd(query, args, uniqueKeyColumns, server.keys, lo, iteration == 0, hi, chunkSize, viaTemptable);
      return Ok(Execute(query, args, uniqueKeyColumns, server.keys));
    }

    /**
     Advances to the next chunk. The OFFSET query and the temporary-table query may see different states of
     the table, and either may fail.
     */
    method CalculateNextIterationRangeEndValues(atOffset: Server, offsetSize: int, atTemptable: Server,
                                                temptableSize: int)
      returns (hasFurtherRange: Result<bool>)
      requires Valid() && migrationRangeMin.Some? && migrationRangeMax.Some?
      requires ServerOk(atOffset, |uniqueKeyColumns|) && ServerOk(atTemptable, |uniqueKeyColumns|)
      requires offsetSize > 0 && temptableSize > 0
      modifies this`iterationRangeMin, this`iterationRangeMax
      ensures Valid()
      ensures iterationRangeMin == Some(old(Cursor()))
      ensures
        var end := FindRangeEnd(atOffset, offsetSize, atTemptable, temptableSize,
                                old(Cursor()), iteration == 0, migrationRangeMax.value);
        if end.Err? then hasFurtherRange.Err? && iterationRangeMax == old(iterationRangeMax)
        else if end.value.None? then hasFurtherRange == Ok(false) && iterationRangeMax == old(iterationRangeMax)
        else hasFurtherRange == Ok(true) && iterationRangeMax == end.value
             && InInterval(end.value.value, old(Cursor()), iteration == 0, migrationRangeMax.value)
      // A repeated call after a failure starts from the same place.
      ensures hasFurtherRange != Ok(true) ==> Cursor() == old(Cursor())
    {
      iterationRangeMin := iterationRangeMax;
      if iterationRangeMin == None {
        iterationRangeMin := migrationRangeMin;
      }
      var lo, hi := iterationRangeMin.value, migrationRangeMax.value;
      for i := 0 to 2
        invariant Valid() && iterationRangeMin == Some(old(Cursor())) && iterationRangeMax == old(iterationRangeMax)
        invariant i > 0 ==> atOffset.Reachable?
        invariant i > 0 ==> RangeEnd(Window(atOffset.keys, lo, iteration == 0, hi), offsetSize, false) == None
        invariant i > 1 ==> atTemptable.Reachable?
        invariant i > 1 ==> RangeEnd(Window(atTemptable.keys, lo, iteration == 0, hi), temptableSize, true) == None
      {
        var server, size := if i == 1 then atTemptable else atOffset, if i == 1 then temptableSize else offsetSize;
        var read := ReadRangeEnd(server, i == 1, lo, hi, size);
        if read.Err? {
          return Err(read.message);
        }
        var iterationRangeMaxValues := read.value;
        if iterationRangeMaxValues.Some? {
          RangeEndIsInside(server.keys, lo, iteration == 0, hi, size, i == 1);
          iterationRangeMax := iterationRangeMaxValues;
          return Ok(true);
        }
      }
      return Ok(false);
    }

    /** Copies one chunk; a statement that cannot be built or that fails copies nothing and does not count. */
    method ApplyIterationInsertQuery(server: Server) returns (copied: Result<Copied>)
      requires Valid() && iterationRangeMin.Some? && iterationRangeMax.Some?
      requires ServerOk(server, |uniqueKeyColumns|)
      modifies this`iteration
      ensures Valid()
      ensures copied.Ok? <==> server.Reachable? && sharedColumns != []
      ensures copied.Err? ==> iteration == old(iteration)
      ensures copied.Ok? ==> iteration == old(iteration) + 1
      ensures copied.Ok? ==>
                && SelectsInterval(copied.value.query.where, copied.value.args, uniqueKeyColumns,
                                   iterationRangeMin.value, old(iteration) == 0, iterationRangeMax.value)
                && copied.value.query.sharedColumns == sharedColumns
                && copied.value.query.mappedColumns == mappedSharedColumns
                && copied.value.query.lockInShareMode == isTransactionalTable
                && copied.value.keys == Window(server.keys, iterationRangeMin.value, old(iteration) == 0, iterationRangeMax.value)
    {
      var built := BuildRangeInsertPreparedQuery(sharedColumns, mappedSharedColumns, uniqueKeyColumns,
                                                 iterationRangeMin.value, iterationRangeMax.value, iteration == 0,
                                                 isTransactionalTable);
      if built.Err? {
        return Err(built.message);
      }
      if server.Unreachable? {
        return Err("exec error");
      }
      var (query, args) := built.value;
      MatchingIsWindow(query.where, args, uniqueKeyColumns, server.keys,
                       iterationRangeMin.value, iteration == 0, iterationRangeMax.value);
      copied := Ok(Copied(query, args, Matching(query.where, args, uniqueKeyColumns, server.keys)));
      iteration := iteration + 1;
    }

    /**
     `retryOperation` around the range-end step. Of the attempts that are to fail, `answered` says which get an answer
     to their first query; such an attempt fails at its second, unless the first answer was enough.
     */
    method RetryCalculate(keys: seq<Key>, chunkSize: int, answered: seq<bool>) returns (hasFurtherRange: bool)
      requires Valid() && Sorted(keys) && Width(keys, |uniqueKeyColumns|) && chunkSize > 0
      requires migrationRangeMin.Some? && migrationRangeMax.Some?
      modifies this`iterationRangeMin, this`iterationRangeMax
      ensures Valid() && iterationRangeMin == Some(old(Cursor()))
      ensures var end := RangeEnd(Window(keys, old(Cursor()), iteration == 0, migrationRangeMax.value), chunkSize, true);
              && hasFurtherRange == end.Some?
              && iterationRangeMax == if end.None? then old(iterationRangeMax) else end
    {
      for attempt := 0 to |answered|
        invariant Valid() && iterationRangeMax == old(iterationRangeMax) && Cursor() == old(Cursor())
      {
        var atOffset := if answered[attempt] then Reachable(keys) else Unreachable;
        var tried := CalculateNextIterationRangeEndValues(atOffset, chunkSize, Unreachable, chunkSize);
        if tried.Ok? {
          return tried.value;
        }
      }
      var r := CalculateNextIterationRangeEndValues(Reachable(keys), chunkSize, Reachable(keys), chunkSize);
      return r.value;
    }

    /** `retryOperation` around the chunk copy. */
    method RetryCopy(keys: seq<Key>, failures: nat) returns (copied: seq<Key>)
      requires Valid() && iterationRangeMin.Some? && iterationRangeMax.Some? && sharedColumns != []
      requires Sorted(keys) && Width(keys, |uniqueKeyColumns|)
      modifies this`iteration
      ensures Valid() && iteration == old(iteration) + 1
      ensures copied == Window(keys, iterationRangeMin.value, old(iteration) == 0, iterationRangeMax.value)
    {
      for attempt := 0 to failures
        invariant Valid() && iteration == old(iteration)
      {
        var failed := ApplyIterationInsertQuery(Unreachable);
      }
      var r := ApplyIterationInsertQuery(Reachable(keys));
      return r.value.keys;
    }

    /** One round of the copy loop: nothing is left to copy, or the next `chunkSize` keys are copied. */
    method IterateOnce(keys: seq<Key>, chunkSize: int, failedReads: seq<bool>, failedCopies: nat, ghost rest: seq<Key>)
      returns (copied: Option<seq<Key>>, ghost rest': seq<Key>)
      requires Valid() && Sorted(keys) && Width(keys, |uniqueKeyColumns|) && chunkSize > 0
      requires migrationRangeMin.Some? && migrationRangeMax.Some? && (iterationRangeMax == None <==> iteration == 0)
      requires sharedColumns != []
      requires rest == Window(keys, Cursor(), iteration == 0, migrationRangeMax.value)
      modifies this`iterationRangeMin, this`iterationRangeMax, this`iteration
      ensures Valid() && (iterationRangeMax == None <==> iteration == 0)
      ensures rest' == Window(keys, Cursor(), iteration == 0, migrationRangeMax.value)
      ensures copied.None? <==> rest == []
      ensures copied.None? ==> rest' == rest && iteration == old(iteration)
      ensures copied.Some? ==>
                var n := if chunkSize <= |rest| then chunkSize else |rest|;
                copied.value == rest[..n] && rest' == rest[n..] && iteration == old(iteration) + 1
    {
      ghost var cursor := Cursor();
      rest' := rest;
      var hasFurtherRange := RetryCalculate(keys, chunkSize, failedReads);
      if !hasFurtherRange {
        return None, rest;
      }
      ghost var n := if chunkSize <= |rest| then chunkSize else |rest|;
      WindowSplit(keys, cursor, iteration == 0, migrationRangeMax.value, n - 1);
      var chunk := RetryCopy(keys, failedCopies);
      return Some(chunk), rest[n..];
    }

    /**
     The copy loop on a table that does not change. `failedReads[i]` and `failedCopies[i]` say how the statements of
     the i-th round fail before their retry succeeds. The chunks are the key range cut every
     `chunkSize` keys.
     */
    method IterateChunks(keys: seq<Key>, chunkSize: int, failedReads: seq<seq<bool>>, failedCopies: seq<nat>)
      returns (chunks: seq<seq<Key>>)
      requires Valid() && Sorted(keys) && Width(keys, |uniqueKeyColumns|) && chunkSize > 0
      requires migrationRangeMin.Some? && migrationRangeMax.Some? && iterationRangeMax == None && iteration == 0
      requires sharedColumns != []
      modifies this`iterationRangeMin, this`iterationRangeMax, this`iteration
      ensures Valid()
      ensures chunks == Pieces(Window(keys, migrationRangeMin.value, true, migrationRangeMax.value), chunkSize)
      ensures iteration == |chunks|
    {
      chunks := [];
      ghost var all := Window(keys, migrationRangeMin.value, true, migrationRangeMax.value);
      ghost var rest := all;
      var hasNoFurtherRange := false;
      while !hasNoFurtherRange
        invariant Valid() && iteration == |chunks|
        invariant iterationRangeMax == None <==> iteration == 0
        invariant rest == Window(keys, Cursor(), iteration == 0, migrationRangeMax.value)
        invariant chunks + Pieces(rest, chunkSize) == Pieces(all, chunkSize)
        invariant hasNoFurtherRange ==> rest == []
        decreases |rest|, !hasNoFurtherRange
      {
        var readFailures := if |chunks| < |failedReads| then failedReads[|chunks|] else [];
        var copyFailures := if |chunks| < |failedCopies| then failedCopies[|chunks|] else 0;
        ghost var before := rest;
        var copied;
        copied, rest := IterateOnce(keys, chunkSize, readFailures, copyFailures, rest);
        if copied.None? {
          hasNoFurtherRange := true;
        } else {
          NextPiece(chunks, copied.value, before, |before| - |rest|, chunkSize);
          chunks := chunks + [copied.value];
        }
      }
      assert chunks + [] == chunks;
    }
  }

  lemma {:induction false} NextPiece(chunks: seq<seq<Key>>, copied: seq<Key>, rest: seq<Key>, n: nat, chunkSize: int)
    requires rest != [] && chunkSize > 0
    requires n == if chunkSize <= |rest| then chunkSize else |rest|
    requires copied == rest[..n]
    ensures (chunks + [copied]) + Pieces(rest[n..], chunkSize) == chunks + Pieces(rest, chunkSize)
  {
  }
}
