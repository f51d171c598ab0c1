/**
 The statement of a chunk copy, evaluated. `insert ignore into ghost (mapped) select shared from original where ...`
 reads the rows that its condition selects, one after the other in the order of the unique key, and inserts what the
 shared columns hold under the mapped columns, unless the ghost table has a row with that key. That is the insert on
 which the convergence of the migration is built.
 */
module ChunkCopy {
  import opened Wrappers
  import opened KeyOrder
  import opened RangeComparison
  import opened ChunkIteration
  import opened ColumnTypes
  import opened DmlQueries
  import opened DmlReplay
  import C = Convergence

  /** A row of the original table by the names of its columns. */
  function NamedRow(m: Mapping, row: OriginalRow): Row {
    Assign(map[], Names(m.tableColumns.columns), row)
  }

  /** `insert ignore` of one row: the columns that the statement does not name get their defaults. */
  function InsertRow(m: Mapping, g: map<Key, Row>, columns: seq<string>, values: seq<int>): map<Key, Row> {
    var row := Assign(m.ghostDefaults, columns, values);
    if m.GhostKey(row) in g then g else g[m.GhostKey(row) := row]
  }

  /** The effect of the statement on the ghost table, over the rows of the original under these keys. */
  function ExecuteRangeInsert(m: Mapping, t: map<Key, OriginalRow>, g: map<Key, Row>, query: RangeInsertQuery,
                              args: seq<int>, keys: seq<Key>): map<Key, Row>
    requires |args| == Placeholders(query.where)
    requires forall i :: 0 <= i < |keys| ==> keys[i] in t
    decreases |keys|
  {
    if keys == [] then g
    else
      var row := NamedRow(m, t[keys[0]]);
      var inserted := if Eval(query.where, row, args) then InsertRow(m, g, query.mappedColumns, KeyOf(row, query.sharedColumns))
                      else g;
      ExecuteRangeInsert(m, t, inserted, query, args, keys[1..])
  }

  ghost function Interval(lo: Key, includeLo: bool, hi: Key): iset<Key> {
    iset key: Key | InInterval(key, lo, includeLo, hi)
  }

  /** Reading columns by name gives the stored values. */
  lemma NamedRowSelects(m: Mapping, row: OriginalRow, columns: seq<Column>)
    requires m.Valid() && m.RowOk(row)
    requires forall i :: 0 <= i < |columns| ==> m.FromTable(columns[i])
    ensures KeyOf(NamedRow(m, row), Names(columns)) == m.Select(row, columns)
  {
    var names := Names(m.tableColumns.columns);
    forall i | 0 <= i < |columns|
      ensures ColumnValue(NamedRow(m, row), columns[i].name) == m.Select(row, columns)[i]
    {
      assert m.FromTable(columns[i]);
      var k := m.tableColumns.ordinals[columns[i].name];
      assert names[k] == columns[i].name;
      AssignSets(map[], names, row, k);
    }
  }

  ghost function InsertOne<R, G>(g: map<Key, G>, t: map<Key, R>, key: Key, interval: iset<Key>, p: R -> G): map<Key, G>
    requires key in t
  {
    if key in interval && key !in g then g[key := p(t[key])] else g
  }

  /** Rows inserted one after the other, in an order of their keys. */
  ghost function InsertEach<R, G>(g: map<Key, G>, t: map<Key, R>, keys: seq<Key>, interval: iset<Key>, p: R -> G): map<Key, G>
    requires forall i :: 0 <= i < |keys| ==> keys[i] in t
    decreases |keys|
  {
    if keys == [] then g
    else InsertEach(InsertOne(g, t, keys[0], interval, p), t, keys[1..], interval, p)
  }

  lemma {:induction false} InsertEachAt<R, G>(g: map<Key, G>, t: map<Key, R>, keys: seq<Key>, interval: iset<Key>,
                                              p: R -> G, k: Key)
    requires forall i :: 0 <= i < |keys| ==> keys[i] in t
    ensures
      var r := InsertEach(g, t, keys, interval, p);
      && (k in r <==> k in g || (k in keys && k in interval))
      && (k in r ==> r[k] == if k in g then g[k] else p(t[k]))
    decreases |keys|
  {
    if keys != [] {
      var key := keys[0];
      InsertEachAt(InsertOne(g, t, key, interval, p), t, keys[1..], interval, p, k);
      assert k in keys <==> k == key || k in keys[1..];
    }
  }

  /** The order does not matter: every row of the interval is inserted, unless its key is there. */
  lemma {:induction false} InsertEachIsInsertIgnore<R, G>(g: map<Key, G>, t: map<Key, R>, keys: seq<Key>,
                                                          interval: iset<Key>, p: R -> G)
    requires forall key :: key in keys <==> key in t
    ensures InsertEach(g, t, keys, interval, p) == C.InsertIgnore(g, t, interval, p)
  {
    var left, right := InsertEach(g, t, keys, interval, p), C.InsertIgnore(g, t, interval, p);
    forall k
      ensures (k in left <==> k in right) && (k in left ==> left[k] == right[k])
    {
      InsertEachAt(g, t, keys, interval, p, k);
    }
    assert left.Keys == right.Keys;
  }

  /** The statement reads exactly the rows of the interval, and inserts their projections. */
  lemma {:induction false} OneRowIsInserted(m: Mapping, t: map<Key, OriginalRow>, g: map<Key, Row>,
                                            query: RangeInsertQuery, args: seq<int>, key: Key, lo: Key,
                                            includeLo: bool, hi: Key)
    requires m.Valid() && OriginalTable(m, t) && key in t
    requires SelectsInterval(query.where, args, Names(m.uniqueKeyColumns.columns), lo, includeLo, hi)
    requires query.sharedColumns == Names(m.sharedColumns.columns)
    requires query.mappedColumns == Names(m.mappedSharedColumns.columns)
    ensures
      var row := NamedRow(m, t[key]);
      (if Eval(query.where, row, args) then InsertRow(m, g, query.mappedColumns, KeyOf(row, query.sharedColumns)) else g)
      == InsertOne(g, t, key, Interval(lo, includeLo, hi), m.ProjectRow)
  {
    NamedRowSelects(m, t[key], m.uniqueKeyColumns.columns);
    NamedRowSelects(m, t[key], m.sharedColumns.columns);
    ProjectionKeepsKey(m, t[key]);
  }

  lemma {:induction false} RangeInsertIsInsertEach(m: Mapping, t: map<Key, OriginalRow>, g: map<Key, Row>,
                                                   query: RangeInsertQuery,
                                                   args: seq<int>, keys: seq<Key>, lo: Key, includeLo: bool, hi: Key)
    requires m.Valid() && OriginalTable(m, t) && forall i :: 0 <= i < |keys| ==> keys[i] in t
    requires SelectsInterval(query.where, args, Names(m.uniqueKeyColumns.columns), lo, includeLo, hi)
    requires query.sharedColumns == Names(m.sharedColumns.columns)
    requires query.mappedColumns == Names(m.mappedSharedColumns.columns)
    ensures ExecuteRangeInsert(m, t, g, query, args, keys) == InsertEach(g, t, keys, Interval(lo, includeLo, hi), m.ProjectRow)
    decreases |keys|
  {
    if keys != [] {
      OneRowIsInserted(m, t, g, query, args, keys[0], lo, includeLo, hi);
      var inserted := InsertOne(g, t, keys[0], Interval(lo, includeLo, hi), m.ProjectRow);
      RangeInsertIsInsertEach(m, t, inserted, query, args, keys[1..], lo, includeLo, hi);
    }
  }

  /** The chunk copy inserts the projected rows of its interval, apart from those that the ghost table has. */
  lemma {:induction false} RangeInsertMeaning(m: Mapping, t: map<Key, OriginalRow>, g: map<Key, Row>,
                                              query: RangeInsertQuery, args: seq<int>, keys: seq<Key>, lo: Key,
                                              includeLo: bool, hi: Key)
    requires m.Valid() && OriginalTable(m, t) && (forall key :: key in keys <==> key in t)
    requires SelectsInterval(query.where, args, Names(m.uniqueKeyColumns.columns), lo, includeLo, hi)
    requires query.sharedColumns == Names(m.sharedColumns.columns)
    requires query.mappedColumns == Names(m.mappedSharedColumns.columns)
    ensures ExecuteRangeInsert(m, t, g, query, args, keys) == C.InsertIgnore(g, t, Interval(lo, includeLo, hi), m.ProjectRow)
  {
    RangeInsertIsInsertEach(m, t, g, query, args, keys, lo, includeLo, hi);
    InsertEachIsInsertIgnore(g, t, keys, Interval(lo, includeLo, hi), m.ProjectRow);
  }

  /** The applier is set up with the columns of the mapping. */
  ghost predicate SetUp(applier: Applier, m: Mapping) {
    && applier.uniqueKeyColumns == Names(m.uniqueKeyColumns.columns)
    && applier.sharedColumns == Names(m.sharedColumns.columns)
    && applier.mappedSharedColumns == Names(m.mappedSharedColumns.columns)
  }

  /**
   One chunk of the migration: what the applier's statement does to the ghost table, against an original that holds
   the rows `t`, is the copy step of the convergence proof.
   */
  method CopyChunk(applier: Applier, m: Mapping, t: map<Key, OriginalRow>, keys: seq<Key>, g: map<Key, Row>)
    returns (copied: Result<map<Key, Row>>)
    requires m.Valid() && SetUp(applier, m) && OriginalTable(m, t)
    requires Sorted(keys) && Width(keys, |applier.uniqueKeyColumns|) && (forall key :: key in keys <==> key in t)
    requires applier.Valid() && applier.iterationRangeMin.Some? && applier.iterationRangeMax.Some?
    modifies applier`iteration
    ensures applier.Valid()
    ensures copied.Ok? <==> applier.sharedColumns != []
    ensures copied.Ok? ==> applier.iteration == old(applier.iteration) + 1
    ensures copied.Ok? ==>
              copied.value == C.InsertIgnore(g, t, Interval(applier.iterationRangeMin.value, old(applier.iteration) == 0,
                                                            applier.iterationRangeMax.value), m.ProjectRow)
  {
    ghost var includeLo := applier.iteration == 0;
    var executed := applier.ApplyIterationInsertQuery(Reachable(keys));
    if executed.Err? {
      return Err(executed.message);
    }
    var query, args := executed.value.query, executed.value.args;
    RangeInsertMeaning(m, t, g, query, args, keys, applier.iterationRangeMin.value, includeLo, applier.iterationRangeMax.value);
    return Ok(ExecuteRangeInsert(m, t, g, query, args, keys));
  }
}
