/**
 The DML query builders and the translation of binary log row events to statements on the ghost table.
 */
module DmlQueries {
  import opened Wrappers
  import opened KeyOrder
  import opened RangeComparison
  import opened ColumnTypes
  import opened TableEvents

  datatype Statement =
    | DeleteWhere(where: Condition, args: seq<GoValue>)
    | ReplaceInto(columns: seq<string>, args: seq<GoValue>)
    | UpdateSet(columns: seq<string>, where: Condition, args: seq<GoValue>)

  /** A row of the original table, one stored value for each table column. */
  type OriginalRow = seq<int>

  /**
   The column mapping chosen for a migration. `ghostDefaults` holds the ghost columns that no shared column
   maps to: no statement names them, so they keep their defaults.
   */
  datatype Mapping = Mapping(
    tableColumns: ColumnList,
    sharedColumns: ColumnList,
    mappedSharedColumns: ColumnList,
    uniqueKeyColumns: ColumnList,
    storage: seq<Storage>,
    ghostDefaults: Row)
  {
    ghost predicate Valid() {
      && ListOk(tableColumns) && ListOk(sharedColumns) && ListOk(mappedSharedColumns) && ListOk(uniqueKeyColumns)
      && |storage| == |tableColumns.columns|
      && |sharedColumns.columns| == |mappedSharedColumns.columns|
      && tableColumns.columns != [] && uniqueKeyColumns.columns != []
      && (forall i :: 0 <= i < |sharedColumns.columns| ==> FromTable(sharedColumns.columns[i]))
      && (forall i :: 0 <= i < |uniqueKeyColumns.columns| ==> FromTable(uniqueKeyColumns.columns[i]))
      // Columns of the unique key are shared, and are not renamed.
      && (forall i :: 0 <= i < |uniqueKeyColumns.columns| ==> KeptName(uniqueKeyColumns.columns[i].name))
      && (forall i :: 0 <= i < |mappedSharedColumns.columns| ==> mappedSharedColumns.columns[i].name !in ghostDefaults)
    }

    static ghost predicate ListOk(list: ColumnList) {
      ValidList(list) && DistinctNames(list.columns) && Named(list)
    }

    ghost predicate FromTable(column: Column) {
      column.name in tableColumns.ordinals &&
      tableColumns.ordinals[column.name] < |storage| &&
      Describes(column, storage[tableColumns.ordinals[column.name]])
    }

    ghost predicate KeptName(name: string) {
      name in sharedColumns.ordinals &&
      sharedColumns.ordinals[name] < |mappedSharedColumns.columns| &&
      mappedSharedColumns.columns[sharedColumns.ordinals[name]].name == name
    }

    ghost predicate RowOk(row: OriginalRow) {
      |row| == |tableColumns.columns| == |storage| &&
      forall i :: 0 <= i < |row| ==> InRange(storage[i], row[i])
    }

    /** The row as the binary log reader decodes it. */
    function DecodeRow(row: OriginalRow): (args: seq<GoValue>)
      requires |row| == |storage|
      ensures |args| == |row|
    {
      seq(|row|, i requires 0 <= i < |row| => Decode(storage[i], row[i]))
    }

    /** The stored values of the named columns. */
    function Select(row: OriginalRow, columns: seq<Column>): (values: seq<int>)
      ensures |values| == |columns|
    {
      seq(|columns|, i requires 0 <= i < |columns| =>
        var k := Ordinal(tableColumns, columns[i].name);
        if k < |row| then row[k] else 0)
    }

    function OriginalKey(row: OriginalRow): Key {
      Select(row, uniqueKeyColumns.columns)
    }

    /** The row of the ghost table for a row of the original: its shared columns, under their mapped names. */
    function ProjectRow(row: OriginalRow): Row {
      Assign(ghostDefaults, Names(mappedSharedColumns.columns), Select(row, sharedColumns.columns))
    }

    function GhostKey(row: Row): Key {
      KeyOf(row, Names(uniqueKeyColumns.columns))
    }
  }

  ghost predicate Named(list: ColumnList) {
    forall i :: 0 <= i < |list.columns| ==> list.columns[i].name != ""
  }

  /** Sets columns one after the other; the lists are as long as the shorter of them. */
  function Assign(row: Row, columns: seq<string>, values: seq<int>): Row
    decreases columns
  {
    if columns == [] || values == [] then row
    else Assign(row[columns[0] := values[0]], columns[1..], values[1..])
  }

  // ---- Statements on a ghost table, a map from unique key to row ----

  function Meanings(args: seq<GoValue>): (values: seq<int>)
    ensures |values| == |args|
  {
    seq(|args|, i requires 0 <= i < |args| => Meaning(args[i]))
  }

  predicate WellFormed(s: Statement) {
    match s
    case DeleteWhere(where, args) => |args| == Placeholders(where)
    case ReplaceInto(columns, args) => |args| == |columns|
    case UpdateSet(columns, where, args) => |args| == |columns| + Placeholders(where)
  }

  /**
   The effect of one statement. `replace` removes the row with the same unique key. An update keeps the
   unique key, which is checked for the statements built here.
   */
  function Execute(m: Mapping, g: map<Key, Row>, s: Statement): map<Key, Row>
    requires WellFormed(s)
  {
    match s
    case DeleteWhere(where, args) =>
      map key | key in g && !Eval(where, g[key], Meanings(args)) :: g[key]
    case ReplaceInto(columns, args) =>
      var row := Assign(m.ghostDefaults, columns, Meanings(args));
      g[m.GhostKey(row) := row]
    case UpdateSet(columns, where, args) =>
      var values := Meanings(args);
      var n := |columns|;
      map key | key in g ::
        if Eval(where, g[key], values[n..]) then Assign(g[key], columns, values[..n]) else g[key]
  }

  predicate AllWellFormed(ss: seq<Statement>) {
    forall i :: 0 <= i < |ss| ==> WellFormed(ss[i])
  }

  function ExecuteAll(m: Mapping, g: map<Key, Row>, ss: seq<Statement>): map<Key, Row>
    requires AllWellFormed(ss)
    decreases ss
  {
    if ss == [] then g else ExecuteAll(m, Execute(m, g, ss[0]), ss[1..])
  }

  /** Every row is stored under its unique key, and holds the defaults in the columns nobody writes. */
  ghost predicate GhostTable(m: Mapping, g: map<Key, Row>) {
    forall key :: key in g ==> m.GhostKey(g[key]) == key && HasShape(m, g[key])
  }

  ghost predicate HasShape(m: Mapping, row: Row) {
    row.Keys == m.ghostDefaults.Keys + (set name | name in Names(m.mappedSharedColumns.columns)) &&
    forall name :: name in m.ghostDefaults ==> row[name] == m.ghostDefaults[name]
  }

  // ---- The builders ----

  /** The converted arguments for a list of columns, looked up by name in a decoded row. */
  function ColumnArgs(tableColumns: ColumnList, columns: seq<Column>, args: seq<GoValue>): (r: seq<GoValue>)
    requires 0 < |args| == |tableColumns.columns| && ValidList(tableColumns)
    ensures |r| == |columns|
  {
    seq(|columns|, i requires 0 <= i < |columns| => ConvertArg(columns[i], args[Ordinal(tableColumns, columns[i].name)]))
  }

  function KeyCondition(columns: seq<Column>): Condition {
    And(EqualsParts(Names(columns), seq(|columns|, _ => "?")))
  }

  method CollectArgs(tableColumns: ColumnList, columns: seq<Column>, args: seq<GoValue>) returns (r: seq<GoValue>)
    requires 0 < |args| == |tableColumns.columns| && ValidList(tableColumns)
    ensures r == ColumnArgs(tableColumns, columns, args)
  {
    r := [];
    for i := 0 to |columns|
      invariant r == ColumnArgs(tableColumns, columns, args)[..i]
    {
      var tableOrdinal := Ordinal(tableColumns, columns[i].name);
      r := r + [ConvertArg(columns[i], args[tableOrdinal])];
    }
  }

  method BuildDMLDeleteQuery(tableColumns: ColumnList, uniqueKeyColumns: ColumnList, args: seq<GoValue>)
    returns (r: Result<Statement>)
    requires ValidList(tableColumns) && tableColumns.columns != [] && Named(uniqueKeyColumns)
    ensures r.Ok? <==> |args| == |tableColumns.columns| && uniqueKeyColumns.columns != []
    ensures r.Ok? ==> r.value == DeleteWhere(KeyCondition(uniqueKeyColumns.columns),
                                             ColumnArgs(tableColumns, uniqueKeyColumns.columns, args))
  {
    if |args| != |tableColumns.columns| {
      return Err("args count mismatch");
    }
    if |uniqueKeyColumns.columns| == 0 {
      return Err("no unique key columns");
    }
    var uniqueKeyArgs := CollectArgs(tableColumns, uniqueKeyColumns.columns, args);
    var equalsComparison := BuildEqualsComparison(Names(uniqueKeyColumns.columns), seq(|uniqueKeyColumns.columns|, _ => "?"));
    return Ok(DeleteWhere(equalsComparison.value, uniqueKeyArgs));
  }

  method BuildDMLInsertQuery(tableColumns: ColumnList, sharedColumns: ColumnList, mappedSharedColumns: ColumnList,
                             args: seq<GoValue>)
    returns (r: Result<Statement>)
    requires ValidList(tableColumns) && tableColumns.columns != []
    ensures r.Ok? <==> |args| == |tableColumns.columns| && sharedColumns.columns != [] &&
                       NamesWithin(sharedColumns, tableColumns)
    ensures r.Ok? ==> r.value == ReplaceInto(Names(mappedSharedColumns.columns),
                                             ColumnArgs(tableColumns, sharedColumns.columns, args))
  {
    if |args| != |tableColumns.columns| {
      return Err("args count mismatch");
    }
    var subset := IsSubsetOf(sharedColumns, tableColumns);
    if !subset {
      return Err("shared columns not in table");
    }
    if |sharedColumns.columns| == 0 {
      return Err("no shared columns");
    }
    var statement := AssembleInsert(tableColumns, sharedColumns, mappedSharedColumns, args);
    return Ok(statement);
  }

  /** The statement, once everything has been checked. */
  method AssembleInsert(tableColumns: ColumnList, sharedColumns: ColumnList, mappedSharedColumns: ColumnList,
                        args: seq<GoValue>)
    returns (s: Statement)
    requires ValidList(tableColumns) && 0 < |args| == |tableColumns.columns|
    ensures s == ReplaceInto(Names(mappedSharedColumns.columns), ColumnArgs(tableColumns, sharedColumns.columns, args))
  {
    var sharedArgs := CollectArgs(tableColumns, sharedColumns.columns, args);
    return ReplaceInto(Names(mappedSharedColumns.columns), sharedArgs);
  }

  method BuildSetPreparedClause(columns: ColumnList) returns (r: Result<seq<string>>)
    ensures r.Ok? <==> columns.columns != []
    ensures r.Ok? ==> r.value == Names(columns.columns)
  {
    if |columns.columns| == 0 {
      return Err("no columns");
    }
    var setTokens: seq<string> := [];
    for i := 0 to |columns.columns|
      invariant setTokens == Names(columns.columns)[..i]
    {
      setTokens := setTokens + [columns.columns[i].name];
    }
    return Ok(setTokens);
  }

  method CheckSubsets(tableColumns: ColumnList, sharedColumns: ColumnList, uniqueKeyColumns: ColumnList)
    returns (err: Option<string>)
    requires ValidList(tableColumns) && ValidList(sharedColumns)
    ensures err.None? <==> NamesWithin(sharedColumns, tableColumns) && NamesWithin(uniqueKeyColumns, sharedColumns)
  {
    var subset := IsSubsetOf(sharedColumns, tableColumns);
    if !subset {
      return Some("shared columns not in table");
    }
    subset := IsSubsetOf(uniqueKeyColumns, sharedColumns);
    if !subset {
      return Some("key columns not shared");
    }
    return None;
  }

  method BuildDMLUpdateQuery(tableColumns: ColumnList, sharedColumns: ColumnList, mappedSharedColumns: ColumnList,
                             uniqueKeyColumns: ColumnList, valueArgs: seq<GoValue>, whereArgs: seq<GoValue>)
    returns (r: Result<Statement>)
    requires ValidList(tableColumns) && tableColumns.columns != []
    requires ValidList(sharedColumns) && Named(uniqueKeyColumns)
    requires |mappedSharedColumns.columns| == |sharedColumns.columns|
    ensures r.Ok? <==> |valueArgs| == |whereArgs| == |tableColumns.columns| &&
                       sharedColumns.columns != [] && uniqueKeyColumns.columns != [] &&
                       NamesWithin(sharedColumns, tableColumns) && NamesWithin(uniqueKeyColumns, sharedColumns)
    ensures r.Ok? ==> r.value == UpdateSet(Names(mappedSharedColumns.columns), KeyCondition(uniqueKeyColumns.columns),
                                           ColumnArgs(tableColumns, sharedColumns.columns, valueArgs) +
                                           ColumnArgs(tableColumns, uniqueKeyColumns.columns, whereArgs))
  {
    if |valueArgs| != |tableColumns.columns| {
      return Err("value args count mismatch");
    }
    if |whereArgs| != |tableColumns.columns| {
      return Err("where args count mismatch");
    }
    var err := CheckSubsets(tableColumns, sharedColumns, uniqueKeyColumns);
    if err.Some? {
      return Err(err.value);
    }
    if |sharedColumns.columns| == 0 {
      return Err("no shared columns");
    }
    if |uniqueKeyColumns.columns| == 0 {
      return Err("no unique key columns");
    }
    var statement := AssembleUpdate(tableColumns, sharedColumns, mappedSharedColumns, uniqueKeyColumns, valueArgs, whereArgs);
    return Ok(statement);
  }

  /** The statement, once everything has been checked. */
  method AssembleUpdate(tableColumns: ColumnList, sharedColumns: ColumnList, mappedSharedColumns: ColumnList,
                        uniqueKeyColumns: ColumnList, valueArgs: seq<GoValue>, whereArgs: seq<GoValue>)
    returns (s: Statement)
    requires ValidList(tableColumns) && 0 < |valueArgs| == |whereArgs| == |tableColumns.columns|
    requires Named(uniqueKeyColumns) && uniqueKeyColumns.columns != [] && mappedSharedColumns.columns != []
    ensures s == UpdateSet(Names(mappedSharedColumns.columns), KeyCondition(uniqueKeyColumns.columns),
                           ColumnArgs(tableColumns, sharedColumns.columns, valueArgs) +
                           ColumnArgs(tableColumns, uniqueKeyColumns.columns, whereArgs))
  {
    var sharedArgs := CollectArgs(tableColumns, sharedColumns.columns, valueArgs);
    var uniqueKeyArgs := CollectArgs(tableColumns, uniqueKeyColumns.columns, whereArgs);
    var setClause := BuildSetPreparedClause(mappedSharedColumns);
    var equalsComparison := BuildEqualsComparison(Names(uniqueKeyColumns.columns), seq(|uniqueKeyColumns.columns|, _ => "?"));
    return UpdateSet(setClause.value, equalsComparison.value, sharedArgs + uniqueKeyArgs);
  }
}
