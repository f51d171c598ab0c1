/**
 Replay of a row event. The statements built for an event, executed on the ghost table, do what the event did
 to the original table, seen through the column mapping.
 */
module DmlReplay {
  import opened Wrappers
  import opened KeyOrder
  import opened RangeComparison
  import opened ColumnTypes
  import opened TableEvents
  import opened DmlQueries

  // ---- Meaning of the three statements ----

  lemma {:induction false} AssignUntouched(row: Row, columns: seq<string>, values: seq<int>, name: string)
    requires |columns| == |values| && name !in columns
    ensures name in Assign(row, columns, values) <==> name in row
    ensures name in row ==> Assign(row, columns, values)[name] == row[name]
    decreases columns
  {
    if columns != [] {
      AssignUntouched(row[columns[0] := values[0]], columns[1..], values[1..], name);
    }
  }

  lemma {:induction false} AssignSets(row: Row, columns: seq<string>, values: seq<int>, i: nat)
    requires |columns| == |values| && i < |columns|
    requires forall j, k :: 0 <= j < k < |columns| ==> columns[j] != columns[k]
    ensures columns[i] in Assign(row, columns, values) && Assign(row, columns, values)[columns[i]] == values[i]
    decreases columns
  {
    var next := row[columns[0] := values[0]];
    if i == 0 {
      AssignUntouched(next, columns[1..], values[1..], columns[0]);
    } else {
      AssignSets(next, columns[1..], values[1..], i - 1);
    }
  }

  /** Assigning the same columns of two rows that agree elsewhere gives the same row. */
  lemma {:induction false} AssignAgrees(a: Row, b: Row, columns: seq<string>, values: seq<int>)
    requires |columns| == |values|
    requires forall j, k :: 0 <= j < k < |columns| ==> columns[j] != columns[k]
    requires forall name :: name !in columns ==> (name in a <==> name in b) && (name in a ==> a[name] == b[name])
    ensures Assign(a, columns, values) == Assign(b, columns, values)
  {
    var x, y := Assign(a, columns, values), Assign(b, columns, values);
    forall name
      ensures (name in x <==> name in y) && (name in x ==> x[name] == y[name])
    {
      if name in columns {
        var i :| 0 <= i < |columns| && columns[i] == name;
        AssignSets(a, columns, values, i);
        AssignSets(b, columns, values, i);
      } else {
        AssignUntouched(a, columns, values, name);
        AssignUntouched(b, columns, values, name);
      }
    }
    assert x.Keys == y.Keys;
  }

  /** Decoding, looking up by name and converting gives the stored values of those columns. */
  lemma ArgsMeanStored(m: Mapping, row: OriginalRow, columns: seq<Column>)
    requires m.Valid() && m.RowOk(row)
    requires forall i :: 0 <= i < |columns| ==> m.FromTable(columns[i])
    ensures Meanings(ColumnArgs(m.tableColumns, columns, m.DecodeRow(row))) == m.Select(row, columns)
  {
    forall i | 0 <= i < |columns|
      ensures Meaning(ConvertArg(columns[i], m.DecodeRow(row)[Ordinal(m.tableColumns, columns[i].name)])) == m.Select(row, columns)[i]
    {
      assert m.FromTable(columns[i]);
      var k := Ordinal(m.tableColumns, columns[i].name);
      ConvertInvertsDecode(columns[i], m.storage[k], row[k]);
    }
  }

  lemma {:induction false} KeyConditionMeaning(columns: seq<Column>, row: Row, args: seq<int>)
    requires |args| == |columns|
    ensures Placeholders(KeyCondition(columns)) == |columns|
    ensures Eval(KeyCondition(columns), row, args) <==> KeyOf(row, Names(columns)) == args
  {
    EqualsMeaning(Names(columns), seq(|columns|, _ => "?"), row, args);
  }

  lemma MappedNamesDistinct(m: Mapping)
    requires m.Valid()
    ensures var names := Names(m.mappedSharedColumns.columns);
            forall j, k :: 0 <= j < k < |names| ==> names[j] != names[k]
  {
  }

  /** The projected row has the original's unique key, and the shape of a ghost row. */
  lemma ProjectionKeepsKey(m: Mapping, row: OriginalRow)
    requires m.Valid() && m.RowOk(row)
    ensures m.GhostKey(m.ProjectRow(row)) == m.OriginalKey(row)
    ensures HasShape(m, m.ProjectRow(row))
  {
    var names := Names(m.mappedSharedColumns.columns);
    var values := m.Select(row, m.sharedColumns.columns);
    var keyColumns := m.uniqueKeyColumns.columns;
    MappedNamesDistinct(m);
    forall i | 0 <= i < |keyColumns|
      ensures m.GhostKey(m.ProjectRow(row))[i] == m.OriginalKey(row)[i]
    {
      assert m.KeptName(keyColumns[i].name);
      var j := m.sharedColumns.ordinals[keyColumns[i].name];
      AssignSets(m.ghostDefaults, names, values, j);
    }
    ProjectionShape(m, row);
  }

  lemma ProjectionShape(m: Mapping, row: OriginalRow)
    requires m.Valid()
    ensures HasShape(m, m.ProjectRow(row))
  {
    var names := Names(m.mappedSharedColumns.columns);
    var values := m.Select(row, m.sharedColumns.columns);
    MappedNamesDistinct(m);
    forall name
      ensures name in m.ProjectRow(row) <==> name in m.ghostDefaults || name in names
      ensures name in m.ghostDefaults ==> m.ProjectRow(row)[name] == m.ghostDefaults[name]
    {
      if name in names {
        var i :| 0 <= i < |names| && names[i] == name;
        AssignSets(m.ghostDefaults, names, values, i);
      } else {
        AssignUntouched(m.ghostDefaults, names, values, name);
      }
    }
  }

  function DeleteStatement(m: Mapping, where: seq<GoValue>): Statement
    requires m.tableColumns.columns != [] && ValidList(m.tableColumns) && |where| == |m.tableColumns.columns|
  {
    DeleteWhere(KeyCondition(m.uniqueKeyColumns.columns), ColumnArgs(m.tableColumns, m.uniqueKeyColumns.columns, where))
  }

  function InsertStatement(m: Mapping, new_: seq<GoValue>): Statement
    requires m.tableColumns.columns != [] && ValidList(m.tableColumns) && |new_| == |m.tableColumns.columns|
  {
    ReplaceInto(Names(m.mappedSharedColumns.columns), ColumnArgs(m.tableColumns, m.sharedColumns.columns, new_))
  }

  function UpdateStatement(m: Mapping, where: seq<GoValue>, new_: seq<GoValue>): Statement
    requires m.tableColumns.columns != [] && ValidList(m.tableColumns) && |where| == |new_| == |m.tableColumns.columns|
  {
    UpdateSet(Names(m.mappedSharedColumns.columns), KeyCondition(m.uniqueKeyColumns.columns),
              ColumnArgs(m.tableColumns, m.sharedColumns.columns, new_) +
              ColumnArgs(m.tableColumns, m.uniqueKeyColumns.columns, where))
  }

  /** In a ghost table the key condition selects the row stored under that key, if any. */
  lemma {:induction false} KeySelects(m: Mapping, g: map<Key, Row>, args: seq<int>)
    requires GhostTable(m, g) && |args| == |m.uniqueKeyColumns.columns|
    ensures Placeholders(KeyCondition(m.uniqueKeyColumns.columns)) == |args|
    ensures forall key :: key in g ==> (Eval(KeyCondition(m.uniqueKeyColumns.columns), g[key], args) <==> key == args)
  {
    KeyConditionMeaning(m.uniqueKeyColumns.columns, map[], args);
    forall key | key in g
      ensures Eval(KeyCondition(m.uniqueKeyColumns.columns), g[key], args) <==> key == args
    {
      KeyConditionMeaning(m.uniqueKeyColumns.columns, g[key], args);
    }
  }

  lemma DeleteByKey(m: Mapping, g: map<Key, Row>, args: seq<GoValue>)
    requires GhostTable(m, g) && |args| == |m.uniqueKeyColumns.columns|
    ensures var s := DeleteWhere(KeyCondition(m.uniqueKeyColumns.columns), args);
            WellFormed(s) && Execute(m, g, s) == g - {Meanings(args)}
  {
    KeySelects(m, g, Meanings(args));
  }

  lemma {:induction false} UpdateByKey(m: Mapping, g: map<Key, Row>, names: seq<string>, args: seq<GoValue>, key: Key,
                                       row: Row)
    requires GhostTable(m, g) && |args| == |names| + |m.uniqueKeyColumns.columns|
    requires Meanings(args)[|names|..] == key
    requires forall k :: k in g ==> Assign(g[k], names, Meanings(args)[..|names|]) == row
    ensures var s := UpdateSet(names, KeyCondition(m.uniqueKeyColumns.columns), args);
            WellFormed(s) && Execute(m, g, s) == if key in g then g[key := row] else g
  {
    KeySelects(m, g, key);
    UpdateSelected(m, g, names, KeyCondition(m.uniqueKeyColumns.columns), args, key, row);
  }

  lemma {:induction false} UpdateSelected(m: Mapping, g: map<Key, Row>, names: seq<string>, where: Condition,
                                          args: seq<GoValue>, key: Key, row: Row)
    requires |args| == |names| + Placeholders(where)
    requires forall k :: k in g ==> (Eval(where, g[k], Meanings(args)[|names|..]) <==> k == key)
    requires forall k :: k in g ==> Assign(g[k], names, Meanings(args)[..|names|]) == row
    ensures Execute(m, g, UpdateSet(names, where, args)) == if key in g then g[key := row] else g
  {
    var e := Execute(m, g, UpdateSet(names, where, args));
    assert e.Keys == g.Keys;
    forall k | k in g
      ensures e[k] == if k == key then row else g[k]
    {
      assert Eval(where, g[k], Meanings(args)[|names|..]) <==> k == key;
    }
  }

  lemma DeleteMeaning(m: Mapping, g: map<Key, Row>, before: OriginalRow)
    requires m.Valid() && m.RowOk(before) && GhostTable(m, g)
    ensures WellFormed(DeleteStatement(m, m.DecodeRow(before)))
    ensures Execute(m, g, DeleteStatement(m, m.DecodeRow(before))) == g - {m.OriginalKey(before)}
  {
    ArgsMeanStored(m, before, m.uniqueKeyColumns.columns);
    DeleteByKey(m, g, ColumnArgs(m.tableColumns, m.uniqueKeyColumns.columns, m.DecodeRow(before)));
  }

  lemma InsertMeaning(m: Mapping, g: map<Key, Row>, after: OriginalRow)
    requires m.Valid() && m.RowOk(after)
    ensures WellFormed(InsertStatement(m, m.DecodeRow(after)))
    ensures Execute(m, g, InsertStatement(m, m.DecodeRow(after))) == g[m.OriginalKey(after) := m.ProjectRow(after)]
  {
    ArgsMeanStored(m, after, m.sharedColumns.columns);
    ProjectionKeepsKey(m, after);
  }

  lemma UpdateMeaning(m: Mapping, g: map<Key, Row>, before: OriginalRow, after: OriginalRow)
    requires m.Valid() && m.RowOk(before) && m.RowOk(after) && GhostTable(m, g)
    requires m.OriginalKey(before) == m.OriginalKey(after)
    ensures WellFormed(UpdateStatement(m, m.DecodeRow(before), m.DecodeRow(after)))
    ensures var key := m.OriginalKey(after);
            Execute(m, g, UpdateStatement(m, m.DecodeRow(before), m.DecodeRow(after)))
            == if key in g then g[key := m.ProjectRow(after)] else g
  {
    var key := m.OriginalKey(after);
    var names := Names(m.mappedSharedColumns.columns);
    var stored := m.Select(after, m.sharedColumns.columns);
    UpdateArgs(m, before, after);
    forall k | k in g
      ensures Assign(g[k], names, stored) == m.ProjectRow(after)
    {
      MappedNamesDistinct(m);
      assert HasShape(m, g[k]);
      AssignAgrees(g[k], m.ghostDefaults, names, stored);
    }
    UpdateByKey(m, g, names, UpdateStatement(m, m.DecodeRow(before), m.DecodeRow(after)).args, key, m.ProjectRow(after));
  }

  lemma UpdateArgs(m: Mapping, before: OriginalRow, after: OriginalRow)
    requires m.Valid() && m.RowOk(before) && m.RowOk(after)
    ensures var args := Meanings(UpdateStatement(m, m.DecodeRow(before), m.DecodeRow(after)).args);
            var n := |Names(m.mappedSharedColumns.columns)|;
            && |args| == n + |m.uniqueKeyColumns.columns|
            && args[..n] == m.Select(after, m.sharedColumns.columns) && args[n..] == m.OriginalKey(before)
  {
    ArgsMeanStored(m, after, m.sharedColumns.columns);
    ArgsMeanStored(m, before, m.uniqueKeyColumns.columns);
    MeaningsAppend(ColumnArgs(m.tableColumns, m.sharedColumns.columns, m.DecodeRow(after)),
                   ColumnArgs(m.tableColumns, m.uniqueKeyColumns.columns, m.DecodeRow(before)));
  }

  lemma MeaningsAppend(a: seq<GoValue>, b: seq<GoValue>)
    ensures Meanings(a + b)[..|a|] == Meanings(a) && Meanings(a + b)[|a|..] == Meanings(b)
  {
  }

  // ---- Building the statements of an event ----

  datatype EventDML = NotDML | InsertDML | UpdateDML | DeleteDML

  /** A row event. The builder overwrites `dml`. */
  class BinlogDMLEvent {
    var dml: EventDML
    const whereColumnValues: seq<GoValue>
    const newColumnValues: seq<GoValue>

    constructor (dml: EventDML, whereColumnValues: seq<GoValue>, newColumnValues: seq<GoValue>)
      ensures this.dml == dml
      ensures this.whereColumnValues == whereColumnValues && this.newColumnValues == newColumnValues
    {
      this.dml := dml;
      this.whereColumnValues := whereColumnValues;
      this.newColumnValues := newColumnValues;
    }
  }

  datatype DmlBuildResult = DmlBuildResult(statement: Statement, rowsDelta: int)

  /** Some unique-key column has different values in the two images of the row. */
  predicate KeyModified(m: Mapping, where: seq<GoValue>, new_: seq<GoValue>)
    requires 0 < |m.tableColumns.columns| == |where| == |new_| && ValidList(m.tableColumns)
  {
    exists i :: 0 <= i < |m.uniqueKeyColumns.columns| &&
      (var k := Ordinal(m.tableColumns, m.uniqueKeyColumns.columns[i].name); where[k] != new_[k])
  }

  method UpdateModifiesUniqueKeyColumns(m: Mapping, event: BinlogDMLEvent) returns (isModified: bool)
    requires ValidList(m.tableColumns) && m.tableColumns.columns != []
    requires |event.whereColumnValues| == |event.newColumnValues| == |m.tableColumns.columns|
    ensures isModified == KeyModified(m, event.whereColumnValues, event.newColumnValues)
  {
    for i := 0 to |m.uniqueKeyColumns.columns|
      invariant forall j :: 0 <= j < i ==>
        var k := Ordinal(m.tableColumns, m.uniqueKeyColumns.columns[j].name);
        event.whereColumnValues[k] == event.newColumnValues[k]
    {
      var tableOrdinal := Ordinal(m.tableColumns, m.uniqueKeyColumns.columns[i].name);
      if event.newColumnValues[tableOrdinal] != event.whereColumnValues[tableOrdinal] {
        return true;
      }
    }
    return false;
  }

  lemma KeyColumnDiffers(m: Mapping, before: OriginalRow, after: OriginalRow, i: nat)
    requires m.Valid() && m.RowOk(before) && m.RowOk(after) && i < |m.uniqueKeyColumns.columns|
    ensures var k := Ordinal(m.tableColumns, m.uniqueKeyColumns.columns[i].name);
            k < |m.storage| &&
            (m.DecodeRow(before)[k] != m.DecodeRow(after)[k] <==> m.OriginalKey(before)[i] != m.OriginalKey(after)[i])
  {
    assert m.FromTable(m.uniqueKeyColumns.columns[i]);
    var k := Ordinal(m.tableColumns, m.uniqueKeyColumns.columns[i].name);
    DecodeInjective(m.storage[k], before[k], after[k]);
  }

  /** For decoded rows, "some key column differs" means that the keys differ. */
  lemma KeyModifiedMeansKeysDiffer(m: Mapping, before: OriginalRow, after: OriginalRow)
    requires m.Valid() && m.RowOk(before) && m.RowOk(after)
    ensures KeyModified(m, m.DecodeRow(before), m.DecodeRow(after)) <==> m.OriginalKey(before) != m.OriginalKey(after)
  {
    forall i | 0 <= i < |m.uniqueKeyColumns.columns|
      ensures var k := Ordinal(m.tableColumns, m.uniqueKeyColumns.columns[i].name);
              m.DecodeRow(before)[k] != m.DecodeRow(after)[k] <==> m.OriginalKey(before)[i] != m.OriginalKey(after)[i]
    {
      KeyColumnDiffers(m, before, after, i);
    }
  }

  /** An event carries the images that its kind needs. */
  ghost predicate HasImages(m: Mapping, dml: EventDML, where: seq<GoValue>, new_: seq<GoValue>) {
    m.tableColumns.columns != [] && ValidList(m.tableColumns) &&
    match dml
    case NotDML => false
    case InsertDML => |new_| == |m.tableColumns.columns|
    case DeleteDML => |where| == |m.tableColumns.columns|
    case UpdateDML => |where| == |new_| == |m.tableColumns.columns|
  }

  /** What one build of an event yields. */
  ghost function Built(m: Mapping, dml: EventDML, where: seq<GoValue>, new_: seq<GoValue>): seq<DmlBuildResult>
    requires HasImages(m, dml, where, new_)
  {
    match dml
    case InsertDML => [DmlBuildResult(InsertStatement(m, new_), 1)]
    case DeleteDML => [DmlBuildResult(DeleteStatement(m, where), -1)]
    case UpdateDML =>
      if KeyModified(m, where, new_) then
        [DmlBuildResult(DeleteStatement(m, where), -1), DmlBuildResult(InsertStatement(m, new_), 1)]
      else [DmlBuildResult(UpdateStatement(m, where, new_), 0)]
  }

  /** What the build leaves in the event: a key-changing update has become an insert. */
  ghost function DmlAfterBuild(m: Mapping, dml: EventDML, where: seq<GoValue>, new_: seq<GoValue>): EventDML
    requires HasImages(m, dml, where, new_)
  {
    if dml == UpdateDML && KeyModified(m, where, new_) then InsertDML else dml
  }

  /** What the builders check of the mapping, or rely on. */
  ghost predicate Buildable(m: Mapping) {
    && ValidList(m.tableColumns) && ValidList(m.sharedColumns) && Named(m.uniqueKeyColumns)
    && m.tableColumns.columns != [] && m.sharedColumns.columns != [] && m.uniqueKeyColumns.columns != []
    && |m.sharedColumns.columns| == |m.mappedSharedColumns.columns|
    && NamesWithin(m.sharedColumns, m.tableColumns) && NamesWithin(m.uniqueKeyColumns, m.sharedColumns)
  }

  lemma ValidIsBuildable(m: Mapping)
    requires m.Valid()
    ensures Buildable(m)
  {
    forall i | 0 <= i < |m.sharedColumns.columns|
      ensures m.sharedColumns.columns[i].name in Names(m.tableColumns.columns)
    {
      assert m.FromTable(m.sharedColumns.columns[i]);
      var k := m.tableColumns.ordinals[m.sharedColumns.columns[i].name];
      assert Names(m.tableColumns.columns)[k] == m.sharedColumns.columns[i].name;
    }
    forall i | 0 <= i < |m.uniqueKeyColumns.columns|
      ensures m.uniqueKeyColumns.columns[i].name in Names(m.sharedColumns.columns)
    {
      assert m.KeptName(m.uniqueKeyColumns.columns[i].name);
      var k := m.sharedColumns.ordinals[m.uniqueKeyColumns.columns[i].name];
      assert Names(m.sharedColumns.columns)[k] == m.uniqueKeyColumns.columns[i].name;
    }
    assert m.KeptName(m.uniqueKeyColumns.columns[0].name);
  }

  method BuildDMLEventQuery(m: Mapping, event: BinlogDMLEvent) returns (results: seq<Result<DmlBuildResult>>)
    requires Buildable(m)
    requires event.dml == UpdateDML ==> |event.whereColumnValues| == |event.newColumnValues| == |m.tableColumns.columns|
    modifies event`dml
    ensures HasImages(m, old(event.dml), event.whereColumnValues, event.newColumnValues) ==>
              var built := Built(m, old(event.dml), event.whereColumnValues, event.newColumnValues);
              && event.dml == DmlAfterBuild(m, old(event.dml), event.whereColumnValues, event.newColumnValues)
              && |results| == |built|
              && forall i :: 0 <= i < |results| ==> results[i] == Ok(built[i])
    ensures !HasImages(m, old(event.dml), event.whereColumnValues, event.newColumnValues) ==>
              event.dml == old(event.dml) && |results| == 1 && results[0].Err?
    decreases event.dml == UpdateDML
  {
    match event.dml
    case DeleteDML =>
      var query := BuildDMLDeleteQuery(m.tableColumns, m.uniqueKeyColumns, event.whereColumnValues);
      results := [if query.Ok? then Ok(DmlBuildResult(query.value, -1)) else Err(query.message)];
    case InsertDML =>
      var query := BuildDMLInsertQuery(m.tableColumns, m.sharedColumns, m.mappedSharedColumns, event.newColumnValues);
      results := [if query.Ok? then Ok(DmlBuildResult(query.value, 1)) else Err(query.message)];
    case UpdateDML =>
      var isModified := UpdateModifiesUniqueKeyColumns(m, event);
      if isModified {
        event.dml := DeleteDML;
        var deletion := BuildDMLEventQuery(m, event);
        event.dml := InsertDML;
        var insertion := BuildDMLEventQuery(m, event);
        return deletion + insertion;
      }
      var query := BuildDMLUpdateQuery(m.tableColumns, m.sharedColumns, m.mappedSharedColumns, m.uniqueKeyColumns,
                                       event.newColumnValues, event.whereColumnValues);
      results := [Ok(DmlBuildResult(query.value, 0))];
    case NotDML =>
      results := [Err("Unknown dml event type")];
  }

  // ---- Events on tables ----

  /** A change of one row, with its row images as stored. */
  datatype RowChange =
    | RowInsert(after: OriginalRow)
    | RowUpdate(before: OriginalRow, after: OriginalRow)
    | RowDelete(before: OriginalRow)

  ghost predicate ChangeOk(m: Mapping, c: RowChange) {
    match c
    case RowInsert(after) => m.RowOk(after)
    case RowUpdate(before, after) => m.RowOk(before) && m.RowOk(after)
    case RowDelete(before) => m.RowOk(before)
  }

  function ToEvent(m: Mapping, c: RowChange): Event<OriginalRow> {
    match c
    case RowInsert(after) => Insert(m.OriginalKey(after), after)
    case RowDelete(before) => Delete(m.OriginalKey(before))
    case RowUpdate(before, after) =>
      if m.OriginalKey(before) == m.OriginalKey(after) then Update(m.OriginalKey(after), after)
      else Move(m.OriginalKey(before), m.OriginalKey(after), after)
  }

  /** An event as the builder meets it. */
  datatype Images = Images(dml: EventDML, where: seq<GoValue>, new_: seq<GoValue>)

  /** The event as freshly read from the binary log. */
  ghost function Fresh(m: Mapping, c: RowChange): Images
    requires ChangeOk(m, c)
  {
    match c
    case RowInsert(after) => Images(InsertDML, [], m.DecodeRow(after))
    case RowUpdate(before, after) => Images(UpdateDML, m.DecodeRow(before), m.DecodeRow(after))
    case RowDelete(before) => Images(DeleteDML, m.DecodeRow(before), [])
  }

  ghost predicate ImagesOk(m: Mapping, e: Images) {
    HasImages(m, e.dml, e.where, e.new_)
  }

  /** The event as one build leaves it. */
  ghost function Rebuilt(m: Mapping, e: Images): Images
    requires ImagesOk(m, e)
  {
    e.(dml := DmlAfterBuild(m, e.dml, e.where, e.new_))
  }

  function Statements(built: seq<DmlBuildResult>): (ss: seq<Statement>)
    ensures |ss| == |built|
    ensures forall i :: 0 <= i < |ss| ==> ss[i] == built[i].statement
  {
    seq(|built|, i requires 0 <= i < |built| => built[i].statement)
  }

  ghost function StatementsOf(m: Mapping, e: Images): seq<Statement>
    requires ImagesOk(m, e)
  {
    Statements(Built(m, e.dml, e.where, e.new_))
  }

  ghost predicate OriginalTable(m: Mapping, t: map<Key, OriginalRow>) {
    forall key :: key in t ==> m.RowOk(t[key]) && m.OriginalKey(t[key]) == key
  }

  lemma {:induction false} ExecuteOne(m: Mapping, g: map<Key, Row>, s: Statement)
    requires WellFormed(s)
    ensures AllWellFormed([s]) && ExecuteAll(m, g, [s]) == Execute(m, g, s)
  {
    assert [s][1..] == [];
    assert ExecuteAll(m, Execute(m, g, s), []) == Execute(m, g, s);
  }

  lemma {:induction false} ExecuteTwo(m: Mapping, g: map<Key, Row>, s: Statement, t: Statement)
    requires WellFormed(s) && WellFormed(t)
    ensures AllWellFormed([s, t]) && ExecuteAll(m, g, [s, t]) == Execute(m, Execute(m, g, s), t)
  {
    assert [s, t][1..] == [t];
    ExecuteOne(m, Execute(m, g, s), t);
  }

  // What the builder makes of each kind of fresh event.

  lemma BuiltForInsert(m: Mapping, after: OriginalRow)
    requires m.Valid() && m.RowOk(after)
    ensures ImagesOk(m, Fresh(m, RowInsert(after)))
    ensures StatementsOf(m, Fresh(m, RowInsert(after))) == [InsertStatement(m, m.DecodeRow(after))]
  {
  }

  lemma BuiltForDelete(m: Mapping, before: OriginalRow)
    requires m.Valid() && m.RowOk(before)
    ensures ImagesOk(m, Fresh(m, RowDelete(before)))
    ensures StatementsOf(m, Fresh(m, RowDelete(before))) == [DeleteStatement(m, m.DecodeRow(before))]
  {
  }

  lemma BuiltForUpdate(m: Mapping, before: OriginalRow, after: OriginalRow)
    requires m.Valid() && m.RowOk(before) && m.RowOk(after)
    ensures ImagesOk(m, Fresh(m, RowUpdate(before, after)))
    ensures StatementsOf(m, Fresh(m, RowUpdate(before, after))) ==
            if m.OriginalKey(before) == m.OriginalKey(after) then
              [UpdateStatement(m, m.DecodeRow(before), m.DecodeRow(after))]
            else [DeleteStatement(m, m.DecodeRow(before)), InsertStatement(m, m.DecodeRow(after))]
  {
    KeyModifiedMeansKeysDiffer(m, before, after);
    UpdateImages(m, Images(UpdateDML, m.DecodeRow(before), m.DecodeRow(after)));
  }

  lemma UpdateImages(m: Mapping, e: Images)
    requires e.dml == UpdateDML && ImagesOk(m, e)
    ensures StatementsOf(m, e) ==
            if KeyModified(m, e.where, e.new_) then [DeleteStatement(m, e.where), InsertStatement(m, e.new_)]
            else [UpdateStatement(m, e.where, e.new_)]
    ensures TotalDelta(Built(m, e.dml, e.where, e.new_)) == 0
  {
    var built := Built(m, e.dml, e.where, e.new_);
    if KeyModified(m, e.where, e.new_) {
      assert built[1..] == [DmlBuildResult(InsertStatement(m, e.new_), 1)] && built[1..][1..] == [];
      assert TotalDelta(built[1..]) == 1;
    } else {
      assert built[1..] == [];
    }
  }

  lemma {:induction false} MoveMeaning(m: Mapping, g: map<Key, Row>, before: OriginalRow, after: OriginalRow)
    requires m.Valid() && m.RowOk(before) && m.RowOk(after) && GhostTable(m, g)
    ensures var ss := [DeleteStatement(m, m.DecodeRow(before)), InsertStatement(m, m.DecodeRow(after))];
            && AllWellFormed(ss)
            && ExecuteAll(m, g, ss) == (g - {m.OriginalKey(before)})[m.OriginalKey(after) := m.ProjectRow(after)]
  {
    DeleteMeaning(m, g, before);
    InsertMeaning(m, g - {m.OriginalKey(before)}, after);
    ExecuteTwo(m, g, DeleteStatement(m, m.DecodeRow(before)), InsertStatement(m, m.DecodeRow(after)));
  }

  /**
   On every ghost table, whether or not it mirrors the original, the statements of a fresh event are the
   replay of the event.
   */
  lemma {:induction false} StatementsAreReplay(m: Mapping, g: map<Key, Row>, c: RowChange)
    requires m.Valid() && ChangeOk(m, c) && GhostTable(m, g)
    ensures ImagesOk(m, Fresh(m, c)) && AllWellFormed(StatementsOf(m, Fresh(m, c)))
    ensures ExecuteAll(m, g, StatementsOf(m, Fresh(m, c))) == Replay(g, ToEvent(m, c), m.ProjectRow)
  {
    match c
    case RowInsert(after) =>
      InsertMeaning(m, g, after);
      BuiltForInsert(m, after);
      ExecuteOne(m, g, InsertStatement(m, m.DecodeRow(after)));
    case RowDelete(before) =>
      DeleteMeaning(m, g, before);
      BuiltForDelete(m, before);
      ExecuteOne(m, g, DeleteStatement(m, m.DecodeRow(before)));
    case RowUpdate(before, after) =>
      UpdateIsReplay(m, g, before, after);
  }

  lemma {:induction false} UpdateIsReplay(m: Mapping, g: map<Key, Row>, before: OriginalRow, after: OriginalRow)
    requires m.Valid() && m.RowOk(before) && m.RowOk(after) && GhostTable(m, g)
    ensures var c := RowUpdate(before, after);
            && ImagesOk(m, Fresh(m, c)) && AllWellFormed(StatementsOf(m, Fresh(m, c)))
            && ExecuteAll(m, g, StatementsOf(m, Fresh(m, c))) == Replay(g, ToEvent(m, c), m.ProjectRow)
  {
    BuiltForUpdate(m, before, after);
    if m.OriginalKey(before) == m.OriginalKey(after) {
      UpdateMeaning(m, g, before, after);
      ExecuteOne(m, g, UpdateStatement(m, m.DecodeRow(before), m.DecodeRow(after)));
    } else {
      MoveMeaning(m, g, before, after);
    }
  }

  /** Replay commutes with projection. */
  lemma {:induction false} ReplayCommutes(m: Mapping, t: map<Key, OriginalRow>, c: RowChange)
    requires m.Valid() && ChangeOk(m, c) && OriginalTable(m, t)
    requires Applicable(t, ToEvent(m, c))
    ensures ImagesOk(m, Fresh(m, c)) && AllWellFormed(StatementsOf(m, Fresh(m, c)))
    ensures ExecuteAll(m, Project(t, m.ProjectRow), StatementsOf(m, Fresh(m, c)))
            == Project(Apply(t, ToEvent(m, c)), m.ProjectRow)
  {
    var g := Project(t, m.ProjectRow);
    forall key | key in g
      ensures m.GhostKey(g[key]) == key && HasShape(m, g[key])
    {
      ProjectionKeepsKey(m, t[key]);
    }
    StatementsAreReplay(m, g, c);
    ReplayMirrors(t, ToEvent(m, c), m.ProjectRow);
  }

  /** Replay keeps rows under their keys. */
  lemma ReplayKeepsGhostTable(m: Mapping, g: map<Key, Row>, c: RowChange)
    requires m.Valid() && ChangeOk(m, c) && GhostTable(m, g)
    ensures GhostTable(m, Replay(g, ToEvent(m, c), m.ProjectRow))
  {
    if c.RowInsert? || c.RowUpdate? {
      ProjectionKeepsKey(m, c.after);
    }
    ReplayWritesOnlyProjection(g, ToEvent(m, c), m.ProjectRow);
  }

  lemma ReplayWritesOnlyProjection<R, G>(g: map<Key, G>, e: Event<R>, p: R -> G)
    ensures var r := Replay(g, e, p);
            forall key :: key in r ==>
              (key in g && r[key] == g[key]) ||
              (!e.Delete? && key == (if e.Move? then e.to else e.key) && r[key] == p(e.row))
  {
  }

  /**
   A batch that was rolled back is built again from events whose kind the first build may have overwritten.
   The second build does what the first would have done exactly when the event is not a key-changing update
   of a row that the ghost table holds: such an update is rebuilt as the insert alone, and the row under the
   old key survives.
   */
  lemma {:induction false} RetriedBuild(m: Mapping, g: map<Key, Row>, c: RowChange)
    requires m.Valid() && ChangeOk(m, c) && GhostTable(m, g)
    ensures ImagesOk(m, Fresh(m, c)) && AllWellFormed(StatementsOf(m, Fresh(m, c)))
    ensures ImagesOk(m, Rebuilt(m, Fresh(m, c))) && AllWellFormed(StatementsOf(m, Rebuilt(m, Fresh(m, c))))
    ensures ExecuteAll(m, g, StatementsOf(m, Rebuilt(m, Fresh(m, c)))) == ExecuteAll(m, g, StatementsOf(m, Fresh(m, c)))
            <==> !(c.RowUpdate? && m.OriginalKey(c.before) != m.OriginalKey(c.after) && m.OriginalKey(c.before) in g)
  {
    StatementsAreReplay(m, g, c);
    if c.RowUpdate? && m.OriginalKey(c.before) != m.OriginalKey(c.after) {
      RetriedMove(m, g, c.before, c.after);
    } else {
      RebuiltUnchanged(m, c);
    }
  }

  lemma RebuiltUnchanged(m: Mapping, c: RowChange)
    requires m.Valid() && ChangeOk(m, c)
    requires c.RowUpdate? ==> m.OriginalKey(c.before) == m.OriginalKey(c.after)
    ensures ImagesOk(m, Fresh(m, c)) && Rebuilt(m, Fresh(m, c)) == Fresh(m, c)
  {
    if c.RowUpdate? {
      KeyModifiedMeansKeysDiffer(m, c.before, c.after);
    }
  }

  lemma RebuiltMove(m: Mapping, before: OriginalRow, after: OriginalRow)
    requires m.Valid() && m.RowOk(before) && m.RowOk(after)
    requires m.OriginalKey(before) != m.OriginalKey(after)
    ensures var e := Fresh(m, RowUpdate(before, after));
            && ImagesOk(m, e) && ImagesOk(m, Rebuilt(m, e))
            && Rebuilt(m, e).dml == InsertDML
            && StatementsOf(m, Rebuilt(m, e)) == [InsertStatement(m, m.DecodeRow(after))]
            && TotalDelta(Built(m, Rebuilt(m, e).dml, e.where, e.new_)) == 1
  {
    KeyModifiedMeansKeysDiffer(m, before, after);
    InsertDelta(InsertStatement(m, m.DecodeRow(after)));
  }

  lemma InsertDelta(s: Statement)
    ensures TotalDelta([DmlBuildResult(s, 1)]) == 1
  {
    assert [DmlBuildResult(s, 1)][1..] == [];
  }

  lemma {:induction false} RetriedMove(m: Mapping, g: map<Key, Row>, before: OriginalRow, after: OriginalRow)
    requires m.Valid() && m.RowOk(before) && m.RowOk(after) && GhostTable(m, g)
    requires m.OriginalKey(before) != m.OriginalKey(after)
    ensures var e := Fresh(m, RowUpdate(before, after));
            && ImagesOk(m, Rebuilt(m, e)) && AllWellFormed(StatementsOf(m, Rebuilt(m, e)))
            && AllWellFormed(StatementsOf(m, e))
            && (ExecuteAll(m, g, StatementsOf(m, Rebuilt(m, e))) == ExecuteAll(m, g, StatementsOf(m, e))
                <==> m.OriginalKey(before) !in g)
  {
    var from, to := m.OriginalKey(before), m.OriginalKey(after);
    var row := m.ProjectRow(after);
    BuiltForUpdate(m, before, after);
    MoveMeaning(m, g, before, after);
    RebuiltMove(m, before, after);
    InsertMeaning(m, g, after);
    ExecuteOne(m, g, InsertStatement(m, m.DecodeRow(after)));
    LeftoverRow(g, from, to, row);
  }

  lemma LeftoverRow(g: map<Key, Row>, from: Key, to: Key, row: Row)
    requires from != to
    ensures g[to := row] == (g - {from})[to := row] <==> from !in g
  {
    assert from in g[to := row] <==> from in g;
    assert from !in (g - {from})[to := row];
    assert from !in g ==> g - {from} == g;
  }

  /** One attempt at an event: fresh, or after an earlier attempt has built it. */
  ghost function Attempted(m: Mapping, c: RowChange, retried: bool): Images
    requires ChangeOk(m, c) && (retried ==> ImagesOk(m, Fresh(m, c)))
  {
    if retried then Rebuilt(m, Fresh(m, c)) else Fresh(m, c)
  }

  function AttemptedEvent(m: Mapping, c: RowChange, retried: bool): Event<OriginalRow> {
    if retried then Retried(ToEvent(m, c)) else ToEvent(m, c)
  }

  /** On every ghost table, the statements of an attempt are the replay of the event, fresh or retried. */
  lemma {:induction false} AttemptIsReplay(m: Mapping, g: map<Key, Row>, c: RowChange, retried: bool)
    requires m.Valid() && ChangeOk(m, c) && GhostTable(m, g)
    ensures ImagesOk(m, Fresh(m, c)) && ImagesOk(m, Attempted(m, c, retried))
    ensures AllWellFormed(StatementsOf(m, Attempted(m, c, retried)))
    ensures ExecuteAll(m, g, StatementsOf(m, Attempted(m, c, retried)))
            == Replay(g, AttemptedEvent(m, c, retried), m.ProjectRow)
    ensures GhostTable(m, Replay(g, AttemptedEvent(m, c, retried), m.ProjectRow))
  {
    if !retried {
      FreshAttempt(m, g, c);
    } else if c.RowUpdate? && m.OriginalKey(c.before) != m.OriginalKey(c.after) {
      RetriedMoveIsInsert(m, g, c.before, c.after);
    } else {
      FreshAttempt(m, g, c);
      SameWhenRetried(m, c);
    }
  }

  lemma {:induction false} FreshAttempt(m: Mapping, g: map<Key, Row>, c: RowChange)
    requires m.Valid() && ChangeOk(m, c) && GhostTable(m, g)
    ensures ImagesOk(m, Fresh(m, c)) && AllWellFormed(StatementsOf(m, Fresh(m, c)))
    ensures ExecuteAll(m, g, StatementsOf(m, Fresh(m, c))) == Replay(g, ToEvent(m, c), m.ProjectRow)
    ensures GhostTable(m, Replay(g, ToEvent(m, c), m.ProjectRow))
  {
    StatementsAreReplay(m, g, c);
    ReplayKeepsGhostTable(m, g, c);
  }

  lemma SameWhenRetried(m: Mapping, c: RowChange)
    requires m.Valid() && ChangeOk(m, c)
    requires c.RowUpdate? ==> m.OriginalKey(c.before) == m.OriginalKey(c.after)
    ensures ImagesOk(m, Fresh(m, c))
    ensures Attempted(m, c, true) == Fresh(m, c) && AttemptedEvent(m, c, true) == ToEvent(m, c)
  {
    RebuiltUnchanged(m, c);
  }

  lemma {:induction false} RetriedMoveIsInsert(m: Mapping, g: map<Key, Row>, before: OriginalRow, after: OriginalRow)
    requires m.Valid() && m.RowOk(before) && m.RowOk(after) && GhostTable(m, g)
    requires m.OriginalKey(before) != m.OriginalKey(after)
    ensures var c := RowUpdate(before, after);
            && ImagesOk(m, Fresh(m, c)) && ImagesOk(m, Rebuilt(m, Fresh(m, c)))
            && AllWellFormed(StatementsOf(m, Rebuilt(m, Fresh(m, c))))
            && ExecuteAll(m, g, StatementsOf(m, Rebuilt(m, Fresh(m, c))))
               == Replay(g, Retried(ToEvent(m, c)), m.ProjectRow)
            && GhostTable(m, Replay(g, Retried(ToEvent(m, c)), m.ProjectRow))
  {
    RebuiltMove(m, before, after);
    InsertMeaning(m, g, after);
    ExecuteOne(m, g, InsertStatement(m, m.DecodeRow(after)));
    ReplayKeepsGhostTable(m, g, RowInsert(after));
  }

  // ---- Net row counts ----

  function TotalDelta(built: seq<DmlBuildResult>): int {
    if built == [] then 0 else built[0].rowsDelta + TotalDelta(built[1..])
  }

  /** The deltas of a fresh event count the rows that the event added to the original. */
  lemma DeltaCountsRows(m: Mapping, t: map<Key, OriginalRow>, c: RowChange)
    requires m.Valid() && ChangeOk(m, c) && Applicable(t, ToEvent(m, c))
    ensures ImagesOk(m, Fresh(m, c))
    ensures var e := Fresh(m, c);
            TotalDelta(Built(m, e.dml, e.where, e.new_)) == |Apply(t, ToEvent(m, c))| - |t|
  {
    SizeAfter(t, ToEvent(m, c));
    FreshDelta(m, c);
  }

  lemma FreshDelta(m: Mapping, c: RowChange)
    requires m.Valid() && ChangeOk(m, c)
    ensures ImagesOk(m, Fresh(m, c))
    ensures var e := Fresh(m, c);
            TotalDelta(Built(m, e.dml, e.where, e.new_)) == if c.RowInsert? then 1 else if c.RowDelete? then -1 else 0
  {
    var e := Fresh(m, c);
    if c.RowUpdate? {
      UpdateImages(m, e);
    } else {
      assert Built(m, e.dml, e.where, e.new_)[1..] == [];
    }
  }

  /** The deltas of a rebuilt event are those of the first build unless the event changed the key. */
  lemma RetriedDelta(m: Mapping, c: RowChange)
    requires m.Valid() && ChangeOk(m, c)
    ensures var e := Fresh(m, c);
            && ImagesOk(m, e) && ImagesOk(m, Rebuilt(m, e))
            && (TotalDelta(Built(m, Rebuilt(m, e).dml, e.where, e.new_)) == TotalDelta(Built(m, e.dml, e.where, e.new_))
                <==> !(c.RowUpdate? && m.OriginalKey(c.before) != m.OriginalKey(c.after)))
  {
    FreshDelta(m, c);
    if c.RowUpdate? && m.OriginalKey(c.before) != m.OriginalKey(c.after) {
      RebuiltMove(m, c.before, c.after);
    } else {
      RebuiltUnchanged(m, c);
    }
  }

  lemma SizeAfter(t: map<Key, OriginalRow>, e: Event<OriginalRow>)
    requires Applicable(t, e)
    ensures |Apply(t, e)| == |t| + (if e.Insert? then 1 else if e.Delete? then -1 else 0)
  {
    match e
    case Insert(key, row) =>
      assert Apply(t, e).Keys == t.Keys + {key};
    case Delete(key) =>
      assert Apply(t, e).Keys == t.Keys - {key};
    case Update(key, row) =>
      assert Apply(t, e).Keys == t.Keys;
    case Move(from, to, row) =>
      assert Apply(t, e).Keys == t.Keys - {from} + {to};
      assert |t.Keys - {from}| == |t.Keys| - 1;
  }
}
