/**
 The mapping of columns from the original table to the ghost table, and the choice of unique keys that both have.
 Column names are compared after folding their case.
 */
module SharedColumns {
  /**
   What the inspection of both tables gives. `fold` stands for Unicode case folding, `dropped` lists the columns
   that the ALTER statement drops, in the order in which they happen to be visited.
   */
  datatype Tables = Tables(
    original: seq<string>, ghost_: seq<string>,
    originalVirtual: seq<string>, ghostVirtual: seq<string>,
    columnRenameMap: map<string, string>, dropped: seq<string>,
    fold: string -> string)
  {
    /** strings.EqualFold */
    predicate EqualFold(a: string, b: string) {
      fold(a) == fold(b)
    }

    predicate FoldedIn(name: string, names: seq<string>) {
      exists i :: 0 <= i < |names| && EqualFold(name, names[i])
    }

    /** Looking up a missing key of a Go map gives the empty string. */
    function Renamed(name: string): string {
      if name in columnRenameMap then columnRenameMap[name] else ""
    }

    function MappedName(name: string): string {
      if name in columnRenameMap then columnRenameMap[name] else name
    }

    predicate IsShared(name: string) {
      && (FoldedIn(name, ghost_) || FoldedIn(Renamed(name), ghost_))
      && !FoldedIn(name, dropped) && !FoldedIn(name, originalVirtual) && !FoldedIn(name, ghostVirtual)
    }

    /** The shared ones among the first `n` columns. */
    function Shared(n: nat): seq<string>
      requires n <= |original|
    {
      if n == 0 then []
      else Shared(n - 1) + if IsShared(original[n - 1]) then [original[n - 1]] else []
    }

    function Mapped(names: seq<string>): (mapped: seq<string>)
      ensures |mapped| == |names|
      ensures forall j :: 0 <= j < |names| ==> mapped[j] == MappedName(names[j])
    {
      seq(|names|, j requires 0 <= j < |names| => MappedName(names[j]))
    }

    /** The ALTER statement keeps the column. */
    predicate Kept(i: nat)
      requires i < |original|
    {
      !FoldedIn(original[i], dropped)
    }

    /**
     The ghost table is what the ALTER statement makes of the original: `place` says which ghost column each
     kept column has become. Names are spelled in the statement as they are in the schema.
     */
    ghost predicate AlterProduces(place: map<nat, nat>) {
      && DistinctNames(original) && DistinctNames(ghost_)
      && (forall i: nat :: i < |original| && Kept(i) ==>
            i in place && place[i] < |ghost_| && EqualFold(MappedName(original[i]), ghost_[place[i]]))
      && (forall i: nat, j: nat :: i < j < |original| && Kept(i) && Kept(j) && i in place && j in place ==>
            place[i] != place[j])
    }

    /** A table cannot have two columns whose names fold to the same. */
    ghost predicate DistinctNames(names: seq<string>) {
      forall i, j :: 0 <= i < j < |names| ==> !EqualFold(names[i], names[j])
    }
  }

  method FindFolded(t: Tables, name: string, names: seq<string>) returns (found: bool)
    ensures found <==> t.FoldedIn(name, names)
  {
    found := false;
    for i := 0 to |names|
      invariant !found && !t.FoldedIn(name, names[..i])
    {
      if t.EqualFold(name, names[i]) {
        assert t.FoldedIn(name, names);
        return true;
      }
      assert names[..i + 1] == names[..i] + [names[i]];
    }
    assert names[..|names|] == names;
  }

  method IsSharedColumn(t: Tables, originalColumn: string) returns (isSharedColumn: bool)
    ensures isSharedColumn <==> t.IsShared(originalColumn)
  {
    isSharedColumn := false;
    for i := 0 to |t.ghost_|
      invariant !isSharedColumn
      invariant forall k :: 0 <= k < i ==>
                  !t.EqualFold(originalColumn, t.ghost_[k]) && !t.EqualFold(t.Renamed(originalColumn), t.ghost_[k])
    {
      var ghostColumn := t.ghost_[i];
      if t.EqualFold(originalColumn, ghostColumn) {
        isSharedColumn := true;
        break;
      }
      if t.EqualFold(t.Renamed(originalColumn), ghostColumn) {
        isSharedColumn := true;
        break;
      }
    }
    var isDropped := FindFolded(t, originalColumn, t.dropped);
    if isDropped {
      isSharedColumn := false;
    }
    var isVirtual := FindFolded(t, originalColumn, t.originalVirtual);
    if isVirtual {
      isSharedColumn := false;
    }
    isVirtual := FindFolded(t, originalColumn, t.ghostVirtual);
    if isVirtual {
      isSharedColumn := false;
    }
  }

  method GetSharedColumns(t: Tables) returns (sharedColumnNames: seq<string>, mappedSharedColumnNames: seq<string>)
    ensures sharedColumnNames == t.Shared(|t.original|)
    ensures mappedSharedColumnNames == t.Mapped(sharedColumnNames)
  {
    sharedColumnNames := [];
    for i := 0 to |t.original|
      invariant sharedColumnNames == t.Shared(i)
    {
      var isSharedColumn := IsSharedColumn(t, t.original[i]);
      if isSharedColumn {
        sharedColumnNames := sharedColumnNames + [t.original[i]];
      }
    }
    mappedSharedColumnNames := [];
    for j := 0 to |sharedColumnNames|
      invariant mappedSharedColumnNames == t.Mapped(sharedColumnNames[..j])
    {
      var columnName := sharedColumnNames[j];
      if columnName in t.columnRenameMap {
        mappedSharedColumnNames := mappedSharedColumnNames + [t.columnRenameMap[columnName]];
      } else {
        mappedSharedColumnNames := mappedSharedColumnNames + [columnName];
      }
      assert sharedColumnNames[..j + 1] == sharedColumnNames[..j] + [columnName];
    }
    assert sharedColumnNames[..|sharedColumnNames|] == sharedColumnNames;
  }

  // ---- The mapping is right ----

  /** Where the shared columns stand in the original table: in the same order. */
  lemma {:induction false} SharedPositions(t: Tables, n: nat) returns (positions: seq<nat>)
    requires n <= |t.original|
    ensures |positions| == |t.Shared(n)|
    ensures forall j :: 0 <= j < |positions| ==>
              positions[j] < n && t.Shared(n)[j] == t.original[positions[j]] && t.IsShared(t.original[positions[j]])
    ensures forall j, k :: 0 <= j < k < |positions| ==> positions[j] < positions[k]
  {
    if n == 0 {
      positions := [];
    } else {
      positions := SharedPositions(t, n - 1);
      if t.IsShared(t.original[n - 1]) {
        positions := positions + [n - 1];
      }
    }
  }

  lemma {:induction false} SharedContains(t: Tables, n: nat, i: nat)
    requires i < n <= |t.original| && t.IsShared(t.original[i])
    ensures t.original[i] in t.Shared(n)
  {
    if i == n - 1 {
      assert t.Shared(n)[|t.Shared(n)| - 1] == t.original[i];
    } else {
      SharedContains(t, n - 1, i);
    }
  }

  /**
   Position by position, a shared column is mapped to the ghost column it has become, and no two are mapped to
   the same.
   */
  lemma MappingIsAligned(t: Tables, place: map<nat, nat>) returns (positions: seq<nat>)
    requires t.AlterProduces(place)
    ensures
      var shared := t.Shared(|t.original|);
      && |positions| == |shared| == |t.Mapped(shared)|
      && (forall j, k :: 0 <= j < k < |shared| ==> positions[j] < positions[k])
      && (forall j :: 0 <= j < |shared| ==>
            && positions[j] < |t.original| && t.original[positions[j]] == shared[j]
            && positions[j] in place && place[positions[j]] < |t.ghost_|
            && t.EqualFold(t.Mapped(shared)[j], t.ghost_[place[positions[j]]]))
      && (forall j, k :: 0 <= j < k < |shared| ==>
            !t.EqualFold(shared[j], shared[k]) && !t.EqualFold(t.Mapped(shared)[j], t.Mapped(shared)[k]))
  {
    positions := SharedPositions(t, |t.original|);
    var shared := t.Shared(|t.original|);
    forall j | 0 <= j < |shared|
      ensures positions[j] in place && place[positions[j]] < |t.ghost_|
              && t.EqualFold(t.Mapped(shared)[j], t.ghost_[place[positions[j]]])
    {
      assert t.Kept(positions[j]);
    }
    forall j, k | 0 <= j < k < |shared|
      ensures !t.EqualFold(shared[j], shared[k]) && !t.EqualFold(t.Mapped(shared)[j], t.Mapped(shared)[k])
    {
      assert t.Kept(positions[j]) && t.Kept(positions[k]);
      DistinctPlaces(t, place, positions[j], positions[k]);
    }
  }

  lemma DistinctPlaces(t: Tables, place: map<nat, nat>, i: nat, j: nat)
    requires t.AlterProduces(place) && i < j < |t.original| && t.Kept(i) && t.Kept(j)
    ensures !t.EqualFold(t.original[i], t.original[j])
    ensures !t.EqualFold(t.MappedName(t.original[i]), t.MappedName(t.original[j]))
  {
    var p, q := place[i], place[j];
    assert p != q;
    if p < q {
      assert !t.EqualFold(t.ghost_[p], t.ghost_[q]);
    } else {
      assert !t.EqualFold(t.ghost_[q], t.ghost_[p]);
    }
  }

  /**
   Exactly these columns are shared: those the ALTER statement keeps, that are not generated in the original
   table, and whose original name is not that of a generated column of the ghost table.
   */
  lemma {:induction false} SharedExactly(t: Tables, place: map<nat, nat>, i: nat)
    requires t.AlterProduces(place) && i < |t.original|
    ensures t.original[i] in t.Shared(|t.original|) <==>
              t.Kept(i) && !t.FoldedIn(t.original[i], t.originalVirtual) && !t.FoldedIn(t.original[i], t.ghostVirtual)
  {
    var name := t.original[i];
    if t.Kept(i) {
      assert t.EqualFold(t.MappedName(name), t.ghost_[place[i]]);
      assert t.FoldedIn(t.MappedName(name), t.ghost_);
    }
    if t.IsShared(name) {
      SharedContains(t, |t.original|, i);
    } else {
      OnlyShared(t, |t.original|, name);
    }
  }

  lemma {:induction false} OnlyShared(t: Tables, n: nat, name: string)
    requires n <= |t.original| && !t.IsShared(name)
    ensures name !in t.Shared(n)
  {
    if n > 0 {
      OnlyShared(t, n - 1, name);
    }
  }

  /** A column of the unique key that is kept, not generated and not renamed is shared under its own name. */
  lemma KeyColumnKeepsName(t: Tables, place: map<nat, nat>, i: nat) returns (j: nat)
    requires t.AlterProduces(place) && i < |t.original| && t.Kept(i) && t.original[i] !in t.columnRenameMap
    requires !t.FoldedIn(t.original[i], t.originalVirtual) && !t.FoldedIn(t.original[i], t.ghostVirtual)
    ensures j < |t.Shared(|t.original|)|
    ensures t.Shared(|t.original|)[j] == t.original[i] == t.Mapped(t.Shared(|t.original|))[j]
  {
    SharedExactly(t, place, i);
    j :| 0 <= j < |t.Shared(|t.original|)| && t.Shared(|t.original|)[j] == t.original[i];
  }

  /**
   The test for generated ghost columns looks at the original name, although it is the column that the original one
   has become which must not be generated. A kept column that is not generated in the original table is therefore
   treated as it should be exactly if its original name and its mapped name are both those of generated ghost columns
   or neither is. A column that is not renamed always is.
   */
  lemma {:induction false} GeneratedTestIsRightExactly(t: Tables, place: map<nat, nat>, i: nat)
    requires t.AlterProduces(place) && i < |t.original|
    requires t.Kept(i) && !t.FoldedIn(t.original[i], t.originalVirtual)
    ensures
      var name := t.original[i];
      (name in t.Shared(|t.original|) <==> !t.FoldedIn(t.ghost_[place[i]], t.ghostVirtual))
      <==> (t.FoldedIn(name, t.ghostVirtual) <==> t.FoldedIn(t.MappedName(name), t.ghostVirtual))
    ensures t.original[i] !in t.columnRenameMap ==>
              (t.original[i] in t.Shared(|t.original|) <==> !t.FoldedIn(t.ghost_[place[i]], t.ghostVirtual))
  {
    SharedExactly(t, place, i);
    FoldedInRespectsFolding(t, t.MappedName(t.original[i]), t.ghost_[place[i]], t.ghostVirtual);
  }

  lemma FoldedInRespectsFolding(t: Tables, a: string, b: string, names: seq<string>)
    requires t.EqualFold(a, b)
    ensures t.FoldedIn(a, names) <==> t.FoldedIn(b, names)
  {
    if k :| 0 <= k < |names| && t.EqualFold(a, names[k]) {
      assert t.EqualFold(b, names[k]);
    }
    if k :| 0 <= k < |names| && t.EqualFold(b, names[k]) {
      assert t.EqualFold(a, names[k]);
    }
  }

  const RenamedAway :=
    Tables(["id", "a"], ["id", "b", "a"], [], ["a"], map["a" := "b"], [], s => s)

  const RenamedToGenerated :=
    Tables(["id", "a"], ["id", "b"], [], ["b"], map["a" := "b"], [], s => s)

  lemma RenamedAwayIsProduced()
    ensures RenamedAway.AlterProduces(map[0 := 0, 1 := 1])
  {
  }

  lemma RenamedToGeneratedIsProduced()
    ensures RenamedToGenerated.AlterProduces(map[0 := 0, 1 := 1])
  {
  }

  /** With renames it is wrong both ways. Here a kept column is left out, as a new generated column has its name. */
  lemma RenamedColumnLeftOut()
    ensures RenamedAway.AlterProduces(map[0 := 0, 1 := 1]) && RenamedAway.Kept(1)
    ensures !RenamedAway.FoldedIn(RenamedAway.MappedName("a"), RenamedAway.ghostVirtual)
    ensures "a" !in RenamedAway.Shared(2)
  {
    RenamedAwayIsProduced();
    assert RenamedAway.EqualFold("a", RenamedAway.ghostVirtual[0]);
    OnlyShared(RenamedAway, 2, "a");
  }

  /** And here a column is mapped to a generated one. */
  lemma MappedToGeneratedColumn()
    ensures RenamedToGenerated.AlterProduces(map[0 := 0, 1 := 1])
    ensures "a" in RenamedToGenerated.Shared(2)
    ensures RenamedToGenerated.FoldedIn(RenamedToGenerated.MappedName("a"), RenamedToGenerated.ghostVirtual)
  {
    RenamedToGeneratedIsProduced();
    assert RenamedToGenerated.EqualFold("b", RenamedToGenerated.ghostVirtual[0]);
    assert RenamedToGenerated.EqualFold(RenamedToGenerated.Renamed("a"), RenamedToGenerated.ghost_[1]);
    SharedContains(RenamedToGenerated, 2, 1);
  }

  // ---- Unique keys ----

  datatype UniqueKey = UniqueKey(name: string, columns: seq<string>)

  predicate HasColumns(keys: seq<UniqueKey>, columns: seq<string>) {
    exists i :: 0 <= i < |keys| && keys[i].columns == columns
  }

  /** The key, once for each of the ghost keys that have its columns. */
  function Copies(key: UniqueKey, ghostUniqueKeys: seq<UniqueKey>): seq<UniqueKey> {
    if ghostUniqueKeys == [] then []
    else
      var last := |ghostUniqueKeys| - 1;
      Copies(key, ghostUniqueKeys[..last]) + if key.columns == ghostUniqueKeys[last].columns then [key] else []
  }

  /** The keys of the original table that the ghost table has as well, in their order. */
  function SharedKeys(originalUniqueKeys: seq<UniqueKey>, ghostUniqueKeys: seq<UniqueKey>): seq<UniqueKey> {
    if originalUniqueKeys == [] then []
    else
      var last := |originalUniqueKeys| - 1;
      SharedKeys(originalUniqueKeys[..last], ghostUniqueKeys) + Copies(originalUniqueKeys[last], ghostUniqueKeys)
  }

  lemma {:induction false} CopiesMeaning(key: UniqueKey, ghostUniqueKeys: seq<UniqueKey>, k: UniqueKey)
    ensures k in Copies(key, ghostUniqueKeys) <==> k == key && HasColumns(ghostUniqueKeys, key.columns)
  {
    if ghostUniqueKeys != [] {
      var init, last := ghostUniqueKeys[..|ghostUniqueKeys| - 1], ghostUniqueKeys[|ghostUniqueKeys| - 1];
      CopiesMeaning(key, init, k);
      assert ghostUniqueKeys == init + [last];
    }
  }

  /** Exactly those keys are shared whose column names, in order, are also those of a key of the ghost table. */
  lemma {:induction false} SharedKeysMeaning(originalUniqueKeys: seq<UniqueKey>, ghostUniqueKeys: seq<UniqueKey>,
                                             key: UniqueKey)
    ensures key in SharedKeys(originalUniqueKeys, ghostUniqueKeys)
            <==> key in originalUniqueKeys && HasColumns(ghostUniqueKeys, key.columns)
  {
    if originalUniqueKeys != [] {
      var init, last := originalUniqueKeys[..|originalUniqueKeys| - 1], originalUniqueKeys[|originalUniqueKeys| - 1];
      SharedKeysMeaning(init, ghostUniqueKeys, key);
      CopiesMeaning(last, ghostUniqueKeys, key);
      assert originalUniqueKeys == init + [last];
    }
  }

  /** How many of the keys have these columns. */
  function CountWith(keys: seq<UniqueKey>, columns: seq<string>): (n: nat)
    ensures n > 0 <==> HasColumns(keys, columns)
  {
    if keys == [] then 0
    else
      var last := |keys| - 1;
      assert forall i :: 0 <= i < last ==> keys[..last][i] == keys[i];
      CountWith(keys[..last], columns) + if keys[last].columns == columns then 1 else 0
  }

  lemma {:induction false} CopiesAreCounted(key: UniqueKey, ghostUniqueKeys: seq<UniqueKey>)
    ensures |Copies(key, ghostUniqueKeys)| == CountWith(ghostUniqueKeys, key.columns)
    ensures forall i :: 0 <= i < |Copies(key, ghostUniqueKeys)| ==> Copies(key, ghostUniqueKeys)[i] == key
  {
    if ghostUniqueKeys != [] {
      CopiesAreCounted(key, ghostUniqueKeys[..|ghostUniqueKeys| - 1]);
    }
  }

  /**
   Where the shared keys come from: the i-th is the original key at `sources[i]`. They are in the order of the original
   keys, and each original key is there as often as the ghost table has keys with its columns.
   */
  lemma {:induction false} SharedKeysInOrder(originalUniqueKeys: seq<UniqueKey>, ghostUniqueKeys: seq<UniqueKey>)
    returns (sources: seq<int>)
    ensures |sources| == |SharedKeys(originalUniqueKeys, ghostUniqueKeys)|
    ensures forall i :: 0 <= i < |sources| ==>
              0 <= sources[i] < |originalUniqueKeys|
              && SharedKeys(originalUniqueKeys, ghostUniqueKeys)[i] == originalUniqueKeys[sources[i]]
    ensures forall i, j :: 0 <= i < j < |sources| ==> sources[i] <= sources[j]
    ensures forall k :: 0 <= k < |originalUniqueKeys| ==>
              multiset(sources)[k] == CountWith(ghostUniqueKeys, originalUniqueKeys[k].columns)
  {
    if originalUniqueKeys == [] {
      sources := [];
    } else {
      var last := |originalUniqueKeys| - 1;
      var before := SharedKeysInOrder(originalUniqueKeys[..last], ghostUniqueKeys);
      var count := CountWith(ghostUniqueKeys, originalUniqueKeys[last].columns);
      CopiesAreCounted(originalUniqueKeys[last], ghostUniqueKeys);
      sources := before + seq(count, _ => last);
      assert last !in before;
      forall k | 0 <= k < |originalUniqueKeys|
        ensures multiset(sources)[k] == CountWith(ghostUniqueKeys, originalUniqueKeys[k].columns)
      {
        RepeatedCount(before, count, last, k);
        if k < last {
          assert originalUniqueKeys[..last][k] == originalUniqueKeys[k];
        } else {
          assert last !in multiset(before);
        }
      }
    }
  }

  lemma {:induction false} RepeatedCount(before: seq<int>, count: nat, k: int, j: int)
    ensures multiset(before + seq(count, _ => k))[j] == multiset(before)[j] + if j == k then count else 0
  {
    if count == 0 {
      assert before + seq(count, _ => k) == before;
    } else {
      RepeatedCount(before, count - 1, k, j);
      assert before + seq(count, _ => k) == before + seq(count - 1, _ => k) + [k];
    }
  }

  /**
   The first shared key, which the caller chooses first, is the first key of the original that the ghost table has too;
   there is none if the ghost table has none of them.
   */
  lemma {:induction false} FirstSharedKey(originalUniqueKeys: seq<UniqueKey>, ghostUniqueKeys: seq<UniqueKey>, k: nat)
    requires k <= |originalUniqueKeys|
    requires forall i :: 0 <= i < k ==> !HasColumns(ghostUniqueKeys, originalUniqueKeys[i].columns)
    requires k < |originalUniqueKeys| ==> HasColumns(ghostUniqueKeys, originalUniqueKeys[k].columns)
    ensures
      var shared := SharedKeys(originalUniqueKeys, ghostUniqueKeys);
      if k < |originalUniqueKeys| then shared != [] && shared[0] == originalUniqueKeys[k] else shared == []
  {
    var shared := SharedKeys(originalUniqueKeys, ghostUniqueKeys);
    var sources := SharedKeysInOrder(originalUniqueKeys, ghostUniqueKeys);
    if k < |originalUniqueKeys| {
      InSources(sources, k);
    }
    if shared != [] {
      SharedKeysMeaning(originalUniqueKeys, ghostUniqueKeys, shared[0]);
    }
  }

  lemma InSources(sources: seq<int>, k: int)
    requires multiset(sources)[k] > 0
    ensures k in sources
  {
    assert k in multiset(sources);
  }

  /** A key is appended once for each ghost key that matches it. */
  method GetSharedUniqueKeys(originalUniqueKeys: seq<UniqueKey>, ghostUniqueKeys: seq<UniqueKey>)
    returns (uniqueKeys: seq<UniqueKey>)
    ensures uniqueKeys == SharedKeys(originalUniqueKeys, ghostUniqueKeys)
    ensures forall key :: key in uniqueKeys <==> key in originalUniqueKeys && HasColumns(ghostUniqueKeys, key.columns)
  {
    uniqueKeys := [];
    for i := 0 to |originalUniqueKeys|
      invariant uniqueKeys == SharedKeys(originalUniqueKeys[..i], ghostUniqueKeys)
    {
      var originalUniqueKey := originalUniqueKeys[i];
      var before := uniqueKeys;
      for j := 0 to |ghostUniqueKeys|
        invariant uniqueKeys == before + Copies(originalUniqueKey, ghostUniqueKeys[..j])
      {
        assert ghostUniqueKeys[..j + 1][..j] == ghostUniqueKeys[..j];
        if originalUniqueKey.columns == ghostUniqueKeys[j].columns {
          uniqueKeys := uniqueKeys + [originalUniqueKey];
        }
      }
      assert ghostUniqueKeys[..|ghostUniqueKeys|] == ghostUniqueKeys;
      assert originalUniqueKeys[..i + 1][..i] == originalUniqueKeys[..i];
    }
    assert originalUniqueKeys[..|originalUniqueKeys|] == originalUniqueKeys;
    forall key ensures key in uniqueKeys <==> key in originalUniqueKeys && HasColumns(ghostUniqueKeys, key.columns) {
      SharedKeysMeaning(originalUniqueKeys, ghostUniqueKeys, key);
    }
  }
}
