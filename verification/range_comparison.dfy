/**
 The comparison builders of the query compiler. A SQL condition is an expression tree whose leaves are
 `(column sign ?)`; the arguments are bound to the placeholders from left to right. The builders must
 produce a condition, and a list of exploded arguments, that together mean a comparison of the row's key
 in lexicographic order.
 */
module RangeComparison {
  import opened Wrappers
  import opened KeyOrder

  datatype Sign = LessThan | LessThanOrEquals | Equals | GreaterThanOrEquals | GreaterThan | NotEquals

  datatype Condition =
    | Compare(column: string, placeholder: string, sign: Sign)
    | And(parts: seq<Condition>)
    | Or(parts: seq<Condition>)

  type Row = map<string, int>

  function ColumnValue(row: Row, column: string): int {
    if column in row then row[column] else 0
  }

  function KeyOf(row: Row, columns: seq<string>): (key: Key)
    ensures |key| == |columns|
    ensures forall i :: 0 <= i < |columns| ==> key[i] == ColumnValue(row, columns[i])
  {
    seq(|columns|, i requires 0 <= i < |columns| => ColumnValue(row, columns[i]))
  }

  /** The reference meaning of each sign on whole keys. */
  predicate CompareKeys(sign: Sign, key: Key, bound: Key) {
    match sign
    case LessThan => Less(key, bound)
    case LessThanOrEquals => AtMost(key, bound)
    case Equals => key == bound
    case GreaterThanOrEquals => AtMost(bound, key)
    case GreaterThan => Less(bound, key)
    case NotEquals => key != bound
  }

  predicate CompareValues(sign: Sign, value: int, bound: int) {
    match sign
    case LessThan => value < bound
    case LessThanOrEquals => value <= bound
    case Equals => value == bound
    case GreaterThanOrEquals => value >= bound
    case GreaterThan => value > bound
    case NotEquals => value != bound
  }

  // ---- Evaluation of a condition with positional placeholders ----

  function Placeholders(c: Condition): nat {
    match c
    case Compare(_, _, _) => 1
    case And(parts) => PlaceholdersOfAll(parts)
    case Or(parts) => PlaceholdersOfAll(parts)
  }

  function PlaceholdersOfAll(parts: seq<Condition>): nat {
    if parts == [] then 0 else Placeholders(parts[0]) + PlaceholdersOfAll(parts[1..])
  }

  predicate Eval(c: Condition, row: Row, args: seq<int>)
    requires |args| == Placeholders(c)
    decreases c, 0
  {
    match c
    case Compare(column, _, sign) => CompareValues(sign, ColumnValue(row, column), args[0])
    case And(parts) => EvalEvery(parts, row, args)
    case Or(parts) => EvalSome(parts, row, args)
  }

  predicate EvalEvery(parts: seq<Condition>, row: Row, args: seq<int>)
    requires |args| == PlaceholdersOfAll(parts)
    decreases parts, 0
  {
    parts == [] ||
    (var n := Placeholders(parts[0]);
     Eval(parts[0], row, args[..n]) && EvalEvery(parts[1..], row, args[n..]))
  }

  predicate EvalSome(parts: seq<Condition>, row: Row, args: seq<int>)
    requires |args| == PlaceholdersOfAll(parts)
    decreases parts, 0
  {
    parts != [] &&
    (var n := Placeholders(parts[0]);
     Eval(parts[0], row, args[..n]) || EvalSome(parts[1..], row, args[n..]))
  }

  lemma {:induction false} PlaceholdersAppend(xs: seq<Condition>, ys: seq<Condition>)
    ensures PlaceholdersOfAll(xs + ys) == PlaceholdersOfAll(xs) + PlaceholdersOfAll(ys)
  {
    if xs == [] {
      assert xs + ys == ys;
    } else {
      assert (xs + ys)[1..] == xs[1..] + ys;
      PlaceholdersAppend(xs[1..], ys);
    }
  }

  lemma {:induction false} EvalSomeAppend(xs: seq<Condition>, ys: seq<Condition>, row: Row, a: seq<int>, b: seq<int>)
    requires |a| == PlaceholdersOfAll(xs) && |b| == PlaceholdersOfAll(ys)
    ensures |a + b| == PlaceholdersOfAll(xs + ys)
    ensures EvalSome(xs + ys, row, a + b) <==> EvalSome(xs, row, a) || EvalSome(ys, row, b)
  {
    PlaceholdersAppend(xs, ys);
    if xs == [] {
      assert xs + ys == ys && a + b == b;
    } else {
      var n := Placeholders(xs[0]);
      assert (xs + ys)[1..] == xs[1..] + ys;
      assert (a + b)[..n] == a[..n] && (a + b)[n..] == a[n..] + b;
      EvalSomeAppend(xs[1..], ys, row, a[n..], b);
    }
  }

  // ---- The builders ----

  /** Some name or value is empty; the builders refuse those. */
  predicate AllNamed(columns: seq<string>, values: seq<string>)
    requires |columns| == |values|
  {
    forall i :: 0 <= i < |columns| ==> columns[i] != "" && values[i] != ""
  }

  function EqualsParts(columns: seq<string>, values: seq<string>): (parts: seq<Condition>)
    requires |columns| == |values|
    ensures |parts| == |columns|
  {
    seq(|columns|, i requires 0 <= i < |columns| => Compare(columns[i], values[i], Equals))
  }

  method BuildValueComparison(column: string, value: string, sign: Sign) returns (r: Result<Condition>)
    ensures r.Ok? <==> column != "" && value != ""
    ensures r.Ok? ==> r.value == Compare(column, value, sign)
  {
    if column == "" {
      return Err("empty column");
    }
    if value == "" {
      return Err("empty value");
    }
    return Ok(Compare(column, value, sign));
  }

  method BuildEqualsComparison(columns: seq<string>, values: seq<string>) returns (r: Result<Condition>)
    ensures r.Ok? <==> 0 < |columns| == |values| && AllNamed(columns, values)
    ensures r.Ok? ==> r.value == And(EqualsParts(columns, values))
  {
    if |columns| == 0 {
      return Err("no columns");
    }
    if |columns| != |values| {
      return Err("columns and values differ");
    }
    var comparisons: seq<Condition> := [];
    for i := 0 to |columns|
      invariant comparisons == EqualsParts(columns, values)[..i]
      invariant AllNamed(columns[..i], values[..i])
    {
      var comparison := BuildValueComparison(columns[i], values[i], Equals);
      if comparison.Err? {
        assert !AllNamed(columns, values);
        return Err(comparison.message);
      }
      comparisons := comparisons + [comparison.value];
      assert columns[..i + 1] == columns[..i] + [columns[i]] && values[..i + 1] == values[..i] + [values[i]];
    }
    assert columns[..|columns|] == columns && values[..|columns|] == values;
    assert comparisons == EqualsParts(columns, values);
    return Ok(And(comparisons));
  }

  /** A conjunction of equalities holds exactly of the rows with that key. */
  lemma {:induction false} EqualsMeaning(columns: seq<string>, values: seq<string>, row: Row, args: seq<int>)
    requires |columns| == |values| == |args|
    ensures PlaceholdersOfAll(EqualsParts(columns, values)) == |columns|
    ensures EvalEvery(EqualsParts(columns, values), row, args) <==> KeyOf(row, columns) == args
  {
    var parts := EqualsParts(columns, values);
    if columns != [] {
      assert parts[1..] == EqualsParts(columns[1..], values[1..]);
      EqualsMeaning(columns[1..], values[1..], row, args[1..]);
      var key := KeyOf(row, columns);
      assert KeyOf(row, columns[1..]) == key[1..];
      assert key == args <==> key[0] == args[0] && key[1..] == args[1..] by {
        assert key == [key[0]] + key[1..] && args == [args[0]] + args[1..];
      }
    }
  }

  /** The i-th alternative: equal on the first `i` columns, then strictly beyond on column `i`. */
  function RangePart(columns: seq<string>, values: seq<string>, sign: Sign, i: nat): Condition
    requires i < |columns| == |values|
  {
    var beyond := Compare(columns[i], values[i], sign);
    if i == 0 then beyond else And([And(EqualsParts(columns[..i], values[..i])), beyond])
  }

  function RangeParts(columns: seq<string>, values: seq<string>, sign: Sign, n: nat): (parts: seq<Condition>)
    requires n <= |columns| == |values|
    ensures |parts| == n
  {
    if n == 0 then [] else RangeParts(columns, values, sign, n - 1) + [RangePart(columns, values, sign, n - 1)]
  }

  /** The arguments of the first `n` alternatives: args[..1] + args[..2] + ... + args[..n]. */
  function Exploded(args: seq<int>, n: nat): (exploded: seq<int>)
    requires n <= |args|
    ensures 2 * |exploded| == n * (n + 1)
  {
    if n == 0 then [] else Exploded(args, n - 1) + args[..n]
  }

  /** Some column before `n` is the first that differs, and it compares as `sign` asks. */
  ghost predicate BeyondAt(sign: Sign, key: Key, bound: Key, i: nat)
    requires i < |key| == |bound|
  {
    key[..i] == bound[..i] && CompareValues(sign, key[i], bound[i])
  }

  lemma {:induction false} RangePartMeaning(columns: seq<string>, values: seq<string>, sign: Sign, i: nat, row: Row,
                                            args: seq<int>)
    requires i < |columns| == |values| == |args|
    ensures Placeholders(RangePart(columns, values, sign, i)) == i + 1
    ensures Eval(RangePart(columns, values, sign, i), row, args[..i + 1])
            <==> BeyondAt(sign, KeyOf(row, columns), args, i)
  {
    var key := KeyOf(row, columns);
    if i > 0 {
      var eq := And(EqualsParts(columns[..i], values[..i]));
      var beyond := Compare(columns[i], values[i], sign);
      EqualsMeaning(columns[..i], values[..i], row, args[..i]);
      var own := args[..i + 1];
      var parts := [eq, beyond];
      assert parts[1..] == [beyond] && [beyond][1..] == [];
      assert own[..i] == args[..i] && own[i..] == [args[i]];
      assert KeyOf(row, columns[..i]) == key[..i];
      assert Placeholders(eq) == i && PlaceholdersOfAll([beyond]) == 1;
      assert PlaceholdersOfAll(parts) == Placeholders(parts[0]) + PlaceholdersOfAll(parts[1..]);
      assert EvalEvery(parts, row, own) <==> Eval(eq, row, own[..i]) && EvalEvery([beyond], row, own[i..]);
      assert EvalEvery([beyond], row, [args[i]]) <==> CompareValues(sign, key[i], args[i]);
    }
  }

  lemma {:induction false} RangePartsMeaning(columns: seq<string>, values: seq<string>, sign: Sign, n: nat, row: Row,
                                             args: seq<int>)
    requires n <= |columns| == |values| == |args|
    ensures PlaceholdersOfAll(RangeParts(columns, values, sign, n)) == |Exploded(args, n)|
    ensures EvalSome(RangeParts(columns, values, sign, n), row, Exploded(args, n))
            <==> exists i: nat :: i < n && BeyondAt(sign, KeyOf(row, columns), args, i)
  {
    if n > 0 {
      RangePartsMeaning(columns, values, sign, n - 1, row, args);
      RangePartMeaning(columns, values, sign, n - 1, row, args);
      var last := RangePart(columns, values, sign, n - 1);
      EvalSomeSingle(last, row, args[..n]);
      EvalSomeAppend(RangeParts(columns, values, sign, n - 1), [last], row, Exploded(args, n - 1), args[..n]);
    }
  }

  lemma {:induction false} EvalSomeSingle(c: Condition, row: Row, args: seq<int>)
    requires |args| == Placeholders(c)
    ensures PlaceholdersOfAll([c]) == |args|
    ensures EvalSome([c], row, args) <==> Eval(c, row, args)
  {
    assert [c][1..] == [];
    assert args[..|args|] == args;
  }

  /** "Some first difference is in the right direction" is the lexicographic order. */
  lemma {:induction false} FirstDifferenceIsLess(key: Key, bound: Key)
    requires |key| == |bound|
    ensures (exists i: nat :: i < |key| && BeyondAt(LessThan, key, bound, i)) <==> Less(key, bound)
    ensures (exists i: nat :: i < |key| && BeyondAt(GreaterThan, key, bound, i)) <==> Less(bound, key)
  {
    if key != [] {
      FirstDifferenceIsLess(key[1..], bound[1..]);
      FirstDifferenceStep(LessThan, key, bound);
      FirstDifferenceStep(GreaterThan, key, bound);
    }
  }

  lemma FirstDifferenceStep(sign: Sign, key: Key, bound: Key)
    requires 0 < |key| == |bound|
    ensures (exists i: nat :: i < |key| && BeyondAt(sign, key, bound, i))
            <==> CompareValues(sign, key[0], bound[0]) ||
                 (key[0] == bound[0] &&
                  exists i: nat :: i < |key| - 1 && BeyondAt(sign, key[1..], bound[1..], i))
  {
    forall i: nat | 0 < i < |key|
      ensures BeyondAt(sign, key, bound, i) <==> key[0] == bound[0] && BeyondAt(sign, key[1..], bound[1..], i - 1)
    {
      assert key[..i] == [key[0]] + key[1..][..i - 1];
      assert bound[..i] == [bound[0]] + bound[1..][..i - 1];
      assert key[..i][1..] == key[1..][..i - 1] && bound[..i][1..] == bound[1..][..i - 1];
      assert key[..i] == bound[..i] <==> key[..i][0] == bound[..i][0] && key[..i][1..] == bound[..i][1..];
    }
    assert BeyondAt(sign, key, bound, 0) <==> CompareValues(sign, key[0], bound[0]);
    if i: nat :| i < |key| - 1 && BeyondAt(sign, key[1..], bound[1..], i) {
      assert BeyondAt(sign, key, bound, i + 1) <==> key[0] == bound[0] && BeyondAt(sign, key[1..], bound[1..], i);
    }
  }

  /** The strict sign left after an inclusive sign has been split into "strict or equal". */
  function StrictSign(sign: Sign): Sign {
    match sign
    case LessThanOrEquals => LessThan
    case GreaterThanOrEquals => GreaterThan
    case _ => sign
  }

  predicate Inclusive(sign: Sign) {
    sign == LessThanOrEquals || sign == GreaterThanOrEquals
  }

  predicate Ordering(sign: Sign) {
    sign != Equals && sign != NotEquals
  }

  function RangeCondition(columns: seq<string>, values: seq<string>, sign: Sign): Condition
    requires |columns| == |values|
  {
    Or(RangeParts(columns, values, StrictSign(sign), |columns|) +
       if Inclusive(sign) then [And(EqualsParts(columns, values))] else [])
  }

  function RangeArgs(args: seq<int>, sign: Sign): seq<int> {
    Exploded(args, |args|) + if Inclusive(sign) then args else []
  }

  /** The generated condition, fed with the exploded arguments, is the lexicographic comparison. */
  lemma {:induction false} RangeMeaning(columns: seq<string>, values: seq<string>, sign: Sign, row: Row, args: seq<int>)
    requires |columns| == |values| == |args|
    requires Ordering(sign)
    ensures Placeholders(RangeCondition(columns, values, sign)) == |RangeArgs(args, sign)|
    ensures Eval(RangeCondition(columns, values, sign), row, RangeArgs(args, sign))
            <==> CompareKeys(sign, KeyOf(row, columns), args)
  {
    var key := KeyOf(row, columns);
    var n := |columns|;
    var parts := RangeParts(columns, values, StrictSign(sign), n);
    RangePartsMeaning(columns, values, StrictSign(sign), n, row, args);
    FirstDifferenceIsLess(key, args);
    if Inclusive(sign) {
      var eq := And(EqualsParts(columns, values));
      EqualsMeaning(columns, values, row, args);
      EvalSomeSingle(eq, row, args);
      EvalSomeAppend(parts, [eq], row, Exploded(args, n), args);
    } else {
      assert parts + [] == parts;
      assert Exploded(args, n) + [] == Exploded(args, n);
    }
  }

  lemma RangeMeaningOnAllRows(columns: seq<string>, values: seq<string>, sign: Sign, args: seq<int>)
    requires |columns| == |values| == |args|
    requires Ordering(sign)
    ensures Placeholders(RangeCondition(columns, values, sign)) == |RangeArgs(args, sign)|
    ensures forall row: Row :: Eval(RangeCondition(columns, values, sign), row, RangeArgs(args, sign))
                               <==> CompareKeys(sign, KeyOf(row, columns), args)
  {
    RangeMeaning(columns, values, sign, map[], args);
    forall row: Row
      ensures Eval(RangeCondition(columns, values, sign), row, RangeArgs(args, sign))
              <==> CompareKeys(sign, KeyOf(row, columns), args)
    {
      RangeMeaning(columns, values, sign, row, args);
    }
  }

  /** The loop of the builder below: one comparison for each column, with equality on the columns before it. */
  method BuildRangeParts(columns: seq<string>, values: seq<string>, args: seq<int>, sign: Sign)
    returns (r: Result<(seq<Condition>, seq<int>)>)
    requires |columns| == |values| == |args|
    ensures r.Ok? <==> AllNamed(columns, values)
    ensures r.Ok? ==> r.value == (RangeParts(columns, values, sign, |columns|), Exploded(args, |columns|))
  {
    var comparisons: seq<Condition> := [];
    var explodedArgs: seq<int> := [];
    for i := 0 to |columns|
      invariant comparisons == RangeParts(columns, values, sign, i)
      invariant explodedArgs == Exploded(args, i)
      invariant AllNamed(columns[..i], values[..i])
    {
      var rangeComparison := BuildValueComparison(columns[i], values[i], sign);
      if rangeComparison.Err? {
        assert !AllNamed(columns, values);
        return Err(rangeComparison.message);
      }
      if i > 0 {
        // The source checks for an error here; none can arise, since these names were already checked.
        var equalities := BuildEqualsComparison(columns[..i], values[..i]);
        comparisons := comparisons + [And([equalities.value, rangeComparison.value])];
        explodedArgs := explodedArgs + args[..i];
        explodedArgs := explodedArgs + [args[i]];
      } else {
        comparisons := comparisons + [rangeComparison.value];
        explodedArgs := explodedArgs + [args[i]];
      }
      assert args[..i + 1] == args[..i] + [args[i]];
      assert columns[..i + 1] == columns[..i] + [columns[i]] && values[..i + 1] == values[..i] + [values[i]];
    }
    assert columns[..|columns|] == columns && values[..|columns|] == values;
    return Ok((comparisons, explodedArgs));
  }

  method BuildRangeComparison(columns: seq<string>, values: seq<string>, args: seq<int>, comparisonSign: Sign)
    returns (r: Result<(Condition, seq<int>)>)
    ensures r.Ok? <==> 0 < |columns| == |values| == |args| && AllNamed(columns, values)
    ensures r.Ok? ==> r.value.0 == RangeCondition(columns, values, comparisonSign)
    ensures r.Ok? ==> r.value.1 == RangeArgs(args, comparisonSign)
    ensures r.Ok? ==> var n := |columns|;
                      2 * |r.value.1| == n * (n + 1) + if Inclusive(comparisonSign) then 2 * n else 0
    ensures r.Ok? && Ordering(comparisonSign) ==>
              Placeholders(r.value.0) == |r.value.1| &&
              forall row: Row :: Eval(r.value.0, row, r.value.1)
                                 <==> CompareKeys(comparisonSign, KeyOf(row, columns), args)
  {
    if |columns| == 0 {
      return Err("no columns");
    }
    if |columns| != |values| {
      return Err("columns and values differ");
    }
    if |columns| != |args| {
      return Err("columns and args differ");
    }
    var sign := comparisonSign;
    var includeEquals := false;
    if sign == LessThanOrEquals {
      sign := LessThan;
      includeEquals := true;
    }
    if sign == GreaterThanOrEquals {
      sign := GreaterThan;
      includeEquals := true;
    }
    var parts := BuildRangeParts(columns, values, args, sign);
    if parts.Err? {
      return Err(parts.message);
    }
    var (comparisons, explodedArgs) := parts.value;
    if includeEquals {
      // The source would swallow an error here and return no condition at all; again none can arise.
      var equalities := BuildEqualsComparison(columns, values);
      comparisons := comparisons + [equalities.value];
      explodedArgs := explodedArgs + args;
    }
    if Ordering(comparisonSign) {
      RangeMeaningOnAllRows(columns, values, comparisonSign, args);
    }
    return Ok((Or(comparisons), explodedArgs));
  }
}
