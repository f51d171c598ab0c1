/** Columns, their ordinals, and the conversion of values read from the binary log. */
module ColumnTypes {
  import Decimals

  datatype ColumnType = Unknown | Timestamp | DateTime | Enum | MediumInt | Json | Float

  datatype Column = Column(name: string, isUnsigned: bool, columnType: ColumnType)

  /** Go values as they appear in a decoded row; `Opaque` is any value that is passed on unchanged. */
  datatype GoValue =
    | Int8(i: int) | Int16(i: int) | Int32(i: int) | Int64(i: int) | Int(i: int)
    | Uint8(u: int) | Uint16(u: int) | Uint32(u: int) | Uint(u: int)
    | Text(digits: string)
    | Opaque(id: int)

  const MaxMediumintUnsigned := 16777215

  const Two8 := 0x100
  const Two16 := 0x1_0000
  const Two24 := 0x100_0000
  const Two32 := 0x1_0000_0000
  const Two64 := 0x1_0000_0000_0000_0000

  /** Go's conversion to an unsigned type keeps the value modulo the width. */
  function ConvertArg(column: Column, arg: GoValue): GoValue {
    if !column.isUnsigned then arg else
    match arg
    case Int8(i) => Uint8(i % Two8)
    case Int16(i) => Uint16(i % Two16)
    case Int32(i) =>
      if column.columnType == MediumInt then
        if i >= 0 then Int32(i) else Uint32((MaxMediumintUnsigned + i + 1) % Two32)
      else Uint32(i % Two32)
    case Int64(i) => Text(Decimals.Format(i % Two64))
    case Int(i) => Uint(i % Two64)
    case _ => arg
  }

  // ---- What the server stores, and what the binary log reader makes of it ----

  datatype Storage = Integer(bits: int, unsigned: bool) | NotInteger

  function Limit(bits: int): int {
    if bits == 8 then Two8 else if bits == 16 then Two16 else if bits == 24 then Two24
    else if bits == 32 then Two32 else Two64
  }

  predicate InRange(storage: Storage, v: int) {
    match storage
    case NotInteger => true
    case Integer(bits, unsigned) =>
      bits in {8, 16, 24, 32, 64} &&
      if unsigned then 0 <= v < Limit(bits) else -Limit(bits) <= 2 * v < Limit(bits)
  }

  /** The reader does not know about unsigned columns: it reads the stored bits as a signed number. */
  function SignedReading(bits: int, v: int): int {
    if 2 * v >= Limit(bits) then v - Limit(bits) else v
  }

  function Decode(storage: Storage, v: int): GoValue {
    match storage
    case NotInteger => Opaque(v)
    case Integer(bits, unsigned) =>
      var i := if unsigned then SignedReading(bits, v) else v;
      if bits == 8 then Int8(i) else if bits == 16 then Int16(i)
      else if bits == 24 || bits == 32 then Int32(i) else Int64(i)
  }

  /** The column metadata agrees with the stored type. */
  predicate Describes(column: Column, storage: Storage) {
    match storage
    case NotInteger => true
    case Integer(bits, unsigned) => column.isUnsigned == unsigned && (column.columnType == MediumInt <==> bits == 24)
  }

  /** The value a server takes from an argument bound to a placeholder. */
  function Meaning(arg: GoValue): int {
    match arg
    case Int8(i) => i
    case Int16(i) => i
    case Int32(i) => i
    case Int64(i) => i
    case Int(i) => i
    case Uint8(u) => u
    case Uint16(u) => u
    case Uint32(u) => u
    case Uint(u) => u
    case Text(digits) => if Decimals.AllDigits(digits) then Decimals.Parse(digits) else 0
    case Opaque(id) => id
  }

  /** For every width, converting the signed reading of a stored value gives the stored value back. */
  lemma ConvertInvertsDecode(column: Column, storage: Storage, v: int)
    requires Describes(column, storage) && InRange(storage, v)
    ensures Meaning(ConvertArg(column, Decode(storage, v))) == v
  {
    if storage.Integer? && storage.unsigned {
      UnsignedAgain(storage.bits, v);
      if storage.bits == 64 {
        Decimals.ParseFormat(v);
      }
    }
  }

  /** Reducing the signed reading modulo the width gives the stored value. */
  lemma UnsignedAgain(bits: int, v: int)
    requires 0 <= v < Limit(bits)
    ensures SignedReading(bits, v) % Limit(bits) == v
  {
    var m := Limit(bits);
    if 2 * v >= m {
      assert (v - m) == -1 * m + v;
    }
  }

  /** Distinct stored values stay distinct when read, so comparing raw values compares stored ones. */
  lemma DecodeInjective(storage: Storage, v: int, w: int)
    requires InRange(storage, v) && InRange(storage, w)
    ensures Decode(storage, v) == Decode(storage, w) <==> v == w
  {
  }

  // ---- Column lists ----

  datatype ColumnList = ColumnList(columns: seq<Column>, ordinals: map<string, nat>)

  function Names(columns: seq<Column>): (names: seq<string>)
    ensures |names| == |columns|
    ensures forall i :: 0 <= i < |columns| ==> names[i] == columns[i].name
  {
    seq(|columns|, i requires 0 <= i < |columns| => columns[i].name)
  }

  ghost predicate DistinctNames(columns: seq<Column>) {
    forall i, j :: 0 <= i < j < |columns| ==> columns[i].name != columns[j].name
  }

  /** The ordinals are the positions of the names; of a repeated name, the last position. */
  ghost predicate ValidList(list: ColumnList) {
    && (forall i :: 0 <= i < |list.columns| ==> list.columns[i].name in list.ordinals)
    && (forall name :: name in list.ordinals ==>
          list.ordinals[name] < |list.columns| && list.columns[list.ordinals[name]].name == name)
    && (forall i :: 0 <= i < |list.columns| ==> i <= list.ordinals[list.columns[i].name])
  }

  /** A Go map gives the zero value for a missing key. */
  function Ordinal(list: ColumnList, name: string): nat {
    if name in list.ordinals then list.ordinals[name] else 0
  }

  method NewColumnsMap(orderedColumns: seq<Column>) returns (columnsMap: map<string, nat>)
    ensures ValidList(ColumnList(orderedColumns, columnsMap))
  {
    columnsMap := map[];
    for i := 0 to |orderedColumns|
      invariant ValidList(ColumnList(orderedColumns[..i], columnsMap))
    {
      columnsMap := columnsMap[orderedColumns[i].name := i];
    }
    assert orderedColumns[..|orderedColumns|] == orderedColumns;
  }

  ghost predicate NamesWithin(list: ColumnList, other: ColumnList) {
    forall i :: 0 <= i < |list.columns| ==> list.columns[i].name in Names(other.columns)
  }

  method IsSubsetOf(list: ColumnList, other: ColumnList) returns (r: bool)
    requires ValidList(other)
    ensures r <==> NamesWithin(list, other)
  {
    for i := 0 to |list.columns|
      invariant forall j :: 0 <= j < i ==> list.columns[j].name in Names(other.columns)
    {
      var name := list.columns[i].name;
      assert name in other.ordinals ==> Names(other.columns)[other.ordinals[name]] == name;
      if name !in other.ordinals {
        return false;
      }
    }
    return true;
  }
}
