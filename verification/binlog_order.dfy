/**
 Coordinates in the binary log: their order, which compares file names as strings, and the arithmetic on the
 number at the end of a file name.
 */
module BinlogOrder {
  import opened Decimals
  import opened KeyOrder
  import opened Wrappers

  datatype BinlogType = BinaryLog | RelayLog

  /** The code points of a string; Go compares strings by their bytes, which gives the same order. */
  function Codes(s: string): (codes: seq<int>)
    ensures |codes| == |s|
  {
    seq(|s|, i requires 0 <= i < |s| => s[i] as int)
  }

  lemma CodesInjective(s: string, t: string)
    requires Codes(s) == Codes(t)
    ensures s == t
  {
    assert |s| == |t|;
    forall i | 0 <= i < |s| ensures s[i] == t[i] {
      assert Codes(s)[i] == Codes(t)[i];
    }
  }

  predicate StringLess(s: string, t: string) {
    Less(Codes(s), Codes(t))
  }

  datatype BinlogCoordinates = BinlogCoordinates(logFile: string, logPos: int, binlogType: BinlogType) {
    predicate SmallerThan(other: BinlogCoordinates) {
      if StringLess(logFile, other.logFile) then true
      else logFile == other.logFile && logPos < other.logPos
    }

    predicate SmallerThanOrEquals(other: BinlogCoordinates) {
      SmallerThan(other) || (logFile == other.logFile && logPos == other.logPos)
    }
  }

  /** A strict total order on file and position; the type is not compared. */
  lemma SmallerThanIsTotalOrder(a: BinlogCoordinates, b: BinlogCoordinates, c: BinlogCoordinates)
    ensures !a.SmallerThan(a)
    ensures a.SmallerThan(b) && b.SmallerThan(c) ==> a.SmallerThan(c)
    ensures a.SmallerThan(b) || b.SmallerThan(a) || (a.logFile == b.logFile && a.logPos == b.logPos)
    ensures a.SmallerThanOrEquals(b) <==> !b.SmallerThan(a)
  {
    var x, y, z := Codes(a.logFile), Codes(b.logFile), Codes(c.logFile);
    LessIrreflexive(x);
    LessTotal(x, y);
    if x == y {
      CodesInjective(a.logFile, b.logFile);
    }
    if Less(x, y) {
      LessAsymmetric(x, y);
    }
    if Less(y, x) {
      LessAsymmetric(y, x);
    }
    if Less(x, y) && Less(y, z) {
      LessTransitive(x, y, z);
    }
  }

  // ---- File names ----

  /** strings.Split(s, ".") */
  function Split(s: string): (tokens: seq<string>)
    ensures tokens != []
  {
    if s == [] then [""]
    else
      var rest := Split(s[1..]);
      if s[0] == '.' then [""] + rest else [[s[0]] + rest[0]] + rest[1..]
  }

  /** strings.Join(tokens, ".") */
  function Join(tokens: seq<string>): string
    requires tokens != []
  {
    if |tokens| == 1 then tokens[0] else tokens[0] + "." + Join(tokens[1..])
  }

  lemma {:induction false} SplitOne(t: string)
    requires '.' !in t
    ensures Split(t) == [t]
  {
    if t != [] {
      SplitOne(t[1..]);
      assert t == [t[0]] + t[1..];
    }
  }

  lemma {:induction false} JoinSplitSuffix(s: string, t: string)
    requires '.' !in t
    ensures Split(s + "." + t) == Split(s) + [t]
  {
    SplitOne(t);
    if s == [] {
      assert s + "." + t == "." + t;
      assert ("." + t)[1..] == t;
    } else {
      JoinSplitSuffix(s[1..], t);
      assert (s + "." + t)[1..] == s[1..] + "." + t;
    }
  }

  lemma {:induction false} JoinSplit(s: string)
    ensures Join(Split(s)) == s
  {
    if s != [] {
      var rest := Split(s[1..]);
      JoinSplit(s[1..]);
      if s[0] == '.' {
        assert ([""] + rest)[1..] == rest;
      } else {
        assert ([[s[0]] + rest[0]] + rest[1..])[1..] == rest[1..];
      }
    }
  }

  lemma {:induction false} JoinLast(tokens: seq<string>, t: string)
    requires tokens != []
    ensures Join(tokens + [t]) == Join(tokens) + "." + t
  {
    assert (tokens + [t])[1..] == tokens[1..] + [t];
    if |tokens| > 1 {
      JoinLast(tokens[1..], t);
    } else {
      assert tokens[1..] + [t] == [t];
    }
  }

  /** What follows the last dot, and what precedes it, dot included. */
  function Suffix(file: string): string {
    var tokens := Split(file);
    tokens[|tokens| - 1]
  }

  function Stem(file: string): string {
    var tokens := Split(file);
    if |tokens| == 1 then "" else Join(tokens[..|tokens| - 1]) + "."
  }

  lemma {:induction false} WithSuffix(file: string, t: string)
    ensures var tokens := Split(file); Join(tokens[|tokens| - 1 := t]) == Stem(file) + t
  {
    var tokens := Split(file);
    var init := tokens[..|tokens| - 1];
    assert tokens[|tokens| - 1 := t] == init + [t];
    if |tokens| > 1 {
      JoinLast(init, t);
      assert Stem(file) + t == Join(init) + "." + t;
    }
  }

  /** The stem and the suffix make up the name, and the suffix can be exchanged. */
  lemma StemAndSuffix(file: string, t: string)
    requires '.' !in t
    ensures Stem(file) + Suffix(file) == file
    ensures Suffix(Stem(file) + t) == t && Stem(Stem(file) + t) == Stem(file)
  {
    var tokens := Split(file);
    var n := |tokens| - 1;
    JoinSplit(file);
    WithSuffix(file, Suffix(file));
    assert tokens[n := tokens[n]] == tokens;
    if n == 0 {
      SplitOne(t);
      assert Stem(file) + t == t;
    } else {
      SplitNoDots(file);
      var prefix := Join(tokens[..n]);
      JoinSplitSuffix(prefix, t);
      SplitJoin(tokens[..n]);
      assert Stem(file) + t == prefix + "." + t;
      assert (tokens[..n] + [t])[..n] == tokens[..n];
    }
  }

  lemma {:induction false} SplitNoDots(s: string)
    ensures forall i :: 0 <= i < |Split(s)| ==> '.' !in Split(s)[i]
  {
    if s != [] {
      SplitNoDots(s[1..]);
    }
  }

  lemma {:induction false} SplitJoin(tokens: seq<string>)
    requires tokens != [] && forall i :: 0 <= i < |tokens| ==> '.' !in tokens[i]
    ensures Split(Join(tokens)) == tokens
  {
    var n := |tokens| - 1;
    var t := tokens[n];
    assert tokens == tokens[..n] + [t];
    if n == 0 {
      SplitOne(t);
    } else {
      JoinLast(tokens[..n], t);
      SplitJoin(tokens[..n]);
      JoinSplitSuffix(Join(tokens[..n]), t);
    }
  }

  // ---- The number at the end of a file name ----

  const MaxInt64 := 0x7fff_ffff_ffff_ffff
  const MinInt64 := -0x8000_0000_0000_0000

  type Int64 = n: int | MinInt64 <= n <= MaxInt64

  /** The sum or difference of two 64-bit integers wraps around. */
  function WrapInt64(n: int): int {
    if n > MaxInt64 then n - 0x1_0000_0000_0000_0000
    else if n < MinInt64 then n + 0x1_0000_0000_0000_0000
    else n
  }

  /** strconv.Atoi */
  function Atoi(s: string): Option<int> {
    var signed := s != [] && (s[0] == '+' || s[0] == '-');
    var digits := if signed then s[1..] else s;
    if digits == [] || !AllDigits(digits) then None
    else
      var value: int := if signed && s[0] == '-' then 0 - Parse(digits) else Parse(digits);
      if MinInt64 <= value <= MaxInt64 then Some(value) else None
  }

  /** fmt.Sprintf("%d", n) */
  function FormatInt(n: int): string {
    if n < 0 then "-" + Format(-n) else Format(n)
  }

  /** strings.Repeat panics on a negative count. */
  datatype FileResult = Found(coordinates: BinlogCoordinates) | Error(message: string) | Panic

  function FileNumber(file: string): (r: (int, nat))
    ensures MinInt64 <= r.0 <= MaxInt64
  {
    match Atoi(Suffix(file))
    case Some(number) => (number, |Suffix(file)|)
    case None => (0, 0)
  }

  /** The file whose number reads `text`, padded to the given width. */
  function Padded(c: BinlogCoordinates, width: nat, text: string): FileResult {
    if width < |text| then Panic
    else Found(BinlogCoordinates(Stem(c.logFile) + (Zeros(width - |text|) + text), 0, c.binlogType))
  }

  function NextOf(c: BinlogCoordinates): FileResult {
    var (number, width) := FileNumber(c.logFile);
    Padded(c, width, FormatInt(WrapInt64(number + 1)))
  }

  function PreviousOf(c: BinlogCoordinates, offset: Int64): FileResult {
    var (number, width) := FileNumber(c.logFile);
    if number == 0 then Error("Log file number is zero, cannot detect previous file")
    else Padded(c, width, FormatInt(WrapInt64(number - offset)))
  }

  /** The padding and the exchange of the last token, which both methods below end with. */
  method ReplaceNumber(c: BinlogCoordinates, newNum: string, numLen: nat) returns (r: FileResult)
    ensures r == Padded(c, numLen, newNum)
  {
    var result := BinlogCoordinates("", 0, c.binlogType);
    if numLen - |newNum| < 0 {
      return Panic;
    }
    var newNumStr := Zeros(numLen - |newNum|) + newNum;
    var tokens := Split(c.logFile);
    tokens := tokens[|tokens| - 1 := newNumStr];
    WithSuffix(c.logFile, newNumStr);
    result := result.(logFile := Join(tokens));
    return Found(result);
  }

  method NextFileCoordinates(c: BinlogCoordinates) returns (r: FileResult)
    ensures r == NextOf(c)
  {
    var (fileNum, numLen) := FileNumber(c.logFile);
    r := ReplaceNumber(c, FormatInt(WrapInt64(fileNum + 1)), numLen);
  }

  method PreviousFileCoordinatesBy(c: BinlogCoordinates, offset: Int64) returns (r: FileResult)
    ensures r == PreviousOf(c, offset)
  {
    var (fileNum, numLen) := FileNumber(c.logFile);
    if fileNum == 0 {
      return Error("Log file number is zero, cannot detect previous file");
    }
    r := ReplaceNumber(c, FormatInt(WrapInt64(fileNum - offset)), numLen);
  }

  // ---- Numbered files ----

  predicate Numbered(file: string) {
    AllDigits(Suffix(file)) && Suffix(file) != [] && Parse(Suffix(file)) < MaxInt64
  }

  function Number(file: string): nat
    requires Numbered(file)
  {
    Parse(Suffix(file))
  }

  lemma NumberedFileNumber(file: string)
    requires Numbered(file)
    ensures FileNumber(file) == (Number(file), |Suffix(file)|)
  {
    assert IsDigit(Suffix(file)[0]);
  }

  /** `file` is a numbered file beside that of `c`: the same stem and width. */
  predicate Sibling(c: BinlogCoordinates, file: string, number: nat) {
    && Numbered(file) && Number(file) == number
    && Stem(file) == Stem(c.logFile) && |Suffix(file)| == |Suffix(c.logFile)|
  }

  lemma {:induction false} PaddedDigits(number: nat, width: nat)
    requires |Format(number)| <= width
    ensures
      var digits := Zeros(width - |Format(number)|) + Format(number);
      |digits| == width && AllDigits(digits) && Parse(digits) == number && '.' !in digits
  {
    ParseFormat(number);
    ParseZeros(width - |Format(number)|, Format(number));
  }

  lemma {:induction false} PaddedIsSibling(c: BinlogCoordinates, number: nat)
    requires Numbered(c.logFile) && number < MaxInt64
    ensures
      var r := Padded(c, |Suffix(c.logFile)|, Format(number));
      if number < Power10(|Suffix(c.logFile)|) then
        && r.Found? && Sibling(c, r.coordinates.logFile, number)
        && r.coordinates.logPos == 0 && r.coordinates.binlogType == c.binlogType
      else r == Panic
  {
    var width := |Suffix(c.logFile)|;
    FormatLength(number, width);
    if |Format(number)| <= width {
      PaddedDigits(number, width);
      StemAndSuffix(c.logFile, Zeros(width - |Format(number)|) + Format(number));
    }
  }

  /** Two numbered files with the same stem, width and number are the same file. */
  lemma SameNumberSameFile(f: string, g: string)
    requires Numbered(f) && Numbered(g)
    requires Stem(f) == Stem(g) && |Suffix(f)| == |Suffix(g)| && Number(f) == Number(g)
    ensures f == g
  {
    ParseInjective(Suffix(f), Suffix(g));
    StemAndSuffix(f, []);
    StemAndSuffix(g, []);
  }

  lemma NextOfNumbered(c: BinlogCoordinates)
    requires Numbered(c.logFile)
    ensures NextOf(c) == Padded(c, |Suffix(c.logFile)|, Format(Number(c.logFile) + 1))
  {
    NumberedFileNumber(c.logFile);
    assert WrapInt64(Number(c.logFile) + 1) == Number(c.logFile) + 1;
  }

  /** The next file exists, rather than a panic, exactly if the successor of the number fits into its width. */
  lemma NextExistsExactly(c: BinlogCoordinates)
    requires Numbered(c.logFile) && Number(c.logFile) + 1 < MaxInt64
    ensures NextOf(c).Found? <==> Number(c.logFile) + 1 < Power10(|Suffix(c.logFile)|)
    ensures !NextOf(c).Found? ==> NextOf(c) == Panic
  {
    NextOfNumbered(c);
    PaddedIsSibling(c, Number(c.logFile) + 1);
  }

  /** A file name that does not end in a number always makes it panic. */
  lemma NextPanicsWithoutNumber(c: BinlogCoordinates)
    requires Atoi(Suffix(c.logFile)).None?
    ensures NextOf(c) == Panic
  {
    assert FileNumber(c.logFile) == (0, 0);
    assert |FormatInt(WrapInt64(1))| > 0;
  }

  /** The number fits into the width of the number of `c`. */
  predicate Fits(c: BinlogCoordinates, number: nat) {
    Numbered(c.logFile) && number < MaxInt64 && number < Power10(|Suffix(c.logFile)|)
  }

  /** From a file `k` numbers on, going back by `k` gives the file name back. */
  lemma PreviousGoesBack(c: BinlogCoordinates, d: BinlogCoordinates, k: nat, number: nat)
    requires Fits(c, number) && Sibling(c, d.logFile, number) && d.binlogType == c.binlogType
    requires number > 0 && Number(c.logFile) + k == number
    ensures PreviousOf(d, k) == Found(c.(logPos := 0))
  {
    NumberedFileNumber(d.logFile);
    ParseBound(Suffix(c.logFile));
    PaddedIsSibling(d, Number(c.logFile));
    SameNumberSameFile(PreviousOf(d, k).coordinates.logFile, c.logFile);
  }

  /** A file name that does not end in a number is an error, as number zero is. */
  lemma PreviousFailsWithoutNumber(c: BinlogCoordinates, offset: Int64)
    requires Atoi(Suffix(c.logFile)).None?
    ensures PreviousOf(c, offset).Error?
  {
    assert FileNumber(c.logFile) == (0, 0);
  }

  /** A negative number, padded, has a minus sign in it. */
  lemma PaddedNegative(c: BinlogCoordinates, width: nat, text: string)
    requires text != [] && text[0] == '-' && '.' !in text
    ensures
      var r := Padded(c, width, text);
      r == Panic || (r.Found? && !Numbered(r.coordinates.logFile))
  {
    if |text| <= width {
      var zeros := Zeros(width - |text|);
      ParseZeros(width - |text|, "");
      assert zeros + "" == zeros;
      StemAndSuffix(c.logFile, zeros + text);
      assert !IsDigit((zeros + text)[|zeros|]);
    }
  }

  lemma PreviousBeyondZero(c: BinlogCoordinates, k: Int64)
    requires Numbered(c.logFile) && 0 < Number(c.logFile) < k
    ensures PreviousOf(c, k) == Panic || (PreviousOf(c, k).Found? && !Numbered(PreviousOf(c, k).coordinates.logFile))
  {
    var number := Number(c.logFile);
    NumberedFileNumber(c.logFile);
    assert WrapInt64(number - k) == number - k;
    ParseFormat(k - number);
    PaddedNegative(c, |Suffix(c.logFile)|, "-" + Format(k - number));
  }

  /**
   Where going back leads, from every numbered file: from number zero it is an error; otherwise, as long as the numbers
   last, to the file that is `k` numbers before, and beyond that to no numbered file.
   */
  lemma PreviousExactly(c: BinlogCoordinates, k: nat)
    requires Numbered(c.logFile) && k <= MaxInt64
    ensures
      var r := PreviousOf(c, k);
      if Number(c.logFile) == 0 then r.Error?
      else if k <= Number(c.logFile) then
        && r.Found? && Sibling(c, r.coordinates.logFile, Number(c.logFile) - k)
        && r.coordinates.logPos == 0 && r.coordinates.binlogType == c.binlogType
      else r == Panic || (r.Found? && !Numbered(r.coordinates.logFile))
  {
    NumberedFileNumber(c.logFile);
    if 0 < Number(c.logFile) && k <= Number(c.logFile) {
      ParseBound(Suffix(c.logFile));
      PaddedIsSibling(c, Number(c.logFile) - k);
    } else if 0 < Number(c.logFile) {
      PreviousBeyondZero(c, k);
    }
  }

  /** The next file, and then the previous one, is the same file again. */
  lemma NextThenPrevious(c: BinlogCoordinates, number: nat)
    requires Fits(c, number + 1) && Number(c.logFile) == number
    ensures NextOf(c).Found? && Sibling(c, NextOf(c).coordinates.logFile, number + 1)
    ensures PreviousOf(NextOf(c).coordinates, 1) == Found(c.(logPos := 0))
  {
    NextOfNumbered(c);
    PaddedIsSibling(c, number + 1);
    PreviousGoesBack(c, NextOf(c).coordinates, 1, number + 1);
  }

  // ---- The order of file names ----

  lemma {:induction false} LessAfterPrefix(p: seq<int>, a: seq<int>, b: seq<int>)
    ensures Less(p + a, p + b) <==> Less(a, b)
  {
    if p == [] {
      assert p + a == a && p + b == b;
    } else {
      assert (p + a)[1..] == p[1..] + a && (p + b)[1..] == p[1..] + b;
      LessAfterPrefix(p[1..], a, b);
    }
  }

  lemma {:induction false} LessAtEnd(a: seq<int>, x: int, b: seq<int>, y: int)
    requires |a| == |b|
    ensures Less(a + [x], b + [y]) <==> Less(a, b) || (a == b && x < y)
  {
    if a == [] {
    } else {
      assert (a + [x])[1..] == a[1..] + [x] && (b + [y])[1..] == b[1..] + [y];
      LessAtEnd(a[1..], x, b[1..], y);
      assert a == [a[0]] + a[1..] && b == [b[0]] + b[1..];
    }
  }

  /** Digit strings of one width are ordered by their numbers. */
  lemma {:induction false} DigitsOrder(s: string, t: string)
    requires AllDigits(s) && AllDigits(t) && |s| == |t|
    ensures StringLess(s, t) <==> Parse(s) < Parse(t)
  {
    if s != [] {
      var n := |s| - 1;
      DigitsOrder(s[..n], t[..n]);
      assert Codes(s) == Codes(s[..n]) + [s[n] as int];
      assert Codes(t) == Codes(t[..n]) + [t[n] as int];
      LessAtEnd(Codes(s[..n]), s[n] as int, Codes(t[..n]), t[n] as int);
      if Parse(s[..n]) == Parse(t[..n]) {
        ParseInjective(s[..n], t[..n]);
      }
      if Codes(s[..n]) == Codes(t[..n]) {
        CodesInjective(s[..n], t[..n]);
      }
    }
  }

  /** Names with the same stem are ordered like what follows it. */
  lemma StemOrder(stem: string, s: string, t: string)
    ensures StringLess(stem + s, stem + t) <==> StringLess(s, t)
  {
    assert Codes(stem + s) == Codes(stem) + Codes(s);
    assert Codes(stem + t) == Codes(stem) + Codes(t);
    LessAfterPrefix(Codes(stem), Codes(s), Codes(t));
  }

  /** Among the files of one server, as long as the width is kept, string order is the order of rotation. */
  lemma SmallerThanFollowsRotation(a: BinlogCoordinates, b: BinlogCoordinates)
    requires Numbered(a.logFile) && Numbered(b.logFile)
    requires Stem(a.logFile) == Stem(b.logFile) && |Suffix(a.logFile)| == |Suffix(b.logFile)|
    ensures a.SmallerThan(b) <==>
              Number(a.logFile) < Number(b.logFile) || (Number(a.logFile) == Number(b.logFile) && a.logPos < b.logPos)
  {
    StemAndSuffix(a.logFile, []);
    StemAndSuffix(b.logFile, []);
    StemOrder(Stem(a.logFile), Suffix(a.logFile), Suffix(b.logFile));
    DigitsOrder(Suffix(a.logFile), Suffix(b.logFile));
    if Number(a.logFile) == Number(b.logFile) {
      SameNumberSameFile(a.logFile, b.logFile);
    }
  }

  /** The number the server writes into the name of its n-th file, at least `width` digits wide. */
  function ServerDigits(n: nat, width: nat): string {
    if |Format(n)| < width then Zeros(width - |Format(n)|) + Format(n) else Format(n)
  }

  /** A number gains a digit only from 9...9 to 10...0. */
  lemma {:induction false} GainsDigit(n: nat)
    requires |Format(n + 1)| > |Format(n)|
    ensures Format(n)[0] == '9' && Format(n + 1)[0] == '1'
  {
    if n >= 10 {
      if (n + 1) / 10 == n / 10 {
      } else {
        assert (n + 1) / 10 == n / 10 + 1;
        GainsDigit(n / 10);
      }
    }
  }

  lemma {:induction false} LengthGrows(n: nat)
    ensures |Format(n)| <= |Format(n + 1)| <= |Format(n)| + 1
  {
    if n >= 10 && (n + 1) / 10 != n / 10 {
      LengthGrows(n / 10);
    }
  }

  lemma ServerDigitsParse(n: nat, width: nat)
    ensures var s := ServerDigits(n, width); s != [] && AllDigits(s) && Parse(s) == n
  {
    ParseFormat(n);
    if |Format(n)| < width {
      PaddedDigits(n, width);
    }
  }

  lemma FirstCharDecides(s: string, t: string)
    requires s != [] && t != [] && s[0] > t[0]
    ensures !StringLess(s, t)
  {
    assert Codes(s)[0] > Codes(t)[0];
  }

  lemma OutgrownOrder(n: nat, width: nat)
    requires |ServerDigits(n, width)| != |ServerDigits(n + 1, width)|
    ensures !StringLess(ServerDigits(n, width), ServerDigits(n + 1, width))
  {
    LengthGrows(n);
    GainsDigit(n);
    FirstCharDecides(Format(n), Format(n + 1));
  }

  /**
   The hypothesis of equal widths is needed, and exactly so: a rotation is followed by the order of the names if
   and only if the number does not outgrow its width.
   */
  lemma RotationOrderExactly(stem: string, n: nat, width: nat)
    ensures StringLess(stem + ServerDigits(n, width), stem + ServerDigits(n + 1, width)) <==>
              |ServerDigits(n, width)| == |ServerDigits(n + 1, width)|
  {
    var s, t := ServerDigits(n, width), ServerDigits(n + 1, width);
    StemOrder(stem, s, t);
    ServerDigitsParse(n, width);
    ServerDigitsParse(n + 1, width);
    if |s| == |t| {
      DigitsOrder(s, t);
    } else {
      OutgrownOrder(n, width);
    }
  }
}
