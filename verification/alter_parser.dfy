/**
 The parser of the ALTER statement. It cuts the statement at its top-level commas, blanks the quoted literals in
 each piece, and then looks for renamed and dropped columns. What the literals say makes no difference to it.
 */
module AlterParser {
  const Quote := '\''

  // ---- Cutting the statement ----

  /** The mutable quote of the scanner after one character, `\0` for none, and whether the character separates. */
  function Scan(terminatingQuote: char, c: char): (char, bool) {
    if c == terminatingQuote then ('\0', false)
    else if terminatingQuote != '\0' then (terminatingQuote, false)
    else if c == Quote then (c, false)
    else if c == '(' then (')', false)
    else ('\0', c == ',')
  }

  function Field<T>(field: seq<T>): seq<seq<T>> {
    if field == [] then [] else [field]
  }

  /** The fields of the rest of a statement; `field` is the one being read. Empty fields are dropped. */
  function Fields(s: string, q: char, field: string): seq<string> {
    if s == [] then Field(field)
    else
      var (q', separates) := Scan(q, s[0]);
      if separates then Field(field) + Fields(s[1..], q', [])
      else Fields(s[1..], q', field + [s[0]])
  }

  /** unicode.IsSpace */
  predicate IsSpace(c: char) {
    || '\t' <= c <= '\r' || c == ' ' || c == '\U{85}' || c == '\U{a0}' || c == '\U{1680}'
    || '\U{2000}' <= c <= '\U{200a}' || c == '\U{2028}' || c == '\U{2029}' || c == '\U{202f}'
    || c == '\U{205f}' || c == '\U{3000}'
  }

  function TrimLeft(s: string): string {
    if s != [] && IsSpace(s[0]) then TrimLeft(s[1..]) else s
  }

  function TrimRight(s: string): string {
    if s != [] && IsSpace(s[|s| - 1]) then TrimRight(s[..|s| - 1]) else s
  }

  /** strings.TrimSpace */
  function TrimSpace(s: string): string {
    TrimRight(TrimLeft(s))
  }

  function TrimAll(fields: seq<string>): seq<string> {
    seq(|fields|, i requires 0 <= i < |fields| => TrimSpace(fields[i]))
  }

  // ---- Blanking the literals ----

  function QuoteIndex(s: string): (n: nat)
    ensures n <= |s| && (n < |s| ==> s[n] == Quote) && forall i :: 0 <= i < n ==> s[i] != Quote
  {
    if s == [] || s[0] == Quote then 0 else 1 + QuoteIndex(s[1..])
  }

  /** Every leftmost match of '[^']*' becomes ''. */
  function SanitizeQuotesFromAlterStatement(s: string): string
    decreases |s|
  {
    if s == [] then []
    else if s[0] != Quote then [s[0]] + SanitizeQuotesFromAlterStatement(s[1..])
    else
      var n := QuoteIndex(s[1..]);
      if n == |s[1..]| then s else [Quote, Quote] + SanitizeQuotesFromAlterStatement(s[n + 2..])
  }

  /** What the token matcher gets to see. */
  function SanitizedTokens(alterStatement: string): seq<string> {
    var tokens := TrimAll(Fields(alterStatement, '\0', []));
    seq(|tokens|, i requires 0 <= i < |tokens| => SanitizeQuotesFromAlterStatement(tokens[i]))
  }

  // ---- The parser ----

  /**
   The regular expressions, with the unquoting of their submatches, as uninterpreted functions of a token: the
   columns it renames, the columns it drops, and whether it renames the table.
   */
  datatype Matcher = Matcher(
    renameColumn: string -> seq<(string, string)>,
    dropColumn: string -> seq<string>,
    renameTable: string -> bool)

  datatype Parsed = Parsed(columnRenameMap: map<string, string>, droppedColumns: set<string>, isRenameTable: bool)

  function AddRenames(renames: map<string, string>, found: seq<(string, string)>): map<string, string> {
    if found == [] then renames
    else AddRenames(renames, found[..|found| - 1])[found[|found| - 1].0 := found[|found| - 1].1]
  }

  function ParseToken(matcher: Matcher, p: Parsed, token: string): Parsed {
    Parsed(AddRenames(p.columnRenameMap, matcher.renameColumn(token)),
           p.droppedColumns + (set i | 0 <= i < |matcher.dropColumn(token)| :: matcher.dropColumn(token)[i]),
           p.isRenameTable || matcher.renameTable(token))
  }

  function ParseTokens(matcher: Matcher, p: Parsed, tokens: seq<string>): Parsed {
    if tokens == [] then p
    else ParseToken(matcher, ParseTokens(matcher, p, tokens[..|tokens| - 1]), tokens[|tokens| - 1])
  }

  // ---- What parsing adds ----

  /** A pair of an old and a new name was found for the old name. */
  predicate Finds(found: seq<(string, string)>, old_: string) {
    exists i :: 0 <= i < |found| && found[i].0 == old_
  }

  /** The last pair that was found for the old name has this new name. */
  predicate LastPair(found: seq<(string, string)>, old_: string, new_: string) {
    exists i :: 0 <= i < |found| && found[i] == (old_, new_) && forall j :: i < j < |found| ==> found[j].0 != old_
  }

  predicate FoundIn(matcher: Matcher, tokens: seq<string>, old_: string) {
    exists k :: 0 <= k < |tokens| && Finds(matcher.renameColumn(tokens[k]), old_)
  }

  /** The last pair of the last token that has one for the old name has this new name. */
  predicate RenamedBy(matcher: Matcher, tokens: seq<string>, old_: string, new_: string) {
    exists k :: 0 <= k < |tokens| && LastPair(matcher.renameColumn(tokens[k]), old_, new_)
                && forall l :: k < l < |tokens| ==> !Finds(matcher.renameColumn(tokens[l]), old_)
  }

  predicate DroppedBy(matcher: Matcher, tokens: seq<string>, name: string) {
    exists k :: 0 <= k < |tokens| && name in matcher.dropColumn(tokens[k])
  }

  predicate RenamesTable(matcher: Matcher, tokens: seq<string>) {
    exists k :: 0 <= k < |tokens| && matcher.renameTable(tokens[k])
  }

  /**
   What parsing these tokens makes of `before`. An old name that is found is mapped to the new name of its last pair, the
   last token winning, and every other one as before; exactly the dropped names are added; and the flag is set if
   any token renames the table, or it was.
   */
  ghost predicate Parses(matcher: Matcher, tokens: seq<string>, before: Parsed, after: Parsed) {
    && (forall old_ :: RenameIsRight(matcher, tokens, before.columnRenameMap, after.columnRenameMap, old_))
    && (forall name :: name in after.droppedColumns <==> name in before.droppedColumns || DroppedBy(matcher, tokens, name))
    && (after.isRenameTable <==> before.isRenameTable || RenamesTable(matcher, tokens))
  }

  predicate RenameIsRight(matcher: Matcher, tokens: seq<string>, before: map<string, string>, after: map<string, string>,
                          old_: string)
  {
    if FoundIn(matcher, tokens, old_) then old_ in after && RenamedBy(matcher, tokens, old_, after[old_])
    else (old_ in after <==> old_ in before) && (old_ in after ==> after[old_] == before[old_])
  }

  lemma FindsOneMore(found: seq<(string, string)>, last: (string, string), old_: string)
    ensures Finds(found + [last], old_) <==> last.0 == old_ || Finds(found, old_)
  {
    var longer := found + [last];
    assert longer[|found|] == last;
    if i :| 0 <= i < |found| && found[i].0 == old_ {
      assert longer[i].0 == old_;
    }
  }

  lemma LastPairStays(found: seq<(string, string)>, last: (string, string), old_: string, new_: string)
    requires LastPair(found, old_, new_) && last.0 != old_
    ensures LastPair(found + [last], old_, new_)
  {
    var i :| 0 <= i < |found| && found[i] == (old_, new_) && forall j :: i < j < |found| ==> found[j].0 != old_;
    assert (found + [last])[i] == (old_, new_);
  }

  lemma {:induction false} AddRenamesMeaning(renames: map<string, string>, found: seq<(string, string)>, old_: string)
    ensures
      var after := AddRenames(renames, found);
      if Finds(found, old_) then old_ in after && LastPair(found, old_, after[old_])
      else (old_ in after <==> old_ in renames) && (old_ in after ==> after[old_] == renames[old_])
  {
    if found != [] {
      var init, last := found[..|found| - 1], found[|found| - 1];
      assert found == init + [last];
      AddRenamesMeaning(renames, init, old_);
      FindsOneMore(init, last, old_);
      if last.0 == old_ {
        assert LastPair(found, old_, last.1);
      } else if Finds(init, old_) {
        LastPairStays(init, last, old_, AddRenames(renames, init)[old_]);
      }
    }
  }

  /** One token behind the others. */
  lemma {:induction false} RenamesOneMore(matcher: Matcher, tokens: seq<string>, token: string,
                                          before: map<string, string>, between: map<string, string>, old_: string)
    requires RenameIsRight(matcher, tokens, before, between, old_)
    ensures RenameIsRight(matcher, tokens + [token], before, AddRenames(between, matcher.renameColumn(token)), old_)
  {
    var longer, n, found := tokens + [token], |tokens|, matcher.renameColumn(token);
    AddRenamesMeaning(between, found, old_);
    assert longer[n] == token;
    if Finds(found, old_) {
      assert FoundIn(matcher, longer, old_);
    } else if FoundIn(matcher, tokens, old_) {
      var k :| 0 <= k < n && Finds(matcher.renameColumn(tokens[k]), old_);
      assert Finds(matcher.renameColumn(longer[k]), old_);
      RenamedByStays(matcher, tokens, token, old_, between[old_]);
    } else {
      forall k | 0 <= k < |longer| ensures !Finds(matcher.renameColumn(longer[k]), old_) {
        assert k < n ==> longer[k] == tokens[k];
      }
    }
  }

  lemma RenamedByStays(matcher: Matcher, tokens: seq<string>, token: string, old_: string, new_: string)
    requires RenamedBy(matcher, tokens, old_, new_) && !Finds(matcher.renameColumn(token), old_)
    ensures RenamedBy(matcher, tokens + [token], old_, new_)
  {
    var longer := tokens + [token];
    var k :| 0 <= k < |tokens| && LastPair(matcher.renameColumn(tokens[k]), old_, new_)
             && forall l :: k < l < |tokens| ==> !Finds(matcher.renameColumn(tokens[l]), old_);
    assert longer[k] == tokens[k];
    forall l | k < l < |longer| ensures !Finds(matcher.renameColumn(longer[l]), old_) {
      assert l < |tokens| ==> longer[l] == tokens[l];
    }
  }

  lemma ParsesOneMore(matcher: Matcher, tokens: seq<string>, token: string, before: Parsed, between: Parsed)
    requires Parses(matcher, tokens, before, between)
    ensures Parses(matcher, tokens + [token], before, ParseToken(matcher, between, token))
  {
    var longer, after := tokens + [token], ParseToken(matcher, between, token);
    forall old_ ensures RenameIsRight(matcher, longer, before.columnRenameMap, after.columnRenameMap, old_) {
      RenamesOneMore(matcher, tokens, token, before.columnRenameMap, between.columnRenameMap, old_);
    }
    forall name
      ensures name in after.droppedColumns <==> name in before.droppedColumns || DroppedBy(matcher, longer, name)
    {
      DropsOneMore(matcher, tokens, token, name);
    }
    assert longer[|tokens|] == token;
    assert forall k :: 0 <= k < |tokens| ==> longer[k] == tokens[k];
  }

  lemma DropsOneMore(matcher: Matcher, tokens: seq<string>, token: string, name: string)
    ensures DroppedBy(matcher, tokens + [token], name)
            <==> DroppedBy(matcher, tokens, name) || name in matcher.dropColumn(token)
  {
    var longer := tokens + [token];
    assert longer[|tokens|] == token;
    if k :| 0 <= k < |tokens| && name in matcher.dropColumn(tokens[k]) {
      assert longer[k] == tokens[k];
    }
  }

  lemma {:induction false} ParseTokensMeaning(matcher: Matcher, p: Parsed, tokens: seq<string>)
    ensures Parses(matcher, tokens, p, ParseTokens(matcher, p, tokens))
  {
    if tokens != [] {
      var n := |tokens| - 1;
      ParseTokensMeaning(matcher, p, tokens[..n]);
      ParsesOneMore(matcher, tokens[..n], tokens[n], p, ParseTokens(matcher, p, tokens[..n]));
      assert tokens[..n] + [tokens[n]] == tokens;
    }
  }

  class Parser {
    var columnRenameMap: map<string, string>
    var droppedColumns: set<string>
    var isRenameTable: bool
    const matcher: Matcher

    constructor (matcher: Matcher)
      ensures this.matcher == matcher && Contents() == Parsed(map[], {}, false)
    {
      this.matcher := matcher;
      columnRenameMap, droppedColumns, isRenameTable := map[], {}, false;
    }

    ghost function Contents(): Parsed
      reads this
    {
      Parsed(columnRenameMap, droppedColumns, isRenameTable)
    }

    method TokenizeAlterStatement(alterStatement: string) returns (tokens: seq<string>)
      ensures tokens == TrimAll(Fields(alterStatement, '\0', []))
    {
      var terminatingQuote := '\0';
      var fields, field := [], [];
      var n := 0;
      while n < |alterStatement|
        invariant 0 <= n <= |alterStatement|
        invariant fields + Fields(alterStatement[n..], terminatingQuote, field) == Fields(alterStatement, '\0', [])
      {
        var c := alterStatement[n];
        var separates := false;
        if c == terminatingQuote {
          terminatingQuote := '\0';
        } else if terminatingQuote != '\0' {
        } else if c == Quote {
          terminatingQuote := c;
        } else if c == '(' {
          terminatingQuote := ')';
        } else {
          separates := c == ',';
        }
        assert alterStatement[n..][1..] == alterStatement[n + 1..];
        if separates {
          fields, field := fields + Field(field), [];
        } else {
          field := field + [c];
        }
        n := n + 1;
      }
      fields := fields + Field(field);
      tokens := [];
      for i := 0 to |fields|
        invariant tokens == TrimAll(fields[..i])
      {
        assert TrimAll(fields[..i + 1]) == TrimAll(fields[..i]) + [TrimSpace(fields[i])];
        tokens := tokens + [TrimSpace(fields[i])];
      }
      assert fields[..|fields|] == fields;
    }

    method ParseAlterToken(alterToken: string)
      modifies this
      ensures Contents() == ParseToken(matcher, old(Contents()), alterToken)
      ensures Parses(matcher, [alterToken], old(Contents()), Contents())
    {
      var renames := matcher.renameColumn(alterToken);
      for i := 0 to |renames|
        invariant columnRenameMap == AddRenames(old(columnRenameMap), renames[..i])
        invariant droppedColumns == old(droppedColumns) && isRenameTable == old(isRenameTable)
      {
        assert renames[..i + 1][..i] == renames[..i];
        columnRenameMap := columnRenameMap[renames[i].0 := renames[i].1];
      }
      assert renames[..|renames|] == renames;
      var drops := matcher.dropColumn(alterToken);
      for i := 0 to |drops|
        invariant columnRenameMap == AddRenames(old(columnRenameMap), renames)
        invariant droppedColumns == old(droppedColumns) + (set j | 0 <= j < i :: drops[j])
        invariant isRenameTable == old(isRenameTable)
      {
        droppedColumns := droppedColumns + {drops[i]};
      }
      if matcher.renameTable(alterToken) {
        isRenameTable := true;
      }
      ParsesOneMore(matcher, [], alterToken, old(Contents()), old(Contents()));
      assert [] + [alterToken] == [alterToken];
    }

    method ParseAlterStatement(alterStatement: string)
      modifies this
      ensures Contents() == ParseTokens(matcher, old(Contents()), SanitizedTokens(alterStatement))
      ensures Parses(matcher, SanitizedTokens(alterStatement), old(Contents()), Contents())
    {
      var alterTokens := TokenizeAlterStatement(alterStatement);
      ghost var sanitized := SanitizedTokens(alterStatement);
      for i := 0 to |alterTokens|
        invariant Contents() == ParseTokens(matcher, old(Contents()), sanitized[..i])
      {
        assert sanitized[..i + 1][..i] == sanitized[..i];
        var alterToken := SanitizeQuotesFromAlterStatement(alterTokens[i]);
        ParseAlterToken(alterToken);
      }
      assert sanitized[..|alterTokens|] == sanitized;
      ParseTokensMeaning(matcher, old(Contents()), sanitized);
    }
  }

  // ---- Where the statement is cut ----

  /** A statement in pieces: plain characters, quoted literals and parenthesised groups. */
  datatype Piece = Plain(c: char) | Quoted(content: string) | Group(content: string)

  predicate ValidPiece(piece: Piece) {
    match piece
    case Plain(c) => c != Quote && c != '('
    case Quoted(content) => Quote !in content
    case Group(content) => ')' !in content
  }

  function PieceText(piece: Piece): string {
    match piece
    case Plain(c) => [c]
    case Quoted(content) => [Quote] + content + [Quote]
    case Group(content) => ['('] + content + [')']
  }

  function PiecesText(pieces: seq<Piece>): string {
    if pieces == [] then [] else PiecesText(pieces[..|pieces| - 1]) + PieceText(pieces[|pieces| - 1])
  }

  /** The pieces between the plain commas, if any; `field` is what has been read of the first field. */
  function BetweenCommas(pieces: seq<Piece>, field: seq<Piece>): seq<seq<Piece>> {
    var read := if field == [] then [] else [field];
    if pieces == [] then read
    else if pieces[0] == Plain(',') then read + BetweenCommas(pieces[1..], [])
    else BetweenCommas(pieces[1..], field + [pieces[0]])
  }

  function AllTexts(fields: seq<seq<Piece>>): seq<string> {
    seq(|fields|, i requires 0 <= i < |fields| => PiecesText(fields[i]))
  }

  lemma {:induction false} FieldOfPieces(field: seq<Piece>)
    ensures Field(PiecesText(field)) == AllTexts(if field == [] then [] else [field])
  {
  }

  lemma {:induction false} FieldsFirst(c: char, t: string, q: char, q': char, field: string)
    requires Scan(q, c) == (q', false)
    ensures Fields([c] + t, q, field) == Fields(t, q', field + [c])
  {
    FieldsOn([c] + t, q, field, t, q', field + [c]);
  }

  /** What encloses a literal or a group keeps the scanner from cutting it. */
  lemma {:induction false} FieldsEnclosed(open: char, content: string, close: char, t: string, field: string)
    requires Scan('\0', open) == (close, false) && close != '\0' && close !in content
    ensures Fields([open] + (content + ([close] + t)), '\0', field) == Fields(t, '\0', field + [open] + content + [close])
  {
    FieldsFirst(open, content + ([close] + t), '\0', close, field);
    FieldsUpTo(content, close, t, field + [open]);
  }

  lemma {:induction false} FieldsUpTo(content: string, close: char, t: string, field: string)
    requires close != '\0' && close !in content
    ensures Fields(content + ([close] + t), close, field) == Fields(t, '\0', field + content + [close])
  {
    FieldsInside(content, [close] + t, close, field);
    FieldsFirst(close, t, close, '\0', field + content);
  }

  lemma {:induction false} FieldsOfPiece(piece: Piece, t: string, field: string)
    requires ValidPiece(piece) && piece != Plain(',')
    ensures Fields(PieceText(piece) + t, '\0', field) == Fields(t, '\0', field + PieceText(piece))
  {
    match piece
    case Plain(c) => FieldsFirst(c, t, '\0', '\0', field);
    case Quoted(content) =>
      assert PieceText(piece) + t == [Quote] + (content + ([Quote] + t));
      assert field + PieceText(piece) == field + [Quote] + content + [Quote];
      FieldsEnclosed(Quote, content, Quote, t, field);
    case Group(content) =>
      assert PieceText(piece) + t == ['('] + (content + ([')'] + t));
      assert field + PieceText(piece) == field + ['('] + content + [')'];
      FieldsEnclosed('(', content, ')', t, field);
  }

  lemma {:induction false} PiecesTextFirst(pieces: seq<Piece>)
    requires pieces != []
    ensures PiecesText(pieces) == PieceText(pieces[0]) + PiecesText(pieces[1..])
  {
    if |pieces| > 1 {
      var n := |pieces| - 1;
      PiecesTextFirst(pieces[..n]);
      assert pieces[..n][1..] == pieces[1..][..n - 1];
    }
  }

  lemma {:induction false} PiecesTextLast(field: seq<Piece>, piece: Piece)
    ensures PiecesText(field + [piece]) == PiecesText(field) + PieceText(piece)
  {
    assert (field + [piece])[..|field|] == field;
  }

  lemma AllTextsAppend(a: seq<seq<Piece>>, b: seq<seq<Piece>>)
    ensures AllTexts(a + b) == AllTexts(a) + AllTexts(b)
  {
  }

  /** The statement is cut at its plain commas, and nowhere else: not within literals, nor within parentheses. */
  lemma {:induction false} CutsAtPlainCommas(pieces: seq<Piece>, field: seq<Piece>)
    requires forall i :: 0 <= i < |pieces| ==> ValidPiece(pieces[i])
    ensures Fields(PiecesText(pieces), '\0', PiecesText(field)) == AllTexts(BetweenCommas(pieces, field))
    decreases |pieces|
  {
    FieldOfPieces(field);
    if pieces != [] {
      var piece, rest := pieces[0], pieces[1..];
      PiecesTextFirst(pieces);
      if piece == Plain(',') {
        CutsAtPlainCommas(rest, []);
        FieldsCut(PiecesText(rest), PiecesText(field));
        AllTextsAppend(Field(field), BetweenCommas(rest, []));
      } else {
        CutsAtPlainCommas(rest, field + [piece]);
        PiecesTextLast(field, piece);
        FieldsOfPiece(piece, PiecesText(rest), PiecesText(field));
      }
    }
  }

  /** Trimming takes off spaces at both ends, and all of them. */
  lemma TrimSpaceMeaning(s: string) returns (i: nat, j: nat)
    ensures i <= j <= |s| && TrimSpace(s) == s[i..j]
    ensures forall k :: 0 <= k < |s| && (k < i || j <= k) ==> IsSpace(s[k])
    ensures i < j ==> !IsSpace(s[i]) && !IsSpace(s[j - 1])
  {
    i := TrimLeftMeaning(s);
    j := TrimRightMeaning(s[i..]);
    assert s[i..][..j] == s[i..i + j];
    forall k | 0 <= k < |s| && (k < i || i + j <= k) ensures IsSpace(s[k]) {
      assert k >= i ==> s[k] == s[i..][k - i];
    }
    j := i + j;
  }

  lemma {:induction false} TrimLeftMeaning(s: string) returns (i: nat)
    ensures i <= |s| && TrimLeft(s) == s[i..] && (forall k :: 0 <= k < i ==> IsSpace(s[k])) && (i < |s| ==> !IsSpace(s[i]))
  {
    if s != [] && IsSpace(s[0]) {
      i := TrimLeftMeaning(s[1..]);
      i := i + 1;
    } else {
      i := 0;
    }
  }

  lemma {:induction false} TrimRightMeaning(s: string) returns (j: nat)
    ensures j <= |s| && TrimRight(s) == s[..j] && (forall k :: j <= k < |s| ==> IsSpace(s[k])) && (j > 0 ==> !IsSpace(s[j - 1]))
  {
    if s != [] && IsSpace(s[|s| - 1]) {
      j := TrimRightMeaning(s[..|s| - 1]);
    } else {
      j := |s|;
    }
  }

  // ---- Statements with literals ----

  /** A statement, as its author reads it: characters that are no quotes, and literals. */
  datatype Item = Char(c: char) | Literal(content: string)

  /** Quotes delimit literals, and nothing else. */
  predicate ValidItem(item: Item) {
    match item
    case Char(c) => c != Quote
    case Literal(content) => Quote !in content
  }

  predicate Valid(items: seq<Item>) {
    forall i :: 0 <= i < |items| ==> ValidItem(items[i])
  }

  function Text(item: Item): string {
    match item
    case Char(c) => [c]
    case Literal(content) => [Quote] + content + [Quote]
  }

  function Render(items: seq<Item>): string {
    if items == [] then [] else Text(items[0]) + Render(items[1..])
  }

  function Blank(items: seq<Item>): (blank: seq<Item>)
    ensures |blank| == |items|
    ensures forall i :: 0 <= i < |items| ==> blank[i] == if items[i].Literal? then Literal([]) else items[i]
  {
    seq(|items|, i requires 0 <= i < |items| => if items[i].Literal? then Literal([]) else items[i])
  }

  lemma Associative(a: string, b: string, c: string)
    ensures a + (b + c) == (a + b) + c
  {
  }

  lemma {:induction false} RenderAppend(a: seq<Item>, b: seq<Item>)
    ensures Render(a + b) == Render(a) + Render(b)
  {
    if a == [] {
      assert a + b == b;
    } else {
      var rest := a[1..] + b;
      assert (a + b)[0] == a[0] && (a + b)[1..] == rest;
      RenderAppend(a[1..], b);
      Associative(Text(a[0]), Render(a[1..]), Render(b));
    }
  }

  lemma RenderOne(item: Item)
    ensures Render([item]) == Text(item)
  {
    assert [item][1..] == [];
  }

  /** The fields of a statement as lists of items: a separator is an item of its own, never part of a literal. */
  function ItemFields(items: seq<Item>, q: char, field: seq<Item>): seq<seq<Item>> {
    if items == [] then Field(field)
    else
      match items[0]
      case Literal(_) => ItemFields(items[1..], q, field + [items[0]])
      case Char(c) =>
        var (q', separates) := Scan(q, c);
        if separates then Field(field) + ItemFields(items[1..], q', [])
        else ItemFields(items[1..], q', field + [items[0]])
  }

  /** No literal that the scanner meets within parentheses contains a closing one. */
  predicate ParenthesesOk(items: seq<Item>, q: char) {
    items == [] ||
    match items[0]
    case Literal(content) => (q == ')' ==> ')' !in content) && ParenthesesOk(items[1..], q)
    case Char(c) => ParenthesesOk(items[1..], Scan(q, c).0)
  }

  function RenderAll(fields: seq<seq<Item>>): seq<string> {
    seq(|fields|, i requires 0 <= i < |fields| => Render(fields[i]))
  }

  /** Outside a literal, the scanner is in one of two states. */
  predicate Outside(q: char) {
    q == '\0' || q == ')'
  }

  lemma {:induction false} FieldsInside(s: string, t: string, q: char, field: string)
    requires q != '\0' && q !in s
    ensures Fields(s + t, q, field) == Fields(t, q, field + s)
  {
    if s == [] {
      assert s + t == t && field + s == field;
    } else {
      assert (s + t)[1..] == s[1..] + t;
      FieldsInside(s[1..], t, q, field + [s[0]]);
      assert field + [s[0]] + s[1..] == field + s;
    }
  }

  /** One character that does not separate. */
  lemma {:induction false} FieldsOn(s: string, q: char, field: string, t: string, q': char, next: string)
    requires s != [] && t == s[1..] && next == field + [s[0]] && Scan(q, s[0]) == (q', false)
    ensures Fields(s, q, field) == Fields(t, q', next)
  {
  }

  /** And one that does. */
  lemma {:induction false} FieldsCut(t: string, field: string)
    ensures Fields([','] + t, '\0', field) == Field(field) + Fields(t, '\0', [])
  {
    assert ([','] + t)[1..] == t;
  }

  lemma {:induction false} FieldsOfLiteral(content: string, t: string, q: char, field: string)
    requires Outside(q) && Quote !in content && (q == ')' ==> ')' !in content)
    ensures Fields(Text(Literal(content)) + t, q, field) == Fields(t, q, field + Text(Literal(content)))
  {
    var text := Text(Literal(content));
    if q == ')' {
      FieldsInside(text, t, q, field);
    } else {
      FieldsEnclosed(Quote, content, Quote, t, field);
      assert text + t == [Quote] + (content + ([Quote] + t));
      assert field + text == field + [Quote] + content + [Quote];
    }
  }

  lemma {:induction false} FieldOfItems(field: seq<Item>)
    ensures Field(Render(field)) == RenderAll(Field(field))
  {
    if field != [] {
      assert Text(field[0]) != [];
    }
  }

  /** Cutting the text of a statement is cutting its items: no boundary falls inside a literal. */
  lemma {:induction false} BoundariesAreOutside(items: seq<Item>, q: char, field: seq<Item>)
    requires Valid(items) && ParenthesesOk(items, q) && Outside(q)
    ensures Fields(Render(items), q, Render(field)) == RenderAll(ItemFields(items, q, field))
    decreases |items|
  {
    if items == [] {
      FieldOfItems(field);
    } else {
      var item, rest := items[0], items[1..];
      RenderAppend(field, [item]);
      RenderOne(item);
      match item {
        case Literal(content) =>
          FieldsOfLiteral(content, Render(rest), q, Render(field));
          BoundariesAreOutside(rest, q, field + [item]);
        case Char(c) =>
          var (q', separates) := Scan(q, c);
          assert Render(items)[1..] == Render(rest);
          if separates {
            FieldOfItems(field);
            BoundariesAreOutside(rest, q', []);
            RenderAllAppend(Field(field), ItemFields(rest, q', []));
          } else {
            BoundariesAreOutside(rest, q', field + [item]);
          }
      }
    }
  }

  lemma RenderAllAppend(a: seq<seq<Item>>, b: seq<seq<Item>>)
    ensures RenderAll(a + b) == RenderAll(a) + RenderAll(b)
  {
  }

  // ---- Blanking commutes with each stage ----

  function BlankAll(fields: seq<seq<Item>>): seq<seq<Item>> {
    seq(|fields|, i requires 0 <= i < |fields| => Blank(fields[i]))
  }

  lemma {:induction false} CuttingBlanks(items: seq<Item>, q: char, field: seq<Item>)
    ensures ItemFields(Blank(items), q, Blank(field)) == BlankAll(ItemFields(items, q, field))
    decreases |items|
  {
    if items != [] {
      var item, rest := items[0], items[1..];
      assert Blank(items)[1..] == Blank(rest);
      assert Blank(field + [item]) == Blank(field) + [Blank(items)[0]];
      match item {
        case Literal(_) => CuttingBlanks(rest, q, field + [item]);
        case Char(c) =>
          var (q', separates) := Scan(q, c);
          if separates {
            CuttingBlanks(rest, q', []);
            assert Blank([]) == [];
          } else {
            CuttingBlanks(rest, q', field + [item]);
          }
      }
    }
  }

  function TrimItemsLeft(items: seq<Item>): seq<Item> {
    if items != [] && items[0].Char? && IsSpace(items[0].c) then TrimItemsLeft(items[1..]) else items
  }

  function TrimItemsRight(items: seq<Item>): seq<Item> {
    if items != [] && items[|items| - 1].Char? && IsSpace(items[|items| - 1].c) then TrimItemsRight(items[..|items| - 1])
    else items
  }

  lemma {:induction false} TrimLeftStops(first: Item, rest: string)
    requires first.Char? ==> !IsSpace(first.c)
    ensures TrimLeft(Text(first) + rest) == Text(first) + rest
  {
    assert (Text(first) + rest)[0] == Text(first)[0];
  }

  lemma {:induction false} TrimLeftItems(items: seq<Item>)
    ensures TrimLeft(Render(items)) == Render(TrimItemsLeft(items))
    ensures Valid(items) ==> Valid(TrimItemsLeft(items))
  {
    if items != [] {
      if items[0].Char? && IsSpace(items[0].c) {
        TrimLeftItems(items[1..]);
        assert Render(items)[1..] == Render(items[1..]);
      } else {
        TrimLeftStops(items[0], Render(items[1..]));
      }
    }
  }

  lemma {:induction false} TrimLeftBlanks(items: seq<Item>)
    ensures TrimItemsLeft(Blank(items)) == Blank(TrimItemsLeft(items))
  {
    if items != [] {
      TrimLeftBlanks(items[1..]);
      assert Blank(items)[1..] == Blank(items[1..]);
    }
  }

  lemma {:induction false} RenderSnoc(init: seq<Item>, last: Item)
    ensures Render(init + [last]) == Render(init) + Text(last)
  {
    RenderAppend(init, [last]);
    RenderOne(last);
  }

  lemma {:induction false} TrimRightStops(s: string, last: Item)
    requires last.Char? ==> !IsSpace(last.c)
    ensures TrimRight(s + Text(last)) == s + Text(last)
  {
    var t := s + Text(last);
    assert t[|t| - 1] == Text(last)[|Text(last)| - 1];
  }

  lemma {:induction false} TrimRightItems(items: seq<Item>)
    ensures TrimRight(Render(items)) == Render(TrimItemsRight(items))
    ensures Valid(items) ==> Valid(TrimItemsRight(items))
  {
    if items != [] {
      var init, last := items[..|items| - 1], items[|items| - 1];
      assert items == init + [last];
      RenderSnoc(init, last);
      if last.Char? && IsSpace(last.c) {
        TrimRightItems(init);
        assert (Render(init) + [last.c])[..|Render(init)|] == Render(init);
      } else {
        TrimRightStops(Render(init), last);
      }
    }
  }

  lemma {:induction false} TrimRightBlanks(items: seq<Item>)
    ensures TrimItemsRight(Blank(items)) == Blank(TrimItemsRight(items))
  {
    if items != [] {
      var init := items[..|items| - 1];
      assert Blank(items)[..|items| - 1] == Blank(init);
      TrimRightBlanks(init);
    }
  }

  lemma {:induction false} QuoteAfter(content: string, t: string)
    requires Quote !in content
    ensures QuoteIndex(content + [Quote] + t) == |content|
  {
    if content != [] {
      QuoteAfter(content[1..], t);
      assert (content + [Quote] + t)[1..] == content[1..] + [Quote] + t;
    }
  }

  lemma {:induction false} SanitizeLiteral(content: string, t: string)
    requires Quote !in content
    ensures SanitizeQuotesFromAlterStatement(Text(Literal(content)) + t) == [Quote, Quote] + SanitizeQuotesFromAlterStatement(t)
  {
    var s := Text(Literal(content)) + t;
    assert s[1..] == content + [Quote] + t;
    QuoteAfter(content, t);
    assert s[|content| + 2..] == t;
  }

  lemma {:induction false} SanitizeItem(item: Item, t: string)
    requires ValidItem(item)
    ensures SanitizeQuotesFromAlterStatement(Text(item) + t)
            == Text(if item.Literal? then Literal([]) else item) + SanitizeQuotesFromAlterStatement(t)
  {
    match item
    case Literal(content) =>
      SanitizeLiteral(content, t);
      assert Text(Literal([])) == [Quote, Quote];
    case Char(c) => assert ([c] + t)[1..] == t;
  }

  lemma {:induction false} SanitizePrefix(items: seq<Item>, t: string)
    requires Valid(items)
    ensures SanitizeQuotesFromAlterStatement(Render(items) + t) == Render(Blank(items)) + SanitizeQuotesFromAlterStatement(t)
  {
    if items == [] {
      assert Render(items) + t == t;
    } else {
      var item, rest := items[0], items[1..];
      assert ValidItem(item) && Blank(items)[1..] == Blank(rest);
      SanitizePrefix(rest, t);
      Associative(Text(item), Render(rest), t);
      SanitizeItem(item, Render(rest) + t);
      Associative(Text(Blank(items)[0]), Render(Blank(rest)), SanitizeQuotesFromAlterStatement(t));
    }
  }

  /** Blanking in the text is blanking in the items. */
  lemma {:induction false} SanitizeItems(items: seq<Item>)
    requires Valid(items)
    ensures SanitizeQuotesFromAlterStatement(Render(items)) == Render(Blank(items))
  {
    SanitizePrefix(items, []);
    assert Render(items) + [] == Render(items) && Render(Blank(items)) + [] == Render(Blank(items));
  }

  /** A quote that is never closed, and what follows it, stay as they are. */
  lemma {:induction false} UnclosedQuoteStays(items: seq<Item>, tail: string)
    requires Valid(items) && Quote !in tail
    ensures SanitizeQuotesFromAlterStatement(Render(items) + ([Quote] + tail)) == Render(Blank(items)) + ([Quote] + tail)
  {
    SanitizePrefix(items, [Quote] + tail);
    assert ([Quote] + tail)[1..] == tail;
    assert QuoteIndex(tail) == |tail|;
  }

  // ---- Main results ----

  function TrimItems(items: seq<Item>): seq<Item> {
    TrimItemsRight(TrimItemsLeft(items))
  }

  lemma {:induction false} TrimItemsMeaning(items: seq<Item>)
    ensures TrimSpace(Render(items)) == Render(TrimItems(items))
    ensures TrimItems(Blank(items)) == Blank(TrimItems(items))
    ensures Valid(items) ==> Valid(TrimItems(items))
  {
    TrimLeftItems(items);
    TrimLeftBlanks(items);
    TrimRightItems(TrimItemsLeft(items));
    TrimRightBlanks(TrimItemsLeft(items));
  }

  lemma {:induction false} FieldsAreValid(items: seq<Item>, q: char, field: seq<Item>)
    requires Valid(items) && Valid(field)
    ensures forall i :: 0 <= i < |ItemFields(items, q, field)| ==> Valid(ItemFields(items, q, field)[i])
    decreases |items|
  {
    if items != [] {
      var item, rest := items[0], items[1..];
      assert ValidItem(item) && Valid(field + [item]);
      match item {
        case Literal(_) => FieldsAreValid(rest, q, field + [item]);
        case Char(c) =>
          var (q', separates) := Scan(q, c);
          FieldsAreValid(rest, q', if separates then [] else field + [item]);
      }
    }
  }

  /** What the matcher sees of a statement: its trimmed fields with their literals blanked. */
  function VisibleTokens(items: seq<Item>): seq<string> {
    var fields := ItemFields(items, '\0', []);
    seq(|fields|, i requires 0 <= i < |fields| => Render(Blank(TrimItems(fields[i]))))
  }

  lemma {:induction false} SanitizedTokensMeaning(items: seq<Item>)
    requires Valid(items) && ParenthesesOk(items, '\0')
    ensures SanitizedTokens(Render(items)) == VisibleTokens(items)
  {
    var fields := ItemFields(items, '\0', []);
    BoundariesAreOutside(items, '\0', []);
    FieldsAreValid(items, '\0', []);
    forall i | 0 <= i < |fields|
      ensures SanitizeQuotesFromAlterStatement(TrimSpace(RenderAll(fields)[i])) == Render(Blank(TrimItems(fields[i])))
    {
      TrimItemsMeaning(fields[i]);
      SanitizeItems(TrimItems(fields[i]));
    }
  }

  lemma BlankTwice(items: seq<Item>)
    ensures Blank(Blank(items)) == Blank(items) && (Valid(items) ==> Valid(Blank(items)))
  {
  }

  lemma VisibleTokensOfBlank(items: seq<Item>)
    ensures VisibleTokens(Blank(items)) == VisibleTokens(items)
  {
    var fields := ItemFields(items, '\0', []);
    CuttingBlanks(items, '\0', []);
    assert Blank([]) == [];
    forall i | 0 <= i < |fields| ensures Blank(TrimItems(Blank(fields[i]))) == Blank(TrimItems(fields[i])) {
      TrimItemsMeaning(fields[i]);
      BlankTwice(TrimItems(fields[i]));
    }
  }

  /**
   Two statements that differ only inside their literals are the same to the parser: for every matcher, and
   whatever it has parsed before, they give the same renames, dropped columns and table-rename flag. A literal within
   parentheses must not contain a closing one.
   */
  lemma {:induction false} LiteralsDoNotInterfere(matcher: Matcher, p: Parsed, a: seq<Item>, b: seq<Item>)
    requires Valid(a) && ParenthesesOk(a, '\0') && Valid(b) && ParenthesesOk(b, '\0') && Blank(a) == Blank(b)
    ensures SanitizedTokens(Render(a)) == SanitizedTokens(Render(b))
    ensures ParseTokens(matcher, p, SanitizedTokens(Render(a))) == ParseTokens(matcher, p, SanitizedTokens(Render(b)))
  {
    SanitizedTokensMeaning(a);
    SanitizedTokensMeaning(b);
    VisibleTokensOfBlank(a);
    VisibleTokensOfBlank(b);
  }

  lemma CutText()
    ensures Fields("('),')", '\0', "") == ["(')", "')"]
  {
    FieldsOn("('),')", '\0', "", "'),')", ')', "(");
    FieldsOn("'),')", ')', "(", "),')", ')', "('");
    FieldsOn("),')", ')', "('", ",')", '\0', "(')");
    assert ",')" == [','] + "')";
    FieldsCut("')", "(')");
    FieldsOn("')", '\0', "", ")", Quote, "'");
    FieldsOn(")", Quote, "'", "", Quote, "')");
  }

  lemma UncutText()
    ensures Fields("('')", '\0', "") == ["('')"]
  {
    FieldsOn("('')", '\0', "", "'')", ')', "(");
    FieldsOn("'')", ')', "(", "')", ')', "('");
    FieldsOn("')", ')', "('", ")", ')', "(''");
    FieldsOn(")", ')', "(''", "", '\0', "('')");
  }

  /**
   What happens to the literals that are excluded: within parentheses, the scanner takes the first closing one in the
   literal for the end of the parentheses, and reads on from there, in the middle of the literal, as if outside.
   */
  lemma {:induction false} ParenthesisEndsInLiteral(pre: string, post: string, t: string, field: string)
    requires ')' !in pre
    ensures Fields(Text(Literal(pre + [')'] + post)) + t, ')', field)
            == Fields(post + [Quote] + t, '\0', field + [Quote] + pre + [')'])
  {
    var start, rest := [Quote] + pre, post + [Quote] + t;
    assert Text(Literal(pre + [')'] + post)) + t == start + ([')'] + rest);
    FieldsInside(start, [')'] + rest, ')', field);
    ParenthesisEnds(rest, field + start);
    assert field + start == field + [Quote] + pre;
  }

  lemma {:induction false} ParenthesisEnds(rest: string, field: string)
    ensures Fields([')'] + rest, ')', field) == Fields(rest, '\0', field + [')'])
  {
    assert ([')'] + rest)[1..] == rest;
  }

  /** So the hypothesis is needed: here the rest of the literal holds a comma, which cuts the literal in two. */
  lemma ParenthesisCutsLiteral()
    ensures
      var items := [Char('('), Literal("),"), Char(')')];
      && |SanitizedTokens(Render(items))| == 2 && |SanitizedTokens(Render(Blank(items)))| == 1
  {
    var items := [Char('('), Literal("),"), Char(')')];
    RenderThree(items);
    RenderThree(Blank(items));
    CutText();
    UncutText();
    assert Render(items) == "('),')" && Render(Blank(items)) == "('')";
  }

  lemma {:induction false} RenderThree(items: seq<Item>)
    requires |items| == 3
    ensures Render(items) == Text(items[0]) + Text(items[1]) + Text(items[2])
  {
    assert items == [items[0]] + [items[1]] + [items[2]];
    RenderAppend([items[0]] + [items[1]], [items[2]]);
    RenderAppend([items[0]], [items[1]]);
    RenderOne(items[0]);
    RenderOne(items[1]);
    RenderOne(items[2]);
  }
}
