/**
 The binary log of a server, and what a replica that connects to it is sent. A log is a sequence of files, each
 a sequence of events; every event carries the position at which it ends.
 */
module BinlogStream {
  import opened Wrappers
  import opened BinlogOrder
  import opened KeyOrder

  datatype Dml = InsertDML | UpdateDML | DeleteDML

  /** A rows event; `dml` is absent for an event type that is none of the three. */
  datatype RowsEvent<R> = RowsEvent(dml: Option<Dml>, rows: seq<R>)

  datatype StreamEvent<R> =
    | Rotate(logPos: nat, nextLogName: string)
    | Rows(logPos: nat, event: RowsEvent<R>)
    | Other(logPos: nat)

  /** A log file. If it was closed in order, it ends in a rotate event, at the position `rotation`. */
  datatype LogFile<R> = LogFile(name: string, events: seq<StreamEvent<R>>, rotation: Option<nat>)

  type Log<R> = seq<LogFile<R>>

  /** The position of the first event of every file, behind the magic number. */
  const FirstPosition := 4

  predicate ValidFile<R>(file: LogFile<R>) {
    && file.name != ""
    && (forall n :: 0 <= n < |file.events| ==> !file.events[n].Rotate? && file.events[n].logPos > FirstPosition)
    && (forall m, n :: 0 <= m < n < |file.events| ==> file.events[m].logPos < file.events[n].logPos)
    && (forall n :: 0 <= n < |file.events| && file.events[n].Rows? && file.events[n].event.dml == Some(UpdateDML) ==>
          |file.events[n].event.rows| % 2 == 0)
  }

  /** File names increase, as strings, with every rotation. */
  predicate ValidLog<R>(log: Log<R>) {
    && (forall k :: 0 <= k < |log| ==> ValidFile(log[k]))
    && (forall j, k :: 0 <= j < k < |log| ==> StringLess(log[j].name, log[k].name))
  }

  // ---- The rows events of the log ----

  /** A rows event and its coordinates. */
  datatype Located<R> = Located(coordinates: BinlogCoordinates, event: RowsEvent<R>)

  function RowsIn<R>(name: string, events: seq<StreamEvent<R>>): seq<Located<R>> {
    if events == [] then []
    else
      var last := events[|events| - 1];
      RowsIn(name, events[..|events| - 1])
      + if last.Rows? then [Located(BinlogCoordinates(name, last.logPos, BinaryLog), last.event)] else []
  }

  function AllRows<R>(log: Log<R>): seq<Located<R>> {
    if log == [] then [] else AllRows(log[..|log| - 1]) + RowsIn(log[|log| - 1].name, log[|log| - 1].events)
  }

  /** How many rows events precede the n-th event of the k-th file. */
  function RowIndex<R>(log: Log<R>, k: nat, n: nat): nat
    requires k < |log| && n <= |log[k].events|
  {
    |AllRows(log[..k])| + |RowsIn(log[k].name, log[k].events[..n])|
  }

  lemma {:induction false} RowsInPrefix<R>(name: string, events: seq<StreamEvent<R>>, m: nat, n: nat)
    requires m <= n <= |events|
    ensures RowsIn(name, events[..m]) <= RowsIn(name, events[..n])
  {
    if m < n {
      RowsInPrefix(name, events, m, n - 1);
      assert events[..n][..n - 1] == events[..n - 1];
    }
  }

  lemma {:induction false} AllRowsPrefix<R>(log: Log<R>, j: nat, k: nat)
    requires j <= k <= |log|
    ensures AllRows(log[..j]) <= AllRows(log[..k])
  {
    if j < k {
      AllRowsPrefix(log, j, k - 1);
      assert log[..k][..k - 1] == log[..k - 1];
    }
  }

  lemma {:induction false} AllRowsUpTo<R>(log: Log<R>, k: nat, n: nat)
    requires k < |log| && n <= |log[k].events|
    ensures AllRows(log[..k]) + RowsIn(log[k].name, log[k].events[..n]) <= AllRows(log)
    ensures n == |log[k].events| ==> AllRows(log[..k + 1]) == AllRows(log[..k]) + RowsIn(log[k].name, log[k].events[..n])
  {
    assert log[..k + 1][..k] == log[..k];
    assert log[..|log|] == log;
    AllRowsPrefix(log, k + 1, |log|);
    RowsInPrefix(log[k].name, log[k].events, n, |log[k].events|);
    assert log[k].events[..|log[k].events|] == log[k].events;
  }

  /** The event at a place of the log is the rows event with that index. */
  lemma {:induction false} RowAt<R>(log: Log<R>, k: nat, n: nat)
    requires k < |log| && n < |log[k].events|
    ensures
      var e := log[k].events[n];
      var i := RowIndex(log, k, n);
      if e.Rows? then
        && i < |AllRows(log)| && RowIndex(log, k, n + 1) == i + 1
        && AllRows(log)[i] == Located(BinlogCoordinates(log[k].name, e.logPos, BinaryLog), e.event)
      else RowIndex(log, k, n + 1) == i
  {
    AllRowsUpTo(log, k, n + 1);
    assert log[k].events[..n + 1][..n] == log[k].events[..n];
  }

  lemma RowIndexNextFile<R>(log: Log<R>, k: nat)
    requires k + 1 < |log|
    ensures RowIndex(log, k + 1, 0) == RowIndex(log, k, |log[k].events|)
  {
    AllRowsUpTo(log, k, |log[k].events|);
  }

  lemma {:induction false} RowIndexMonotone<R>(log: Log<R>, k: nat, m: nat, n: nat)
    requires k < |log| && m <= n <= |log[k].events|
    ensures RowIndex(log, k, m) <= RowIndex(log, k, n) <= |AllRows(log)|
  {
    RowsInPrefix(log[k].name, log[k].events, m, n);
    AllRowsUpTo(log, k, n);
  }

  /** Where the i-th rows event lies. */
  lemma {:induction false} PlaceOf<R>(log: Log<R>, i: nat) returns (k: nat, n: nat)
    requires i < |AllRows(log)|
    ensures k < |log| && n < |log[k].events| && log[k].events[n].Rows? && RowIndex(log, k, n) == i
  {
    var last := |log| - 1;
    var before := |AllRows(log[..last])|;
    if i < before {
      k, n := PlaceOf(log[..last], i);
      assert log[..last][..k] == log[..k];
    } else {
      k := last;
      n := PlaceInFile(log[last].name, log[last].events, i - before);
    }
  }

  lemma {:induction false} PlaceInFile<R>(name: string, events: seq<StreamEvent<R>>, i: nat) returns (n: nat)
    requires i < |RowsIn(name, events)|
    ensures n < |events| && events[n].Rows? && |RowsIn(name, events[..n])| == i
  {
    var last := |events| - 1;
    if i < |RowsIn(name, events[..last])| {
      n := PlaceInFile(name, events[..last], i);
      assert events[..last][..n] == events[..n];
    } else {
      n := last;
    }
  }

  /** The order of the rows events is the order of their coordinates. */
  lemma {:induction false} RowsIncrease<R>(log: Log<R>, i: nat, j: nat)
    requires ValidLog(log) && i < j < |AllRows(log)|
    ensures AllRows(log)[i].coordinates.SmallerThan(AllRows(log)[j].coordinates)
  {
    var k, m := PlaceOf(log, i);
    var l, n := PlaceOf(log, j);
    RowAt(log, k, m);
    RowAt(log, l, n);
    if l < k {
      PlacesFollow(log, l, n, k, m);
      assert false;
    } else if l == k && n <= m {
      RowIndexMonotone(log, k, n, m);
      assert false;
    }
  }

  lemma {:induction false} RowsAreNamed<R>(log: Log<R>, i: nat)
    requires ValidLog(log) && i < |AllRows(log)|
    ensures AllRows(log)[i].coordinates.logFile != ""
  {
    var k, n := PlaceOf(log, i);
    RowAt(log, k, n);
    assert ValidFile(log[k]);
  }

  lemma {:induction false} PlacesFollow<R>(log: Log<R>, l: nat, n: nat, k: nat, m: nat)
    requires l < k < |log| && n <= |log[l].events| && m <= |log[k].events|
    ensures RowIndex(log, l, n) <= RowIndex(log, k, m)
    decreases k - l
  {
    RowIndexMonotone(log, l, n, |log[l].events|);
    RowIndexNextFile(log, l);
    if l + 1 < k {
      PlacesFollow(log, l + 1, 0, k, m);
    } else {
      RowIndexMonotone(log, k, 0, m);
    }
  }

  // ---- What a connection is sent ----

  /** How many events of a file end at or before a position. */
  function EndedBy<R>(events: seq<StreamEvent<R>>, pos: int): (n: nat)
    ensures n <= |events|
  {
    if events == [] || events[0].logPos > pos then 0 else 1 + EndedBy(events[1..], pos)
  }

  function Ending<R>(log: Log<R>, k: nat): seq<StreamEvent<R>>
    requires k < |log|
  {
    if k + 1 < |log| && log[k].rotation.Some? then [Rotate(log[k].rotation.value, log[k + 1].name)] else []
  }

  /** The stream from the n-th event of the k-th file on. */
  function Tail<R>(log: Log<R>, k: nat, n: nat): seq<StreamEvent<R>>
    requires k < |log| && n <= |log[k].events|
    decreases |log| - k, 0
  {
    log[k].events[n..] + Ending(log, k) + if k + 1 < |log| then Announced(log, k + 1, 0) else []
  }

  /** A file that begins to be sent is announced by an artificial rotate event. */
  function Announced<R>(log: Log<R>, k: nat, n: nat): seq<StreamEvent<R>>
    requires k < |log| && n <= |log[k].events|
    decreases |log| - k, 1
  {
    [Rotate(0, log[k].name)] + Tail(log, k, n)
  }

  /** A place in the stream of a connection: announced or not. */
  datatype Cursor = Cursor(k: nat, n: nat, announced: bool) {
    predicate Valid<R>(log: Log<R>) {
      k < |log| && n <= |log[k].events|
    }

    function Rest<R>(log: Log<R>): seq<StreamEvent<R>>
      requires Valid(log)
    {
      if announced then Tail(log, k, n) else Announced(log, k, n)
    }

    /** The number of rows events before it. */
    function Index<R>(log: Log<R>): nat
      requires Valid(log)
    {
      RowIndex(log, k, n)
    }
  }

  /** The rows event at the place `c` is the one at its index. */
  ghost predicate IsRow<R>(log: Log<R>, c: Cursor, event: StreamEvent<R>)
    requires c.Valid(log)
  {
    && event.Rows? && c.Index(log) < |AllRows(log)|
    && AllRows(log)[c.Index(log)] == Located(BinlogCoordinates(log[c.k].name, event.logPos, BinaryLog), event.event)
    && c.n < |log[c.k].events| && log[c.k].events[c.n] == event
  }

  /** What it means that `d` is one event further than `c`. */
  ghost predicate Next<R>(log: Log<R>, c: Cursor, d: Cursor)
    requires c.Valid(log)
  {
    && c.Rest(log) != [] && d.Valid(log) && c.Rest(log)[1..] == d.Rest(log) && c.k <= d.k
    && match c.Rest(log)[0]
       case Rotate(_, name) => name == log[d.k].name && d.Index(log) == c.Index(log)
       case Rows(_, _) => d.k == c.k && d.Index(log) == c.Index(log) + 1 && IsRow(log, c, c.Rest(log)[0])
       case Other(_) => d.k == c.k && d.Index(log) == c.Index(log)
  }

  function FirstIndex<R>(log: Log<R>, k: nat): nat
    requires k < |log|
  {
    RowIndex(log, k, 0)
  }

  lemma Announce<R>(log: Log<R>, c: Cursor)
    requires c.Valid(log) && !c.announced
    ensures Next(log, c, c.(announced := true))
  {
  }

  lemma TailStep<R>(log: Log<R>, k: nat, n: nat)
    requires k < |log| && n < |log[k].events|
    ensures Tail(log, k, n) == [log[k].events[n]] + Tail(log, k, n + 1)
  {
    assert log[k].events[n..] == [log[k].events[n]] + log[k].events[n + 1..];
  }

  lemma SendEvent<R>(log: Log<R>, c: Cursor)
    requires ValidLog(log) && c.Valid(log) && c.announced && c.n < |log[c.k].events|
    ensures Next(log, c, c.(n := c.n + 1))
  {
    RowAt(log, c.k, c.n);
    TailStep(log, c.k, c.n);
    assert ValidFile(log[c.k]);
  }

  lemma {:induction false} TailEnd<R>(log: Log<R>, k: nat)
    requires k + 1 < |log|
    ensures Tail(log, k, |log[k].events|) == Ending(log, k) + Announced(log, k + 1, 0)
  {
    assert log[k].events[|log[k].events|..] == [];
  }

  lemma RotateToNext<R>(log: Log<R>, c: Cursor)
    requires c.Valid(log) && c.announced && c.n == |log[c.k].events| && c.k + 1 < |log| && Ending(log, c.k) != []
    ensures Next(log, c, Cursor(c.k + 1, 0, false))
  {
    RowIndexNextFile(log, c.k);
    TailEnd(log, c.k);
  }

  lemma {:induction false} AnnouncedParts<R>(log: Log<R>, k: nat, n: nat)
    requires k < |log| && n <= |log[k].events|
    ensures var stream := Announced(log, k, n);
            stream != [] && stream[0] == Rotate(0, log[k].name) && stream[1..] == Tail(log, k, n)
  {
  }

  lemma {:induction false} NothingEnds<R>(log: Log<R>, k: nat)
    requires k + 1 < |log| && Ending(log, k) == []
    ensures Tail(log, k, |log[k].events|) == Announced(log, k + 1, 0)
  {
    TailEnd(log, k);
    assert [] + Announced(log, k + 1, 0) == Announced(log, k + 1, 0);
  }

  lemma SkipToNext<R>(log: Log<R>, c: Cursor)
    requires c.Valid(log) && c.announced && c.n == |log[c.k].events| && c.k + 1 < |log| && Ending(log, c.k) == []
    ensures Next(log, c, Cursor(c.k + 1, 0, true))
  {
    RowIndexNextFile(log, c.k);
    NothingEnds(log, c.k);
    AnnouncedParts(log, c.k + 1, 0);
  }

  lemma NothingFollows<R>(log: Log<R>, c: Cursor)
    requires c.Valid(log) && c.announced && c.n == |log[c.k].events| && c.k + 1 == |log|
    ensures c.Rest(log) == []
  {
  }

  /** The place one event further. */
  function NextCursor<R>(log: Log<R>, c: Cursor): Cursor
    requires c.Valid(log) && c.Rest(log) != []
  {
    if !c.announced then c.(announced := true)
    else if c.n < |log[c.k].events| then c.(n := c.n + 1)
    else Cursor(c.k + 1, 0, Ending(log, c.k) == [])
  }

  lemma Advance<R>(log: Log<R>, c: Cursor)
    requires ValidLog(log) && c.Valid(log) && c.Rest(log) != []
    ensures Next(log, c, NextCursor(log, c))
  {
    if !c.announced {
      Announce(log, c);
    } else if c.n < |log[c.k].events| {
      SendEvent(log, c);
    } else {
      if c.k + 1 == |log| {
        NothingFollows(log, c);
      }
      if Ending(log, c.k) != [] {
        RotateToNext(log, c);
      } else {
        SkipToNext(log, c);
      }
    }
  }

  // ---- Connecting ----

  function FileIndex<R>(log: Log<R>, name: string): (k: Option<nat>)
    ensures k.Some? ==> k.value < |log| && log[k.value].name == name
    ensures k.None? ==> forall j :: 0 <= j < |log| ==> log[j].name != name
  {
    if log == [] then None
    else if log[|log| - 1].name == name then Some(|log| - 1)
    else FileIndex(log[..|log| - 1], name)
  }

  lemma DistinctNames<R>(log: Log<R>, j: nat, k: nat)
    requires ValidLog(log) && j < k < |log|
    ensures log[j].name != log[k].name
  {
    LessIrreflexive(Codes(log[k].name));
    assert StringLess(log[j].name, log[k].name);
  }

  lemma {:induction false} FileIndexOf<R>(log: Log<R>, k: nat)
    requires ValidLog(log) && k < |log|
    ensures FileIndex(log, log[k].name) == Some(k)
  {
    var j := FileIndex(log, log[k].name).value;
    if j < k {
      DistinctNames(log, j, k);
    } else if k < j {
      DistinctNames(log, k, j);
    }
  }

  /** Where a connection begins that asks for a position in the k-th file. */
  function ConnectAt<R>(log: Log<R>, k: nat, pos: int): (c: Cursor)
    requires k < |log|
    ensures c.Valid(log)
  {
    Cursor(k, EndedBy(log[k].events, pos), false)
  }

  /** What the server sends to a connection that asks for these coordinates. */
  function ServerSends<R>(log: Log<R>, coordinates: BinlogCoordinates): seq<StreamEvent<R>> {
    match FileIndex(log, coordinates.logFile)
    case None => []
    case Some(k) => ConnectAt(log, k, coordinates.logPos).Rest(log)
  }

  lemma ConnectAtStart<R>(log: Log<R>, k: nat)
    requires ValidLog(log) && k < |log|
    ensures ConnectAt(log, k, FirstPosition) == Cursor(k, 0, false)
  {
    assert ValidFile(log[k]);
  }

  lemma FirstIndexAtMost<R>(log: Log<R>, c: Cursor)
    requires c.Valid(log)
    ensures FirstIndex(log, c.k) <= c.Index(log)
  {
    RowIndexMonotone(log, c.k, 0, c.n);
  }
}
