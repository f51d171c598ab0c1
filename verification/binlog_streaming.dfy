/**
 Reading the binary log with reconnects. When a connection fails, the streamer connects anew at the start of the
 file it was reading, and skips what it has already handled by comparing coordinates. Each row change enters the
 channel exactly once, and in order.
 */
module BinlogStreaming {
  import opened Wrappers
  import opened BinlogOrder
  import opened BinlogStream

  datatype DmlEvent<R> = Inserted(row: R) | Updated(where_: R, row: R) | Deleted(where_: R)

  datatype BinlogEntry<R> = BinlogEntry(coordinates: BinlogCoordinates, dmlEvent: DmlEvent<R>)

  const NoCoordinates := BinlogCoordinates("", 0, BinaryLog)

  /** The entries for the first `n` rows. The second row of every pair of an update adds none of its own. */
  function EntriesUpTo<R>(at: BinlogCoordinates, dml: Dml, rows: seq<R>, n: nat): seq<BinlogEntry<R>>
    requires n <= |rows| && (dml == UpdateDML ==> |rows| % 2 == 0)
  {
    if n == 0 then []
    else if dml == UpdateDML && n % 2 == 0 then EntriesUpTo(at, dml, rows, n - 1)
    else EntriesUpTo(at, dml, rows, n - 1) + [EntryOf(at, dml, rows, n - 1)]
  }

  function EntryOf<R>(at: BinlogCoordinates, dml: Dml, rows: seq<R>, i: nat): BinlogEntry<R>
    requires i < |rows| && (dml == UpdateDML ==> i + 1 < |rows|)
  {
    match dml
    case InsertDML => BinlogEntry(at, Inserted(rows[i]))
    case UpdateDML => BinlogEntry(at, Updated(rows[i], rows[i + 1]))
    case DeleteDML => BinlogEntry(at, Deleted(rows[i]))
  }

  /** An insert or delete gives one entry a row; an update gives one for each pair of rows, before and after. */
  lemma {:induction false} EntriesMeaning<R>(at: BinlogCoordinates, dml: Dml, rows: seq<R>, n: nat)
    requires n <= |rows| && (dml == UpdateDML ==> |rows| % 2 == 0 && n % 2 == 0)
    ensures
      var entries := EntriesUpTo(at, dml, rows, n);
      if dml == UpdateDML then
        && |entries| == n / 2
        && forall i :: 0 <= i < n / 2 ==> entries[i] == BinlogEntry(at, Updated(rows[2 * i], rows[2 * i + 1]))
      else
        && |entries| == n
        && forall i :: 0 <= i < n ==>
             entries[i] == BinlogEntry(at, if dml == InsertDML then Inserted(rows[i]) else Deleted(rows[i]))
  {
    if n > 0 {
      if dml == UpdateDML {
        EntriesMeaning(at, dml, rows, n - 2);
      } else {
        EntriesMeaning(at, dml, rows, n - 1);
      }
    }
  }

  predicate WellFormed<R>(event: RowsEvent<R>) {
    event.dml == Some(UpdateDML) ==> |event.rows| % 2 == 0
  }

  function EntriesAt<R>(located: Located<R>): seq<BinlogEntry<R>> {
    if located.event.dml.Some? && WellFormed(located.event) then
      EntriesUpTo(located.coordinates, located.event.dml.value, located.event.rows, |located.event.rows|)
    else []
  }

  /** The entries of several rows events, in order. */
  function EntriesOf<R>(rows: seq<Located<R>>): seq<BinlogEntry<R>> {
    if rows == [] then [] else EntriesOf(rows[..|rows| - 1]) + EntriesAt(rows[|rows| - 1])
  }

  class EntriesChannel<R> {
    var sent: seq<BinlogEntry<R>>

    constructor ()
      ensures sent == []
    {
      sent := [];
    }
  }

  /** How far delivery has got: nothing as yet, or the rows events of the log from the a-th up to the b-th. */
  datatype Progress = Nothing | Stretch(a: nat, b: nat)

  /** What has been delivered: each of these rows events once and in order, the last of them being the one in the hint. */
  ghost predicate Delivered<R>(rows: seq<Located<R>>, p: Progress, hint: BinlogCoordinates, sent: seq<BinlogEntry<R>>) {
    match p
    case Nothing => hint == NoCoordinates && sent == []
    case Stretch(a, b) => a < b <= |rows| && hint == rows[b - 1].coordinates && sent == EntriesOf(rows[a..b])
  }

  /** A connection at the place `c` of its stream: nothing that lies behind it is missing. */
  ghost predicate InStep<R>(log: Log<R>, c: Cursor, p: Progress,
                            current: BinlogCoordinates, hint: BinlogCoordinates, sent: seq<BinlogEntry<R>>)
  {
    && c.Valid(log) && current.logFile == log[c.k].name && current.binlogType == BinaryLog
    && Delivered(AllRows(log), p, hint, sent) && (p.Stretch? ==> c.Index(log) <= p.b)
  }

  // ---- One rows event ----

  /** The rows event was handled before. */
  predicate Skips(p: Progress, i: nat) {
    p.Stretch? && i < p.b
  }

  /** The event is an unhandled rows event of an unknown type, at which reading fails. */
  predicate Refuses<R>(p: Progress, i: nat, ev: StreamEvent<R>) {
    ev.Rows? && !Skips(p, i) && ev.event.dml.None?
  }

  function After<R>(p: Progress, i: nat, ev: StreamEvent<R>): Progress {
    if !ev.Rows? || Skips(p, i) || ev.event.dml.None? then p
    else if p.Nothing? then Stretch(i, i + 1)
    else Stretch(p.a, i + 1)
  }

  lemma {:induction false} EntriesSnoc<R>(rows: seq<Located<R>>, next: Located<R>)
    ensures EntriesOf(rows + [next]) == EntriesOf(rows) + EntriesAt(next)
  {
    assert (rows + [next])[..|rows|] == rows;
  }

  /** The comparison with the hint tells handled rows events from others. */
  lemma {:induction false} SkipsHandled<R>(log: Log<R>, i: nat, b: nat)
    requires ValidLog(log) && 0 < b <= |AllRows(log)| && i < |AllRows(log)|
    ensures AllRows(log)[i].coordinates.SmallerThanOrEquals(AllRows(log)[b - 1].coordinates) <==> i < b
  {
    var x, y := AllRows(log)[i].coordinates, AllRows(log)[b - 1].coordinates;
    SmallerThanIsTotalOrder(x, y, x);
    if i < b - 1 {
      RowsIncrease(log, i, b - 1);
    } else if i > b - 1 {
      RowsIncrease(log, b - 1, i);
    }
  }

  lemma NothingIsBelowNone(c: BinlogCoordinates)
    requires c.logFile != ""
    ensures !c.SmallerThanOrEquals(NoCoordinates)
  {
    assert Codes("") == [];
  }

  lemma {:induction false} SkipsExactly<R>(log: Log<R>, i: nat, p: Progress, hint: BinlogCoordinates,
                                           sent: seq<BinlogEntry<R>>)
    requires ValidLog(log) && i < |AllRows(log)| && Delivered(AllRows(log), p, hint, sent)
    ensures AllRows(log)[i].coordinates.SmallerThanOrEquals(hint) <==> Skips(p, i)
  {
    RowsAreNamed(log, i);
    match p
    case Nothing => NothingIsBelowNone(AllRows(log)[i].coordinates);
    case Stretch(_, b) => SkipsHandled(log, i, b);
  }

  /** The first rows event is always handled. */
  lemma DeliverFirst<R>(rows: seq<Located<R>>, i: nat)
    requires i < |rows|
    ensures Delivered(rows, Stretch(i, i + 1), rows[i].coordinates, EntriesAt(rows[i]))
  {
    assert rows[i..i + 1] == [] + [rows[i]];
    EntriesSnoc([], rows[i]);
  }

  /** Any other is the very next one, unless it was handled. */
  lemma DeliverNext<R>(rows: seq<Located<R>>, a: nat, b: nat, hint: BinlogCoordinates, sent: seq<BinlogEntry<R>>)
    requires b < |rows| && Delivered(rows, Stretch(a, b), hint, sent)
    ensures Delivered(rows, Stretch(a, b + 1), rows[b].coordinates, sent + EntriesAt(rows[b]))
  {
    assert rows[a..b + 1] == rows[a..b] + [rows[b]];
    EntriesSnoc(rows[a..b], rows[b]);
  }

  /** What has been delivered after the i-th rows event was handled, skipped or refused. */
  lemma AfterHandling<R>(rows: seq<Located<R>>, i: nat, ev: StreamEvent<R>, p: Progress,
                         hint: BinlogCoordinates, sent: seq<BinlogEntry<R>>,
                         hint': BinlogCoordinates, sent': seq<BinlogEntry<R>>)
    requires i < |rows| && ev.Rows? && Delivered(rows, p, hint, sent) && (p.Stretch? ==> i <= p.b)
    requires if Skips(p, i) || ev.event.dml.None? then hint' == hint && sent' == sent
             else hint' == rows[i].coordinates && sent' == sent + EntriesAt(rows[i])
    ensures Delivered(rows, After(p, i, ev), hint', sent')
    ensures var q := After(p, i, ev); q.Stretch? ==> i + (if Refuses(p, i, ev) then 0 else 1) <= q.b
  {
    if Skips(p, i) || ev.event.dml.None? {
      assert After(p, i, ev) == p;
    } else if p.Nothing? {
      DeliverFirst(rows, i);
      assert [] + EntriesAt(rows[i]) == EntriesAt(rows[i]);
    } else {
      DeliverNext(rows, p.a, i, hint, sent);
    }
  }

  // ---- One connection ----

  /**
   Where reading stops that begins at the place `c`, what has been delivered then, and whether all of `received` has
   been read, which it is unless an event is refused.
   */
  function Reads<R>(log: Log<R>, c: Cursor, received: seq<StreamEvent<R>>, p: Progress): (r: (Cursor, Progress, bool))
    requires ValidLog(log) && c.Valid(log) && received <= c.Rest(log)
    ensures r.0.Valid(log) && c.k <= r.0.k
    decreases |received|
  {
    if received == [] then (c, p, true)
    else
      var ev, i := received[0], c.Index(log);
      if Refuses(p, i, ev) then (c, p, false)
      else
        Advance(log, c);
        Reads(log, NextCursor(log, c), received[1..], After(p, i, ev))
  }

  /** Every rows event of a known type that is received before one of an unknown type has been delivered. */
  ghost predicate KnownDelivered<R>(log: Log<R>, c: Cursor, received: seq<StreamEvent<R>>, p: Progress)
    requires ValidLog(log) && c.Valid(log) && received <= c.Rest(log)
    decreases |received|
  {
    received == [] || (received[0].Rows? && received[0].event.dml.None?) ||
    (Advance(log, c);
     && (received[0].Rows? ==> Skips(p, c.Index(log)))
     && KnownDelivered(log, NextCursor(log, c), received[1..], p))
  }

  /** Progress is only ever added to. */
  predicate Extends(p: Progress, q: Progress) {
    p.Stretch? ==> q.Stretch? && q.a == p.a && p.b <= q.b
  }

  lemma {:induction false} DeliveredStays<R>(log: Log<R>, c: Cursor, received: seq<StreamEvent<R>>, p: Progress,
                                             q: Progress)
    requires ValidLog(log) && c.Valid(log) && received <= c.Rest(log)
    requires KnownDelivered(log, c, received, p) && Extends(p, q)
    ensures KnownDelivered(log, c, received, q)
    decreases |received|
  {
    if received != [] && !(received[0].Rows? && received[0].event.dml.None?) {
      Advance(log, c);
      DeliveredStays(log, NextCursor(log, c), received[1..], p, q);
    }
  }

  /** How far a connection gets: its progress and the place where it stops belong together. */
  ghost predicate GetsTo<R>(log: Log<R>, c: Cursor, p: Progress, d: Cursor, q: Progress)
    requires c.Valid(log) && d.Valid(log)
  {
    && Extends(p, q)
    && (p.Nothing? && q.Nothing? ==> d.Index(log) == c.Index(log))
    && (p.Nothing? && q.Stretch? ==> q.a == c.Index(log) && q.b == d.Index(log))
    && (p.Stretch? ==> q.b == if p.b < d.Index(log) then d.Index(log) else p.b)
  }

  /** One event more. */
  lemma GetsOneFurther<R>(log: Log<R>, c: Cursor, p: Progress, d: Cursor, q: Progress)
    requires c.Valid(log) && c.Rest(log) != [] && Next(log, c, NextCursor(log, c)) && d.Valid(log)
    requires var ev := c.Rest(log)[0];
      && !Refuses(p, c.Index(log), ev) && (p.Stretch? ==> c.Index(log) <= p.b)
      && GetsTo(log, NextCursor(log, c), After(p, c.Index(log), ev), d, q) && NextCursor(log, c).Index(log) <= d.Index(log)
    ensures GetsTo(log, c, p, d, q)
    ensures c.Rest(log)[0].Rows? ==> Skips(q, c.Index(log))
  {
  }

  /**
   What one connection delivers. It goes on from where delivery was, or begins at the connection's first rows event;
   it reaches the place where reading stops, and misses no rows event of a known type before that.
   */
  lemma {:induction false} ReadsMeaning<R>(log: Log<R>, c: Cursor, received: seq<StreamEvent<R>>, p: Progress)
    requires ValidLog(log) && c.Valid(log) && received <= c.Rest(log) && (p.Stretch? ==> c.Index(log) <= p.b)
    ensures
      var (d, q, all) := Reads(log, c, received, p);
      && GetsTo(log, c, p, d, q) && KnownDelivered(log, c, received, q) && c.Index(log) <= d.Index(log)
      && (all ==> d.Rest(log) == c.Rest(log)[|received|..])
    decreases |received|
  {
    if received != [] && !Refuses(p, c.Index(log), received[0]) {
      Advance(log, c);
      var next, r := NextCursor(log, c), After(p, c.Index(log), received[0]);
      ReadsMeaning(log, next, received[1..], r);
      var (d, q, all) := Reads(log, next, received[1..], r);
      GetsOneFurther(log, c, p, d, q);
      assert c.Rest(log)[1..][|received| - 1..] == c.Rest(log)[|received|..];
    }
  }

  /** The first rows event that is received is of a known type. */
  predicate HandlesRows<R>(received: seq<StreamEvent<R>>) {
    received != [] && if received[0].Rows? then received[0].event.dml.Some? else HandlesRows(received[1..])
  }

  /** That is when a connection delivers anything, if nothing was delivered before. */
  lemma {:induction false} ReadsFirst<R>(log: Log<R>, c: Cursor, received: seq<StreamEvent<R>>)
    requires ValidLog(log) && c.Valid(log) && received <= c.Rest(log)
    ensures Reads(log, c, received, Nothing).1.Stretch? <==> HandlesRows(received)
    decreases |received|
  {
    if received != [] && !Refuses(Nothing, c.Index(log), received[0]) {
      Advance(log, c);
      if received[0].Rows? {
        ReadsMeaning(log, NextCursor(log, c), received[1..], Stretch(c.Index(log), c.Index(log) + 1));
      } else {
        ReadsFirst(log, NextCursor(log, c), received[1..]);
      }
    }
  }

  /** The place `d` is `j` events behind the place `c`. */
  ghost predicate Along<R>(log: Log<R>, c: Cursor, received: seq<StreamEvent<R>>, d: Cursor, j: nat)
    requires c.Valid(log) && received <= c.Rest(log) && j <= |received|
  {
    d.Valid(log) && d.Rest(log) == c.Rest(log)[j..]
  }

  lemma AlongStep<R>(log: Log<R>, c: Cursor, received: seq<StreamEvent<R>>, d: Cursor, j: nat)
    requires ValidLog(log) && c.Valid(log) && received <= c.Rest(log) && j < |received| && Along(log, c, received, d, j)
    ensures d.Rest(log) != [] && d.Rest(log)[0] == received[j] && Next(log, d, NextCursor(log, d))
    ensures Along(log, c, received, NextCursor(log, d), j + 1)
  {
    Advance(log, d);
    assert c.Rest(log)[j..][1..] == c.Rest(log)[j + 1..];
  }

  /** Going on from `d` with the rest of `received` comes to what going on from `c` with all of it does. */
  ghost predicate OnCourse<R>(log: Log<R>, c: Cursor, received: seq<StreamEvent<R>>, p: Progress, d: Cursor,
                              q: Progress, j: nat)
    requires ValidLog(log) && c.Valid(log) && received <= c.Rest(log) && j <= |received| && Along(log, c, received, d, j)
  {
    Reads(log, d, received[j..], q) == Reads(log, c, received, p)
  }

  lemma {:induction false} ReadsStep<R>(log: Log<R>, c: Cursor, received: seq<StreamEvent<R>>, p: Progress, d: Cursor,
                                        q: Progress, j: nat)
    requires ValidLog(log) && c.Valid(log) && received <= c.Rest(log) && j < |received| && Along(log, c, received, d, j)
    requires Along(log, c, received, NextCursor(log, d), j + 1) && OnCourse(log, c, received, p, d, q, j)
    ensures
      var i, ev := d.Index(log), received[j];
      if Refuses(q, i, ev) then Reads(log, c, received, p) == (d, q, false)
      else OnCourse(log, c, received, p, NextCursor(log, d), After(q, i, ev), j + 1)
  {
    assert received[j..][0] == received[j] && received[j..][1..] == received[j + 1..];
  }

  class GoMySQLReader<R> {
    var currentCoordinates: BinlogCoordinates
    var lastAppliedRowsEventHint: BinlogCoordinates

    constructor ()
      ensures currentCoordinates == NoCoordinates && lastAppliedRowsEventHint == NoCoordinates
    {
      currentCoordinates, lastAppliedRowsEventHint := NoCoordinates, NoCoordinates;
    }

    /** `reachable` says whether the server can be reached. */
    method ConnectBinlogStreamer(coordinates: BinlogCoordinates, reachable: bool) returns (ok: bool)
      modifies this`currentCoordinates
      ensures currentCoordinates == if coordinates.logFile == "" then old(currentCoordinates) else coordinates
      ensures ok <==> coordinates.logFile != "" && reachable
    {
      if coordinates.logFile == "" {
        return false;
      }
      currentCoordinates := coordinates;
      return reachable;
    }

    method HandleRowsEvent(rowsEvent: RowsEvent<R>, entriesChannel: EntriesChannel<R>)
      returns (ok: bool, ghost skipped: bool)
      requires WellFormed(rowsEvent)
      modifies this`lastAppliedRowsEventHint, entriesChannel
      ensures skipped <==> old(currentCoordinates.SmallerThanOrEquals(lastAppliedRowsEventHint))
      ensures
        if skipped || rowsEvent.dml.None? then
          && lastAppliedRowsEventHint == old(lastAppliedRowsEventHint) && entriesChannel.sent == old(entriesChannel.sent)
          && ok == skipped
        else
          && lastAppliedRowsEventHint == currentCoordinates && ok
          && entriesChannel.sent == old(entriesChannel.sent) + EntriesAt(Located(currentCoordinates, rowsEvent))
    {
      if currentCoordinates.SmallerThanOrEquals(lastAppliedRowsEventHint) {
        return true, true;
      }
      if rowsEvent.dml.None? {
        return false, false;
      }
      var dml := rowsEvent.dml.value;
      var rows := rowsEvent.rows;
      var i := 0;
      while i < |rows|
        invariant 0 <= i <= |rows|
        invariant entriesChannel.sent == old(entriesChannel.sent) + EntriesUpTo(currentCoordinates, dml, rows, i)
      {
        if dml == UpdateDML && i % 2 == 1 {
          // An update has two rows; both were handled at the first of them.
          i := i + 1;
          continue;
        }
        var event :=
          match dml
          case InsertDML => Inserted(rows[i])
          case UpdateDML => Updated(rows[i], rows[i + 1])
          case DeleteDML => Deleted(rows[i]);
        var binlogEntry := BinlogEntry(currentCoordinates, event);
        entriesChannel.sent := entriesChannel.sent + [binlogEntry];
        i := i + 1;
      }
      lastAppliedRowsEventHint := currentCoordinates;
      return true, false;
    }

    /** Handles the rows event at the place `c`: it is skipped exactly if it was handled before. */
    method HandleRowsAt(log: Log<R>, ev: StreamEvent<R>, entriesChannel: EntriesChannel<R>, ghost c: Cursor,
                        ghost p: Progress)
      returns (ok: bool)
      requires ValidLog(log) && c.Valid(log) && IsRow(log, c, ev)
      requires currentCoordinates == AllRows(log)[c.Index(log)].coordinates
      requires Delivered(AllRows(log), p, lastAppliedRowsEventHint, entriesChannel.sent)
      requires p.Stretch? ==> c.Index(log) <= p.b
      modifies this`lastAppliedRowsEventHint, entriesChannel
      ensures ok <==> !Refuses(p, c.Index(log), ev)
      ensures Delivered(AllRows(log), After(p, c.Index(log), ev), lastAppliedRowsEventHint, entriesChannel.sent)
      ensures var q := After(p, c.Index(log), ev); q.Stretch? ==> c.Index(log) + (if ok then 1 else 0) <= q.b
    {
      ghost var i, hint, sent := c.Index(log), lastAppliedRowsEventHint, entriesChannel.sent;
      assert WellFormed(ev.event) by {
        assert ValidFile(log[c.k]);
      }
      SkipsExactly(log, i, p, hint, sent);
      ghost var skipped;
      ok, skipped := HandleRowsEvent(ev.event, entriesChannel);
      AfterHandling(AllRows(log), i, ev, p, hint, sent, lastAppliedRowsEventHint, entriesChannel.sent);
    }

    /** Handles one event, at the place `c` of the stream. */
    method HandleEvent(log: Log<R>, ev: StreamEvent<R>, entriesChannel: EntriesChannel<R>, ghost c: Cursor,
                       ghost p: Progress)
      returns (ok: bool)
      requires ValidLog(log) && c.Valid(log) && c.Rest(log) != [] && ev == c.Rest(log)[0]
      requires Next(log, c, NextCursor(log, c))
      requires InStep(log, c, p, currentCoordinates, lastAppliedRowsEventHint, entriesChannel.sent)
      modifies this, entriesChannel
      ensures ok <==> !Refuses(p, c.Index(log), ev)
      ensures InStep(log, if ok then NextCursor(log, c) else c, After(p, c.Index(log), ev),
                     currentCoordinates, lastAppliedRowsEventHint, entriesChannel.sent)
    {
      ok := true;
      currentCoordinates := currentCoordinates.(logPos := ev.logPos);
      match ev {
        case Rotate(_, nextLogName) => currentCoordinates := currentCoordinates.(logFile := nextLogName);
        case Rows(_, _) => ok := HandleRowsAt(log, ev, entriesChannel, c, p);
        case Other(_) =>
      }
    }

    /**
     Streams from the place `c` until told to stop, or until an error. `received` is what the connection yields
     before either happens. All of it is read, unless an event is refused.
     */
    method StreamEvents(log: Log<R>, received: seq<StreamEvent<R>>, canStop: bool, entriesChannel: EntriesChannel<R>,
                        ghost c: Cursor, ghost p: Progress)
      returns (ok: bool)
      requires ValidLog(log) && c.Valid(log) && received <= c.Rest(log)
      requires InStep(log, c, p, currentCoordinates, lastAppliedRowsEventHint, entriesChannel.sent)
      modifies this, entriesChannel
      ensures
        var (d, q, all) := Reads(log, c, received, p);
        && InStep(log, d, q, currentCoordinates, lastAppliedRowsEventHint, entriesChannel.sent)
        && (ok <==> canStop && all)
    {
      ghost var d, q := c, p;
      assert received[0..] == received;
      var j := 0;
      while j < |received|
        invariant 0 <= j <= |received| && Along(log, c, received, d, j)
        invariant InStep(log, d, q, currentCoordinates, lastAppliedRowsEventHint, entriesChannel.sent)
        invariant OnCourse(log, c, received, p, d, q, j)
      {
        AlongStep(log, c, received, d, j);
        ReadsStep(log, c, received, p, d, q, j);
        ok := HandleEvent(log, received[j], entriesChannel, d, q);
        if !ok {
          return;
        }
        d, q := NextCursor(log, d), After(q, d.Index(log), received[j]);
        j := j + 1;
      }
      return canStop;
    }
  }

  // ---- The connections of a whole run ----

  /**
   One connection, as its environment decides: how many events it delivers, whether the migration is over then, and
   whether the server can be reached again.
   */
  datatype Connection = Connection(delivers: nat, canStop: bool, reachable: bool)

  /** What a connection from the place `c` on delivers. */
  function Received<R>(log: Log<R>, c: Cursor, connection: Connection): seq<StreamEvent<R>>
    requires c.Valid(log)
  {
    var stream := c.Rest(log);
    if connection.delivers < |stream| then stream[..connection.delivers] else stream
  }

  /** A connection that was served: from where to where, and what had been delivered before and after. */
  datatype Visit = Visit(from: Cursor, before: Progress, to: Cursor, after: Progress)

  ghost predicate IsVisit<R>(log: Log<R>, visit: Visit, connection: Connection)
    requires ValidLog(log)
  {
    && visit.from.Valid(log) && (visit.before.Stretch? ==> visit.from.Index(log) <= visit.before.b)
    && Reads(log, visit.from, Received(log, visit.from, connection), visit.before).0 == visit.to
    && Reads(log, visit.from, Received(log, visit.from, connection), visit.before).1 == visit.after
  }

  /** How many of the last visits in a row have delivered nothing new. */
  function Failures(trace: seq<Visit>): nat {
    if trace == [] || trace[|trace| - 1].after != trace[|trace| - 1].before then 0
    else 1 + Failures(trace[..|trace| - 1])
  }

  /** These were to no avail, and the one before them was not. */
  lemma {:induction false} FailuresMeaning(trace: seq<Visit>)
    ensures var n := Failures(trace);
      && n <= |trace|
      && (forall j :: |trace| - n <= j < |trace| ==> trace[j].after == trace[j].before)
      && (n < |trace| ==> trace[|trace| - n - 1].after != trace[|trace| - n - 1].before)
  {
    if trace != [] && trace[|trace| - 1].after == trace[|trace| - 1].before {
      FailuresMeaning(trace[..|trace| - 1]);
    }
  }

  function OutcomeOf(trace: seq<Visit>): Progress {
    if trace == [] then Nothing else trace[|trace| - 1].after
  }

  /** Where the next connection begins: at the start of the file in which the last one stopped. */
  function NextFrom(start: Cursor, trace: seq<Visit>): Cursor {
    if trace == [] then start else Cursor(trace[|trace| - 1].to.k, 0, false)
  }

  /** The last connection has failed, and so many before it to no avail, or the server cannot be reached again. */
  predicate GivesUp(connections: seq<Connection>, trace: seq<Visit>, maxRetries: int)
    requires 0 < |trace| <= |connections|
  {
    var last := connections[|trace| - 1];
    !last.canStop && (Failures(trace) > maxRetries || !last.reachable)
  }

  /** The last visit is one of its connection, and takes up where the one before has left off. */
  ghost predicate Continues<R>(log: Log<R>, start: Cursor, connections: seq<Connection>, trace: seq<Visit>)
    requires ValidLog(log) && 0 < |trace| <= |connections|
  {
    var n := |trace| - 1;
    && IsVisit(log, trace[n], connections[n])
    && trace[n].from == NextFrom(start, trace[..n]) && trace[n].before == OutcomeOf(trace[..n])
  }

  /** These connections are served one after the other, and none of them is the last. */
  ghost predicate GoesOn<R>(log: Log<R>, start: Cursor, connections: seq<Connection>, maxRetries: int, trace: seq<Visit>)
    requires ValidLog(log)
    decreases |trace|
  {
    |trace| <= |connections| &&
    (trace != [] ==>
       && GoesOn(log, start, connections, maxRetries, trace[..|trace| - 1]) && Continues(log, start, connections, trace)
       && !connections[|trace| - 1].canStop && !GivesUp(connections, trace, maxRetries))
  }

  /**
   The connections that are served in a whole run: all of them, or those up to the first after which the migration is
   over, or after which the streamer gives up.
   */
  ghost predicate IsCourse<R>(log: Log<R>, start: Cursor, connections: seq<Connection>, maxRetries: int,
                              trace: seq<Visit>)
    requires ValidLog(log)
  {
    && |trace| <= |connections|
    && if trace == [] then connections == []
       else
         && GoesOn(log, start, connections, maxRetries, trace[..|trace| - 1]) && Continues(log, start, connections, trace)
         && (|trace| == |connections| || connections[|trace| - 1].canStop || GivesUp(connections, trace, maxRetries))
  }

  /** A run ends with an error exactly if the streamer has given up. */
  predicate Fails(connections: seq<Connection>, maxRetries: int, trace: seq<Visit>)
    requires |trace| <= |connections|
  {
    trace != [] && GivesUp(connections, trace, maxRetries)
  }

  lemma {:induction false} VisitExtends<R>(log: Log<R>, visit: Visit, connection: Connection)
    requires ValidLog(log) && IsVisit(log, visit, connection)
    ensures Extends(visit.before, visit.after) && visit.to.Valid(log) && visit.from.k <= visit.to.k
    ensures KnownDelivered(log, visit.from, Received(log, visit.from, connection), visit.after)
  {
    ReadsMeaning(log, visit.from, Received(log, visit.from, connection), visit.before);
  }

  /** What a visit has received has been delivered. */
  ghost predicate VisitDelivered<R>(log: Log<R>, visit: Visit, connection: Connection, p: Progress)
    requires ValidLog(log)
  {
    visit.from.Valid(log) && KnownDelivered(log, visit.from, Received(log, visit.from, connection), p)
  }

  lemma VisitStaysDelivered<R>(log: Log<R>, visit: Visit, connection: Connection, p: Progress, q: Progress)
    requires ValidLog(log) && VisitDelivered(log, visit, connection, p) && Extends(p, q)
    ensures VisitDelivered(log, visit, connection, q)
  {
    DeliveredStays(log, visit.from, Received(log, visit.from, connection), p, q);
  }

  /** The last connection delivers what it receives. */
  lemma LastDelivers<R>(log: Log<R>, start: Cursor, connections: seq<Connection>, trace: seq<Visit>)
    requires ValidLog(log) && 0 < |trace| <= |connections| && Continues(log, start, connections, trace)
    ensures VisitDelivered(log, trace[|trace| - 1], connections[|trace| - 1], OutcomeOf(trace))
  {
    VisitExtends(log, trace[|trace| - 1], connections[|trace| - 1]);
  }

  lemma LastExtends<R>(log: Log<R>, start: Cursor, connections: seq<Connection>, trace: seq<Visit>)
    requires ValidLog(log) && 0 < |trace| <= |connections| && Continues(log, start, connections, trace)
    ensures Extends(OutcomeOf(trace[..|trace| - 1]), OutcomeOf(trace))
  {
    VisitExtends(log, trace[|trace| - 1], connections[|trace| - 1]);
  }

  /** And it keeps what an earlier one has delivered. */
  lemma EarlierStays<R>(log: Log<R>, start: Cursor, connections: seq<Connection>, trace: seq<Visit>, visit: Visit,
                        connection: Connection)
    requires ValidLog(log) && 0 < |trace| <= |connections| && Continues(log, start, connections, trace)
    requires VisitDelivered(log, visit, connection, OutcomeOf(trace[..|trace| - 1]))
    ensures VisitDelivered(log, visit, connection, OutcomeOf(trace))
  {
    LastExtends(log, start, connections, trace);
    VisitStaysDelivered(log, visit, connection, OutcomeOf(trace[..|trace| - 1]), OutcomeOf(trace));
  }

  lemma {:induction false} VisitsDeliver<R>(log: Log<R>, start: Cursor, connections: seq<Connection>, maxRetries: int,
                                            trace: seq<Visit>, j: nat)
    requires ValidLog(log) && GoesOn(log, start, connections, maxRetries, trace) && j < |trace|
    ensures VisitDelivered(log, trace[j], connections[j], OutcomeOf(trace))
    decreases |trace|
  {
    if j < |trace| - 1 {
      VisitsDeliver(log, start, connections, maxRetries, trace[..|trace| - 1], j);
      EarlierStays(log, start, connections, trace, trace[j], connections[j]);
    } else {
      LastDelivers(log, start, connections, trace);
    }
  }

  /**
   Nothing that was received is lost: of every connection that is served, each rows event of a known type that comes
   before one of an unknown type has been delivered by the end.
   */
  lemma CourseDelivers<R>(log: Log<R>, start: Cursor, connections: seq<Connection>, maxRetries: int, trace: seq<Visit>,
                          j: nat)
    requires ValidLog(log) && IsCourse(log, start, connections, maxRetries, trace) && j < |trace|
    ensures VisitDelivered(log, trace[j], connections[j], OutcomeOf(trace))
  {
    if j < |trace| - 1 {
      VisitsDeliver(log, start, connections, maxRetries, trace[..|trace| - 1], j);
      EarlierStays(log, start, connections, trace, trace[j], connections[j]);
    } else {
      LastDelivers(log, start, connections, trace);
    }
  }

  /** After none of these connections is the migration over, is a server out of reach, or have too many failed. */
  lemma {:induction false} NoneIsTheLast<R>(log: Log<R>, start: Cursor, connections: seq<Connection>, maxRetries: int,
                                            trace: seq<Visit>, j: nat)
    requires ValidLog(log) && GoesOn(log, start, connections, maxRetries, trace) && j < |trace|
    ensures !connections[j].canStop && connections[j].reachable && Failures(trace[..j + 1]) <= maxRetries
    decreases |trace|
  {
    var init := trace[..|trace| - 1];
    if j < |init| {
      NoneIsTheLast(log, start, connections, maxRetries, init, j);
      assert init[..j + 1] == trace[..j + 1];
    } else {
      assert trace[..j + 1] == trace;
    }
  }

  /** How the run ends: `trace` holds the first connection that ends it, or else all of them, and no more. */
  lemma {:induction false} CourseEnds<R>(log: Log<R>, start: Cursor, connections: seq<Connection>, maxRetries: int,
                                         trace: seq<Visit>)
    requires ValidLog(log) && IsCourse(log, start, connections, maxRetries, trace)
    ensures forall j :: 0 <= j < |trace| - 1 ==>
              !connections[j].canStop && connections[j].reachable && Failures(trace[..j + 1]) <= maxRetries
    ensures |trace| < |connections| ==>
              var n := |trace| - 1;
              n >= 0 && (connections[n].canStop || !connections[n].reachable || Failures(trace) > maxRetries)
    ensures Fails(connections, maxRetries, trace) <==>
              var n := |trace| - 1;
              n >= 0 && !connections[n].canStop && (!connections[n].reachable || Failures(trace) > maxRetries)
  {
    forall j | 0 <= j < |trace| - 1
      ensures !connections[j].canStop && connections[j].reachable && Failures(trace[..j + 1]) <= maxRetries
    {
      NoneIsTheLast(log, start, connections, maxRetries, trace[..|trace| - 1], j);
      assert trace[..|trace| - 1][..j + 1] == trace[..j + 1];
    }
  }

  class EventsStreamer<R> {
    var binlogReader: GoMySQLReader<R>
    const eventsChannel: EntriesChannel<R>
    const maxRetries: int

    constructor (binlogReader: GoMySQLReader<R>, eventsChannel: EntriesChannel<R>, maxRetries: int)
      ensures this.binlogReader == binlogReader && this.eventsChannel == eventsChannel && this.maxRetries == maxRetries
    {
      this.binlogReader, this.eventsChannel, this.maxRetries := binlogReader, eventsChannel, maxRetries;
    }

    function GetReconnectBinlogCoordinates(): BinlogCoordinates
      reads this, binlogReader
    {
      BinlogCoordinates(binlogReader.currentCoordinates.logFile, FirstPosition, BinaryLog)
    }

    method InitBinlogReader(coordinates: BinlogCoordinates, reachable: bool) returns (ok: bool)
      modifies this`binlogReader
      ensures !ok ==> binlogReader == old(binlogReader)
      ensures ok ==> fresh(binlogReader) && binlogReader.currentCoordinates == coordinates
                     && binlogReader.lastAppliedRowsEventHint == NoCoordinates
      ensures ok <==> coordinates.logFile != "" && reachable
    {
      var goMySQLReader := new GoMySQLReader<R>();
      ok := goMySQLReader.ConnectBinlogStreamer(coordinates, reachable);
      if ok {
        binlogReader := goMySQLReader;
      }
    }

    /** The invariant between connections: the reader is connected at the place `c`. */
    ghost predicate Streaming(log: Log<R>, c: Cursor, p: Progress)
      reads this, binlogReader, eventsChannel
    {
      && InStep(log, c, p, binlogReader.currentCoordinates, binlogReader.lastAppliedRowsEventHint, eventsChannel.sent)
      && ServerSends(log, binlogReader.currentCoordinates) == c.Rest(log)
    }

    /** Streams over a new connection to the start of the current file, keeping the hint. */
    method Reconnect(log: Log<R>, hint: BinlogCoordinates, reachable: bool, ghost c: Cursor, ghost p: Progress)
      returns (ok: bool)
      requires ValidLog(log) && hint == binlogReader.lastAppliedRowsEventHint
      requires InStep(log, c, p, binlogReader.currentCoordinates, hint, eventsChannel.sent)
      modifies this`binlogReader
      ensures ok ==> fresh(binlogReader) && Streaming(log, Cursor(c.k, 0, false), p)
      ensures !ok ==> binlogReader == old(binlogReader)
      ensures binlogReader.lastAppliedRowsEventHint == hint && (ok <==> reachable)
    {
      assert ValidFile(log[c.k]);
      var coordinates := GetReconnectBinlogCoordinates();
      ok := InitBinlogReader(coordinates, reachable);
      if ok {
        binlogReader.lastAppliedRowsEventHint := hint;
        FileIndexOf(log, c.k);
        ConnectAtStart(log, c.k);
        FirstIndexAtMost(log, c);
      }
    }

    /** Streams over the present connection until it fails or the migration is over. */
    method ServeConnection(log: Log<R>, connection: Connection, ghost c: Cursor, ghost p: Progress)
      returns (ok: bool, ghost visit: Visit)
      requires ValidLog(log) && c.Valid(log) && Streaming(log, c, p)
      modifies binlogReader, eventsChannel
      ensures InStep(log, visit.to, visit.after, binlogReader.currentCoordinates, binlogReader.lastAppliedRowsEventHint,
                     eventsChannel.sent)
      ensures IsVisit(log, visit, connection) && visit.from == c && visit.before == p
      ensures ok ==> connection.canStop
    {
      var stream := ServerSends(log, binlogReader.currentCoordinates);
      var received := if connection.delivers < |stream| then stream[..connection.delivers] else stream;
      ghost var r := Reads(log, c, received, p);
      visit := Visit(c, p, r.0, r.1);
      ok := binlogReader.StreamEvents(log, received, connection.canStop, eventsChannel, c, p);
    }

    /** After a failed connection: too many failures in a row are an error, and so is a server out of reach. */
    method Retry(log: Log<R>, reachable: bool, previousFailures: int, previousHint: BinlogCoordinates,
                 ghost c: Cursor, ghost p: Progress)
      returns (err: Option<string>, successiveFailures: int, lastAppliedRowsEventHint: BinlogCoordinates)
      requires ValidLog(log)
      requires InStep(log, c, p, binlogReader.currentCoordinates, binlogReader.lastAppliedRowsEventHint, eventsChannel.sent)
      modifies this`binlogReader
      ensures binlogReader.lastAppliedRowsEventHint == lastAppliedRowsEventHint == old(binlogReader.lastAppliedRowsEventHint)
      ensures successiveFailures == if lastAppliedRowsEventHint == previousHint then previousFailures + 1 else 0
      ensures err.None? <==> successiveFailures <= maxRetries && reachable
      ensures if err.None? then fresh(binlogReader) && Streaming(log, Cursor(c.k, 0, false), p)
              else binlogReader == old(binlogReader)
    {
      lastAppliedRowsEventHint := binlogReader.lastAppliedRowsEventHint;
      if binlogReader.lastAppliedRowsEventHint == previousHint {
        successiveFailures := previousFailures + 1;
      } else {
        successiveFailures := 0;
      }
      if successiveFailures > maxRetries {
        err := Some("successive failures");
        return;
      }
      var ok := Reconnect(log, lastAppliedRowsEventHint, reachable, c, p);
      err := if ok then None else Some("cannot reconnect");
    }

    /** One round of the loop below: it ends the run, or leaves a new connection. */
    method ServeAndRetry(log: Log<R>, connections: seq<Connection>, i: nat, previousFailures: int,
                         previousHint: BinlogCoordinates,
                         ghost start: Cursor, ghost trace: seq<Visit>)
      returns (done: bool, err: Option<string>, successiveFailures: int, lastAppliedRowsEventHint: BinlogCoordinates,
               ghost longer: seq<Visit>)
      requires ValidLog(log) && i == |trace| < |connections| && GoesOn(log, start, connections, maxRetries, trace)
      requires binlogReader.lastAppliedRowsEventHint == previousHint && previousFailures == Failures(trace)
      requires Streaming(log, NextFrom(start, trace), OutcomeOf(trace))
      modifies this`binlogReader, binlogReader, eventsChannel
      ensures binlogReader == old(binlogReader) || fresh(binlogReader)
      ensures |longer| == i + 1
      ensures Delivered(AllRows(log), OutcomeOf(longer), binlogReader.lastAppliedRowsEventHint, eventsChannel.sent)
      ensures
        if done then
          IsCourse(log, start, connections, maxRetries, longer) && (err.Some? <==> Fails(connections, maxRetries, longer))
        else
          && GoesOn(log, start, connections, maxRetries, longer) && Streaming(log, NextFrom(start, longer), OutcomeOf(longer))
          && binlogReader.lastAppliedRowsEventHint == lastAppliedRowsEventHint && successiveFailures == Failures(longer)
          && err.None?
    {
      var connection := connections[i];
      err, successiveFailures, lastAppliedRowsEventHint := None, previousFailures, previousHint;
      ghost var sent := eventsChannel.sent;
      var ok;
      ghost var visit;
      ok, visit := ServeConnection(log, connection, NextFrom(start, trace), OutcomeOf(trace));
      longer := trace + [visit];
      HintMoves(log, visit, connection, previousHint, sent, binlogReader.lastAppliedRowsEventHint, eventsChannel.sent);
      OneMoreVisit(log, start, connections, maxRetries, trace, visit);
      done := ok || connection.canStop;
      if !done {
        err, successiveFailures, lastAppliedRowsEventHint :=
          Retry(log, connection.reachable, successiveFailures, lastAppliedRowsEventHint, visit.to, visit.after);
        done := err.Some?;
      }
    }

    /**
     The whole of it. However the connections fail, `trace` are those that are served, and what has entered the
     channel are the rows events that they have delivered, each row once and in order. An error is returned exactly if
     the streamer has given up.
     */
    method StreamEvents(log: Log<R>, connections: seq<Connection>, ghost start: Cursor)
      returns (err: Option<string>, ghost trace: seq<Visit>)
      requires ValidLog(log) && binlogReader.lastAppliedRowsEventHint == NoCoordinates && eventsChannel.sent == []
      requires Streaming(log, start, Nothing)
      modifies this`binlogReader, binlogReader, eventsChannel
      ensures IsCourse(log, start, connections, maxRetries, trace)
      ensures Delivered(AllRows(log), OutcomeOf(trace), binlogReader.lastAppliedRowsEventHint, eventsChannel.sent)
      ensures err.Some? <==> Fails(connections, maxRetries, trace)
    {
      trace, err := [], None;
      var successiveFailures, lastAppliedRowsEventHint := 0, NoCoordinates;
      var i := 0;
      while i < |connections|
        invariant 0 <= i == |trace| <= |connections| && err.None?
        invariant GoesOn(log, start, connections, maxRetries, trace) && successiveFailures == Failures(trace)
        invariant Streaming(log, NextFrom(start, trace), OutcomeOf(trace))
        invariant binlogReader == old(binlogReader) || fresh(binlogReader)
        invariant binlogReader.lastAppliedRowsEventHint == lastAppliedRowsEventHint
      {
        var done;
        done, err, successiveFailures, lastAppliedRowsEventHint, trace :=
          ServeAndRetry(log, connections, i, successiveFailures, lastAppliedRowsEventHint, start, trace);
        if done {
          return;
        }
        i := i + 1;
      }
      AllServed(log, start, connections, maxRetries, trace);
    }
  }

  /** The hint has moved exactly if something new was delivered. */
  lemma {:induction false} HintMoves<R>(log: Log<R>, visit: Visit, connection: Connection, hint: BinlogCoordinates,
                                        sent: seq<BinlogEntry<R>>, hint': BinlogCoordinates,
                                        sent': seq<BinlogEntry<R>>)
    requires ValidLog(log) && IsVisit(log, visit, connection)
    requires Delivered(AllRows(log), visit.before, hint, sent) && Delivered(AllRows(log), visit.after, hint', sent')
    ensures hint' == hint <==> visit.after == visit.before
  {
    VisitExtends(log, visit, connection);
    ProgressMovesHint(log, visit.before, visit.after, hint, sent, hint', sent');
  }

  lemma {:induction false} ProgressMovesHint<R>(log: Log<R>, p: Progress, q: Progress, hint: BinlogCoordinates,
                                                sent: seq<BinlogEntry<R>>, hint': BinlogCoordinates,
                                                sent': seq<BinlogEntry<R>>)
    requires ValidLog(log) && Extends(p, q)
    requires Delivered(AllRows(log), p, hint, sent) && Delivered(AllRows(log), q, hint', sent')
    ensures hint' == hint <==> q == p
  {
    if p.Nothing? {
      if q.Stretch? {
        RowsAreNamed(log, q.b - 1);
      }
    } else if p.b < q.b {
      DistinctRows(log, p.b - 1, q.b - 1);
    } else {
      assert q == p;
    }
  }

  lemma {:induction false} DistinctRows<R>(log: Log<R>, i: nat, j: nat)
    requires ValidLog(log) && i < j < |AllRows(log)|
    ensures AllRows(log)[i].coordinates != AllRows(log)[j].coordinates
  {
    var x := AllRows(log)[i].coordinates;
    RowsIncrease(log, i, j);
    SmallerThanIsTotalOrder(x, x, x);
  }

  lemma {:induction false} OneMoreVisit<R>(log: Log<R>, start: Cursor, connections: seq<Connection>, maxRetries: int,
                                           trace: seq<Visit>, visit: Visit)
    requires ValidLog(log) && |trace| < |connections| && GoesOn(log, start, connections, maxRetries, trace)
    requires IsVisit(log, visit, connections[|trace|])
    requires visit.from == NextFrom(start, trace) && visit.before == OutcomeOf(trace)
    ensures
      var longer, n := trace + [visit], |trace|;
      && Failures(longer) == (if visit.after == visit.before then Failures(trace) + 1 else 0)
      && (Fails(connections, maxRetries, longer)
          <==> !connections[n].canStop && (Failures(longer) > maxRetries || !connections[n].reachable))
      && if connections[n].canStop || Fails(connections, maxRetries, longer) then
           IsCourse(log, start, connections, maxRetries, longer)
         else GoesOn(log, start, connections, maxRetries, longer)
  {
    var longer, n := trace + [visit], |trace|;
    assert longer[..n] == trace;
    assert Continues(log, start, connections, longer);
  }

  lemma {:induction false} AllServed<R>(log: Log<R>, start: Cursor, connections: seq<Connection>, maxRetries: int,
                                        trace: seq<Visit>)
    requires ValidLog(log) && GoesOn(log, start, connections, maxRetries, trace) && |trace| == |connections|
    ensures IsCourse(log, start, connections, maxRetries, trace) && !Fails(connections, maxRetries, trace)
  {
  }

  // ---- Where delivery begins ----

  /** The next connection begins where the streamer was started, or at the start of that file or a later one. */
  lemma {:induction false} FilesFollow<R>(log: Log<R>, start: Cursor, connections: seq<Connection>, maxRetries: int,
                                          trace: seq<Visit>)
    requires ValidLog(log) && start.Valid(log) && GoesOn(log, start, connections, maxRetries, trace)
    ensures
      var c := NextFrom(start, trace);
      c.Valid(log) && start.k <= c.k && if trace == [] then c == start else c == Cursor(c.k, 0, false)
    decreases |trace|
  {
    if trace != [] {
      var n := |trace| - 1;
      FilesFollow(log, start, connections, maxRetries, trace[..n]);
      VisitExtends(log, trace[n], connections[n]);
    }
  }

  /** While nothing has been delivered, the first connection has delivered nothing. */
  lemma {:induction false} NothingYet<R>(log: Log<R>, start: Cursor, connections: seq<Connection>, maxRetries: int,
                                         trace: seq<Visit>)
    requires ValidLog(log) && start.Valid(log) && GoesOn(log, start, connections, maxRetries, trace)
    requires trace != [] && OutcomeOf(trace).Nothing?
    ensures !HandlesRows(Received(log, start, connections[0]))
    decreases |trace|
  {
    var n := |trace| - 1;
    VisitExtends(log, trace[n], connections[n]);
    if n > 0 {
      NothingYet(log, start, connections, maxRetries, trace[..n]);
    } else {
      ReadsFirst(log, start, Received(log, start, connections[0]));
    }
  }

  /**
   What is known of the connection that delivers first: it begins at the first rows event that is delivered, and it is
   the first connection of all exactly if that one handles a rows event.
   */
  ghost predicate BeginsAt<R>(log: Log<R>, start: Cursor, connections: seq<Connection>, from: Cursor, a: nat)
    requires ValidLog(log) && start.Valid(log) && connections != []
  {
    && from.Valid(log) && a == from.Index(log)
    && if HandlesRows(Received(log, start, connections[0])) then from == start
       else from == Cursor(from.k, 0, false) && start.k <= from.k
  }

  lemma DeliversFirst<R>(log: Log<R>, start: Cursor, connections: seq<Connection>, maxRetries: int, trace: seq<Visit>)
    requires ValidLog(log) && start.Valid(log) && 0 < |trace| <= |connections|
    requires GoesOn(log, start, connections, maxRetries, trace[..|trace| - 1]) && Continues(log, start, connections, trace)
    requires OutcomeOf(trace[..|trace| - 1]).Nothing? && OutcomeOf(trace).Stretch?
    ensures BeginsAt(log, start, connections, trace[|trace| - 1].from, OutcomeOf(trace).a)
  {
    var n := |trace| - 1;
    var received := Received(log, trace[n].from, connections[n]);
    ReadsMeaning(log, trace[n].from, received, trace[n].before);
    FilesFollow(log, start, connections, maxRetries, trace[..n]);
    if n > 0 {
      NothingYet(log, start, connections, maxRetries, trace[..n]);
    } else {
      ReadsFirst(log, start, received);
    }
  }

  lemma {:induction false} FirstDelivery<R>(log: Log<R>, start: Cursor, connections: seq<Connection>, maxRetries: int,
                                            trace: seq<Visit>) returns (j: nat)
    requires ValidLog(log) && start.Valid(log) && 0 < |trace| <= |connections|
    requires GoesOn(log, start, connections, maxRetries, trace[..|trace| - 1]) && Continues(log, start, connections, trace)
    requires OutcomeOf(trace).Stretch?
    ensures j < |trace| && BeginsAt(log, start, connections, trace[j].from, OutcomeOf(trace).a)
    decreases |trace|
  {
    var n := |trace| - 1;
    if trace[n].before.Nothing? {
      j := n;
      DeliversFirst(log, start, connections, maxRetries, trace);
    } else {
      VisitExtends(log, trace[n], connections[n]);
      j := FirstDelivery(log, start, connections, maxRetries, trace[..n]);
    }
  }

  /**
   Delivery begins at the place at which the streamer was started if the first connection handles a rows event, and
   otherwise at the start of a file, where the j-th connection begins. It begins too early, with rows events from before
   the start, exactly if no connection handled one until the streamer had connected anew to the file in which it was
   started, and rows events precede the start in that file.
   */
  lemma BeginsTooEarlyExactly<R>(log: Log<R>, start: Cursor, connections: seq<Connection>, maxRetries: int,
                                 trace: seq<Visit>)
    returns (j: nat)
    requires ValidLog(log) && start.Valid(log) && IsCourse(log, start, connections, maxRetries, trace)
    requires OutcomeOf(trace).Stretch?
    ensures j < |trace| && BeginsAt(log, start, connections, trace[j].from, OutcomeOf(trace).a)
    ensures OutcomeOf(trace).a < start.Index(log) <==>
              && !HandlesRows(Received(log, start, connections[0]))
              && trace[j].from.k == start.k && FirstIndex(log, start.k) < start.Index(log)
  {
    j := FirstDelivery(log, start, connections, maxRetries, trace);
    var from := trace[j].from;
    if start.k < from.k {
      PlacesFollow(log, start.k, start.n, from.k, from.n);
    }
  }

  /** A log of one file, with two rows events that end at the positions 10 and 20. */
  function TwoRows<R>(first: R, second: R): Log<R> {
    [LogFile("bin.000001", [Rows(10, RowsEvent(Some(InsertDML), [first])), Rows(20, RowsEvent(Some(InsertDML), [second]))], None)]
  }

  lemma TwoRowsIndex<R>(first: R, second: R)
    ensures var log := TwoRows(first, second);
      ValidLog(log) && |AllRows(log)| == 2 && RowIndex(log, 0, 0) == 0 && RowIndex(log, 0, 1) == 1
  {
    var log := TwoRows(first, second);
    RowAt(log, 0, 0);
    RowAt(log, 0, 1);
    AllRowsUpTo(log, 0, 2);
    assert log[..0] == [] && log[..1] == log;
    assert log[0].events[..0] == [] && log[0].events[..2] == log[0].events;
  }

  /**
   It does happen: a log file holds one rows event before the place at which the streamer is started and one behind
   it. The first connection fails at once, and the second delivers both.
   */
  lemma DeliveryCanBeginTooEarly<R>(first: R, second: R) returns (start: Cursor, connections: seq<Connection>,
                                    trace: seq<Visit>)
    ensures var log := TwoRows(first, second);
      && ValidLog(log) && start.Valid(log) && IsCourse(log, start, connections, 1, trace)
      && OutcomeOf(trace) == Stretch(0, 2) && start.Index(log) == 1
  {
    var log := TwoRows(first, second);
    TwoRowsIndex(first, second);
    start := Cursor(0, 1, false);
    connections := [Connection(0, false, true), Connection(3, false, true)];
    assert Received(log, start, connections[0]) == [];
    var rewound, visit0 := Cursor(0, 0, false), Visit(start, Nothing, start, Nothing);
    assert GoesOn(log, start, connections, 1, [visit0]) by {
      OneMoreVisit(log, start, connections, 1, [], visit0);
    }
    var visit1 := Visit(rewound, Nothing, Cursor(0, 2, true), Stretch(0, 2));
    ReadsBoth(first, second);
    OneMoreVisit(log, start, connections, 1, [visit0], visit1);
    trace := [visit0] + [visit1];
    if !Fails(connections, 1, trace) {
      AllServed(log, start, connections, 1, trace);
    }
  }

  lemma {:induction false} ReadsOne<R>(log: Log<R>, c: Cursor, ev: StreamEvent<R>, rest: seq<StreamEvent<R>>, p: Progress)
    requires ValidLog(log) && c.Valid(log) && [ev] + rest <= c.Rest(log) && !Refuses(p, c.Index(log), ev)
    ensures NextCursor(log, c).Valid(log) && rest <= NextCursor(log, c).Rest(log)
    ensures Reads(log, c, [ev] + rest, p) == Reads(log, NextCursor(log, c), rest, After(p, c.Index(log), ev))
  {
    Advance(log, c);
    assert ([ev] + rest)[1..] == rest;
  }

  /** A connection to the start of that log, and what it reads. */
  lemma ReadsBoth<R>(first: R, second: R)
    ensures var log, rewound := TwoRows(first, second), Cursor(0, 0, false);
      && ValidLog(log) && IsVisit(log, Visit(rewound, Nothing, Cursor(0, 2, true), Stretch(0, 2)), Connection(3, false, true))
  {
    var log := TwoRows(first, second);
    TwoRowsIndex(first, second);
    var c0 := Cursor(0, 0, false);
    var rotate, ev0, ev1 := Rotate(0, log[0].name), log[0].events[0], log[0].events[1];
    TailStep(log, 0, 0);
    TailStep(log, 0, 1);
    assert Tail(log, 0, 2) == [];
    assert c0.Rest(log) == [rotate] + ([ev0] + ([ev1] + []));
    assert Received(log, c0, Connection(3, false, true)) == c0.Rest(log);
    ReadsOne(log, c0, rotate, [ev0] + ([ev1] + []), Nothing);
    ReadsOne(log, Cursor(0, 0, true), ev0, [ev1] + [], Nothing);
    ReadsOne(log, Cursor(0, 1, true), ev1, [], Stretch(0, 1));
  }
}
