/**
 The event stream of a run (runservice.py and routers/runsapi.py): rows are committed to
 `run_events`, doorbells are rung after the commits, and a reader replays the rows past its
 cursor. Commits, doorbells, settling and the reader's steps interleave freely.

 Sequences are allocated inside the committing transaction, so a run's rows appear in
 increasing order; nothing else is assumed of the writers.
 */
module EventStream {
  import opened Wrappers

  // ---------------------------------------------------------------- the fan-out

  type Uid = int
  type Subscriber = int

  lemma KeylessIsEmpty(slots: map<Subscriber, bool>)
    ensures slots.Keys == {} ==> slots == map[]
  {
  }

  /** `_Fanout`: one slot per subscriber, which holds a token or nothing. */
  class Fanout {
    var subscribers: map<Uid, map<Subscriber, bool>>

    constructor ()
      ensures subscribers == map[]
    {
      subscribers := map[];
    }

    predicate Pending(uid: Uid, q: Subscriber)
      reads this
    {
      uid in subscribers && q in subscribers[uid] && subscribers[uid][q]
    }

    predicate Subscribed(uid: Uid, q: Subscriber)
      reads this
    {
      uid in subscribers && q in subscribers[uid]
    }

    /** No run is kept without a subscriber. */
    predicate NoEmptyRuns()
      reads this
    {
      forall uid :: uid in subscribers ==> subscribers[uid] != map[]
    }

    method Subscribe(uid: Uid, q: Subscriber)
      requires NoEmptyRuns() && !Subscribed(uid, q)
      modifies this
      ensures NoEmptyRuns()
      ensures forall u, p :: Subscribed(u, p) <==> old(Subscribed(u, p)) || (u == uid && p == q)
      ensures forall u, p :: Pending(u, p) <==> old(Pending(u, p))
    {
      var slots := if uid in subscribers then subscribers[uid] else map[];
      assert q in slots[q := false];
      subscribers := subscribers[uid := slots[q := false]];
    }

    method Unsubscribe(uid: Uid, q: Subscriber)
      requires NoEmptyRuns()
      modifies this
      ensures NoEmptyRuns()
      ensures forall u, p :: Subscribed(u, p) <==> old(Subscribed(u, p)) && !(u == uid && p == q)
      ensures forall u, p :: Pending(u, p) <==> old(Pending(u, p)) && !(u == uid && p == q)
    {
      if uid !in subscribers {
        return;
      }
      var left := subscribers[uid] - {q};
      if left == map[] {
        assert forall p :: p in subscribers[uid] ==> p == q || p in left;
        subscribers := subscribers - {uid};
      } else {
        subscribers := subscribers[uid := left];
      }
    }

    /** Every subscriber of this run holds a token afterwards, and no one else is touched. */
    method Publish(uid: Uid)
      requires NoEmptyRuns()
      modifies this
      ensures NoEmptyRuns()
      ensures forall u, p :: Subscribed(u, p) <==> old(Subscribed(u, p))
      ensures forall u, p :: Pending(u, p) <==> old(Pending(u, p)) || (u == uid && old(Subscribed(u, p)))
    {
      if uid in subscribers {
        var rung := map q | q in subscribers[uid] :: true;
        assert rung.Keys == subscribers[uid].Keys;
        KeylessIsEmpty(subscribers[uid]);
        subscribers := subscribers[uid := rung];
      }
    }

    /** The reader takes its token. */
    method Take(uid: Uid, q: Subscriber) returns (taken: bool)
      requires NoEmptyRuns()
      modifies this
      ensures NoEmptyRuns() && taken == old(Pending(uid, q))
      ensures forall u, p :: Subscribed(u, p) <==> old(Subscribed(u, p))
      ensures forall u, p :: Pending(u, p) <==> old(Pending(u, p)) && !(u == uid && p == q)
    {
      taken := Pending(uid, q);
      if taken {
        assert q in subscribers[uid][q := false];
        subscribers := subscribers[uid := subscribers[uid][q := false]];
      }
    }
  }

  // ------------------------------------------------------------------- the rows

  datatype Row = Row(sequence: int, settles: bool)

  ghost predicate Increasing(rows: seq<Row>) {
    forall i, j :: 0 <= i < j < |rows| ==> rows[i].sequence < rows[j].sequence
  }

  /** How many rows have a sequence up to `cursor`. */
  function UpTo(rows: seq<Row>, cursor: int): (n: nat)
    ensures n <= |rows|
  {
    if rows == [] then 0
    else if rows[|rows| - 1].sequence <= cursor then |rows|
    else UpTo(rows[..|rows| - 1], cursor)
  }

  /** `events_after_sync`: the first `limit` rows past the cursor. */
  function Page(rows: seq<Row>, cursor: int, limit: nat): seq<Row> {
    var from := UpTo(rows, cursor);
    rows[from..if from + limit < |rows| then from + limit else |rows|]
  }

  lemma {:induction false} UpToSplits(rows: seq<Row>, cursor: int)
    requires Increasing(rows)
    ensures forall i :: 0 <= i < |rows| ==> (rows[i].sequence <= cursor <==> i < UpTo(rows, cursor))
  {
    if rows != [] && rows[|rows| - 1].sequence > cursor {
      UpToSplits(rows[..|rows| - 1], cursor);
    }
  }

  lemma {:induction false} UpToIs(rows: seq<Row>, cursor: int, n: nat)
    requires n <= |rows|
    requires forall i :: 0 <= i < n ==> rows[i].sequence <= cursor
    requires forall i :: n <= i < |rows| ==> rows[i].sequence > cursor
    ensures UpTo(rows, cursor) == n
  {
    if rows != [] && rows[|rows| - 1].sequence > cursor {
      UpToIs(rows[..|rows| - 1], cursor, n);
    }
  }

  /** What a reader that started at `start` and has come to `cursor` should have received. */
  function Between(rows: seq<Row>, start: int, cursor: int): seq<Row>
    requires start <= cursor
    requires UpTo(rows, start) <= UpTo(rows, cursor)
  {
    rows[UpTo(rows, start)..UpTo(rows, cursor)]
  }

  lemma {:induction false} UpToMonotone(rows: seq<Row>, a: int, b: int)
    requires a <= b
    ensures UpTo(rows, a) <= UpTo(rows, b)
  {
    if rows != [] && rows[|rows| - 1].sequence > b {
      UpToMonotone(rows[..|rows| - 1], a, b);
    }
  }

  // ------------------------------------------------------------------- the stream

  datatype Reader =
    | Outside
    | Top
    | Reading(active: bool)
    | Delivering(page: seq<Row>, full: bool, active: bool)
    | Parked
    | ClosedQuiet
    | ClosedSettled

  /**
   `announced` counts the rows committed when a doorbell last rang; `seen` the rows committed
   at the reader's last read; `settledAt` the rows committed when the run left the active table.
   */
  datatype Stream = Stream(
    rows: seq<Row>, announced: nat, settledAt: Option<nat>,
    reader: Reader, start: int, cursor: int, token: bool, delivered: seq<Row>, seen: nat)

  datatype Event =
    | Commit(row: Row)
    | Ring
    | Settle
    | Subscribe
    | Sample
    | Read
    | Deliver
    | EndPage
    | Wake
    | Heartbeat

  function Open(start: int): Stream {
    Stream([], 0, None, Outside, start, start, false, [], 0)
  }

  predicate Listening(r: Reader) {
    !r.Outside? && !r.ClosedQuiet? && !r.ClosedSettled?
  }

  /** The end of a page, when every row of it is out. */
  function PageEnds(s: Stream): Stream
    requires s.reader.Delivering?
  {
    s.(reader := if s.reader.full then Top else if !s.reader.active then ClosedQuiet else Parked)
  }

  function Step(s: Stream, e: Event, limit: nat): Option<Stream> {
    match e
    case Commit(row) =>
      if s.rows != [] && row.sequence <= s.rows[|s.rows| - 1].sequence then None
      else Some(s.(rows := s.rows + [row]))
    case Ring => Some(s.(announced := |s.rows|, token := s.token || Listening(s.reader)))
    case Settle =>
      if s.settledAt.Some? then None
      else Some(s.(settledAt := Some(|s.rows|), announced := |s.rows|, token := s.token || Listening(s.reader)))
    case Subscribe => if s.reader.Outside? then Some(s.(reader := Top, token := false)) else None
    case Sample => if s.reader.Top? then Some(s.(reader := Reading(s.settledAt.None?))) else None
    case Read =>
      if !s.reader.Reading? then None
      else
        var page := Page(s.rows, s.cursor, limit);
        Some(s.(reader := Delivering(page, |page| >= limit, s.reader.active), seen := |s.rows|))
    case Deliver =>
      if !s.reader.Delivering? || s.reader.page == [] then None
      else
        var row := s.reader.page[0];
        Some(s.(
          cursor := row.sequence,
          delivered := s.delivered + [row],
          reader := if row.settles then ClosedSettled else s.reader.(page := s.reader.page[1..])))
    case EndPage =>
      if s.reader.Delivering? && s.reader.page == [] then Some(PageEnds(s)) else None
    case Wake => if s.reader.Parked? && s.token then Some(s.(reader := Top, token := false)) else None
    case Heartbeat => if s.reader.Parked? then Some(s.(reader := Top)) else None
  }

  function Exec(s: Stream, es: seq<Event>, limit: nat): Option<Stream> {
    if es == [] then Some(s)
    else
      var before := Exec(s, es[..|es| - 1], limit);
      if before.None? then None else Step(before.value, es[|es| - 1], limit)
  }

  // ------------------------------------------------------------------ invariants

  /** Exactly the rows from the start to the cursor are out, each once and in order. */
  ghost predicate InOrder(s: Stream) {
    && Increasing(s.rows)
    && s.start <= s.cursor
    && UpTo(s.rows, s.start) <= UpTo(s.rows, s.cursor)
    && s.delivered == Between(s.rows, s.start, s.cursor)
    && (s.cursor == s.start || (s.rows != [] && s.cursor <= s.rows[|s.rows| - 1].sequence))
  }

  /** The page in hand continues right after the cursor, up to what the last read saw. */
  ghost predicate PageFits(s: Stream) {
    && s.seen <= |s.rows|
    && (s.reader.Delivering? ==>
          var k := UpTo(s.rows[..s.seen], s.cursor);
          && k + |s.reader.page| <= s.seen
          && s.reader.page == s.rows[k..k + |s.reader.page|]
          && (!s.reader.full ==> k + |s.reader.page| == s.seen))
    && (s.reader.Parked? || s.reader.ClosedQuiet? ==> UpTo(s.rows[..s.seen], s.cursor) == s.seen)
  }

  /** Without a token in its slot, the reader's last read came after the last doorbell. */
  ghost predicate NoLostBell(s: Stream) {
    && s.announced <= |s.rows|
    && (s.reader.Delivering? || s.reader.Parked? ==> s.token || s.announced <= s.seen)
  }

  /** A run sampled as settled was settled before the read that followed. */
  ghost predicate SampledFirst(s: Stream) {
    && (s.settledAt.Some? ==> s.settledAt.value <= |s.rows|)
    && (s.reader.Reading? && !s.reader.active ==> s.settledAt.Some?)
    && ((s.reader.Delivering? && !s.reader.active) || s.reader.ClosedQuiet? ==>
          s.settledAt.Some? && s.settledAt.value <= s.seen)
  }

  ghost predicate StreamOk(s: Stream) {
    InOrder(s) && PageFits(s) && NoLostBell(s) && SampledFirst(s)
  }

  lemma AppendKeepsIndex(rows: seq<Row>, row: Row, cursor: int)
    requires Increasing(rows)
    requires rows != [] ==> row.sequence > rows[|rows| - 1].sequence
    ensures Increasing(rows + [row])
    ensures row.sequence > cursor ==> UpTo(rows + [row], cursor) == UpTo(rows, cursor)
    ensures row.sequence <= cursor ==> UpTo(rows + [row], cursor) == |rows| + 1
  {
    assert (rows + [row])[..|rows|] == rows;
  }

  lemma CommitKeeps(s: Stream, row: Row, limit: nat)
    requires StreamOk(s) && Step(s, Commit(row), limit).Some?
    ensures StreamOk(Step(s, Commit(row), limit).value)
  {
    var n := s.(rows := s.rows + [row]);
    CommitInOrder(s, row);
    assert PageFits(n) by {
      hide UpTo;
      assert n.rows[..s.seen] == s.rows[..s.seen];
    }
    hide UpTo;
    hide InOrder;
    hide PageFits;
  }

  lemma CommitInOrder(s: Stream, row: Row)
    requires InOrder(s) && (s.rows != [] ==> row.sequence > s.rows[|s.rows| - 1].sequence)
    ensures InOrder(s.(rows := s.rows + [row]))
  {
    AppendKeepsIndex(s.rows, row, s.start);
    AppendKeepsIndex(s.rows, row, s.cursor);
    hide UpTo;
  }

  /** The page's first row is the one right after the cursor. */
  lemma NextRow(s: Stream)
    requires InOrder(s) && PageFits(s) && s.reader.Delivering? && s.reader.page != []
    ensures var k := UpTo(s.rows, s.cursor);
            && k < s.seen && s.reader.page[0] == s.rows[k]
            && UpTo(s.rows[..s.seen], s.cursor) == k
            && s.cursor < s.rows[k].sequence
            && UpTo(s.rows, s.rows[k].sequence) == k + 1
            && UpTo(s.rows[..s.seen], s.rows[k].sequence) == k + 1
  {
    var seen := s.rows[..s.seen];
    var k := UpTo(seen, s.cursor);
    UpToSplits(seen, s.cursor);
    hide UpTo;
    assert seen[k] == s.rows[k];
    forall i | 0 <= i < |s.rows| ensures s.rows[i].sequence <= s.cursor <==> i < k {
      if i < s.seen {
        assert seen[i] == s.rows[i];
      }
    }
    UpToIs(s.rows, s.cursor, k);
    UpToIs(s.rows, s.rows[k].sequence, k + 1);
    UpToIs(seen, s.rows[k].sequence, k + 1);
  }

  /** Delivering the page's first row moves the cursor by exactly that row. */
  lemma DeliverInOrder(s: Stream, limit: nat)
    requires InOrder(s) && PageFits(s) && Step(s, Deliver, limit).Some?
    ensures InOrder(Step(s, Deliver, limit).value)
  {
    NextRow(s);
    hide UpTo;
    hide PageFits;
    var from, k := UpTo(s.rows, s.start), UpTo(s.rows, s.cursor);
    assert s.rows[from..k + 1] == s.rows[from..k] + [s.rows[k]];
  }

  lemma DeliverPageFits(s: Stream, limit: nat)
    requires InOrder(s) && PageFits(s) && Step(s, Deliver, limit).Some?
    ensures PageFits(Step(s, Deliver, limit).value)
  {
    NextRow(s);
    hide UpTo;
    hide InOrder;
    var k := UpTo(s.rows, s.cursor);
    assert s.reader.page[1..] == s.rows[k + 1..k + |s.reader.page|];
  }

  lemma DeliverKeeps(s: Stream, limit: nat)
    requires StreamOk(s) && Step(s, Deliver, limit).Some?
    ensures StreamOk(Step(s, Deliver, limit).value)
  {
    DeliverInOrder(s, limit);
    DeliverPageFits(s, limit);
    hide InOrder;
    hide PageFits;
  }

  lemma ReadKeeps(s: Stream, limit: nat)
    requires StreamOk(s) && Step(s, Read, limit).Some?
    ensures StreamOk(Step(s, Read, limit).value)
  {
    assert s.rows[..|s.rows|] == s.rows;
  }

  lemma OthersKeep(s: Stream, e: Event, limit: nat)
    requires StreamOk(s) && Step(s, e, limit).Some?
    requires !e.Commit? && !e.Deliver? && !e.Read?
    ensures StreamOk(Step(s, e, limit).value)
  {
    hide UpTo, Increasing, Between;
  }

  lemma {:induction false} EveryInterleaving(start: int, es: seq<Event>, limit: nat)
    requires Exec(Open(start), es, limit).Some?
    ensures StreamOk(Exec(Open(start), es, limit).value)
    ensures Exec(Open(start), es, limit).value.start == start
  {
    if es != [] {
      EveryInterleaving(start, es[..|es| - 1], limit);
      var s, e := Exec(Open(start), es[..|es| - 1], limit).value, es[|es| - 1];
      StartStays(s, e, limit);
      hide Step;
      hide StreamOk;
      match e
      case Commit(row) => CommitKeeps(s, row, limit);
      case Deliver => DeliverKeeps(s, limit);
      case Read => ReadKeeps(s, limit);
      case _ => OthersKeep(s, e, limit);
    }
  }

  lemma StartStays(s: Stream, e: Event, limit: nat)
    requires Step(s, e, limit).Some?
    ensures Step(s, e, limit).value.start == s.start
  {
  }

  // -------------------------------------------------------------------- theorems

  /** No gap and no duplicate: what is out is exactly the rows past the start, in order. */
  lemma DeliveredExactlyOnce(start: int, es: seq<Event>, limit: nat)
    requires Exec(Open(start), es, limit).Some?
    ensures var s := Exec(Open(start), es, limit).value;
            && Increasing(s.rows)
            && start <= s.cursor
            && UpTo(s.rows, start) <= UpTo(s.rows, s.cursor)
            && s.delivered == s.rows[UpTo(s.rows, start)..UpTo(s.rows, s.cursor)]
  {
    EveryInterleaving(start, es, limit);
  }

  /** A parked reader with no token has received every row a doorbell has rung for. */
  lemma NeverParkedOnARungRow(start: int, es: seq<Event>, limit: nat, i: nat)
    requires Exec(Open(start), es, limit).Some?
    requires var s := Exec(Open(start), es, limit).value;
             s.reader.Parked? && !s.token && i < s.announced && s.announced <= |s.rows|
             && s.rows[i].sequence > start
    ensures Exec(Open(start), es, limit).value.rows[i] in Exec(Open(start), es, limit).value.delivered
  {
    EveryInterleaving(start, es, limit);
    var s := Exec(Open(start), es, limit).value;
    hide Exec;
    SeenIsDelivered(s, i);
  }

  lemma SeenIsDelivered(s: Stream, i: nat)
    requires StreamOk(s) && (s.reader.Parked? || s.reader.ClosedQuiet?) && i < s.seen
    requires s.rows[i].sequence > s.start
    ensures s.rows[i] in s.delivered
  {
    var seen := s.rows[..s.seen];
    UpToSplits(seen, s.cursor);
    UpToSplits(s.rows, s.cursor);
    UpToSplits(s.rows, s.start);
    assert seen[i] == s.rows[i];
    var a := UpTo(s.rows, s.start);
    assert a <= i < UpTo(s.rows, s.cursor);
    assert s.delivered[i - a] == s.rows[i];
  }

  /** A stream that closes because the run is over has delivered every row it left behind. */
  lemma CleanClose(start: int, es: seq<Event>, limit: nat, i: nat)
    requires Exec(Open(start), es, limit).Some?
    requires var s := Exec(Open(start), es, limit).value;
             s.reader.ClosedQuiet? && s.settledAt.Some? && i < s.settledAt.value && i < |s.rows|
             && s.rows[i].sequence > start
    ensures Exec(Open(start), es, limit).value.rows[i] in Exec(Open(start), es, limit).value.delivered
  {
    EveryInterleaving(start, es, limit);
    var s := Exec(Open(start), es, limit).value;
    hide Exec;
    SeenIsDelivered(s, i);
  }

  /** And it never closes quietly on a run that is still active. */
  lemma QuietCloseMeansSettled(start: int, es: seq<Event>, limit: nat)
    requires Exec(Open(start), es, limit).Some?
    requires Exec(Open(start), es, limit).value.reader.ClosedQuiet?
    ensures Exec(Open(start), es, limit).value.settledAt.Some?
  {
    EveryInterleaving(start, es, limit);
  }

  /** A reconnect from the last cursor carries on exactly where the first stream stopped. */
  lemma ReconnectContinues(rows: seq<Row>, start: int, middle: int, end: int)
    requires start <= middle <= end
    ensures UpTo(rows, start) <= UpTo(rows, middle) <= UpTo(rows, end)
    ensures Between(rows, start, middle) + Between(rows, middle, end) == Between(rows, start, end)
  {
    UpToMonotone(rows, start, middle);
    UpToMonotone(rows, middle, end);
  }
}
