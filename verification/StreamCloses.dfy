/**
 How a reader's stream ends (routers/runsapi.py:236-289): at the settling row, which is the last
 one it sends, and in any other case not before it has sent all there is.
 */
module StreamCloses {
  import opened Wrappers
  import opened EventStream

  /** Only the last row sent may settle, and if it does the stream is closed for that reason. */
  ghost predicate EndsAtSettling(s: Stream) {
    && (forall i :: 0 <= i < |s.delivered| - 1 ==> !s.delivered[i].settles)
    && (s.reader.ClosedSettled? <==> s.delivered != [] && s.delivered[|s.delivered| - 1].settles)
  }

  lemma StepEndsAtSettling(s: Stream, e: Event, limit: nat)
    requires EndsAtSettling(s) && Step(s, e, limit).Some?
    ensures EndsAtSettling(Step(s, e, limit).value)
  {
    hide Page;
    if e.Deliver? {
      var n := Step(s, e, limit).value;
      assert n.delivered[..|s.delivered|] == s.delivered;
      assert forall i :: 0 <= i < |s.delivered| ==> n.delivered[i] == s.delivered[i];
    }
  }

  /** A stream is closed as settled exactly when it has just sent a settling row. */
  lemma {:induction false} ClosedAtSettling(start: int, es: seq<Event>, limit: nat)
    requires Exec(Open(start), es, limit).Some?
    ensures EndsAtSettling(Exec(Open(start), es, limit).value)
  {
    if es != [] {
      ClosedAtSettling(start, es[..|es| - 1], limit);
      hide Step, EndsAtSettling;
      StepEndsAtSettling(Exec(Open(start), es[..|es| - 1], limit).value, es[|es| - 1], limit);
    }
  }

  /** The first row past `start` that settles the run. */
  ghost predicate FirstSettling(rows: seq<Row>, start: int, j: nat) {
    && j < |rows| && rows[j].settles && rows[j].sequence > start
    && forall i :: 0 <= i < j && rows[i].sequence > start ==> !rows[i].settles
  }

  /**
   Closing that way, the stream has sent every row past its start up to the first settling one,
   each once and in order, and no other.
   */
  lemma SettledCloseSentAll(start: int, es: seq<Event>, limit: nat) returns (j: nat)
    requires Exec(Open(start), es, limit).Some? && Exec(Open(start), es, limit).value.reader.ClosedSettled?
    ensures var s := Exec(Open(start), es, limit).value;
            && FirstSettling(s.rows, start, j)
            && UpTo(s.rows, start) <= j && s.delivered == s.rows[UpTo(s.rows, start)..j + 1]
  {
    ClosedAtSettling(start, es, limit);
    EveryInterleaving(start, es, limit);
    hide *;
    j := ClosedSentAll(Exec(Open(start), es, limit).value);
  }

  lemma ClosedSentAll(s: Stream) returns (j: nat)
    requires StreamOk(s) && EndsAtSettling(s) && s.reader.ClosedSettled?
    ensures FirstSettling(s.rows, s.start, j)
    ensures UpTo(s.rows, s.start) <= j && s.delivered == s.rows[UpTo(s.rows, s.start)..j + 1]
  {
    hide PageFits, NoLostBell, SampledFirst;
    var from := UpTo(s.rows, s.start);
    UpToSplits(s.rows, s.start);
    hide UpTo;
    j := UpTo(s.rows, s.cursor) - 1;
    assert s.delivered[|s.delivered| - 1] == s.rows[j];
    forall i | 0 <= i < j && s.rows[i].sequence > s.start ensures !s.rows[i].settles {
      assert s.delivered[i - from] == s.rows[i];
    }
  }

  // --------------------------------------------------- a reader always gets on

  const OWN: set<Event> := {Subscribe, Sample, Read, Deliver, EndPage, Wake, Heartbeat}

  /** A reader that has taken a settled run for a running one has a token for it. */
  ghost predicate SettlingRang(s: Stream) {
    s.settledAt.Some? && (s.reader.Parked? || ((s.reader.Reading? || s.reader.Delivering?) && s.reader.active)) ==>
      s.token
  }

  lemma {:induction false} SettlingAlwaysRang(start: int, es: seq<Event>, limit: nat)
    requires Exec(Open(start), es, limit).Some?
    ensures SettlingRang(Exec(Open(start), es, limit).value)
  {
    if es != [] {
      SettlingAlwaysRang(start, es[..|es| - 1], limit);
      hide Page;
    }
  }

  /** What the reader does next when nobody else does anything. */
  function Onward(s: Stream): Event
    requires !s.reader.ClosedQuiet? && !s.reader.ClosedSettled?
  {
    match s.reader
    case Outside => Subscribe
    case Top => Sample
    case Reading(_) => Read
    case Delivering(page, _, _) => if page != [] then Deliver else EndPage
    case Parked => if s.token then Wake else Heartbeat
  }

  function Unsent(s: Stream): nat {
    |s.rows| - UpTo(s.rows, s.cursor)
  }

  /** The stream is closed, or there is nothing left to send and the run goes on. */
  predicate AtRest(s: Stream) {
    s.reader.ClosedQuiet? || s.reader.ClosedSettled? || (Unsent(s) == 0 && s.settledAt.None?)
  }

  function Distance(s: Stream): nat {
    match s.reader
    case Outside => 7
    case Top => 3
    case Reading(active) => if Unsent(s) > 0 || !active then 2 else 6
    case Delivering(page, full, active) => if page != [] then 1 else if full then 4 else if active then 5 else 1
    case Parked => 4
    case _ => 0
  }

  lemma DeliverSends(s: Stream, limit: nat)
    requires StreamOk(s) && s.reader.Delivering? && s.reader.page != []
    ensures Step(s, Deliver, limit).Some? && Unsent(Step(s, Deliver, limit).value) < Unsent(s)
  {
    NextRow(s);
    hide UpTo, InOrder, PageFits, NoLostBell, SampledFirst;
  }

  lemma OnwardStep(s: Stream, limit: nat)
    requires StreamOk(s) && SettlingRang(s) && !AtRest(s) && limit > 0
    ensures !s.reader.ClosedQuiet? && !s.reader.ClosedSettled?
    ensures s.announced == |s.rows| ==> Onward(s) != Heartbeat
    ensures var n := Step(s, Onward(s), limit);
            && Onward(s) in OWN && n.Some?
            && n.value.rows == s.rows && n.value.settledAt == s.settledAt && n.value.start == s.start
            && n.value.announced == s.announced
            && (Unsent(n.value) < Unsent(s) || (Unsent(n.value) == Unsent(s) && Distance(n.value) < Distance(s)))
  {
    if s.reader.Delivering? && s.reader.page != [] {
      DeliverSends(s, limit);
    }
    hide UpTo, InOrder;
  }

  /** Of the same rows, `after` has come to rest and sent all of them unless it is closed. */
  ghost predicate Rested(before: Stream, after: Stream) {
    && after.rows == before.rows && after.settledAt == before.settledAt && after.start == before.start
    && AtRest(after)
    && (!after.reader.ClosedQuiet? && !after.reader.ClosedSettled? ==>
          after.delivered == before.rows[UpTo(before.rows, before.start)..])
  }

  /**
   From wherever it is, a reader on its own comes to rest: it has sent every row, or it has
   closed at the settling one, or quietly after the run. If the last row has been announced, it
   needs no heartbeat for that.
   */
  lemma {:induction false} LeftAloneItSendsAll(start: int, es: seq<Event>, limit: nat) returns (late: seq<Event>)
    requires Exec(Open(start), es, limit).Some? && limit > 0
    ensures forall e :: e in late ==> e in OWN
    ensures var s := Exec(Open(start), es, limit).value; s.announced == |s.rows| ==> Heartbeat !in late
    ensures Exec(Open(start), es + late, limit).Some?
    ensures Rested(Exec(Open(start), es, limit).value, Exec(Open(start), es + late, limit).value)
    decreases Unsent(Exec(Open(start), es, limit).value), Distance(Exec(Open(start), es, limit).value)
  {
    hide *;
    EveryInterleaving(start, es, limit);
    SettlingAlwaysRang(start, es, limit);
    var s := Exec(Open(start), es, limit).value;
    if AtRest(s) {
      late := [];
      assert es + late == es;
      RestSent(s);
    } else {
      OnwardStep(s, limit);
      var e := Onward(s);
      ExecThen(start, es, e, limit);
      var n := Exec(Open(start), es + [e], limit).value;
      var rest := LeftAloneItSendsAll(start, es + [e], limit);
      late := [e] + rest;
      assert es + [e] + rest == es + late;
      RestedFrom(s, n, Exec(Open(start), es + late, limit).value);
    }
  }

  lemma RestedFrom(s: Stream, n: Stream, after: Stream)
    requires Rested(n, after) && n.rows == s.rows && n.settledAt == s.settledAt && n.start == s.start
    ensures Rested(s, after)
  {
  }

  lemma ExecThen(start: int, es: seq<Event>, e: Event, limit: nat)
    requires Exec(Open(start), es, limit).Some?
    ensures Exec(Open(start), es + [e], limit) == Step(Exec(Open(start), es, limit).value, e, limit)
  {
    assert (es + [e])[..|es|] == es;
    hide Step;
  }

  lemma RestSent(s: Stream)
    requires StreamOk(s) && AtRest(s)
    ensures Rested(s, s)
  {
    hide UpTo;
  }
}
