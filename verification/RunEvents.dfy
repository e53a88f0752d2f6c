/**
 Sequence numbers of run events (runservice.py:993-1021, runstore.py:514-545): an operation's
 events may belong to several runs; each takes the next number of its own run, inside the
 transaction that commits the operation.
 */
module RunEvents {
  import opened Wrappers
  import EventStream

  datatype Event = Event(run: int, settles: bool)
  datatype Stored = Stored(run: int, sequence: int, settles: bool)

  /** How many events a run has. */
  function CountOf(rows: seq<Stored>, run: int): nat {
    if rows == [] then 0
    else CountOf(rows[..|rows| - 1], run) + (if rows[|rows| - 1].run == run then 1 else 0)
  }

  /** Every run's events are numbered 0, 1, 2, ... in the order they were stored. */
  ghost predicate Numbered(rows: seq<Stored>) {
    forall i :: 0 <= i < |rows| ==> rows[i].sequence == CountOf(rows[..i], rows[i].run)
  }

  /** The rows an operation's events become, one after the other. */
  function Appended(rows: seq<Stored>, events: seq<Event>): seq<Stored> {
    if events == [] then rows
    else
      var before, last := Appended(rows, events[..|events| - 1]), events[|events| - 1];
      before + [Stored(last.run, CountOf(before, last.run), last.settles)]
  }

  lemma {:induction false} AppendedIsNumbered(rows: seq<Stored>, events: seq<Event>)
    requires Numbered(rows)
    ensures Numbered(Appended(rows, events)) && rows <= Appended(rows, events)
  {
    if events != [] {
      AppendedIsNumbered(rows, events[..|events| - 1]);
      var before, after := Appended(rows, events[..|events| - 1]), Appended(rows, events);
      assert forall i :: 0 <= i <= |before| ==> after[..i] == before[..i];
      assert before[..|before|] == before;
    }
  }

  lemma OneMoreEvent(rows: seq<Stored>, events: seq<Event>, i: nat, before: seq<Stored>)
    requires i < |events| && before == Appended(rows, events[..i])
    ensures Appended(rows, events[..i + 1])
         == before + [Stored(events[i].run, CountOf(before, events[i].run), events[i].settles)]
    ensures forall run :: CountOf(Appended(rows, events[..i + 1]), run)
                       == CountOf(before, run) + if run == events[i].run then 1 else 0
  {
    assert events[..i + 1][..i] == events[..i];
  }

  /** The largest number of a run, as SELECT MAX gives it. */
  function Largest(rows: seq<Stored>, run: int): Option<int> {
    if rows == [] then None
    else
      var before, last := Largest(rows[..|rows| - 1], run), rows[|rows| - 1];
      if last.run != run then before
      else if before.Some? && before.value > last.sequence then before
      else Some(last.sequence)
  }

  /** On numbered rows the number after the largest is the count. */
  lemma {:induction false} NextIsCount(rows: seq<Stored>, run: int)
    requires Numbered(rows)
    ensures Largest(rows, run) == if CountOf(rows, run) == 0 then None else Some(CountOf(rows, run) - 1)
  {
    if rows != [] {
      var init := rows[..|rows| - 1];
      assert forall i :: 0 <= i < |init| ==> init[..i] == rows[..i] && init[i] == rows[i];
      NextIsCount(init, run);
    }
  }

  class Connection {
    var rows: seq<Stored>

    constructor ()
      ensures rows == [] && Numbered(rows)
    {
      rows := [];
    }

    method NextEventSequence(run: int) returns (next: int)
      requires Numbered(rows)
      ensures next == CountOf(rows, run)
    {
      NextIsCount(rows, run);
      var largest := Largest(rows, run);
      next := if largest.None? then 0 else largest.value + 1;
    }

    /** `_commit_op`'s events: numbered run by run, stored with the operation or not at all. */
    method CommitEvents(events: seq<Event>) returns (ok: bool)
      requires Numbered(rows)
      modifies this
      ensures Numbered(rows)
      ensures rows == if ok then Appended(old(rows), events) else old(rows)
    {
      hide Numbered, Largest, CountOf;
      var saved := rows;
      var sequences: map<int, int> := map[];
      var added: seq<Stored> := [];
      assert saved + added == saved;
      for i := 0 to |events|
        invariant rows == saved
        invariant saved + added == Appended(saved, events[..i])
        invariant forall run :: run in sequences ==> sequences[run] == CountOf(saved + added, run)
        invariant forall run :: run !in sequences ==> CountOf(saved + added, run) == CountOf(saved, run)
      {
        var e := events[i];
        var sequence: int;
        if e.run in sequences {
          sequence := sequences[e.run];
        } else {
          sequence := NextEventSequence(e.run);
        }
        sequences := sequences[e.run := sequence + 1];
        var row := Stored(e.run, sequence, e.settles);
        OneMoreEvent(saved, events, i, saved + added);
        assert saved + (added + [row]) == (saved + added) + [row];
        added := added + [row];
      }
      assert events[..|events|] == events;
      AppendedIsNumbered(saved, events);
      rows := rows + added;
      ok := *;
      if !ok {
        rows := saved;
      }
    }
  }

  // ------------------------------------------------------- what a reader relies on

  /** One run's rows, as the event stream reads them. */
  function RowsOf(rows: seq<Stored>, run: int): seq<EventStream.Row> {
    if rows == [] then []
    else
      var last := rows[|rows| - 1];
      RowsOf(rows[..|rows| - 1], run) + (if last.run == run then [EventStream.Row(last.sequence, last.settles)] else [])
  }

  /** Whatever was committed by whom: each run's sequence numbers increase without gaps. */
  lemma {:induction false} RunsAreIncreasing(rows: seq<Stored>, run: int)
    requires Numbered(rows)
    ensures |RowsOf(rows, run)| == CountOf(rows, run)
    ensures forall i :: 0 <= i < |RowsOf(rows, run)| ==> RowsOf(rows, run)[i].sequence == i
    ensures EventStream.Increasing(RowsOf(rows, run))
  {
    if rows != [] {
      var init := rows[..|rows| - 1];
      assert forall i :: 0 <= i < |init| ==> init[..i] == rows[..i] && init[i] == rows[i];
      RunsAreIncreasing(init, run);
    }
  }
}
