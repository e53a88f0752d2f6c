/**
 The sweep (sweep.py): a persisted step table that each `sweep.py --next` call advances by one
 step, and the invariants its history keeps. A child process may be killed or crash at any
 point, and its parent sees some prefix of what it printed.

 The state file is readable and unscathed (it is replaced atomically), and a step's own
 output holds no line that looks like the driver's markers.
 */
module Sweep {
  import opened Wrappers

  type Step = string

  const TESTS: Step := "tests"
  const STEP_ATTEMPT_CAP := 2

  /** `attempts` lists the return codes of the recorded executions. */
  datatype Record = Record(done: bool, attempts: seq<int>, skipped: bool)
  type Table = map<Step, Record>

  predicate Done(t: Table, s: Step) {
    s in t && t[s].done
  }

  function Tries(t: Table, s: Step): nat {
    if s in t then |t[s].attempts| else 0
  }

  function RecordOf(t: Table, s: Step): Record {
    if s in t then t[s] else Record(false, [], false)
  }

  /** `_persisted_capped_step`: pending, and its durable history has reached the cap. */
  predicate Capped(t: Table, s: Step) {
    s in t && s != TESTS && !t[s].done && |t[s].attempts| >= STEP_ATTEMPT_CAP
  }

  ghost predicate WellFormed(steps: seq<Step>) {
    |steps| > 0 && steps[0] == TESTS
  }

  function Pending(t: Table, steps: seq<Step>): set<Step> {
    set s | s in steps && !Done(t, s)
  }

  /** The first step that is not done, or the number of steps. */
  function NextIndex(t: Table, steps: seq<Step>): (i: nat)
    ensures i <= |steps|
    ensures forall j :: 0 <= j < i ==> Done(t, steps[j])
    ensures i < |steps| ==> !Done(t, steps[i])
    decreases |steps|
  {
    if steps == [] then 0
    else if !Done(t, steps[0]) then 0
    else 1 + NextIndex(t, steps[1..])
  }

  function NextName(t: Table, steps: seq<Step>): Option<Step> {
    var i := NextIndex(t, steps);
    if i < |steps| then Some(steps[i]) else None
  }

  function Executed(t: Table, s: Step, rc: int): Table {
    var r := RecordOf(t, s);
    t[s := r.(done := rc == 0, attempts := r.attempts + [rc])]
  }

  function Skipped(t: Table, s: Step): Table {
    t[s := RecordOf(t, s).(done := true, skipped := true)]
  }

  lemma NothingPending(t: Table, steps: seq<Step>)
    ensures NextName(t, steps).None? <==> Pending(t, steps) == {}
    ensures NextName(t, steps).Some? ==> NextName(t, steps).value in Pending(t, steps)
  {
    var i := NextIndex(t, steps);
    if i < |steps| {
      assert steps[i] in Pending(t, steps);
    } else {
      forall s | s in steps ensures Done(t, s) {
        var j :| 0 <= j < |steps| && steps[j] == s;
      }
    }
  }

  // ------------------------------------------------------- one call of the child

  /** What a caller reads off the output: `progress` names the next step, None for "DONE". */
  datatype Output = Output(
    marker: Option<Step>, progress: Option<Option<Step>>, fixturesFailed: bool, allDone: bool)

  const SILENT := Output(None, None, false, false)

  /** How far a `--next` call gets with its step. */
  datatype Reach = NotStarted | Started | Saved

  /** What the call prints once it has reached `reach` with return code `rc` for step `s`. */
  function FullOutput(steps: seq<Step>, after: Table, s: Step, rc: int): (full: Output)
    ensures full.marker == Some(s)
  {
    if s == TESTS && rc != 0 then Output(Some(s), None, true, false)
    else Output(Some(s), Some(NextName(after, steps)), false, false)
  }

  /** `seen` is what a caller may read of `full` when the call did not finish. */
  ghost predicate Glimpse(full: Output, seen: Output) {
    seen == SILENT || seen == full || seen == SILENT.(marker := full.marker)
  }

  /**
   The possible results of one `--next`: it finishes with its exit code, or dies (killed on
   timeout, rc None, or crashed, rc not 0) after reaching some point.
   */
  ghost predicate NextMay(
    steps: seq<Step>, before: Table, after: Table, reach: Reach, finished: bool,
    rc: Option<int>, seen: Output)
  {
    var name := NextName(before, steps);
    && (!finished ==> rc != Some(0))
    && if name.None? then
         && after == before && reach == NotStarted
         && (seen == SILENT.(allDone := true) || (!finished && seen == SILENT))
         && (finished ==> rc == Some(0))
       else
         var s := name.value;
         match reach
         case NotStarted => !finished && after == before && seen == SILENT
         case Started =>
           !finished && after == before && seen in {SILENT, SILENT.(marker := Some(s))}
         case Saved =>
           exists code: int ::
             && after == Executed(before, s, code)
             && (if finished then
                   && seen == FullOutput(steps, after, s, code)
                   && rc == Some(if s == TESTS && code != 0 then 2 else 0)
                 else Glimpse(FullOutput(steps, after, s, code), seen))
  }

  // ------------------------------------------------------------------- history

  /**
   A table with what really happened since its last reset: how often each step was started,
   whether every started step was recorded, and whether every `--next` ran to its end.
   */
  datatype History = History(table: Table, started: multiset<Step>, recorded: bool, returned: bool)

  ghost predicate Recorded(h: History) {
    forall s :: h.started[s] == Tries(h.table, s)
  }

  /**
   Nothing was recorded that was not started, what is done has succeeded or been skipped, and no
   step was skipped before its second start, nor, if every call came back, after a success.
   */
  ghost predicate StartsTell(h: History) {
    && (forall s :: Tries(h.table, s) <= h.started[s])
    && (forall s :: Done(h.table, s) <==> Succeeded(h.table, s) || WasSkipped(h.table, s))
    && (forall s :: WasSkipped(h.table, s) ==>
          h.started[s] >= 2 && (h.returned ==> !Succeeded(h.table, s)))
  }

  predicate Succeeded(t: Table, s: Step) {
    s in t && 0 in t[s].attempts
  }

  predicate WasSkipped(t: Table, s: Step) {
    s in t && t[s].skipped
  }

  predicate TestsPassed(t: Table) {
    Succeeded(t, TESTS)
  }

  ghost predicate Inv(h: History) {
    && StartsTell(h)
    && (h.recorded ==> Recorded(h) && forall s :: s != TESTS ==> h.started[s] <= STEP_ATTEMPT_CAP)
    && (h.returned ==>
          && h.recorded
          && (Done(h.table, TESTS) ==> TestsPassed(h.table))
          && forall s :: s != TESTS && h.started[s] > 0 ==> TestsPassed(h.table))
  }

  const FRESH := History(map[], multiset{}, true, true)

  /** The history after one `--next`. */
  function AfterNext(h: History, steps: seq<Step>, after: Table, reach: Reach, finished: bool): History {
    var name := NextName(h.table, steps);
    History(
      after,
      if name.Some? && reach != NotStarted then h.started + multiset{name.value} else h.started,
      h.recorded && reach != Started,
      h.returned && finished)
  }

  lemma ExecutedKeepsStarts(h: History, s: Step, code: int, returned: bool)
    requires StartsTell(h) && !Done(h.table, s) && (returned ==> h.returned)
    ensures StartsTell(History(Executed(h.table, s, code), h.started + multiset{s}, h.recorded, returned))
  {
    var after := Executed(h.table, s, code);
    assert after[s].attempts == RecordOf(h.table, s).attempts + [code];
    assert forall x :: x != s ==> (Succeeded(after, x) <==> Succeeded(h.table, x));
    assert forall x :: x != s ==> (WasSkipped(after, x) <==> WasSkipped(h.table, x));
    assert !Succeeded(h.table, s) && !WasSkipped(h.table, s);
  }

  /** A recorded execution of a step that is not done, is not capped, and is let through by the tests. */
  lemma ExecutedKeepsInv(h: History, s: Step, code: int, returned: bool)
    requires Inv(h) && !Done(h.table, s) && !Capped(h.table, s) && (returned ==> h.returned)
    requires s != TESTS ==> Done(h.table, TESTS)
    ensures Inv(History(Executed(h.table, s, code), h.started + multiset{s}, h.recorded, returned))
  {
    ExecutedKeepsStarts(h, s, code, returned);
    hide StartsTell;
    var after := Executed(h.table, s, code);
    assert after[s].attempts == RecordOf(h.table, s).attempts + [code];
    assert TestsPassed(h.table) ==> TestsPassed(after);
  }

  /**
   The cap and the gate survive every `--next`, provided no step is capped when it starts,
   which is what the runner checks first.
   */
  lemma NextKeepsInv(
    h: History, steps: seq<Step>, after: Table, reach: Reach, finished: bool,
    rc: Option<int>, seen: Output)
    requires WellFormed(steps) && Inv(h)
    requires forall s :: !Capped(h.table, s)
    requires NextMay(steps, h.table, after, reach, finished, rc, seen)
    ensures Inv(AfterNext(h, steps, after, reach, finished))
  {
    var name := NextName(h.table, steps);
    if name.Some? && reach == Saved {
      hide Inv, FullOutput, Glimpse;
      var s := name.value;
      var code: int :| after == Executed(h.table, s, code);
      assert s != TESTS ==> Done(h.table, TESTS) by {
        assert s != TESTS ==> NextIndex(h.table, steps) > 0;
      }
      ExecutedKeepsInv(h, s, code, h.returned && finished);
    }
  }

  lemma SkipKeepsInv(h: History, s: Step)
    requires Inv(h) && (s == TESTS ==> !h.returned) && h.started[s] >= 2
    requires h.returned ==> !Succeeded(h.table, s)
    ensures Inv(h.(table := Skipped(h.table, s)))
  {
    var after := Skipped(h.table, s);
    assert forall x :: Tries(after, x) == Tries(h.table, x);
    assert forall x :: x != s ==> WasSkipped(after, x) == WasSkipped(h.table, x);
    assert forall x :: Succeeded(after, x) <==> Succeeded(h.table, x);
    assert forall x :: x != s ==> (Done(after, x) <==> Done(h.table, x));
    assert WasSkipped(after, s);
  }

  /** A reset starts a fresh history. */
  lemma ResetKeepsInv()
    ensures Inv(FRESH)
  {
  }

  // ------------------------------------------------------------------ the file

  /** `order` holds the table's names, each once. */
  ghost predicate Lists(order: seq<Step>, t: Table) {
    && (forall s :: s in t <==> s in order)
    && (forall i, j :: 0 <= i < j < |order| ==> order[i] != order[j])
  }

  class StateFile {
    const steps: seq<Step>
    var table: Table
    /** The table's names in the order of the file: where a record was first put. */
    var order: seq<Step>
    ghost var started: multiset<Step>
    ghost var recorded: bool
    ghost var returned: bool
    /** Steps started over the whole life of the file, resets included. */
    ghost var launches: nat
    /** Skips of steps of the sweep that the caller did not see confirmed. */
    ghost var unconfirmed: nat
    ghost var resets: nat

    ghost predicate Listed()
      reads this
    {
      Lists(order, table)
    }

    ghost function Now(): History
      reads this
    {
      History(table, started, recorded, returned)
    }

    constructor (steps: seq<Step>)
      ensures this.steps == steps && Now() == FRESH && launches == 0 && resets == 0 && Listed()
    {
      this.steps := steps;
      table, order, unconfirmed, resets := map[], [], 0, 0;
      started, recorded, returned, launches := multiset{}, true, true, 0;
    }

    /** One record put into the table, at its old place if it had one. */
    method Put(name: Step, record: Record)
      requires Listed()
      modifies this`table, this`order
      ensures Listed() && table == old(table)[name := record]
      ensures order == if name in old(table) then old(order) else old(order) + [name]
    {
      if name !in table {
        order := order + [name];
      }
      table := table[name := record];
    }

    method FirstPending() returns (i: nat)
      ensures i == NextIndex(table, steps)
    {
      i := 0;
      while i < |steps| && Done(table, steps[i])
        invariant 0 <= i <= |steps| && NextIndex(table, steps) == i + NextIndex(table, steps[i..])
      {
        assert steps[i..][1..] == steps[i + 1..];
        i := i + 1;
      }
    }

    /** `sweep.py --next`, run by a parent that may lose it. */
    method Next() returns (rc: Option<int>, seen: Output, ghost reach: Reach, ghost finished: bool)
      requires Listed()
      modifies this
      ensures Listed() && unconfirmed == old(unconfirmed) && resets == old(resets)
      ensures NextMay(steps, old(table), table, reach, finished, rc, seen)
      ensures Now() == AfterNext(old(Now()), steps, table, reach, finished)
      ensures launches == old(launches) + if reach == NotStarted then 0 else 1
    {
      var i := FirstPending();
      hide NextIndex;
      if i < |steps| {
        rc, seen, reach, finished := RunStep(steps[i]);
        return;
      }
      var dies: bool, silent: bool := *, *;
      reach, finished := NotStarted, !dies;
      returned := returned && finished;
      seen := if dies && silent then SILENT else SILENT.(allDone := true);
      rc := Some(0);
      if dies {
        rc := Death();
      }
    }

    /** The return code a parent sees of a child that died. */
    method Death() returns (rc: Option<int>)
      ensures rc != Some(0)
    {
      rc := *;
      if rc == Some(0) {
        rc := None;
      }
    }

    method RunStep(name: Step)
      returns (rc: Option<int>, seen: Output, ghost reach: Reach, ghost finished: bool)
      requires Listed() && NextName(table, steps) == Some(name)
      modifies this
      ensures Listed() && unconfirmed == old(unconfirmed) && resets == old(resets)
      ensures NextMay(steps, old(table), table, reach, finished, rc, seen)
      ensures started == if reach == NotStarted then old(started) else old(started) + multiset{name}
      ensures recorded == (old(recorded) && reach != Started)
      ensures returned == (old(returned) && finished)
      ensures launches == old(launches) + if reach == NotStarted then 0 else 1
    {
      hide NextName, FullOutput, Executed, Lists;
      var dies: bool, early: bool, unsaved: bool := *, *, *;
      var shown: nat := *;
      reach, finished, rc, seen := NotStarted, !dies, None, SILENT;
      if dies && early {
        returned := false;
        rc := Death();
        return;
      }
      started := started + multiset{name};
      launches := launches + 1;
      reach := Started;
      if dies && unsaved {
        recorded, returned := false, false;
        rc := Death();
        seen := if shown == 0 then SILENT else SILENT.(marker := Some(name));
        return;
      }
      var code: int := *;
      RecordAttempt(name, code);
      reach := Saved;
      returned := returned && finished;
      seen := FullOutput(steps, table, name, code);
      rc := Some(if name == TESTS && code != 0 then 2 else 0);
      if dies {
        rc := Death();
        seen := if shown == 0 then SILENT
                else if shown == 1 then SILENT.(marker := Some(name)) else seen;
      }
    }

    method RecordAttempt(name: Step, code: int)
      requires Listed()
      modifies this`table, this`order
      ensures Listed() && table == Executed(old(table), name, code)
    {
      var previous := RecordOf(table, name);
      Put(name, previous.(done := code == 0, attempts := previous.attempts + [code]));
    }

    /** `sweep.py --skip`: `ok` when the caller saw it exit 0 and confirm the skip. */
    method Skip(name: Step) returns (ok: bool)
      requires Listed()
      modifies this`table, this`order, this`unconfirmed
      ensures Listed()
      ensures unconfirmed == old(unconfirmed) + if name in steps && !ok then 1 else 0
      ensures table == old(table) || (name in steps && table == Skipped(old(table), name))
      ensures ok ==> name in steps && table == Skipped(old(table), name)
    {
      if name !in steps {
        return false;
      }
      var dies: bool, unsaved: bool := *, *;
      unconfirmed := unconfirmed + if dies then 1 else 0;
      if dies && unsaved {
        return false;
      }
      Put(name, RecordOf(table, name).(done := true, skipped := true));
      return !dies;
    }

    /** `sweep.py --reset`. */
    method Reset() returns (ok: bool)
      requires Listed()
      modifies this
      ensures Listed() && unconfirmed == old(unconfirmed)
      ensures if resets == old(resets) then Now() == old(Now()) else resets == old(resets) + 1 && Now() == FRESH
      ensures ok ==> resets == old(resets) + 1
      ensures launches == old(launches)
    {
      var dies: bool, unsaved: bool := *, *;
      if dies && unsaved {
        return false;
      }
      table, order, started, recorded, returned := map[], [], multiset{}, true, true;
      resets := resets + 1;
      return !dies;
    }
  }
}
