/**
 The full-sweep runner (sweeprunner.py): it drives `sweep.py` until every step is done,
 skipping what is stuck and resetting a table left over from a finished sweep. Its loop ends
 without help from the wall clock, and the step table's invariants survive any number of runs,
 wherever each of them stops.
 */
module SweepRunner {
  import opened Wrappers
  import opened Sweep

  datatype Ending =
    | Cancelled | WallClock | SkipFailed | FixturesFailed | NextFailed | NoMarker
    | NoProgress | ResetFailed | IngestFailed | Raised | Completed
    // a shutdown cancelled the run; the source emits nothing then
    | ShutDown

  /** Endings that come from outside; the others come from what the sweep does. */
  function Cause(stop: Option<Ending>): set<Ending> {
    if stop.Some? && stop.value in {Cancelled, WallClock, ShutDown, Raised, IngestFailed} then {stop.value} else {}
  }

  type Attempts = map<Step, nat>

  function Counted(attempts: Attempts, s: Step): nat {
    if s in attempts then attempts[s] else 0
  }

  /** Pending steps this run has not tried yet. */
  function Untried(attempts: Attempts, pending: set<Step>): set<Step> {
    set s | s in pending && Counted(attempts, s) == 0
  }

  // ------------------------------------------------------- what one call leaves pending

  lemma {:induction false} FirstPendingStays(t: Table, after: Table, steps: seq<Step>)
    requires NextName(t, steps).Some?
    requires forall s :: s != NextName(t, steps).value ==> Done(after, s) == Done(t, s)
    requires !Done(after, NextName(t, steps).value)
    ensures NextName(after, steps) == NextName(t, steps)
  {
    var i := NextIndex(t, steps);
    assert !Done(after, steps[i]);
    assert forall k :: 0 <= k < i ==> Done(after, steps[k]);
  }

  /** A finished call that exits 0 has either finished its step or names it again. */
  lemma FinishedCall(
    steps: seq<Step>, before: Table, after: Table, reach: Reach, finished: bool, seen: Output)
    requires NextMay(steps, before, after, reach, finished, Some(0), seen)
    requires seen.marker.Some?
    ensures finished && NextName(before, steps) == seen.marker
    ensures var s := seen.marker.value;
            && seen.progress == Some(NextName(after, steps))
            && (seen.progress == Some(Some(s)) ==>
                  s != TESTS && Pending(after, steps) == Pending(before, steps))
            && (seen.progress != Some(Some(s)) ==>
                  Pending(after, steps) == Pending(before, steps) - {s})
  {
    var s := seen.marker.value;
    NothingPending(before, steps);
    NothingPending(after, steps);
    var code: int :| after == Executed(before, s, code);
    hide NextIndex;
    if code != 0 {
      FirstPendingStays(before, after, steps);
      assert Pending(after, steps) == Pending(before, steps);
    } else {
      assert Pending(after, steps) == Pending(before, steps) - {s};
    }
  }

  /** A call that died leaves every other step as it was. */
  lemma DeadCall(
    steps: seq<Step>, before: Table, after: Table, reach: Reach, finished: bool,
    rc: Option<int>, seen: Output)
    requires NextMay(steps, before, after, reach, finished, rc, seen)
    requires seen.marker.Some?
    ensures NextName(before, steps) == seen.marker && reach != NotStarted
    ensures finished ==> rc.Some?
    ensures seen.marker.value in Pending(before, steps)
    ensures Pending(after, steps) == Pending(before, steps)
         || Pending(after, steps) == Pending(before, steps) - {seen.marker.value}
  {
    var s := seen.marker.value;
    NothingPending(before, steps);
    hide NextIndex;
    if reach == Saved {
      var code: int :| after == Executed(before, s, code);
      assert Pending(after, steps) == if code == 0 then Pending(before, steps) - {s} else Pending(before, steps);
    }
  }

  lemma AllDoneSeen(
    steps: seq<Step>, before: Table, after: Table, reach: Reach, finished: bool,
    rc: Option<int>, seen: Output)
    requires NextMay(steps, before, after, reach, finished, rc, seen)
    requires seen.allDone || seen.progress == Some(None)
    ensures Pending(after, steps) == {}
    ensures seen.marker.None? ==> Pending(before, steps) == {}
    ensures seen.marker.Some? ==> reach != NotStarted
  {
    NothingPending(before, steps);
    NothingPending(after, steps);
  }

  lemma SkipShrinks(t: Table, steps: seq<Step>, s: Step)
    requires s in Pending(t, steps)
    ensures Pending(Skipped(t, s), steps) == Pending(t, steps) - {s}
    ensures |Pending(Skipped(t, s), steps)| < |Pending(t, steps)|
  {
    assert Pending(Skipped(t, s), steps) == Pending(t, steps) - {s};
  }

  lemma SkippedAfter(before: set<Step>, after: Table, steps: seq<Step>, s: Step)
    requires s in before && Pending(after, steps) in {before, before - {s}}
    ensures Pending(Skipped(after, s), steps) == before - {s}
    ensures |before - {s}| < |before|
  {
    assert Pending(Skipped(after, s), steps) == Pending(after, steps) - {s};
  }

  /** The loop's measure, once a call has run `s` and did not get it skipped. */
  lemma TurnProgress(before: set<Step>, after: set<Step>, tried: Attempts, attempts: Attempts, s: Step)
    requires s in before && after in {before, before - {s}}
    requires FewTries(tried, before)
    requires attempts == tried[s := Counted(attempts, s)] && Counted(attempts, s) > Counted(tried, s)
    requires s in after ==> Counted(attempts, s) < STEP_ATTEMPT_CAP
    ensures Progress(before, tried, after, attempts) && FewTries(attempts, after)
  {
    if s in after {
      TriedOneMore(tried, before, s, Counted(attempts, s));
    } else {
      assert after == before - {s};
    }
  }

  lemma CappedIsPending(t: Table, steps: seq<Step>, s: Step)
    requires Capped(t, s) && s in steps
    ensures s in Pending(t, steps)
  {
  }

  lemma TriedOneMore(attempts: Attempts, p: set<Step>, s: Step, n: nat)
    requires s in p && Counted(attempts, s) == 0 && n > 0
    ensures |Untried(attempts[s := n], p)| < |Untried(attempts, p)|
  {
    assert Untried(attempts[s := n], p) == Untried(attempts, p) - {s};
  }

  // ----------------------------------------------------------------- the runner

  class Runner {
    const file: StateFile
    var step: Option<Step>
    var finished: nat
    var lastError: Option<Ending>
    var running: bool
    /** What has come from outside in this run: a cancel, the clock, a shutdown, an error. */
    ghost var causes: set<Ending>

    constructor (file: StateFile)
      ensures this.file == file && !running && finished == 0
    {
      this.file := file;
      step, finished, lastError, running, causes := None, 0, None, false, {};
    }

    /** The single terminal event of a run. */
    method EmitTerminal(ending: Ending)
      modifies this`finished, this`lastError
      ensures finished == old(finished) + 1
      ensures lastError == if ending == Completed then None else Some(ending)
    {
      finished := finished + 1;
      lastError := if ending == Completed then None else Some(ending);
    }

    /** `_persisted_capped_step`: the first in the order of the file. */
    method CappedStep() returns (s: Option<Step>)
      requires file.Listed()
      ensures s.Some? ==>
                exists i :: && 0 <= i < |file.order| && file.order[i] == s.value && Capped(file.table, s.value)
                            && forall j :: 0 <= j < i ==> !Capped(file.table, file.order[j])
      ensures s.None? ==> forall x :: !Capped(file.table, x)
    {
      for i := 0 to |file.order|
        invariant forall j :: 0 <= j < i ==> !Capped(file.table, file.order[j])
      {
        if Capped(file.table, file.order[i]) {
          return Some(file.order[i]);
        }
      }
      return None;
    }

    /**
     What the await of a child may bring instead of its answer: the child did not start, or the
     run was shut down.
     */
    method Interrupted() returns (stop: Option<Ending>)
      modifies this`causes
      ensures stop in {None, Some(ShutDown), Some(Raised)}
      ensures causes == old(causes) + Cause(stop)
    {
      var shutDown: bool, raised: bool := *, *;
      stop := if shutDown then Some(ShutDown) else if raised then Some(Raised) else None;
      causes := causes + Cause(stop);
    }

    /** A look at the cancel flag. */
    method CancelAsked() returns (cancelled: bool)
      modifies this`causes
      ensures causes == old(causes) + if cancelled then {Cancelled} else {}
    {
      cancelled := *;
      causes := causes + if cancelled then {Cancelled} else {};
    }

    /** `sweep.py --skip` on a stuck step; anything but a confirmed skip ends the run. */
    method SkipStuck(name: Step) returns (stop: Option<Ending>)
      requires file.Listed() && Inv(file.Now()) && (name == TESTS ==> !file.returned)
      requires file.started[name] >= 2 && (file.returned ==> !Succeeded(file.table, name))
      modifies file`table, file`order, file`unconfirmed, this`causes
      ensures causes == old(causes) + Cause(stop)
      ensures file.Listed() && Inv(file.Now())
      ensures stop in {None, Some(Cancelled), Some(SkipFailed), Some(ShutDown), Some(Raised)}
      ensures stop.None? ==> name in file.steps && file.table == Skipped(old(file.table), name)
      ensures stop == Some(SkipFailed) && name in file.steps ==> file.unconfirmed > old(file.unconfirmed)
      ensures file.unconfirmed >= old(file.unconfirmed)
      ensures name in file.steps ==> file.table in {old(file.table), Skipped(old(file.table), name)}
      ensures name !in file.steps ==> file.table == old(file.table)
    {
      hide Inv;
      ghost var before := file.Now();
      var ok := file.Skip(name);
      SkipKeepsInv(before, name);
      stop := Interrupted();
      if stop.Some? { return; }
      var cancelled := CancelAsked();
      if cancelled { return Some(Cancelled); }
      if !ok { return Some(SkipFailed); }
      return None;
    }

    /** The skip of a record that has reached the cap, of a step of the sweep or not. */
    method SkipCapped(name: Step) returns (stop: Option<Ending>)
      requires file.Listed() && Inv(file.Now()) && Capped(file.table, name)
      modifies file`table, file`order, file`unconfirmed, this`causes
      ensures causes == old(causes) + Cause(stop)
      ensures file.Listed() && Inv(file.Now()) && file.unconfirmed >= old(file.unconfirmed)
      ensures stop in {None, Some(Cancelled), Some(SkipFailed), Some(ShutDown), Some(Raised)}
      ensures stop.None? ==> name in file.steps && file.table == Skipped(old(file.table), name)
      ensures BlockedByUnknown(file.table, file.steps) <==> old(BlockedByUnknown(file.table, file.steps))
      ensures stop == Some(SkipFailed) ==>
                old(BlockedByUnknown(file.table, file.steps)) || file.unconfirmed > old(file.unconfirmed)
    {
      ghost var before := file.table;
      CappedWasStarted(file.Now(), name);
      stop := SkipStuck(name);
      SkipKeepsBlocked(before, file.table, file.steps, name);
    }

    /** `sweep.py --reset` of a table that a finished sweep left behind. */
    method ResetStale() returns (stop: Option<Ending>)
      requires file.Listed() && Inv(file.Now())
      modifies file, this`causes
      ensures causes == old(causes) + Cause(stop)
      ensures file.Listed() && Inv(file.Now())
      ensures file.launches == old(file.launches) && file.unconfirmed == old(file.unconfirmed)
      ensures if file.resets == old(file.resets) then file.Now() == old(file.Now())
              else file.resets == old(file.resets) + 1 && file.Now() == FRESH && file.table == map[]
      ensures stop in {None, Some(Cancelled), Some(ResetFailed), Some(ShutDown), Some(Raised)}
      ensures stop.None? ==> file.resets == old(file.resets) + 1
    {
      var ok := file.Reset();
      ResetKeepsInv();
      stop := Interrupted();
      if stop.Some? { return; }
      var cancelled := CancelAsked();
      if cancelled { return Some(Cancelled); }
      if !ok { return Some(ResetFailed); }
      return None;
    }

    /**
     `_run` for a full sweep: one terminal event, unless a shutdown cancels the run, and then
     none. A run cancelled before its first turn leaves the flag `start` has raised.
     */
    method Run() returns (ending: Ending, entered: bool)
      requires WellFormed(file.steps) && file.Listed() && Inv(file.Now())
      modifies this, file
      ensures file.Listed() && Inv(file.Now())
      ensures finished == old(finished) + if ending == ShutDown then 0 else 1
      ensures running <==> !entered
      ensures !entered ==> ending == ShutDown && file.Now() == old(file.Now())
      ensures lastError == if ending == ShutDown then old(lastError)
                           else if ending == Completed then None else Some(ending)
      ensures ending == Completed ==>
                Pending(file.table, file.steps) == {} && file.launches > old(file.launches)
      ensures old(BlockedByUnknown(file.table, file.steps)) ==>
                && ending in {Cancelled, WallClock, SkipFailed, Raised, ShutDown}
                && file.launches == old(file.launches) && BlockedByUnknown(file.table, file.steps)
      ensures ending == SkipFailed ==>
                old(BlockedByUnknown(file.table, file.steps)) || file.unconfirmed > old(file.unconfirmed)
      ensures file.resets == old(file.resets) || file.resets == old(file.resets) + 1
      ensures file.resets > old(file.resets) || ending == ResetFailed ==> old(OnlyCapped(file.table, file.steps))
      ensures ending == Completed ==>
                (file.resets > old(file.resets) <==> old(OnlyCapped(file.table, file.steps)))
      ensures ending in {NextFailed, NoMarker} ==> !file.returned
      ensures ending == FixturesFailed ==> TestsFailed(file.table)
      ensures ending != NoProgress
      ensures causes == Cause(Some(ending))
    {
      hide Inv, BlockedByUnknown, Pending, OnlyCapped, TestsFailed;
      running, causes := true, {};
      entered := *;
      if !entered {
        causes := {ShutDown};
        return ShutDown, false;
      }
      ending := RunFull();
      if ending == Completed {
        var failed: bool, shutDown: bool := *, *;
        var cancelled := CancelAsked();
        if cancelled {
          ending := Cancelled;
        } else if shutDown {
          ending := ShutDown;
          causes := causes + {ShutDown};
        } else if failed {
          ending := IngestFailed;
          causes := causes + {IngestFailed};
        }
      }
      if ending != ShutDown {
        EmitTerminal(ending);
      }
      running := false;
    }

    /** One `sweep.py --next` and the count of its tries; a run that is to stop ends here. */
    method Call(tried: Attempts)
      returns (stop: Option<Ending>, attempts: Attempts, rc: Option<int>, seen: Output)
      requires WellFormed(file.steps) && file.Listed() && Inv(file.Now())
      requires forall s :: !Capped(file.table, s)
      requires AllStarted(tried, file.started)
      modifies this`step, this`causes, file
      ensures file.Listed() && Inv(file.Now())
      ensures file.unconfirmed == old(file.unconfirmed) && file.resets == old(file.resets)
      ensures causes == old(causes) + Cause(stop)
      ensures !BlockedByUnknown(file.table, file.steps) && AllStarted(attempts, file.started)
      ensures file.launches >= old(file.launches)
      ensures stop.Some? ==>
                attempts == tried && stop.value in {ShutDown, Raised, Cancelled, FixturesFailed}
      ensures stop == Some(FixturesFailed) ==> TestsFailed(file.table)
      ensures stop.None? ==> Told(file.steps, old(file.table), file.table, file.returned, rc, seen)
      ensures stop.None? && seen.marker.None? ==> attempts == tried
      ensures stop.None? && seen.marker.Some? ==>
                var s := seen.marker.value;
                && file.launches > old(file.launches) && Counted(attempts, s) > Counted(tried, s)
                && attempts == tried[s := Counted(attempts, s)]
    {
      hide NextMay, Inv, Done, NextIndex, Pending, WellFormed, Skipped, Tries, Capped, TestsFailed, AllStarted,
           AfterNext, NextName, WasSkipped;
      ghost var before := file.Now();
      attempts := tried;
      ghost var reach, done;
      rc, seen, reach, done := file.Next();
      NextKeepsInv(before, file.steps, file.table, reach, done, rc, seen);
      NextKeepsUnblocked(file.steps, before.table, file.table, reach, done, rc, seen);
      StartsGrow(tried, before, file.steps, file.table, reach, done);
      assert file.returned == file.Now().returned;
      hide BlockedByUnknown;
      stop := Interrupted();
      if stop.Some? { return; }
      var cancelled := CancelAsked();
      if cancelled { stop := Some(Cancelled); return; }
      AnswerMeans(file.steps, before.table, file.table, reach, done, rc, seen);
      if seen.fixturesFailed { stop := Some(FixturesFailed); return; }

      AnswerTells(file.steps, before.table, file.table, file.returned, reach, done, rc, seen);
      if seen.marker.Some? {
        var cur := seen.marker.value;
        DeadCall(file.steps, before.table, file.table, reach, done, rc, seen);
        step := Some(cur);
        var inMemory := Counted(attempts, cur) + 1;
        var persisted := Tries(file.table, cur);
        attempts := attempts[cur := if persisted > inMemory then persisted else inMemory];
        TriedOnceMore(tried, before, file.steps, file.table, reach, done, attempts);
      }
    }

    /**
     One call and what the loop does with its answer: stop with a terminal event, report that all
     is done, or go on, having finished or skipped the step or used up a try.
     */
    method Advance(tried: Attempts)
      returns (stop: Option<Ending>, attempts: Attempts, ran: bool, allDone: bool)
      requires WellFormed(file.steps) && file.Listed() && Inv(file.Now())
      requires forall s :: !Capped(file.table, s)
      requires FewTries(tried, Pending(file.table, file.steps)) && AllStarted(tried, file.started)
      modifies this`step, this`causes, file
      ensures file.Listed() && Inv(file.Now()) && file.unconfirmed >= old(file.unconfirmed)
      ensures !BlockedByUnknown(file.table, file.steps)
      ensures stop == Some(SkipFailed) ==> file.unconfirmed > old(file.unconfirmed)
      ensures file.launches >= old(file.launches) && (ran ==> file.launches > old(file.launches))
      ensures !ran ==> attempts == tried
      ensures AllStarted(attempts, file.started) && file.resets == old(file.resets)
      ensures causes == old(causes) + Cause(stop)
      ensures ran ==> old(Pending(file.table, file.steps)) != {}
      ensures stop.Some? ==>
                stop.value in {ShutDown, Raised, Cancelled, FixturesFailed, NextFailed, NoMarker, SkipFailed}
      ensures stop in {Some(NextFailed), Some(NoMarker)} ==> !file.returned
      ensures stop == Some(FixturesFailed) ==> TestsFailed(file.table)
      ensures stop.None? && allDone ==>
                && Pending(file.table, file.steps) == {}
                && (ran || old(Pending(file.table, file.steps)) == {})
      ensures stop.None? && !allDone ==>
                && ran
                && FewTries(attempts, Pending(file.table, file.steps))
                && Progress(old(Pending(file.table, file.steps)), tried,
                            Pending(file.table, file.steps), attempts)
    {
      hide Inv, Done, Pending, Untried, Progress, FewTries, WellFormed, Capped, TestsFailed, AllStarted, Counted,
           BlockedByUnknown;
      ran, allDone := false, false;
      ghost var before := Pending(file.table, file.steps);
      var rc, seen;
      stop, attempts, rc, seen := Call(tried);
      if stop.Some? { return; }
      ran := seen.marker.Some?;
      if seen.allDone || seen.progress == Some(None) {
        allDone := true;
        return;
      }
      if rc.Some? && rc.value != 0 { stop := Some(NextFailed); return; }
      if seen.marker.None? { stop := Some(NoMarker); return; }
      var cur := seen.marker.value;
      if rc.Some? && seen.progress.None? { stop := Some(NoProgress); return; }
      var stillPending := rc.None? || seen.progress.value == Some(cur);
      stop := SkipOrGoOn(cur, stillPending, tried, attempts, before);
    }

    /** A step that is out of attempts is skipped; otherwise the loop goes on. */
    method SkipOrGoOn(
      cur: Step, stillPending: bool, ghost tried: Attempts, attempts: Attempts, ghost before: set<Step>)
      returns (stop: Option<Ending>)
      requires file.Listed() && Inv(file.Now())
      requires stillPending && file.returned ==> cur != TESTS && cur in Pending(file.table, file.steps)
      requires !BlockedByUnknown(file.table, file.steps)
      requires cur in file.steps && cur in before && Pending(file.table, file.steps) in {before, before - {cur}}
      requires !stillPending ==> cur !in Pending(file.table, file.steps)
      requires FewTries(tried, before) && AllStarted(attempts, file.started)
      requires attempts == tried[cur := Counted(attempts, cur)] && Counted(attempts, cur) > Counted(tried, cur)
      modifies file`table, file`order, file`unconfirmed, this`causes
      ensures causes == old(causes) + Cause(stop)
      ensures file.Listed() && Inv(file.Now()) && file.unconfirmed >= old(file.unconfirmed)
      ensures !BlockedByUnknown(file.table, file.steps)
      ensures stop in {None, Some(Cancelled), Some(SkipFailed), Some(ShutDown), Some(Raised)}
      ensures stop == Some(SkipFailed) ==> file.unconfirmed > old(file.unconfirmed)
      ensures stop.None? ==>
                && FewTries(attempts, Pending(file.table, file.steps))
                && Progress(before, tried, Pending(file.table, file.steps), attempts)
    {
      hide Inv, Done, NextIndex, Pending, Untried, Progress, FewTries;
      assert Counted(attempts, cur) <= file.started[cur];
      PendingNeverSucceeded(file.Now(), file.steps, cur);
      stop := None;
      if stillPending && Counted(attempts, cur) >= STEP_ATTEMPT_CAP {
        ghost var after := file.Now();
        stop := SkipStuck(cur);
        SkipKeepsUnblocked(after.table, file.steps, cur);
        SkippedAfter(before, after.table, file.steps, cur);
        SkipProgress(before, tried, attempts, cur);
        return;
      }
      TurnProgress(before, Pending(file.table, file.steps), tried, attempts, cur);
    }

    /** What holds at the top of the loop of a run that began at `from`. */
    ghost predicate Going(from: Mark, attempts: Attempts, stepsRun: nat, didReset: bool)
      reads this, file
    {
      && Inv(file.Now()) && file.Listed() && file.unconfirmed >= from.unconfirmed
      && FewTries(attempts, Pending(file.table, file.steps)) && AllStarted(attempts, file.started)
      && (stepsRun == 0 ==> attempts == map[])
      && file.launches >= from.launches && (stepsRun > 0 ==> file.launches > from.launches)
      && file.resets == from.resets + (if didReset then 1 else 0) && causes == {}
      && Underway(from.table, file.table, file.steps, stepsRun > 0, didReset)
      && (BlockedByUnknown(file.table, file.steps) <==> BlockedByUnknown(from.table, file.steps))
      && (BlockedByUnknown(from.table, file.steps) ==> file.launches == from.launches)
    }

    /** What a run that began at `from` has done when it ends this way. */
    ghost predicate Over(from: Mark, ending: Ending)
      reads this, file
    {
      && Inv(file.Now()) && file.Listed() && ending !in {IngestFailed, NoProgress}
      && (ending == Completed ==> Pending(file.table, file.steps) == {} && file.launches > from.launches)
      && (BlockedByUnknown(from.table, file.steps) ==>
            && ending in {Cancelled, WallClock, SkipFailed, Raised, ShutDown}
            && file.launches == from.launches && BlockedByUnknown(file.table, file.steps))
      && (ending == SkipFailed ==>
            BlockedByUnknown(from.table, file.steps) || file.unconfirmed > from.unconfirmed)
      && from.resets <= file.resets <= from.resets + 1
      && (file.resets > from.resets || ending == ResetFailed ==> OnlyCapped(from.table, file.steps))
      && (ending == Completed ==> (file.resets > from.resets <==> OnlyCapped(from.table, file.steps)))
      && (ending in {NextFailed, NoMarker} ==> !file.returned)
      && (ending == FixturesFailed ==> TestsFailed(file.table))
      && causes == Cause(Some(ending))
    }

    /** The looks at the flag and the clock in front of a turn. */
    method Halted(ghost from: Mark, ghost attempts: Attempts, ghost stepsRun: nat, ghost didReset: bool)
      returns (stop: Option<Ending>)
      requires Going(from, attempts, stepsRun, didReset)
      modifies this`causes
      ensures if stop.Some? then Over(from, stop.value) else Going(from, attempts, stepsRun, didReset)
    {
      hide Inv, BlockedByUnknown, Pending, FewTries, AllStarted, OnlyCapped;
      stop := None;
      var cancelled := CancelAsked();
      if cancelled { return Some(Cancelled); }
      var tooLong: bool := *;
      if tooLong {
        causes := causes + {WallClock};
        return Some(WallClock);
      }
    }

    /** A turn that finds a capped record. */
    method SkipTurn(
      ghost from: Mark, name: Step, ghost attempts: Attempts, ghost stepsRun: nat, ghost didReset: bool)
      returns (stop: Option<Ending>)
      requires Going(from, attempts, stepsRun, didReset) && Capped(file.table, name)
      modifies file`table, file`order, file`unconfirmed, this`causes
      ensures if stop.Some? then Over(from, stop.value) else Going(from, attempts, stepsRun, didReset)
      ensures stop.None? ==> |Pending(file.table, file.steps)| < |old(Pending(file.table, file.steps))|
    {
      hide Inv, BlockedByUnknown, Pending, FewTries, AllStarted, Capped, TestsFailed, OnlyCapped, Skipped;
      ghost var before := file.table;
      stop := SkipCapped(name);
      if stop.None? {
        CappedSkipped(before, file.steps, name, attempts);
        UnderwayBySkip(from.table, before, file.steps, name, stepsRun > 0, didReset);
      }
      hide Underway;
    }

    /** A turn that calls the sweep, and resets it if all it found was a finished sweep. */
    method CallTurn(ghost from: Mark, tried: Attempts, ran: nat, reset: bool)
      returns (stop: Option<Ending>, attempts: Attempts, stepsRun: nat, didReset: bool)
      requires WellFormed(file.steps) && Going(from, tried, ran, reset)
      requires forall s :: !Capped(file.table, s)
      modifies this`step, this`causes, file
      ensures if stop.Some? then Over(from, stop.value) else Going(from, attempts, stepsRun, didReset)
      ensures stop.None? ==>
                || (!reset && didReset)
                || (reset == didReset && Progress(old(Pending(file.table, file.steps)), tried,
                                                  Pending(file.table, file.steps), attempts))
    {
      hide Inv, BlockedByUnknown, Pending, FewTries, AllStarted, Capped, TestsFailed, OnlyCapped, Progress, Underway;
      ghost var was := file.table;
      NoneCapped(was, file.steps);
      var now, allDone;
      stop, attempts, now, allDone := Advance(tried);
      UnderwayByCall(from.table, was, file.table, file.steps, ran > 0, reset);
      stepsRun, didReset := ran + if now then 1 else 0, reset;
      if stop.Some? { return; }
      if allDone {
        if stepsRun == 0 && !didReset {
          stop := ResetStale();
          FreshUnblocked(file.steps);
          if stop.Some? { return; }
          didReset := true;
          NoneStarted(file.started);
          NothingTried(Pending(file.table, file.steps));
          return;
        }
        stop := Some(Completed);
      }
    }

    /** `_run_full` up to its ingest; every `return` is one of its terminal events. */
    method RunFull() returns (ending: Ending)
      requires WellFormed(file.steps) && file.Listed() && Inv(file.Now()) && causes == {}
      modifies this`step, this`causes, file
      ensures Over(Mark(old(file.table), old(file.launches), old(file.unconfirmed), old(file.resets)), ending)
    {
      var attempts: Attempts := map[];
      var stepsRun: nat := 0;
      var didReset := false;
      ghost var from := Mark(file.table, file.launches, file.unconfirmed, file.resets);
      NothingTried(Pending(file.table, file.steps));
      NoneStarted(file.started);
      JustUnderway(file.table, file.steps);
      assert Going(from, attempts, stepsRun, didReset);
      hide *;
      while true
        invariant Going(from, attempts, stepsRun, didReset)
        invariant file.Listed()
        decreases !didReset, |Pending(file.table, file.steps)|,
                  |Untried(attempts, Pending(file.table, file.steps))|
      {
        var stop := Halted(from, attempts, stepsRun, didReset);
        if stop.Some? { return stop.value; }

        var capped := CappedStep();
        if capped.Some? {
          stop := SkipTurn(from, capped.value, attempts, stepsRun, didReset);
        } else {
          ghost var pending, tried, wasReset := Pending(file.table, file.steps), attempts, didReset;
          stop, attempts, stepsRun, didReset := CallTurn(from, attempts, stepsRun, didReset);
          if stop.None? && didReset == wasReset {
            ProgressMeasure(pending, tried, Pending(file.table, file.steps), attempts);
          }
        }
        if stop.Some? { return stop.value; }
      }
    }
  }

  /** Where the file stood when a run began. */
  datatype Mark = Mark(table: Table, launches: nat, unconfirmed: nat, resets: nat)

  /** No pending step has used up its tries in this run. */
  ghost predicate FewTries(attempts: Attempts, pending: set<Step>) {
    forall s :: s in pending ==> Counted(attempts, s) < STEP_ATTEMPT_CAP
  }

  /** What the run counts for a step, it has really been started since the last reset. */
  ghost predicate AllStarted(attempts: Attempts, started: multiset<Step>) {
    forall s :: Counted(attempts, s) <= started[s]
  }

  lemma NoneStarted(started: multiset<Step>)
    ensures AllStarted(map[], started)
  {
  }

  lemma CappedWasStarted(h: History, s: Step)
    requires Inv(h) && Capped(h.table, s)
    ensures h.started[s] >= 2 && !Succeeded(h.table, s)
  {
    assert Tries(h.table, s) >= 2;
  }

  lemma PendingNeverSucceeded(h: History, steps: seq<Step>, s: Step)
    requires Inv(h)
    ensures s in Pending(h.table, steps) ==> !Succeeded(h.table, s)
  {
  }

  lemma StartsGrow(tried: Attempts, h: History, steps: seq<Step>, after: Table, reach: Reach, finished: bool)
    requires AllStarted(tried, h.started)
    ensures AllStarted(tried, AfterNext(h, steps, after, reach, finished).started)
    ensures AfterNext(h, steps, after, reach, finished).returned == (h.returned && finished)
  {
  }

  /** One more try of the step that was started, or as many as its record holds. */
  lemma TriedOnceMore(
    tried: Attempts, h: History, steps: seq<Step>, after: Table, reach: Reach, finished: bool, attempts: Attempts)
    requires AllStarted(tried, h.started) && NextName(h.table, steps).Some? && reach != NotStarted
    requires Inv(AfterNext(h, steps, after, reach, finished))
    requires var s := NextName(h.table, steps).value;
             && attempts == tried[s := Counted(attempts, s)]
             && Counted(attempts, s) in {Counted(tried, s) + 1, Tries(after, s)}
    ensures AllStarted(attempts, AfterNext(h, steps, after, reach, finished).started)
  {
    var s := NextName(h.table, steps).value;
    var now := AfterNext(h, steps, after, reach, finished);
    assert Tries(now.table, s) <= now.started[s];
  }

  /** The last execution of the tests failed. */
  ghost predicate TestsFailed(t: Table) {
    TESTS in t && !t[TESTS].done && |t[TESTS].attempts| > 0
    && t[TESTS].attempts[|t[TESTS].attempts| - 1] != 0
  }

  /** What an answer that ends the run tells of the call. */
  lemma AnswerMeans(
    steps: seq<Step>, before: Table, after: Table, reach: Reach, finished: bool, rc: Option<int>, seen: Output)
    requires NextMay(steps, before, after, reach, finished, rc, seen)
    ensures seen.fixturesFailed ==> TestsFailed(after)
    ensures !seen.fixturesFailed && rc.Some? && rc.value != 0 ==> !finished
    ensures seen.marker.None? && !seen.allDone ==> !finished
    ensures rc == Some(0) && seen.marker.Some? ==> seen.progress.Some?
  {
    var name := NextName(before, steps);
    if name.Some? && reach == Saved {
      var code: int :| && after == Executed(before, name.value, code)
                       && (if finished then
                             && seen == FullOutput(steps, after, name.value, code)
                             && rc == Some(if name.value == TESTS && code != 0 then 2 else 0)
                           else Glimpse(FullOutput(steps, after, name.value, code), seen));
    }
  }

  /** What the answer of a call says about the table before it and the table it left. */
  ghost predicate Told(
    steps: seq<Step>, before: Table, after: Table, returned: bool, rc: Option<int>, seen: Output)
  {
    && (seen.allDone || seen.progress == Some(None) ==>
          && Pending(after, steps) == {}
          && (seen.marker.None? ==> Pending(before, steps) == {}))
    && (rc.Some? && rc.value != 0 ==> !returned)
    && (seen.marker.None? ==> seen.allDone || !returned)
    && (seen.marker.Some? ==>
          var s := seen.marker.value;
          && s in steps && s in Pending(before, steps)
          && Pending(after, steps) in {Pending(before, steps), Pending(before, steps) - {s}}
          && (rc.None? ==> !returned)
          && (rc == Some(0) ==>
                && seen.progress.Some?
                && (seen.progress == Some(Some(s)) ==> s != TESTS && s in Pending(after, steps))
                && (seen.progress != Some(Some(s)) ==> s !in Pending(after, steps))))
  }

  lemma AnswerTells(
    steps: seq<Step>, before: Table, after: Table, returned: bool, reach: Reach, finished: bool,
    rc: Option<int>, seen: Output)
    requires NextMay(steps, before, after, reach, finished, rc, seen) && !seen.fixturesFailed
    requires returned ==> finished
    ensures Told(steps, before, after, returned, rc, seen)
  {
    hide NextMay, Pending;
    AnswerMeans(steps, before, after, reach, finished, rc, seen);
    if seen.allDone || seen.progress == Some(None) {
      AllDoneSeen(steps, before, after, reach, finished, rc, seen);
    }
    if seen.marker.Some? {
      DeadCall(steps, before, after, reach, finished, rc, seen);
      PendingIsKnown(before, steps, seen.marker.value);
      if rc == Some(0) {
        FinishedCall(steps, before, after, reach, finished, seen);
      }
    }
  }

  /** Every step of the sweep is done or out of attempts. */
  ghost predicate OnlyCapped(t: Table, steps: seq<Step>) {
    forall s :: s in Pending(t, steps) ==> Capped(t, s)
  }

  /** From `first` to `t` nothing happened but skips of capped steps. */
  ghost predicate SkippedSince(first: Table, t: Table, steps: seq<Step>) {
    && Pending(t, steps) <= Pending(first, steps)
    && forall s :: s in Pending(first, steps) ==>
         if s in Pending(t, steps) then Capped(t, s) == Capped(first, s) else Capped(first, s)
  }

  /**
   How a run of the whole sweep stands: whether it has run a step, and whether it has reset a
   table that held nothing but done and capped steps when it began.
   */
  ghost predicate Underway(first: Table, t: Table, steps: seq<Step>, ran: bool, didReset: bool) {
    && (didReset ==> OnlyCapped(first, steps))
    && (ran && !didReset ==> !OnlyCapped(first, steps))
    && (!ran && !didReset ==> SkippedSince(first, t, steps))
    && (!ran && didReset ==> t == map[])
  }

  lemma JustUnderway(t: Table, steps: seq<Step>)
    ensures Underway(t, t, steps, false, false)
  {
  }

  lemma UnderwayBySkip(first: Table, t: Table, steps: seq<Step>, s: Step, ran: bool, didReset: bool)
    requires Underway(first, t, steps, ran, didReset) && Capped(t, s) && s in steps
    ensures Underway(first, Skipped(t, s), steps, ran, didReset)
  {
    CappedIsPending(t, steps, s);
    SkipShrinks(t, steps, s);
    assert forall x :: x != s ==> Capped(Skipped(t, s), x) == Capped(t, x);
  }

  /** With nothing capped left, what is pending was pending and not capped at the start. */
  lemma UnderwayByCall(first: Table, t: Table, after: Table, steps: seq<Step>, ran: bool, didReset: bool)
    requires WellFormed(steps) && Underway(first, t, steps, ran, didReset)
    requires forall s :: !Capped(t, s)
    ensures if ran || Pending(t, steps) != {} then
              Underway(first, after, steps, true, didReset) && (didReset <==> OnlyCapped(first, steps))
            else
              !didReset && OnlyCapped(first, steps) && Underway(first, map[], steps, false, true)
  {
    if !ran && didReset {
      FreshIsPending(steps);
    }
    if !ran && !didReset && Pending(t, steps) != {} {
      var s :| s in Pending(t, steps);
      assert s in Pending(first, steps) && !Capped(first, s);
    }
  }

  /** Fewer pending steps, or as many and fewer of them untried. */
  ghost predicate Progress(before: set<Step>, tried: Attempts, after: set<Step>, attempts: Attempts) {
    || |after| < |before|
    || (after == before && |Untried(attempts, after)| < |Untried(tried, before)|)
  }

  lemma ProgressMeasure(before: set<Step>, tried: Attempts, after: set<Step>, attempts: Attempts)
    requires Progress(before, tried, after, attempts)
    ensures |after| < |before|
            || (|after| == |before| && |Untried(attempts, after)| < |Untried(tried, before)|)
  {
  }

  lemma NothingTried(pending: set<Step>)
    ensures FewTries(map[], pending)
  {
  }

  lemma FreshIsPending(steps: seq<Step>)
    requires WellFormed(steps)
    ensures Pending(map[], steps) != {}
  {
    assert steps[0] in Pending(map[], steps);
  }

  lemma CappedSkipped(t: Table, steps: seq<Step>, s: Step, attempts: Attempts)
    requires Capped(t, s) && s in steps && FewTries(attempts, Pending(t, steps))
    ensures |Pending(Skipped(t, s), steps)| < |Pending(t, steps)|
    ensures FewTries(attempts, Pending(Skipped(t, s), steps))
  {
    CappedIsPending(t, steps, s);
    SkipShrinks(t, steps, s);
  }

  lemma SkipProgress(before: set<Step>, tried: Attempts, attempts: Attempts, s: Step)
    requires s in before && FewTries(tried, before)
    requires attempts == tried[s := Counted(attempts, s)]
    ensures FewTries(attempts, before - {s}) && Progress(before, tried, before - {s}, attempts)
  {
    assert |before - {s}| < |before|;
  }

  /** The record of a step that is no longer part of the sweep has reached the cap. */
  ghost predicate BlockedByUnknown(t: Table, steps: seq<Step>) {
    exists s :: Capped(t, s) && s !in steps
  }

  lemma NoneCapped(t: Table, steps: seq<Step>)
    ensures (forall s :: !Capped(t, s)) ==> !BlockedByUnknown(t, steps)
    ensures BlockedByUnknown(t, steps) ==> exists s :: Capped(t, s)
  {
  }

  lemma FreshUnblocked(steps: seq<Step>)
    ensures !BlockedByUnknown(map[], steps)
  {
  }

  /** A call only changes the record of a step of the sweep. */
  lemma NextKeepsUnblocked(
    steps: seq<Step>, before: Table, after: Table, reach: Reach, finished: bool,
    rc: Option<int>, seen: Output)
    requires NextMay(steps, before, after, reach, finished, rc, seen)
    requires forall s :: !Capped(before, s)
    ensures !BlockedByUnknown(after, steps)
  {
    var name := NextName(before, steps);
    assert name.Some? ==> name.value in steps;
    if name.Some? && reach == Saved {
      var code: int :| after == Executed(before, name.value, code);
      assert forall s :: s !in steps ==> (Capped(after, s) <==> Capped(before, s));
    }
  }

  lemma PendingIsKnown(t: Table, steps: seq<Step>, s: Step)
    requires s in Pending(t, steps)
    ensures s in steps
  {
  }

  lemma SkipKeepsUnblocked(t: Table, steps: seq<Step>, s: Step)
    requires s in steps && !BlockedByUnknown(t, steps)
    ensures !BlockedByUnknown(Skipped(t, s), steps)
  {
  }

  /** Skipping a known step does not touch the record that blocks. */
  lemma SkipKeepsBlocked(t: Table, after: Table, steps: seq<Step>, s: Step)
    requires if s in steps then after in {t, Skipped(t, s)} else after == t
    ensures BlockedByUnknown(after, steps) <==> BlockedByUnknown(t, steps)
  {
    assert forall x :: x !in steps ==> (Capped(after, x) <==> Capped(t, x));
  }

  /**
   A known and an unknown capped record: the first run may skip the known one, and this run and
   every later one ends at the unknown one.
   */
  lemma KnownAndUnknownBlock()
    ensures var capped := Record(false, [1, 1], false);
            var t := map["score" := capped, "retired" := capped];
            && Capped(t, "score") && BlockedByUnknown(t, ["tests", "score"])
            && BlockedByUnknown(Skipped(t, "score"), ["tests", "score"])
  {
    var capped := Record(false, [1, 1], false);
    var t := map["score" := capped, "retired" := capped];
    assert Capped(t, "retired") && "retired" !in ["tests", "score"] by {
      assert |"retired"| == 7;
    }
    assert Capped(Skipped(t, "score"), "retired") by {
      assert "retired" != "score" by {
        assert |"score"| == 5;
      }
    }
  }

  /**
   Any number of runs, each by a runner that has forgotten the ones before it and may have
   stopped anywhere: no step but the tests is ever started a third time between resets if every
   started step was recorded, and none is started before the tests have passed if every
   `--next` came back. What was skipped had been started twice, and had not succeeded if every
   `--next` came back.
   */
  method Restarts(file: StateFile, runs: nat)
    requires WellFormed(file.steps) && file.Listed() && Inv(file.Now())
    modifies file
    ensures file.Listed() && Inv(file.Now())
    ensures file.recorded ==> forall s :: s != TESTS ==> file.started[s] <= 2
    ensures file.returned ==>
              forall s :: s != TESTS && file.started[s] > 0 ==> TestsPassed(file.table)
    ensures forall s :: WasSkipped(file.table, s) ==>
              file.started[s] >= 2 && (file.returned ==> !Succeeded(file.table, s))
  {
    for i := 0 to runs
      invariant file.Listed() && Inv(file.Now())
    {
      var runner := new Runner(file);
      var ending, entered := runner.Run();
    }
  }
}
