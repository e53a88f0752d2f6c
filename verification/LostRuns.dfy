/**
 What can still happen after a cancel when the supervisor of a run may be lost
 (runservice.py:844-850, 984-986). A settled run is out of the active table, where the scoring
 thread looks for the flag, so the thread goes on from wherever it was. Here are the exact
 states from which it closes its pass, and from which a second operation commits.
 */
module LostRuns {
  import opened Wrappers
  import opened RunSupervision
  import opened RunVerdicts

  /** The scoring thread still has something to do. */
  predicate Moving(w: Worker) {
    !w.Idle? && !w.Returned?
  }

  /** How many more operations the thread may commit, 2 standing for any number. */
  function CommitsLeft(w: Worker): nat {
    if !Moving(w) then 0
    else if w in {Checking(ClosePass), Ready(ClosePass)} then 1
    else 2
  }

  /** The supervisor is past its last look at the flag, and the thread is about to start. */
  predicate AboutToScore(r: Run) {
    r.pc == AppendScoringStarted && !r.settled
  }

  // ------------------------------------------------------- what cannot happen any more

  predicate NeverCloses(r: Run) {
    r.cancelRequested && !r.closed && !Moving(r.worker) && !AboutToScore(r)
  }

  predicate NoSecondCommit(r: Run) {
    r.cancelRequested && r.opsAfterCancel + CommitsLeft(r.worker) < 2 && !AboutToScore(r)
  }

  lemma NeverClosesStays(r: Run, a: Action)
    requires NeverCloses(r) && Act(r, a).Some?
    ensures NeverCloses(Act(r, a).value)
  {
  }

  lemma NoSecondCommitStays(r: Run, a: Action)
    requires RunOk(r) && NoSecondCommit(r) && Act(r, a).Some?
    ensures NoSecondCommit(Act(r, a).value)
  {
    hide OutcomeTells, StagesTell;
  }

  lemma {:induction false} NeverClosesLater(es: seq<Event>, late: seq<Event>, u: Uid)
    requires Reached(es, u) && NeverCloses(RunAt(es, u)) && Exec(IDLE, es + late).Some?
    ensures Reached(es + late, u) && NeverCloses(RunAt(es + late, u))
    decreases |late|
  {
    if late == [] {
      assert es + late == es;
    } else {
      hide Exec, Step, Act, NeverCloses;
      OneEventBack(es, late, u);
      NeverClosesLater(es, late[..|late| - 1], u);
      var s, last := Exec(IDLE, es + late[..|late| - 1]).value, late[|late| - 1];
      RunsStay(s, last, u);
      if Exec(IDLE, es + late).value.runs[u] != s.runs[u] {
        NeverClosesStays(s.runs[u], last.action);
      }
    }
  }

  lemma {:induction false} NoSecondCommitLater(es: seq<Event>, late: seq<Event>, u: Uid)
    requires Reached(es, u) && NoSecondCommit(RunAt(es, u)) && Exec(IDLE, es + late).Some?
    ensures Reached(es + late, u) && NoSecondCommit(RunAt(es + late, u))
    decreases |late|
  {
    if late == [] {
      assert es + late == es;
    } else {
      hide Exec, Step, Act, RunOk, NoSecondCommit;
      OneEventBack(es, late, u);
      NoSecondCommitLater(es, late[..|late| - 1], u);
      ReachedRunOk(es + late[..|late| - 1], u);
      var s, last := Exec(IDLE, es + late[..|late| - 1]).value, late[|late| - 1];
      RunsStay(s, last, u);
      if Exec(IDLE, es + late).value.runs[u] != s.runs[u] {
        NoSecondCommitStays(s.runs[u], last.action);
      }
    }
  }

  // ------------------------------------------------------------ what still can happen

  /** One more action of run `u`. */
  lemma Then(es: seq<Event>, u: Uid, a: Action)
    requires Reached(es, u) && Act(RunAt(es, u), a).Some?
    ensures Reached(es + [On(u, a)], u)
    ensures RunAt(es + [On(u, a)], u) == Act(RunAt(es, u), a).value
  {
    hide Act;
    assert (es + [On(u, a)])[..|es|] == es;
  }

  /** A step of the thread that brings it closer to closing the pass. */
  function TowardClose(w: Worker): Action {
    if w.Checking? then WorkerChecks else if w == Selecting then PageSelected(false) else WorkerCommits
  }

  function StepsToClose(w: Worker): nat {
    match w
    case Ready(ClosePass) => 1
    case Checking(ClosePass) => 2
    case Selecting => 3
    case Checking(ScorePage) => 4
    case Ready(ScorePage) => 5
    case Ready(ResolvePass) => 5
    case Checking(ResolvePass) => 6
    case Ready(BridgeLegacyUrls) => 7
    case Checking(BridgeLegacyUrls) => 8
    case Ready(OpenPass) => 9
    case Checking(OpenPass) => 10
    case _ => 0
  }

  lemma StepTowardClose(r: Run)
    requires r.settled && Moving(r.worker)
    ensures Act(r, TowardClose(r.worker)).Some?
    ensures var n := Act(r, TowardClose(r.worker)).value;
            && n.settled && n.cancelRequested == r.cancelRequested
            && (n.closed || (Moving(n.worker) && StepsToClose(n.worker) < StepsToClose(r.worker)))
  {
  }

  /** On its own, the thread of a settled run closes the pass. */
  lemma {:induction false} LeftAloneItCloses(es: seq<Event>, u: Uid) returns (late: seq<Event>)
    requires Reached(es, u) && RunAt(es, u).settled && Moving(RunAt(es, u).worker)
    ensures Reached(es + late, u) && RunAt(es + late, u).closed
    decreases StepsToClose(RunAt(es, u).worker)
  {
    var r := RunAt(es, u);
    var a := TowardClose(r.worker);
    StepTowardClose(r);
    Then(es, u, a);
    hide Exec, Act;
    late := [On(u, a)];
    if !RunAt(es + late, u).closed {
      var rest := LeftAloneItCloses(es + late, u);
      assert es + late + rest == es + (late + rest);
      late := late + rest;
    }
  }

  /** A step of the thread that brings it closer to its next commit, without ending the pages. */
  function TowardCommit(w: Worker): Action {
    if w == Selecting then PageSelected(true) else TowardClose(w)
  }

  function StepsToCommit(w: Worker): nat {
    if w.Checking? then 2 + (if w.next == ScorePage then 1 else 0) else if w == Selecting then 1 else 0
  }

  lemma StepTowardCommit(r: Run)
    requires r.settled && r.cancelRequested && Moving(r.worker)
    ensures Act(r, TowardCommit(r.worker)).Some?
    ensures var n := Act(r, TowardCommit(r.worker)).value;
            && n.settled && n.cancelRequested
            && (if r.worker.Ready? then
                  n.opsAfterCancel == r.opsAfterCancel + 1
                  && (CommitsLeft(r.worker) == 2 ==> CommitsLeft(n.worker) == 2)
                else
                  n.opsAfterCancel == r.opsAfterCancel && CommitsLeft(n.worker) == CommitsLeft(r.worker)
                  && StepsToCommit(n.worker) < StepsToCommit(r.worker))
  {
  }

  lemma {:induction false} LeftAloneItCommits(es: seq<Event>, u: Uid) returns (late: seq<Event>)
    requires Reached(es, u) && RunAt(es, u).settled && RunAt(es, u).cancelRequested
    requires RunAt(es, u).opsAfterCancel + CommitsLeft(RunAt(es, u).worker) >= 2
    ensures Reached(es + late, u) && RunAt(es + late, u).opsAfterCancel >= 2
    decreases if RunAt(es, u).opsAfterCancel < 2 then 2 - RunAt(es, u).opsAfterCancel else 0,
              StepsToCommit(RunAt(es, u).worker)
  {
    var r := RunAt(es, u);
    if r.opsAfterCancel >= 2 {
      late := [];
      assert es + late == es;
    } else {
      var a := TowardCommit(r.worker);
      StepTowardCommit(r);
      Then(es, u, a);
      hide Exec, Act;
      var rest := LeftAloneItCommits(es + [On(u, a)], u);
      late := [On(u, a)] + rest;
      assert es + [On(u, a)] + rest == es + late;
    }
  }

  /** Losing the supervisor settles the run and leaves the thread where it is. */
  lemma LoseIt(es: seq<Event>, u: Uid) returns (late: seq<Event>)
    requires Reached(es, u) && RunAt(es, u).cancelRequested
    requires Moving(RunAt(es, u).worker) || AboutToScore(RunAt(es, u))
    ensures Reached(es + late, u)
    ensures var n := RunAt(es + late, u);
            && n.settled && n.cancelRequested && n.opsAfterCancel == RunAt(es, u).opsAfterCancel
            && Moving(n.worker)
            && n.worker == if AboutToScore(RunAt(es, u)) then Ready(OpenPass) else RunAt(es, u).worker
  {
    ReachedRunOk(es, u);
    var r := RunAt(es, u);
    late := [];
    assert es + late == es;
    if AboutToScore(r) {
      Then(es, u, AppendReturns);
      late := [On(u, AppendReturns)];
    }
    hide RunOk;
    if !RunAt(es + late, u).settled {
      Then(es + late, u, SupervisorDies);
      assert es + late + [On(u, SupervisorDies)] == es + (late + [On(u, SupervisorDies)]);
      late := late + [On(u, SupervisorDies)];
    }
  }

  // ---------------------------------------------------------------- the exact conditions

  /** Some continuation closes the pass of run `u`. */
  ghost predicate MayClose(es: seq<Event>, u: Uid) {
    exists late :: Reached(es + late, u) && RunAt(es + late, u).closed
  }

  /** In some continuation a second operation commits after the cancel. */
  ghost predicate MayCommitTwice(es: seq<Event>, u: Uid) {
    exists late :: Reached(es + late, u) && RunAt(es + late, u).opsAfterCancel >= 2
  }

  /**
   After a cancel the pass can still be closed exactly when it is closed, or the thread is at
   work, or the supervisor is past its last look at the flag before starting it.
   */
  lemma CloseAfterCancel(es: seq<Event>, u: Uid)
    requires Reached(es, u) && RunAt(es, u).cancelRequested
    ensures MayClose(es, u) <==>
            RunAt(es, u).closed || Moving(RunAt(es, u).worker) || AboutToScore(RunAt(es, u))
  {
    var r := RunAt(es, u);
    hide Exec, Act;
    if r.closed {
      assert es + [] == es;
    } else if Moving(r.worker) || AboutToScore(r) {
      var first := LoseIt(es, u);
      var after := LeftAloneItCloses(es + first, u);
      assert es + first + after == es + (first + after);
    } else {
      forall late | Reached(es + late, u) ensures !RunAt(es + late, u).closed {
        NeverClosesLater(es, late, u);
      }
    }
  }

  /** And a second late commit, by the operations the thread may still commit. */
  lemma SecondLateCommit(es: seq<Event>, u: Uid)
    requires Reached(es, u) && RunAt(es, u).cancelRequested
    ensures MayCommitTwice(es, u) <==>
            || RunAt(es, u).opsAfterCancel + CommitsLeft(RunAt(es, u).worker) >= 2
            || AboutToScore(RunAt(es, u))
  {
    var r := RunAt(es, u);
    hide Exec, Act;
    if r.opsAfterCancel >= 2 {
      assert es + [] == es;
    } else if r.opsAfterCancel + CommitsLeft(r.worker) >= 2 || AboutToScore(r) {
      var first := LoseIt(es, u);
      var after := LeftAloneItCommits(es + first, u);
      assert es + first + after == es + (first + after);
    } else {
      forall late | Reached(es + late, u) ensures RunAt(es + late, u).opsAfterCancel < 2 {
        NoSecondCommitLater(es, late, u);
      }
    }
  }

  /** For a run whose supervisor is already lost only the thread's place counts. */
  lemma AfterTheLoss(es: seq<Event>, u: Uid)
    requires Reached(es, u) && RunAt(es, u).died && RunAt(es, u).cancelRequested
    ensures MayClose(es, u) <==> RunAt(es, u).closed || Moving(RunAt(es, u).worker)
    ensures MayCommitTwice(es, u) <==> RunAt(es, u).opsAfterCancel + CommitsLeft(RunAt(es, u).worker) >= 2
  {
    ReachedRunOk(es, u);
    CloseAfterCancel(es, u);
    SecondLateCommit(es, u);
  }

  // --------------------------------------------------------------------- the witness

  /**
   The loss is real: the flag is up before the first operation commits, the supervisor is lost,
   and the thread commits four operations, the last of them the close.
   */
  lemma LostSupervisorClosesThePass()
    ensures exists es, late ::
      && Reached(es, 1) && CloseBarred(RunAt(es, 1)) && !RunAt(es, 1).died
      && Reached(es + late, 1) && RunAt(es + late, 1).closed && RunAt(es + late, 1).opsAfterCancel == 4
  {
    var es := ScoringIsReached();
    Then(es, 1, Cancel);
    es := es + [On(1, Cancel)];
    var r := RunAt(es, 1);
    hide Exec;
    var late := [On(1, SupervisorDies)];
    Then(es, 1, SupervisorDies);
    r := r.(settled := true, died := true);
    late := CommitAndCheck(es, late, r, BridgeLegacyUrls);
    r := r.(worker := Ready(BridgeLegacyUrls), opsAfterCancel := 1);
    late := CommitAndCheck(es, late, r, ResolvePass);
    r := r.(worker := Ready(ResolvePass), opsAfterCancel := 2);
    CloseAtOnce(es + late, r, 5);
    assert es + late + Events(5) == es + (late + Events(5));
  }

  /** A lost thread commits one operation and finds nothing to stop it before the next. */
  lemma CommitAndCheck(es: seq<Event>, late: seq<Event>, r: Run, next: Op) returns (more: seq<Event>)
    requires Reached(es + late, 1) && RunAt(es + late, 1) == r
    requires r.settled && r.cancelRequested && r.worker.Ready? && AfterCommit(r.worker.op) == Checking(next)
    requires next in {BridgeLegacyUrls, ResolvePass}
    ensures Reached(es + more, 1)
    ensures RunAt(es + more, 1) == r.(worker := Ready(next), opsAfterCancel := r.opsAfterCancel + 1)
  {
    more := late + [On(1, WorkerCommits)] + [On(1, WorkerChecks)];
    Then(es + late, 1, WorkerCommits);
    Then(es + late + [On(1, WorkerCommits)], 1, WorkerChecks);
    hide Exec;
    assert es + more == es + late + [On(1, WorkerCommits)] + [On(1, WorkerChecks)];
  }

  /** The thread's way from the resolve to the close when no page has work. */
  function OnItsWay(r: Run, n: nat): Run {
    if n == 0 then r
    else if n == 1 then r.(worker := Checking(ScorePage), opsAfterCancel := r.opsAfterCancel + 1)
    else if n == 2 then OnItsWay(r, 1).(worker := Selecting)
    else if n == 3 then OnItsWay(r, 1).(worker := Checking(ClosePass))
    else if n == 4 then OnItsWay(r, 1).(worker := Ready(ClosePass))
    else r.(worker := Returned(StageOk), closed := true, opsAfterCancel := r.opsAfterCancel + 2)
  }

  const WAY: seq<Action> := [WorkerCommits, WorkerChecks, PageSelected(false), WorkerChecks, WorkerCommits]

  lemma OneOnItsWay(r: Run, n: nat)
    requires r.settled && r.cancelRequested && r.worker == Ready(ResolvePass) && n < 5
    ensures Act(OnItsWay(r, n), WAY[n]) == Some(OnItsWay(r, n + 1))
  {
    if n == 0 || n == 4 {
      assert WAY[n] == WorkerCommits;
    } else if n == 2 {
      assert WAY[n] == PageSelected(false);
    } else {
      assert WAY[n] == WorkerChecks;
    }
  }

  function Events(n: nat): seq<Event>
    requires n <= 5
  {
    if n == 0 then [] else Events(n - 1) + [On(1, WAY[n - 1])]
  }

  /** From there on, with no page of work, it commits twice more. */
  lemma {:induction false} CloseAtOnce(es: seq<Event>, r: Run, n: nat)
    requires Reached(es, 1) && RunAt(es, 1) == r && n <= 5
    requires r.settled && r.cancelRequested && r.worker == Ready(ResolvePass)
    ensures Reached(es + Events(n), 1) && RunAt(es + Events(n), 1) == OnItsWay(r, n)
  {
    if n == 0 {
      assert es + Events(0) == es;
    } else {
      CloseAtOnce(es, r, n - 1);
      OneOnItsWay(r, n - 1);
      hide Exec, Act, OnItsWay;
      Then(es + Events(n - 1), 1, WAY[n - 1]);
      assert es + Events(n - 1) + [On(1, WAY[n - 1])] == es + Events(n);
    }
  }
}
