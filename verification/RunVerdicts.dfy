/**
 What holds of supervised runs in every reachable state and after every continuation
 (runservice.py), and the windows in which a cancel comes too late.
 */
module RunVerdicts {
  import opened Wrappers
  import opened RunSupervision

  predicate Reached(es: seq<Event>, u: Uid) {
    Exec(IDLE, es).Some? && u in Exec(IDLE, es).value.runs
  }

  function RunAt(es: seq<Event>, u: Uid): Run
    requires Reached(es, u)
  {
    Exec(IDLE, es).value.runs[u]
  }

  lemma ReachedRunOk(es: seq<Event>, u: Uid)
    requires Reached(es, u)
    ensures RunOk(RunAt(es, u))
  {
    EveryInterleaving(es);
    hide RunOk;
  }

  /** At most one unsettled run per exclusion group, and settled runs are out of the table. */
  lemma OneUnsettledPerGroup(es: seq<Event>, u: Uid, v: Uid)
    requires Reached(es, u) && Reached(es, v)
    requires !RunAt(es, u).settled && !RunAt(es, v).settled
    requires GroupOf(RunAt(es, u).kind) == GroupOf(RunAt(es, v).kind)
    ensures u == v && u in Exec(IDLE, es).value.active
  {
    EveryInterleaving(es);
    hide RunOk;
    assert u in Exec(IDLE, es).value.active && v in Exec(IDLE, es).value.active;
  }

  lemma {:induction false} SettledRunsLeave(es: seq<Event>, u: Uid)
    requires Reached(es, u)
    ensures u in Exec(IDLE, es).value.active <==> !RunAt(es, u).settled
  {
    EveryInterleaving(es);
    hide RunOk;
  }

  /** Once a cancel is accepted at most one more graph operation commits. */
  lemma AtMostOneLateCommit(es: seq<Event>, u: Uid)
    requires Reached(es, u) && !RunAt(es, u).died
    ensures RunAt(es, u).opsAfterCancel <= 1
  {
    ReachedRunOk(es, u);
  }

  /**
   What a finished run reports: "cancelled" exactly when a cancel was accepted before the
   outcome was computed, or the fetch itself was cancelled.
   */
  lemma SettledOutcome(es: seq<Event>, u: Uid)
    requires Reached(es, u) && RunAt(es, u).settled && !RunAt(es, u).died
    ensures var r := RunAt(es, u);
            && r.outcome.Some? && r.fetch.Some?
            && (r.outcome.value == Cancelled <==> r.cancelledInTime || r.fetch.value == FetchCancelled)
  {
    ReachedRunOk(es, u);
  }

  /** A staged run that settles as its fetch did has run every stage, and closed its pass. */
  lemma PlainMeansAllStagesRan(es: seq<Event>, u: Uid)
    requires Reached(es, u)
    requires Staged(RunAt(es, u).kind) && RunAt(es, u).outcome in {Some(Plain(Succeeded)), Some(Plain(Partial))}
    ensures var r := RunAt(es, u);
            && r.fetch == Some(r.outcome.value.fetch)
            && r.enrichment == Some(StageOk) && r.scoring == Some(StageOk) && r.closed
  {
    ReachedRunOk(es, u);
    hide Exec;
    PlainRun(RunAt(es, u));
  }

  lemma PlainRun(r: Run)
    requires RunOk(r) && Staged(r.kind) && r.outcome in {Some(Plain(Succeeded)), Some(Plain(Partial))}
    ensures r.fetch == Some(r.outcome.value.fetch)
    ensures r.enrichment == Some(StageOk) && r.scoring == Some(StageOk) && r.closed
  {
    assert OutcomeKnown(r.pc);
    assert r.scoring.Some? && r.enrichment.Some?;
    assert r.enrichment.value !in {StageFailed, StageCancelled, StageSkipped};
    assert r.scoring.value !in {StageFailed, StageCancelled, StageSkipped};
    assert r.enrichment.value.StageOk? && r.scoring.value.StageOk?;
  }

  /** No stage runs after a fetch that failed or was cancelled, or for an unstaged kind. */
  lemma StagesNeedALicence(es: seq<Event>, u: Uid)
    requires Reached(es, u) && (RunAt(es, u).enrichmentStarted || RunAt(es, u).scoringStarted)
    ensures Staged(RunAt(es, u).kind)
    ensures RunAt(es, u).fetch in {Some(Succeeded), Some(Partial)}
  {
    ReachedRunOk(es, u);
  }

  // -- what a cancel rules out from then on

  /** The flag is up and the worker has not passed its check before `ClosePass`. */
  predicate CloseBarred(r: Run) {
    r.cancelRequested && !r.closed && r.worker != Ready(ClosePass)
  }

  predicate ScoringBarred(r: Run) {
    r.cancelRequested && !r.scoringStarted && r.pc != AppendScoringStarted
  }

  predicate EnrichmentBarred(r: Run) {
    r.cancelRequested && !r.enrichmentStarted && r.pc != AppendEnrichStarted
  }

  predicate CancelBinds(r: Run) {
    r.cancelRequested && (r.outcome.None? || r.outcome.value == Cancelled)
  }

  lemma CloseStaysBarred(r: Run, a: Action)
    requires RunOk(r) && CloseBarred(r) && !r.died
    requires Act(r, a).Some? && !Act(r, a).value.died
    ensures CloseBarred(Act(r, a).value)
  {
    hide Licensed;
    hide OneOpLate;
    hide OutcomeTells;
    hide StagesTell;
  }

  lemma ScoringStaysBarred(r: Run, a: Action)
    requires ScoringBarred(r) && Act(r, a).Some?
    ensures ScoringBarred(Act(r, a).value)
  {
    hide WorkerActs;
    if WorkerActs(r, a).Some? {
      WorkerBarsNothing(r, a);
    }
  }

  lemma WorkerBarsNothing(r: Run, a: Action)
    requires WorkerActs(r, a).Some?
    ensures var n := WorkerActs(r, a).value;
            && n.cancelRequested == r.cancelRequested && n.pc == r.pc && n.outcome == r.outcome
            && n.scoringStarted == r.scoringStarted && n.enrichmentStarted == r.enrichmentStarted
  {
  }

  lemma EnrichmentStaysBarred(r: Run, a: Action)
    requires EnrichmentBarred(r) && Act(r, a).Some?
    ensures EnrichmentBarred(Act(r, a).value)
  {
    hide WorkerActs;
    if WorkerActs(r, a).Some? {
      WorkerBarsNothing(r, a);
    }
  }

  lemma CancelStaysBinding(r: Run, a: Action)
    requires CancelBinds(r) && Act(r, a).Some?
    ensures CancelBinds(Act(r, a).value)
  {
    hide WorkerActs;
    if WorkerActs(r, a).Some? {
      WorkerBarsNothing(r, a);
    }
  }

  /** `late` continues `es`, and the run is still in reach one event before its end. */
  lemma OneEventBack(es: seq<Event>, late: seq<Event>, u: Uid)
    requires Reached(es, u) && Exec(IDLE, es + late).Some? && late != []
    ensures Exec(IDLE, es + late[..|late| - 1]).Some?
    ensures Step(Exec(IDLE, es + late[..|late| - 1]).value, late[|late| - 1]) == Exec(IDLE, es + late)
  {
    assert (es + late)[..|es + late| - 1] == es + late[..|late| - 1];
  }

  lemma RunsStay(s: Service, e: Event, u: Uid)
    requires u in s.runs && Step(s, e).Some?
    ensures u in Step(s, e).value.runs
    ensures Step(s, e).value.runs[u] == s.runs[u]
            || (e == On(u, e.action) && Act(s.runs[u], e.action) == Some(Step(s, e).value.runs[u]))
  {
    hide Act;
  }

  /** Whatever happens after a cancel that came before the close check: the pass never closes. */
  lemma {:induction false} ClosePassNeverCommits(es: seq<Event>, late: seq<Event>, u: Uid)
    requires Reached(es, u) && CloseBarred(RunAt(es, u)) && Exec(IDLE, es + late).Some?
    ensures Reached(es + late, u)
    ensures !RunAt(es + late, u).died ==> CloseBarred(RunAt(es + late, u))
    decreases |late|
  {
    if late == [] {
      assert es + late == es;
    } else {
      hide Exec;
      hide Step;
      hide Act;
      hide RunOk;
      hide CloseBarred;
      var init, last := es + late[..|late| - 1], late[|late| - 1];
      OneEventBack(es, late, u);
      ClosePassNeverCommits(es, late[..|late| - 1], u);
      var s := Exec(IDLE, init).value;
      RunsStay(s, last, u);
      ReachedRunOk(init, u);
      var r, n := s.runs[u], Exec(IDLE, es + late).value.runs[u];
      if n != r {
        SettledStays(r, last.action);
        if !n.died {
          CloseStaysBarred(r, last.action);
        }
      }
    }
  }

  /** A cancel that is up at the scoring boundary, or before it, keeps scoring from starting. */
  lemma {:induction false} ScoringNeverStarts(es: seq<Event>, late: seq<Event>, u: Uid)
    requires Reached(es, u) && ScoringBarred(RunAt(es, u)) && Exec(IDLE, es + late).Some?
    ensures Reached(es + late, u) && ScoringBarred(RunAt(es + late, u))
    decreases |late|
  {
    if late == [] {
      assert es + late == es;
    } else {
      hide Exec;
      hide Step;
      hide Act;
      hide ScoringBarred;
      OneEventBack(es, late, u);
      ScoringNeverStarts(es, late[..|late| - 1], u);
      var s, last := Exec(IDLE, es + late[..|late| - 1]).value, late[|late| - 1];
      RunsStay(s, last, u);
      if Exec(IDLE, es + late).value.runs[u] != s.runs[u] {
        ScoringStaysBarred(s.runs[u], last.action);
      }
    }
  }

  /** A cancel accepted before the fetch settles keeps enrichment from starting. */
  lemma {:induction false} EnrichmentNeverStarts(es: seq<Event>, late: seq<Event>, u: Uid)
    requires Reached(es, u) && EnrichmentBarred(RunAt(es, u)) && Exec(IDLE, es + late).Some?
    ensures Reached(es + late, u) && EnrichmentBarred(RunAt(es + late, u))
    decreases |late|
  {
    if late == [] {
      assert es + late == es;
    } else {
      hide Exec;
      hide Step;
      hide Act;
      hide EnrichmentBarred;
      OneEventBack(es, late, u);
      EnrichmentNeverStarts(es, late[..|late| - 1], u);
      var s, last := Exec(IDLE, es + late[..|late| - 1]).value, late[|late| - 1];
      RunsStay(s, last, u);
      if Exec(IDLE, es + late).value.runs[u] != s.runs[u] {
        EnrichmentStaysBarred(s.runs[u], last.action);
      }
    }
  }

  /** A cancel accepted before the outcome is computed decides it, whatever happens later. */
  lemma {:induction false} CancelDecidesOutcome(es: seq<Event>, late: seq<Event>, u: Uid)
    requires Reached(es, u) && CancelBinds(RunAt(es, u)) && Exec(IDLE, es + late).Some?
    ensures Reached(es + late, u) && CancelBinds(RunAt(es + late, u))
    decreases |late|
  {
    if late == [] {
      assert es + late == es;
    } else {
      hide Exec;
      hide Step;
      hide Act;
      hide CancelBinds;
      OneEventBack(es, late, u);
      CancelDecidesOutcome(es, late[..|late| - 1], u);
      var s, last := Exec(IDLE, es + late[..|late| - 1]).value, late[|late| - 1];
      RunsStay(s, last, u);
      if Exec(IDLE, es + late).value.runs[u] != s.runs[u] {
        CancelStaysBinding(s.runs[u], last.action);
      }
    }
  }

  // -- the windows a cancel can fall into

  /** A service with a single run. */
  function Solo(r: Run): Service {
    Service(map[1 := r], if r.settled then {} else {1}, false)
  }

  lemma SoloAdmitted(kind: Kind)
    ensures Exec(IDLE, [Admit(1, kind)]) == Some(Solo(NewRun(kind)))
  {
    assert [Admit(1, kind)][..0] == [];
    assert Exec(IDLE, []) == Some(IDLE);
    assert IDLE.runs[1 := NewRun(kind)] == map[1 := NewRun(kind)];
    assert IDLE.active + {1} == {1};
  }

  lemma SoloThen(es: seq<Event>, r: Run, a: Action, n: Run)
    requires Exec(IDLE, es) == Some(Solo(r)) && Act(r, a) == Some(n)
    requires r.settled ==> n.settled
    ensures Exec(IDLE, es + [On(1, a)]) == Some(Solo(n))
  {
    hide Act;
    assert (es + [On(1, a)])[..|es|] == es;
    assert Solo(r).runs[1 := n] == map[1 := n];
    assert n.settled ==> Solo(r).active - {1} == {};
  }

  /** A cancel accepted while the settled event is being appended is not in the outcome. */
  lemma CancelDuringSettledAppend()
    ensures exists es :: Reached(es, 1) && RunAt(es, 1).settled && !RunAt(es, 1).died
              && RunAt(es, 1).cancelRequested && RunAt(es, 1).outcome == Some(Plain(Succeeded))
  {
    var e1, r1 := [Admit(1, Aggregators)], NewRun(Aggregators);
    SoloAdmitted(Aggregators);
    var e2, r2 := e1 + [On(1, FetchSettles(Succeeded))], r1.(fetch := Some(Succeeded), pc := AppendSkipped);
    SoloThen(e1, r1, FetchSettles(Succeeded), r2);
    var e3, r3 := e2 + [On(1, AppendReturns)], Appended(r2).value;
    SoloThen(e2, r2, AppendReturns, r3);
    var e4, r4 := e3 + [On(1, Cancel)], r3.(cancelRequested := true);
    SoloThen(e3, r3, Cancel, r4);
    var e5, r5 := e4 + [On(1, AppendReturns)], r4.(pc := Finished, settled := true);
    SoloThen(e4, r4, AppendReturns, r5);
    hide Exec;
    assert Reached(e5, 1) && RunAt(e5, 1) == r5;
  }

  /** A cancel that lands while the enrichment-started event is appended: enrichment still runs. */
  lemma CancelDuringEnrichmentStart()
    ensures exists es :: Reached(es, 1) && RunAt(es, 1).cancelRequested
              && RunAt(es, 1).pc == EnrichDone(StageOk)
  {
    var e1, r1 := [Admit(1, Daily)], NewRun(Daily);
    SoloAdmitted(Daily);
    var e2, r2 := e1 + [On(1, FetchSettles(Succeeded))], r1.(fetch := Some(Succeeded), pc := AppendEnrichStarted);
    SoloThen(e1, r1, FetchSettles(Succeeded), r2);
    var e3, r3 := e2 + [On(1, Cancel)], Cancelling(r2);
    SoloThen(e2, r2, Cancel, r3);
    var e4, r4 := e3 + [On(1, AppendReturns)], r3.(pc := Enriching, enrichmentStarted := true);
    SoloThen(e3, r3, AppendReturns, r4);
    var e5, r5 := e4 + [On(1, EnrichEnds(StageOk))], r4.(pc := EnrichDone(StageOk));
    SoloThen(e4, r4, EnrichEnds(StageOk), r5);
    hide Exec;
    assert Reached(e5, 1) && RunAt(e5, 1) == r5;
  }

  /** A daily run whose scoring thread is about to commit its first operation. */
  function AtScoring(): Run {
    NewRun(Daily).(
      pc := Scoring, worker := Ready(OpenPass), fetch := Some(Succeeded), enrichment := Some(StageOk),
      enrichmentStarted := true, scoringStarted := true)
  }

  lemma ScoringIsReached() returns (es: seq<Event>)
    ensures Exec(IDLE, es) == Some(Solo(AtScoring()))
  {
    var r1 := NewRun(Daily);
    SoloAdmitted(Daily);
    es := [Admit(1, Daily)];
    var r2 := r1.(fetch := Some(Succeeded), pc := AppendEnrichStarted);
    SoloThen(es, r1, FetchSettles(Succeeded), r2);
    es := es + [On(1, FetchSettles(Succeeded))];
    var r3 := r2.(pc := Enriching, enrichmentStarted := true);
    SoloThen(es, r2, AppendReturns, r3);
    es := es + [On(1, AppendReturns)];
    var r4 := r3.(pc := EnrichDone(StageOk));
    SoloThen(es, r3, EnrichEnds(StageOk), r4);
    es := es + [On(1, EnrichEnds(StageOk))];
    var r5 := r4.(pc := AppendScoringStarted, enrichment := Some(StageOk));
    SoloThen(es, r4, SupervisorResumes, r5);
    es := es + [On(1, SupervisorResumes)];
    SoloThen(es, r5, AppendReturns, AtScoring());
    es := es + [On(1, AppendReturns)];
    hide Exec;
  }

  /**
   Why `AtMostOneLateCommit` needs the supervisor alive: its loss takes the run out of the
   active table, where the worker looks for the flag, and the worker then goes on committing.
   */
  lemma LostSupervisorLosesTheCancel()
    ensures exists es :: Reached(es, 1) && RunAt(es, 1).cancelRequested && RunAt(es, 1).opsAfterCancel == 2
  {
    var es := ScoringIsReached();
    var r1 := Cancelling(AtScoring());
    SoloThen(es, AtScoring(), Cancel, r1);
    es := es + [On(1, Cancel)];
    var r2 := r1.(settled := true, died := true);
    SoloThen(es, r1, SupervisorDies, r2);
    es := es + [On(1, SupervisorDies)];
    var r3 := r2.(worker := Checking(BridgeLegacyUrls), opsAfterCancel := 1);
    SoloThen(es, r2, WorkerCommits, r3);
    es := es + [On(1, WorkerCommits)];
    var r4 := r3.(worker := Ready(BridgeLegacyUrls));
    SoloThen(es, r3, WorkerChecks, r4);
    es := es + [On(1, WorkerChecks)];
    var r5 := r4.(worker := AfterCommit(BridgeLegacyUrls), opsAfterCancel := 2);
    SoloThen(es, r4, WorkerCommits, r5);
    es := es + [On(1, WorkerCommits)];
    hide Exec;
    assert Reached(es, 1) && RunAt(es, 1) == r5;
  }
}
