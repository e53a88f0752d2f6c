/**
 Which runs the service lets in, which cancels it takes, and which runs go through the stages
 (runservice.py:156-170, 471-492, 679-718, 750-834): told from the kinds of the runs and the
 events so far.
 */
module RunAdmission {
  import opened Wrappers
  import opened RunSupervision
  import opened RunVerdicts

  // -------------------------------------------------------------------- admission

  ghost predicate AdmittedIn(es: seq<Event>, u: Uid) {
    exists kind :: Admit(u, kind) in es
  }

  /** The last word about the legacy runner was that it runs. */
  predicate LegacySaidToRun(es: seq<Event>) {
    es != []
    && if es[|es| - 1].LegacyTurns? then es[|es| - 1].running else LegacySaidToRun(es[..|es| - 1])
  }

  /** Both fetch from the aggregators, or neither does. */
  predicate SameLane(a: Kind, b: Kind) {
    a == Aggregators <==> b == Aggregators
  }

  lemma LanesAreGroups(a: Kind, b: Kind)
    ensures GroupOf(a) == GroupOf(b) <==> SameLane(a, b)
  {
  }

  lemma {:induction false} RunsAreAdmitted(es: seq<Event>)
    requires Exec(IDLE, es).Some?
    ensures forall u :: u in Exec(IDLE, es).value.runs <==> AdmittedIn(es, u)
    ensures Exec(IDLE, es).value.legacyRunning == LegacySaidToRun(es)
  {
    if es != [] {
      var init, last := es[..|es| - 1], es[|es| - 1];
      assert es == init + [last];
      RunsAreAdmitted(init);
      hide Act, LegacySaidToRun;
      forall u ensures AdmittedIn(es, u) <==> AdmittedIn(init, u) || (last.Admit? && last.uid == u) {
        assert last.Admit? ==> last == Admit(last.uid, last.kind) && last in es;
      }
      hide AdmittedIn;
      LegacyOneMore(init, last);
    }
  }

  lemma LegacyOneMore(init: seq<Event>, last: Event)
    ensures LegacySaidToRun(init + [last]) == if last.LegacyTurns? then last.running else LegacySaidToRun(init)
  {
    assert (init + [last])[..|init|] == init;
  }

  /**
   A run is let in exactly when its uid is new, the legacy runner is not said to run, and every
   run of the same lane has settled.
   */
  lemma AdmittedIff(es: seq<Event>, u: Uid, kind: Kind)
    requires Exec(IDLE, es).Some?
    ensures Exec(IDLE, es + [Admit(u, kind)]).Some? <==>
              && !AdmittedIn(es, u) && !LegacySaidToRun(es)
              && forall v :: Reached(es, v) && SameLane(RunAt(es, v).kind, kind) ==> RunAt(es, v).settled
    ensures Exec(IDLE, es + [Admit(u, kind)]).Some? ==>
              Reached(es + [Admit(u, kind)], u) && RunAt(es + [Admit(u, kind)], u).kind == kind
  {
    RunsAreAdmitted(es);
    EveryInterleaving(es);
    assert (es + [Admit(u, kind)])[..|es|] == es;
    var s := Exec(IDLE, es).value;
    hide Exec, Act, RunOk, AdmittedIn, LegacySaidToRun;
    forall v | v in s.runs ensures GroupOf(s.runs[v].kind) == GroupOf(kind) <==> SameLane(s.runs[v].kind, kind) {
      LanesAreGroups(s.runs[v].kind, kind);
    }
    hide GroupOf, SameLane;
    if Conflict(s, kind) && !s.legacyRunning {
      var v :| v in s.active && v in s.runs && !s.runs[v].settled && GroupOf(s.runs[v].kind) == GroupOf(kind);
      assert Reached(es, v) && !RunAt(es, v).settled;
    }
    forall v | Reached(es, v) && !RunAt(es, v).settled ensures v in s.active {
      assert v in s.runs;
    }
  }

  // ----------------------------------------------------------------------- cancel

  /** A cancel is taken exactly while its run has not settled, and raises the flag for good. */
  lemma CancelTakenIff(es: seq<Event>, u: Uid)
    requires Exec(IDLE, es).Some?
    ensures Exec(IDLE, es + [On(u, Cancel)]).Some? <==> Reached(es, u) && !RunAt(es, u).settled
    ensures Exec(IDLE, es + [On(u, Cancel)]).Some? ==>
              Reached(es + [On(u, Cancel)], u) && RunAt(es + [On(u, Cancel)], u).cancelRequested
  {
    assert (es + [On(u, Cancel)])[..|es|] == es;
    hide WorkerActs, SupervisorActs;
  }

  /** Enrichment is stopped by a cancel that finds it running, and never ends as cancelled without one. */
  lemma CancelStopsEnrichment(es: seq<Event>, u: Uid)
    requires Reached(es, u) && RunAt(es, u).pc == Enriching && !RunAt(es, u).settled
    ensures Exec(IDLE, es + [On(u, EnrichEnds(StageCancelled))]).None?
    ensures Exec(IDLE, es + [On(u, Cancel)] + [On(u, EnrichEnds(StageCancelled))]).Some?
    ensures forall result :: result in {StageOk, StageFailed} ==>
              Exec(IDLE, es + [On(u, EnrichEnds(result))]).Some?
              && Exec(IDLE, es + [On(u, Cancel)] + [On(u, EnrichEnds(result))]).Some?
  {
    var ended := On(u, EnrichEnds(StageCancelled));
    EndsOfEnrichment(RunAt(es, u));
    hide Act, Exec;
    CancelTakenIff(es, u);
    Then(es, ended);
    Then(es, On(u, Cancel));
    Then(es + [On(u, Cancel)], ended);
    forall result | result in {StageOk, StageFailed}
      ensures Exec(IDLE, es + [On(u, EnrichEnds(result))]).Some?
              && Exec(IDLE, es + [On(u, Cancel)] + [On(u, EnrichEnds(result))]).Some?
    {
      Then(es, On(u, EnrichEnds(result)));
      Then(es + [On(u, Cancel)], On(u, EnrichEnds(result)));
    }
  }

  lemma EndsOfEnrichment(r: Run)
    requires r.pc == Enriching && !r.settled
    ensures Act(r, Cancel).Some? && Act(r, EnrichEnds(StageCancelled)).None?
    ensures forall result :: result in {StageOk, StageFailed, StageCancelled} ==>
              Act(Act(r, Cancel).value, EnrichEnds(result)).Some?
    ensures forall result :: result in {StageOk, StageFailed} ==> Act(r, EnrichEnds(result)).Some?
  {
    hide WorkerActs, Appended;
  }

  lemma Then(es: seq<Event>, e: Event)
    requires Exec(IDLE, es).Some?
    ensures Exec(IDLE, es + [e]) == Step(Exec(IDLE, es).value, e)
  {
    assert (es + [e])[..|es|] == es;
    hide Step;
  }

  // ----------------------------------------------------------------------- stages

  /** A stage with a result of its own has been started. */
  ghost predicate StartsTold(r: Run) {
    && (r.pc.Enriching? || r.pc.EnrichCancelling? || r.pc.EnrichDone? || r.pc.AppendEnrichCancelled? ==>
          r.enrichmentStarted)
    && (r.pc.AppendScoringNotStarted? || r.pc.AppendScoringStarted? || r.pc.Scoring? || r.pc.AppendScoringEnd? ==>
          r.enrichmentStarted)
    && (OutcomeKnown(r.pc) ==>
          && (r.enrichment in {Some(StageOk), Some(StageFailed)} ==> r.enrichmentStarted)
          && (r.scoring in {Some(StageOk), Some(StageFailed)} ==> r.scoringStarted))
  }

  lemma ActKeepsStarts(r: Run, a: Action)
    requires RunOk(r) && StartsTold(r) && Act(r, a).Some?
    ensures StartsTold(Act(r, a).value)
  {
    hide OneOpLate, OutcomeTells;
    if WorkerActs(r, a).Some? {
      WorkerPlace(r, a);
      hide WorkerActs, SupervisorActs, RunOk;
    } else {
      hide WorkerActs;
    }
  }

  lemma WorkerPlace(r: Run, a: Action)
    requires WorkerActs(r, a).Some?
    ensures var n := WorkerActs(r, a).value;
            && n.pc == r.pc && n.enrichmentStarted == r.enrichmentStarted && n.scoringStarted == r.scoringStarted
            && n.enrichment == r.enrichment && n.scoring == r.scoring
  {
  }

  lemma {:induction false} ReachedStarts(es: seq<Event>, u: Uid)
    requires Reached(es, u)
    ensures StartsTold(RunAt(es, u))
  {
    var init, last := es[..|es| - 1], es[|es| - 1];
    var s := Exec(IDLE, init).value;
    if u in s.runs {
      ReachedStarts(init, u);
      ReachedRunOk(init, u);
      hide RunOk, StartsTold;
      if last.On? && last.uid == u {
        ActKeepsStarts(s.runs[u], last.action);
      }
    }
    hide Act;
  }

  /**
   Of the runs that end without a cancel, those that went through both stages are the daily and
   full-direct ones with a fetch that brought something; the others started neither.
   */
  lemma StagedIff(es: seq<Event>, u: Uid)
    requires Reached(es, u) && RunAt(es, u).outcome.Some? && RunAt(es, u).outcome != Some(Cancelled)
    ensures var r := RunAt(es, u);
            var staged := r.kind in {Daily, FullDirect} && r.fetch in {Some(Succeeded), Some(Partial)};
            r.enrichmentStarted == staged && r.scoringStarted == staged
  {
    ReachedStarts(es, u);
    ReachedRunOk(es, u);
    hide Exec;
    StagedOutcome(RunAt(es, u));
  }

  lemma StagedOutcome(r: Run)
    requires RunOk(r) && StartsTold(r) && r.outcome.Some? && r.outcome != Some(Cancelled)
    ensures r.enrichmentStarted == r.scoringStarted
         == (r.kind in {Daily, FullDirect} && r.fetch in {Some(Succeeded), Some(Partial)})
  {
    assert OutcomeKnown(r.pc);
    if Staged(r.kind) && r.fetch in {Some(Succeeded), Some(Partial)} {
      assert r.enrichment.value != StageSkipped && r.enrichment.value != StageCancelled;
      assert r.scoring.value != StageSkipped && r.scoring.value != StageCancelled;
      assert r.enrichment.value.StageOk? || r.enrichment.value.StageFailed?;
      assert r.scoring.value.StageOk? || r.scoring.value.StageFailed?;
    }
  }
}
