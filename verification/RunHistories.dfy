/**
 What the history of a supervised run says about how it ended (runservice.py:750-851,
 1030-1121): its outcome, told from its events alone; the operations its pass committed, in
 order; and that no history leaves it stuck.
 */
module RunHistories {
  import opened Wrappers
  import opened RunSupervision
  import opened RunVerdicts
  import LostRuns

  // ------------------------------------------------------------- what the events say

  /** A cancel was accepted while the outcome was still open. */
  ghost predicate CancelledInTime(es: seq<Event>, u: Uid) {
    exists i :: 0 <= i < |es| && es[i] == On(u, Cancel) && OpenAt(es, i, u)
  }

  predicate OpenAt(es: seq<Event>, i: nat, u: Uid)
    requires i <= |es|
  {
    Reached(es[..i], u) && RunAt(es[..i], u).outcome.None?
  }

  predicate StageFailedIn(es: seq<Event>, u: Uid) {
    On(u, EnrichEnds(StageFailed)) in es || On(u, OpFails) in es
  }

  /** What a history has said of a run so far. */
  datatype Said = Said(fetch: Option<Fetch>, enrichFailed: bool, opFailed: bool, inTime: bool) {
    function Then(r: Run, a: Action): Said {
      Said(
        if a.FetchSettles? then Some(a.fetch) else fetch,
        enrichFailed || a == EnrichEnds(StageFailed),
        opFailed || a == OpFails,
        inTime || (a == Cancel && r.outcome.None?))
    }
  }

  /** The fields of a run repeat what was said. */
  predicate FieldsTell(r: Run, said: Said) {
    && r.fetch == said.fetch
    && r.cancelledInTime == said.inTime
    && (said.enrichFailed <==> r.pc == EnrichDone(StageFailed) || r.enrichment == Some(StageFailed))
    && (said.opFailed <==>
          r.worker == Returned(StageFailed) || r.pc == AppendScoringEnd(StageFailed) || r.scoring == Some(StageFailed))
    && (r.enrichment.Some? ==> r.pc == AppendScoringNotStarted || !BeforeBoundary(r.pc))
  }

  /** The outcome, once there is one, is what was said. */
  predicate OutcomeFits(r: Run, said: Said) {
    r.outcome.Some? ==>
      && said.fetch.Some?
      && r.outcome.value ==
         if said.inTime || said.fetch == Some(FetchCancelled) then Cancelled
         else if said.enrichFailed || said.opFailed then Degraded
         else Plain(said.fetch.value)
  }

  lemma InTimeOneMore(es: seq<Event>, e: Event, u: Uid)
    ensures CancelledInTime(es + [e], u) <==>
            CancelledInTime(es, u) || (e == On(u, Cancel) && Reached(es, u) && RunAt(es, u).outcome.None?)
  {
    var all := es + [e];
    assert all[..|es|] == es;
    hide Exec;
    assert forall i :: 0 <= i < |es| ==> all[i] == es[i] && all[..i] == es[..i];
    if CancelledInTime(es, u) {
      var i :| 0 <= i < |es| && es[i] == On(u, Cancel) && OpenAt(es, i, u);
      assert OpenAt(all, i, u);
    }
    if e == On(u, Cancel) && Reached(es, u) && RunAt(es, u).outcome.None? {
      assert all[|es|] == On(u, Cancel) && OpenAt(all, |es|, u);
    }
    if CancelledInTime(all, u) {
      var i :| 0 <= i < |all| && all[i] == On(u, Cancel) && OpenAt(all, i, u);
      assert i < |es| ==> OpenAt(es, i, u);
    }
  }

  lemma WorkerTells(r: Run, a: Action, said: Said)
    requires RunOk(r) && FieldsTell(r, said) && OutcomeFits(r, said) && WorkerActs(r, a).Some?
    ensures FieldsTell(WorkerActs(r, a).value, said.Then(r, a))
    ensures OutcomeFits(WorkerActs(r, a).value, said.Then(r, a))
  {
    hide Licensed, OneOpLate, OutcomeTells;
  }

  lemma SettleTells(r: Run, said: Said)
    requires Coherent(r) && OutcomeTells(r) && r.fetch == said.fetch && r.fetch.Some?
    requires r.outcome.None? && r.cancelledInTime == said.inTime && r.worker == Idle
    requires r.enrichment == Some(StageFailed) <==> said.enrichFailed
    requires r.scoring == Some(StageFailed) <==> said.opFailed
    ensures FieldsTell(Settle(r), said) && OutcomeFits(Settle(r), said)
  {
  }

  lemma AppendedTells(r: Run, said: Said)
    requires RunOk(r) && !r.settled && r.fetch.Some? && Appended(r).Some?
    requires FieldsTell(r, said) && OutcomeFits(r, said)
    ensures FieldsTell(Appended(r).value, said) && OutcomeFits(Appended(r).value, said)
  {
    hide Licensed, OneOpLate;
    match r.pc
    case AppendSkipped =>
      SettleTells(r.(enrichment := Some(StageSkipped), scoring := Some(StageSkipped)), said);
    case AppendScoringNotStarted => SettleTells(r.(scoring := Some(StageCancelled)), said);
    case AppendScoringEnd(result) => SettleTells(r.(scoring := Some(result)), said);
    case _ => hide Settle;
  }

  lemma SupervisorTells(r: Run, a: Action, said: Said)
    requires RunOk(r) && !r.settled && SupervisorActs(r, a).Some?
    requires FieldsTell(r, said) && OutcomeFits(r, said)
    ensures FieldsTell(SupervisorActs(r, a).value, said.Then(r, a))
    ensures OutcomeFits(SupervisorActs(r, a).value, said.Then(r, a))
  {
    if a == AppendReturns {
      AppendedTells(r, said);
      hide RunOk, FieldsTell, OutcomeFits;
    }
    hide Appended, Licensed, OneOpLate;
  }

  /** One action of the run. */
  lemma ActTells(r: Run, a: Action, said: Said)
    requires RunOk(r) && FieldsTell(r, said) && OutcomeFits(r, said) && Act(r, a).Some?
    ensures FieldsTell(Act(r, a).value, said.Then(r, a)) && OutcomeFits(Act(r, a).value, said.Then(r, a))
  {
    if a == Cancel || a == SupervisorDies {
      hide WorkerActs, SupervisorActs, Licensed, OneOpLate;
    } else {
      hide RunOk, FieldsTell, OutcomeFits, WorkerActs, SupervisorActs;
      if WorkerActs(r, a).Some? {
        WorkerTells(r, a, said);
      }
      if !r.settled && SupervisorActs(r, a).Some? {
        SupervisorTells(r, a, said);
      }
    }
  }

  // -------------------------------------------------------------------- the outcome

  ghost function SaidIn(es: seq<Event>, u: Uid, fetch: Option<Fetch>): Said {
    Said(fetch, On(u, EnrichEnds(StageFailed)) in es, On(u, OpFails) in es, CancelledInTime(es, u))
  }

  ghost predicate FetchSaid(es: seq<Event>, u: Uid, fetch: Option<Fetch>) {
    forall f :: On(u, FetchSettles(f)) in es <==> fetch == Some(f)
  }

  /** No event of a run comes before its admission. */
  lemma {:induction false} NoneBefore(es: seq<Event>, u: Uid)
    requires Exec(IDLE, es).Some? && u !in Exec(IDLE, es).value.runs
    ensures forall a :: On(u, a) !in es
  {
    if es != [] {
      var init, last := es[..|es| - 1], es[|es| - 1];
      hide Act;
      NoneBefore(init, u);
      assert forall e :: e in es <==> e in init || e == last;
    }
  }

  lemma {:induction false} HistoryTells(es: seq<Event>, u: Uid)
    requires Reached(es, u)
    ensures var r := RunAt(es, u);
            && FetchSaid(es, u, r.fetch)
            && FieldsTell(r, SaidIn(es, u, r.fetch)) && OutcomeFits(r, SaidIn(es, u, r.fetch))
  {
    var init, last := es[..|es| - 1], es[|es| - 1];
    assert es == init + [last];
    var s := Exec(IDLE, init).value;
    if u !in s.runs {
      NoneBefore(init, u);
      NoneInTime(init, u);
      hide Act;
      SaidStays(init, u, last, None);
    } else {
      HistoryTells(init, u);
      ReachedRunOk(init, u);
      var r, n := s.runs[u], RunAt(es, u);
      hide *;
      if last.On? && last.uid == u {
        OwnStep(s, last);
        FetchOnce(r, last.action);
        ActTells(r, last.action, SaidIn(init, u, r.fetch));
        SaidThen(init, u, last.action, r.fetch, n.fetch);
      } else {
        OthersStep(s, last, u);
        SaidStays(init, u, last, r.fetch);
      }
    }
  }

  lemma NoneInTime(es: seq<Event>, u: Uid)
    requires forall a :: On(u, a) !in es
    ensures !CancelledInTime(es, u)
  {
    assert forall i :: 0 <= i < |es| ==> es[i] in es;
  }

  lemma SaidThen(init: seq<Event>, u: Uid, a: Action, fetch: Option<Fetch>, fetch': Option<Fetch>)
    requires Reached(init, u) && (if a.FetchSettles? then fetch.None? && fetch' == Some(a.fetch) else fetch' == fetch)
    requires FetchSaid(init, u, fetch)
    ensures FetchSaid(init + [On(u, a)], u, fetch')
    ensures SaidIn(init + [On(u, a)], u, fetch') == SaidIn(init, u, fetch).Then(RunAt(init, u), a)
  {
    var es := init + [On(u, a)];
    assert forall e :: e in es <==> e in init || e == On(u, a);
    InTimeOneMore(init, On(u, a), u);
    hide CancelledInTime, Exec;
  }

  lemma SaidStays(init: seq<Event>, u: Uid, e: Event, fetch: Option<Fetch>)
    requires FetchSaid(init, u, fetch) && !(e.On? && e.uid == u)
    ensures FetchSaid(init + [e], u, fetch) && SaidIn(init + [e], u, fetch) == SaidIn(init, u, fetch)
  {
    var es := init + [e];
    assert forall x :: x in es <==> x in init || x == e;
    InTimeOneMore(init, e, u);
    hide CancelledInTime, Exec;
  }

  lemma OwnStep(s: Service, e: Event)
    requires e.On? && Step(s, e).Some?
    ensures e.uid in s.runs && Act(s.runs[e.uid], e.action) == Some(Step(s, e).value.runs[e.uid])
  {
    hide Act;
  }

  lemma OthersStep(s: Service, e: Event, u: Uid)
    requires Step(s, e).Some? && u in s.runs && !(e.On? && e.uid == u)
    ensures Step(s, e).value.runs[u] == s.runs[u]
  {
    hide Act;
  }

  /** A fetch settles once. */
  lemma FetchOnce(r: Run, a: Action)
    requires RunOk(r) && Act(r, a).Some?
    ensures a.FetchSettles? ==> r.fetch.None? && Act(r, a).value.fetch == Some(a.fetch)
    ensures !a.FetchSettles? ==> Act(r, a).value.fetch == r.fetch
  {
    hide Licensed, OneOpLate, OutcomeTells, StagesTell;
  }

  /**
   How a run ended, from its events: cancelled if a cancel was accepted while the outcome was
   open or the fetch was cancelled; otherwise degraded exactly if enrichment ended in a failure
   or an operation of the pass failed; otherwise as its fetch settled.
   */
  lemma OutcomeFromHistory(es: seq<Event>, u: Uid)
    requires Reached(es, u) && RunAt(es, u).outcome.Some?
    ensures var outcome := RunAt(es, u).outcome.value;
            var cancelled := CancelledInTime(es, u) || On(u, FetchSettles(FetchCancelled)) in es;
            && (outcome == Cancelled <==> cancelled)
            && (outcome == Degraded <==> !cancelled && StageFailedIn(es, u))
            && (forall f :: outcome == Plain(f) <==>
                  !cancelled && !StageFailedIn(es, u) && On(u, FetchSettles(f)) in es)
  {
    HistoryTells(es, u);
  }

  // ------------------------------------------------------------- what was committed

  /** The operations a run's thread has committed, in order. */
  ghost function Committed(es: seq<Event>, u: Uid): seq<Op> {
    if es == [] then []
    else
      var init, last := es[..|es| - 1], es[|es| - 1];
      Committed(init, u)
      + if last == On(u, WorkerCommits) && Reached(init, u) && RunAt(init, u).worker.Ready? then
          [RunAt(init, u).worker.op] else []
  }

  function Pages(n: nat): seq<Op> {
    if n == 0 then [] else Pages(n - 1) + [ScorePage]
  }

  const FIRST: seq<Op> := [OpenPass, BridgeLegacyUrls, ResolvePass]

  /** How many pages of work the thread has found. */
  function PagesFound(es: seq<Event>, u: Uid): nat {
    if es == [] then 0
    else PagesFound(es[..|es| - 1], u) + if es[|es| - 1] == On(u, PageSelected(true)) then 1 else 0
  }

  predicate FoundNoMore(es: seq<Event>, u: Uid) {
    On(u, PageSelected(false)) in es
  }

  /** `ops` is a beginning of a pass over `found` pages, and `w` is where the thread stands after it. */
  predicate InPass(ops: seq<Op>, w: Worker, closed: bool, found: nat, noMore: bool) {
    if closed then ops == FIRST + Pages(found) + [ClosePass] && noMore && (w.Idle? || w.Returned?)
    else if |ops| < 3 then
      && found == 0 && ops == FIRST[..|ops|] && w != Selecting && w != Returned(StageOk)
      && (w.Ready? ==> w.op == FIRST[|ops|])
      && (w.Checking? ==> w.next == FIRST[|ops|])
    else
      && w != Returned(StageOk)
      && (w.Ready? ==> w.op in {ScorePage, ClosePass})
      && (w.Checking? ==> w.next in {ScorePage, ClosePass})
      && (w in {Ready(ClosePass), Checking(ClosePass)} ==> noMore)
      && (if w == Ready(ScorePage) then found > 0 && ops == FIRST + Pages(found - 1)
          else ops == FIRST + Pages(found)
               || (found > 0 && (w.Idle? || w.Returned?) && ops == FIRST + Pages(found - 1)))
  }

  lemma WorkerInPass(r: Run, a: Action, ops: seq<Op>, found: nat, noMore: bool)
    requires RunOk(r) && InPass(ops, r.worker, r.closed, found, noMore) && WorkerActs(r, a).Some?
    ensures var n := WorkerActs(r, a).value;
            InPass(ops + (if a == WorkerCommits then [r.worker.op] else []), n.worker, n.closed,
                   found + (if a == PageSelected(true) then 1 else 0), noMore || a == PageSelected(false))
  {
    hide RunOk;
    assert ops + [] == ops;
    if a == WorkerCommits {
      var all := ops + [r.worker.op];
      if |ops| < 3 {
        assert all == FIRST[..|ops| + 1];
        assert |ops| == 2 ==> all == FIRST + Pages(0);
      } else if r.worker.op == ScorePage {
        assert all == FIRST + (Pages(found - 1) + [ScorePage]);
      }
    }
  }

  lemma OthersInPass(r: Run, a: Action, ops: seq<Op>, found: nat, noMore: bool)
    requires RunOk(r) && InPass(ops, r.worker, r.closed, found, noMore) && (!r.scoringStarted ==> ops == [])
    requires Act(r, a).Some? && WorkerActs(r, a).None?
    ensures var n := Act(r, a).value;
            && InPass(ops, n.worker, n.closed, found, noMore)
            && n.closed == r.closed && (!n.scoringStarted ==> ops == [])
  {
    hide OneOpLate, OutcomeTells, StagesTell;
    assert FIRST[..0] == [];
  }

  /** Whatever happens, the thread commits a pass in its order: each found page once, then the close. */
  lemma {:induction false} CommittedInOrder(es: seq<Event>, u: Uid)
    requires Reached(es, u)
    ensures var r := RunAt(es, u);
            && InPass(Committed(es, u), r.worker, r.closed, PagesFound(es, u), FoundNoMore(es, u))
            && (!r.scoringStarted ==> Committed(es, u) == [])
  {
    hide RunOk, Act, InPass, Committed, PagesFound, WorkerActs, FoundNoMore;
    var init, last := es[..|es| - 1], es[|es| - 1];
    assert es == init + [last];
    var s := Exec(IDLE, init).value;
    if u !in s.runs {
      NoneBefore(init, u);
      AdmitStep(s, last, u);
      hide *;
      NothingDone(init, u);
      DoneStays(init, last, u);
      NewInPass(last.kind);
    } else {
      CommittedInOrder(init, u);
      ReachedRunOk(init, u);
      var r := s.runs[u];
      hide *;
      if last.On? && last.uid == u {
        OwnStep(s, last);
        DoneThen(init, u, last.action);
        if WorkerActs(r, last.action).Some? {
          WorkerInPass(r, last.action, Committed(init, u), PagesFound(init, u), FoundNoMore(init, u));
          WorkerStarted(r, last.action);
        } else {
          OthersInPass(r, last.action, Committed(init, u), PagesFound(init, u), FoundNoMore(init, u));
          NotAWorkerAction(r, last.action);
          assert Committed(init, u) + [] == Committed(init, u);
        }
      } else {
        OthersStep(s, last, u);
        DoneStays(init, last, u);
      }
    }
  }

  lemma AdmitStep(s: Service, e: Event, u: Uid)
    requires Step(s, e).Some? && u !in s.runs && u in Step(s, e).value.runs
    ensures e == Admit(u, e.kind) && Step(s, e).value.runs[u] == NewRun(e.kind)
  {
    hide Act;
  }

  lemma NewInPass(kind: Kind)
    ensures InPass([], NewRun(kind).worker, NewRun(kind).closed, 0, false)
  {
    assert FIRST[..0] == [];
  }

  lemma DoneThen(init: seq<Event>, u: Uid, a: Action)
    requires Reached(init, u)
    ensures var es, w := init + [On(u, a)], RunAt(init, u).worker;
            && Committed(es, u) == Committed(init, u) + (if a == WorkerCommits && w.Ready? then [w.op] else [])
            && PagesFound(es, u) == PagesFound(init, u) + (if a == PageSelected(true) then 1 else 0)
            && (FoundNoMore(es, u) <==> FoundNoMore(init, u) || a == PageSelected(false))
  {
    var es := init + [On(u, a)];
    assert es[..|init|] == init;
    hide Exec;
  }

  lemma DoneStays(init: seq<Event>, e: Event, u: Uid)
    requires !(e.On? && e.uid == u)
    ensures Committed(init + [e], u) == Committed(init, u) && PagesFound(init + [e], u) == PagesFound(init, u)
    ensures FoundNoMore(init + [e], u) <==> FoundNoMore(init, u)
  {
    assert (init + [e])[..|init|] == init;
    assert Committed(init, u) + [] == Committed(init, u);
    hide Exec;
  }

  lemma {:induction false} NothingDone(es: seq<Event>, u: Uid)
    requires forall a :: On(u, a) !in es
    ensures Committed(es, u) == [] && PagesFound(es, u) == 0 && !FoundNoMore(es, u)
  {
    if es != [] {
      hide Exec;
      assert forall e :: e in es[..|es| - 1] ==> e in es;
      assert es[|es| - 1] in es;
      NothingDone(es[..|es| - 1], u);
    }
  }

  lemma WorkerStarted(r: Run, a: Action)
    requires RunOk(r) && WorkerActs(r, a).Some?
    ensures r.scoringStarted && Act(r, a) == WorkerActs(r, a) && WorkerActs(r, a).value.scoringStarted
    ensures a == WorkerCommits ==> r.worker.Ready?
  {
    hide OneOpLate, OutcomeTells, StagesTell;
  }

  lemma NotAWorkerAction(r: Run, a: Action)
    requires Act(r, a).Some? && WorkerActs(r, a).None?
    ensures a != WorkerCommits && !a.PageSelected?
  {
    hide SupervisorActs;
  }

  /** A closed pass committed each page it found, between the first operations and the close. */
  lemma ClosedPass(es: seq<Event>, u: Uid)
    requires Reached(es, u) && RunAt(es, u).closed
    ensures Committed(es, u) == FIRST + Pages(PagesFound(es, u)) + [ClosePass] && FoundNoMore(es, u)
  {
    CommittedInOrder(es, u);
  }

  // ------------------------------------------------------------- no run gets stuck

  /** Something that can happen next and brings the run nearer to its end. */
  function TowardSettling(r: Run): Action {
    match r.pc
    case Fetching => FetchSettles(Failed)
    case Enriching => EnrichEnds(StageOk)
    case EnrichCancelling => EnrichEnds(StageOk)
    case EnrichDone(_) => SupervisorResumes
    case Scoring => if r.worker.Returned? then SupervisorResumes else LostRuns.TowardClose(r.worker)
    case _ => AppendReturns
  }

  function StepsToSettle(r: Run): nat {
    match r.pc
    case Fetching => 21
    case AppendEnrichStarted => 20
    case Enriching => 19
    case EnrichCancelling => 19
    case EnrichDone(_) => 18
    case AppendEnrichCancelled => 17
    case AppendScoringNotStarted => 16
    case AppendScoringStarted => 15
    case Scoring => 3 + LostRuns.StepsToClose(r.worker)
    case AppendScoringEnd(_) => 2
    case AppendSkipped => 2
    case AppendSettled => 1
    case Finished => 0
  }

  predicate StepsNearer(r: Run) {
    var n := Act(r, TowardSettling(r));
    n.Some? && !n.value.died && (n.value.settled ==> n.value.outcome.Some?) && StepsToSettle(n.value) < StepsToSettle(r)
  }

  lemma AppendStepsNearer(r: Run)
    requires Coherent(r) && !r.settled && r.pc != Scoring && TowardSettling(r) == AppendReturns
    ensures StepsNearer(r)
  {
    hide WorkerActs;
    match r.pc
    case AppendSkipped => hide AfterEnrichment;
    case AppendScoringEnd(result) => hide AfterEnrichment;
    case _ =>
  }

  lemma ScoringStepsNearer(r: Run)
    requires Coherent(r) && !r.settled && r.pc == Scoring
    ensures StepsNearer(r)
  {
    hide Appended;
    if r.worker.Returned? {
      hide WorkerActs;
    } else {
      hide SupervisorActs;
    }
  }

  lemma StepTowardSettling(r: Run)
    requires Coherent(r) && !r.settled
    ensures StepsNearer(r)
  {
    if r.pc == Scoring {
      ScoringStepsNearer(r);
      hide StepsNearer;
    } else if TowardSettling(r) == AppendReturns {
      AppendStepsNearer(r);
      hide StepsNearer;
    } else {
      hide Appended, WorkerActs, Settle;
    }
  }

  /** From wherever a run is, it can settle without losing its supervisor. */
  lemma {:induction false} LeftAloneItSettles(es: seq<Event>, u: Uid) returns (late: seq<Event>)
    requires Reached(es, u) && !RunAt(es, u).settled
    ensures Reached(es + late, u)
    ensures RunAt(es + late, u).settled && !RunAt(es + late, u).died && RunAt(es + late, u).outcome.Some?
    decreases StepsToSettle(RunAt(es, u))
  {
    var a := TowardSettling(RunAt(es, u));
    ReachedRunOk(es, u);
    hide Exec, Act, Licensed, OneOpLate, OutcomeTells, StagesTell;
    StepTowardSettling(RunAt(es, u));
    LostRuns.Then(es, u, a);
    late := [On(u, a)];
    if !RunAt(es + late, u).settled {
      var rest := LeftAloneItSettles(es + late, u);
      assert es + late + rest == es + (late + rest);
      late := late + rest;
    }
  }
}
