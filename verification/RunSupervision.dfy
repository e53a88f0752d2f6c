/**
 Run supervision (runservice.py) as a step system. A supervisor runs from one `await` to the
 next without interruption; the scoring worker is a thread whose flag checks and commits
 interleave with it; a cancel, or the loss of the supervisor task, may land between any two
 steps. Every theorem is about all interleavings of any number of runs.

 The scheduler, the graph operations and enrichment are seen only through the results they
 may give.
 */
module RunSupervision {
  import opened Wrappers

  datatype Kind = Daily | FullDirect | Aggregators
  datatype Group = DirectGroup | AggregatorGroup

  function GroupOf(k: Kind): Group {
    match k
    case Daily => DirectGroup
    case FullDirect => DirectGroup
    case Aggregators => AggregatorGroup
  }

  /** Kinds whose fetch is followed by enrichment and scoring. */
  predicate Staged(k: Kind) {
    k != Aggregators
  }

  datatype Fetch = Succeeded | Partial | Failed | FetchCancelled
  datatype StageResult = StageOk | StageFailed | StageCancelled | StageSkipped
  datatype Outcome = Cancelled | Degraded | Plain(fetch: Fetch)

  datatype Op = OpenPass | BridgeLegacyUrls | ResolvePass | ScorePage | ClosePass

  /** The scoring thread: between operations it checks the flag; `Selecting` picks a page. */
  datatype Worker = Idle | Checking(next: Op) | Selecting | Ready(op: Op) | Returned(result: StageResult)

  /** What the supervisor is awaiting. */
  datatype Pc =
    | Fetching
    | AppendSkipped
    | AppendEnrichStarted | Enriching | EnrichCancelling | EnrichDone(result: StageResult)
    | AppendEnrichCancelled
    | AppendScoringNotStarted
    | AppendScoringStarted | Scoring | AppendScoringEnd(result: StageResult)
    | AppendSettled
    | Finished

  datatype Run = Run(
    kind: Kind, pc: Pc, worker: Worker, cancelRequested: bool, settled: bool,
    fetch: Option<Fetch>, enrichment: Option<StageResult>, scoring: Option<StageResult>,
    outcome: Option<Outcome>,
    // what happened, for the theorems
    died: bool, enrichmentStarted: bool, scoringStarted: bool,
    opsAfterCancel: nat, closed: bool, cancelledInTime: bool)

  datatype Action =
    | FetchSettles(fetch: Fetch)
    | AppendReturns
    | EnrichEnds(result: StageResult)
    | SupervisorResumes
    | WorkerChecks
    | PageSelected(any: bool)
    | WorkerCommits
    | OpFails
    | Cancel
    | SupervisorDies

  function NewRun(kind: Kind): Run {
    Run(kind, Fetching, Idle, false, false, None, None, None, None, false, false, false, 0, false, false)
  }

  /** The turn that computes the outcome and starts appending the settled event. */
  function Settle(r: Run): Run
    requires r.fetch.Some?
  {
    var outcome :=
      if r.cancelRequested || r.fetch.value == FetchCancelled then Cancelled
      else if r.enrichment == Some(StageFailed) || r.scoring == Some(StageFailed) then Degraded
      else Plain(r.fetch.value);
    r.(pc := AppendSettled, outcome := Some(outcome))
  }

  /** The turn after enrichment: scoring starts only if the flag is down right now. */
  function AfterEnrichment(r: Run): Run {
    r.(pc := if r.cancelRequested then AppendScoringNotStarted else AppendScoringStarted)
  }

  function FetchSettled(r: Run, fetch: Fetch): Run {
    var licensed := Staged(r.kind) && fetch in {Succeeded, Partial} && !r.cancelRequested;
    r.(fetch := Some(fetch), pc := if licensed then AppendEnrichStarted else AppendSkipped)
  }

  /** The supervisor's turn when the event it was appending is written. */
  function Appended(r: Run): Option<Run>
    requires r.fetch.Some?
  {
    match r.pc
    case AppendSkipped =>
      Some(Settle(r.(enrichment := Some(StageSkipped), scoring := Some(StageSkipped))))
    case AppendEnrichStarted => Some(r.(pc := Enriching, enrichmentStarted := true))
    case AppendEnrichCancelled => Some(AfterEnrichment(r.(enrichment := Some(StageCancelled))))
    case AppendScoringNotStarted => Some(Settle(r.(scoring := Some(StageCancelled))))
    case AppendScoringStarted =>
      Some(r.(pc := Scoring, worker := Ready(OpenPass), scoringStarted := true))
    case AppendScoringEnd(result) => Some(Settle(r.(scoring := Some(result))))
    case AppendSettled => Some(r.(pc := Finished, settled := true))
    case _ => None
  }

  /** The operation that follows a committed one. */
  function AfterCommit(op: Op): Worker {
    match op
    case OpenPass => Checking(BridgeLegacyUrls)
    case BridgeLegacyUrls => Checking(ResolvePass)
    case ResolvePass => Checking(ScorePage)
    case ScorePage => Checking(ScorePage)
    case ClosePass => Returned(StageOk)
  }

  /** The flag as the worker reads it: through the active table, which a settled run has left. */
  predicate FlagSeen(r: Run) {
    !r.settled && r.cancelRequested
  }

  function WorkerMoves(w: Worker, flag: bool, a: Action): Option<Worker> {
    match a
    case WorkerChecks =>
      if !w.Checking? then None
      else if flag then Some(Returned(StageCancelled))
      else if w.next == ScorePage then Some(Selecting)
      else Some(Ready(w.next))
    case PageSelected(any) =>
      if w != Selecting then None else Some(if any then Ready(ScorePage) else Checking(ClosePass))
    case WorkerCommits => if !w.Ready? then None else Some(AfterCommit(w.op))
    case OpFails => if w.Ready? || w == Selecting then Some(Returned(StageFailed)) else None
    case _ => None
  }

  /** The worker thread's steps; they go on even when the supervisor is gone. */
  function WorkerActs(r: Run, a: Action): Option<Run> {
    var moved := WorkerMoves(r.worker, FlagSeen(r), a);
    if moved.None? then None
    else
      Some(r.(
        worker := moved.value,
        closed := r.closed || (a == WorkerCommits && r.worker == Ready(ClosePass)),
        opsAfterCancel := r.opsAfterCancel + if a == WorkerCommits && r.cancelRequested then 1 else 0))
  }

  /** The supervisor's own turns. */
  function SupervisorActs(r: Run, a: Action): Option<Run>
    requires !r.settled
  {
    match a
    case FetchSettles(fetch) => if r.pc == Fetching then Some(FetchSettled(r, fetch)) else None
    case AppendReturns => if r.fetch.None? then None else Appended(r)
    case EnrichEnds(result) =>
      if (r.pc == Enriching && result in {StageOk, StageFailed})
         || (r.pc == EnrichCancelling && result != StageSkipped) then
        Some(r.(pc := EnrichDone(result)))
      else None
    case SupervisorResumes =>
      if r.pc == EnrichDone(StageCancelled) then Some(r.(pc := AppendEnrichCancelled))
      else if r.pc.EnrichDone? then
        Some(AfterEnrichment(r.(enrichment := Some(r.pc.result))))
      else if r.pc == Scoring && r.worker.Returned? then
        Some(r.(pc := AppendScoringEnd(r.worker.result), worker := Idle))
      else None
    case _ => None
  }

  /** `_deliver_cancel`: raise the flag and stop the enrichment task if it is the one running. */
  function Cancelling(r: Run): Run {
    r.(cancelRequested := true,
       pc := if r.pc == Enriching then EnrichCancelling else r.pc,
       cancelledInTime := r.cancelledInTime || r.outcome.None?)
  }

  /** The effect of an action on a run, None when it cannot happen there. */
  function Act(r: Run, a: Action): Option<Run> {
    if a in {WorkerChecks, WorkerCommits, OpFails} || a.PageSelected? then WorkerActs(r, a)
    else if r.settled then None
    else if a == Cancel then Some(Cancelling(r))
    else if a == SupervisorDies then
      // cancelled by the event loop, or an append that raised: settled without more ado
      Some(r.(settled := true, died := true))
    else SupervisorActs(r, a)
  }

  // ---------------------------------------------------------------- the service

  type Uid = int

  datatype Service = Service(runs: map<Uid, Run>, active: set<Uid>, legacyRunning: bool)

  datatype Event = Admit(uid: Uid, kind: Kind) | On(uid: Uid, action: Action) | LegacyTurns(running: bool)

  const IDLE := Service(map[], {}, false)

  /** `_check_conflicts`: an unsettled run of the same group is in the active table. */
  predicate Conflict(s: Service, kind: Kind) {
    s.legacyRunning
    || exists u :: u in s.active && u in s.runs && !s.runs[u].settled && GroupOf(s.runs[u].kind) == GroupOf(kind)
  }

  /** One event; the check and the insert of an admission are one turn of the loop. */
  function Step(s: Service, e: Event): Option<Service> {
    match e
    case Admit(uid, kind) =>
      if uid in s.runs || Conflict(s, kind) then None
      else Some(s.(runs := s.runs[uid := NewRun(kind)], active := s.active + {uid}))
    case On(uid, action) =>
      if uid !in s.runs then None
      else
        var r := Act(s.runs[uid], action);
        if r.None? then None
        else Some(s.(
          runs := s.runs[uid := r.value],
          active := if r.value.settled then s.active - {uid} else s.active))
    case LegacyTurns(running) => Some(s.(legacyRunning := running))
  }

  /** A whole history of events, None if one of them could not happen. */
  function Exec(s: Service, es: seq<Event>): Option<Service> {
    if es == [] then Some(s)
    else
      var before := Exec(s, es[..|es| - 1]);
      if before.None? then None else Step(before.value, es[|es| - 1])
  }

  // ------------------------------------------------------------------- the runs

  predicate BeforeBoundary(pc: Pc) {
    || pc in {Fetching, AppendSkipped, AppendEnrichStarted, Enriching, EnrichCancelling,
             AppendEnrichCancelled, AppendScoringNotStarted}
    || pc.EnrichDone?
  }

  predicate OutcomeKnown(pc: Pc) {
    pc in {AppendSettled, Finished}
  }

  /** Where each part of a run may be, given where its supervisor is. */
  ghost predicate Coherent(r: Run) {
    && (r.worker != Idle ==> r.pc == Scoring)
    && (r.pc == Scoring ==> r.worker != Idle)
    && (r.fetch.None? <==> r.pc == Fetching)
    && (r.outcome.Some? <==> OutcomeKnown(r.pc))
    && (r.settled <==> r.pc == Finished || r.died)
    && (r.pc == Finished ==> !r.died)
    && (r.worker.Returned? ==> r.worker.result != StageSkipped)
    && (r.pc.AppendScoringEnd? ==> r.pc.result != StageSkipped)
    && (r.pc.EnrichDone? ==> r.pc.result != StageSkipped)
    && (r.pc == EnrichCancelling ==> r.cancelRequested)
    && (r.pc == AppendScoringNotStarted ==> r.cancelRequested)
    && (r.pc == AppendEnrichCancelled || r.pc == EnrichDone(StageCancelled) ==> r.cancelRequested)
  }

  /** Stages run only on a licensed fetch, and scoring only past its boundary. */
  ghost predicate Licensed(r: Run) {
    && (r.enrichmentStarted || r.scoringStarted ==>
          Staged(r.kind) && r.fetch in {Some(Succeeded), Some(Partial)})
    && (r.pc in {AppendEnrichStarted, Enriching, EnrichCancelling, AppendEnrichCancelled, AppendScoringNotStarted,
                 AppendScoringStarted, Scoring} || r.pc.EnrichDone? || r.pc.AppendScoringEnd? ==>
          Staged(r.kind) && r.fetch in {Some(Succeeded), Some(Partial)})
    && (BeforeBoundary(r.pc) || r.pc == AppendScoringStarted ==> !r.scoringStarted && r.worker == Idle)
    && (!r.scoringStarted ==> !r.closed && r.opsAfterCancel == 0)
    && (r.pc == Scoring || r.pc.AppendScoringEnd? ==> r.scoringStarted)
  }

  /** A cancel reaches the worker at its next check, so it can be late by one commit. */
  ghost predicate OneOpLate(r: Run) {
    && (!r.cancelRequested ==> r.opsAfterCancel == 0)
    && (!r.died ==>
          && r.opsAfterCancel <= 1
          && (r.worker.Ready? || r.worker == Selecting ==> r.opsAfterCancel == 0))
  }

  ghost predicate OutcomeTells(r: Run) {
    && (r.cancelledInTime ==> r.cancelRequested)
    && (r.outcome.None? ==> r.cancelledInTime == r.cancelRequested)
    && (r.outcome.Some? ==>
          && r.fetch.Some?
          && (r.outcome.value == Cancelled <==> r.cancelledInTime || r.fetch == Some(FetchCancelled)))
  }

  ghost predicate CancelMentioned(r: Run) {
    || r.worker == Returned(StageCancelled)
    || r.pc in {AppendScoringEnd(StageCancelled), EnrichDone(StageCancelled), AppendEnrichCancelled}
    || r.scoring == Some(StageCancelled)
    || r.enrichment == Some(StageCancelled)
  }

  /** What the reported stage results mean. */
  ghost predicate StagesTell(r: Run) {
    && (r.worker == Returned(StageOk) ==> r.closed)
    && (r.pc == AppendScoringEnd(StageOk) ==> r.closed)
    && (r.scoring == Some(StageOk) ==> r.closed)
    && (CancelMentioned(r) ==> r.cancelRequested)
    && (r.pc in {AppendScoringStarted, Scoring, AppendScoringNotStarted} || r.pc.AppendScoringEnd? ==>
          r.enrichment in {Some(StageOk), Some(StageFailed), Some(StageCancelled)})
    && (OutcomeKnown(r.pc) ==> r.enrichment.Some? && r.scoring.Some? && r.outcome.Some?)
    && (r.scoring.Some? <==> OutcomeKnown(r.pc))
    && (OutcomeKnown(r.pc) && r.enrichment == Some(StageSkipped) ==>
          r.scoring == Some(StageSkipped)
          && (!Staged(r.kind) || r.fetch !in {Some(Succeeded), Some(Partial)} || r.outcome == Some(Cancelled)))
    && (OutcomeKnown(r.pc) && r.scoring == Some(StageSkipped) ==> r.enrichment == Some(StageSkipped))
    && (OutcomeKnown(r.pc) && (r.enrichment == Some(StageCancelled) || r.scoring == Some(StageCancelled)) ==>
          r.outcome == Some(Cancelled))
    && (OutcomeKnown(r.pc) && (r.enrichment == Some(StageFailed) || r.scoring == Some(StageFailed)) ==>
          r.outcome in {Some(Cancelled), Some(Degraded)})
    && (OutcomeKnown(r.pc) && r.outcome.value.Plain? ==> r.fetch == Some(r.outcome.value.fetch))
    && (r.pc == AppendSkipped ==>
          !Staged(r.kind) || r.fetch !in {Some(Succeeded), Some(Partial)} || r.cancelRequested)
  }

  ghost predicate RunOk(r: Run) {
    Coherent(r) && Licensed(r) && OneOpLate(r) && OutcomeTells(r) && StagesTell(r)
  }

  lemma WorkerKeepsPlaces(r: Run, a: Action)
    requires RunOk(r) && WorkerActs(r, a).Some?
    ensures Coherent(WorkerActs(r, a).value) && Licensed(WorkerActs(r, a).value)
  {
  }

  lemma WorkerKeepsCounts(r: Run, a: Action)
    requires Coherent(r) && OneOpLate(r) && OutcomeTells(r) && WorkerActs(r, a).Some?
    ensures OneOpLate(WorkerActs(r, a).value) && OutcomeTells(WorkerActs(r, a).value)
  {
  }

  lemma WorkerKeepsStages(r: Run, a: Action)
    requires Coherent(r) && StagesTell(r) && WorkerActs(r, a).Some?
    ensures StagesTell(WorkerActs(r, a).value)
  {
  }

  lemma WorkerKeepsRun(r: Run, a: Action)
    requires RunOk(r) && WorkerActs(r, a).Some?
    ensures RunOk(WorkerActs(r, a).value)
  {
    WorkerKeepsPlaces(r, a);
    WorkerKeepsCounts(r, a);
    WorkerKeepsStages(r, a);
    hide WorkerActs;
    hide Coherent;
    hide Licensed;
    hide OneOpLate;
    hide OutcomeTells;
    hide StagesTell;
  }

  lemma SettleKeepsRun(r: Run)
    requires Coherent(r) && Licensed(r) && OneOpLate(r) && OutcomeTells(r)
    requires r.pc in {AppendSkipped, AppendScoringNotStarted} || r.pc.AppendScoringEnd?
    requires !r.settled && r.enrichment.Some? && r.scoring.Some?
    requires r.enrichment == Some(StageSkipped) <==> r.pc == AppendSkipped
    requires r.scoring == Some(StageSkipped) <==> r.pc == AppendSkipped
    requires r.scoring == Some(StageOk) ==> r.closed
    requires StageCancelled in {r.enrichment.value, r.scoring.value} ==> r.cancelRequested
    requires r.pc == AppendSkipped ==>
               !Staged(r.kind) || r.fetch !in {Some(Succeeded), Some(Partial)} || r.cancelRequested
    ensures RunOk(Settle(r))
  {
  }

  lemma AppendedKeepsRun(r: Run)
    requires RunOk(r) && !r.settled && r.fetch.Some? && Appended(r).Some?
    ensures RunOk(Appended(r).value)
  {
    match r.pc
    case AppendSkipped =>
      SettleKeepsRun(r.(enrichment := Some(StageSkipped), scoring := Some(StageSkipped)));
    case AppendScoringNotStarted => SettleKeepsRun(r.(scoring := Some(StageCancelled)));
    case AppendScoringEnd(result) => SettleKeepsRun(r.(scoring := Some(result)));
    case _ => hide Settle;
  }

  lemma SupervisorKeepsRun(r: Run, a: Action)
    requires RunOk(r) && !r.settled && SupervisorActs(r, a).Some?
    ensures RunOk(SupervisorActs(r, a).value)
  {
    if a == AppendReturns {
      AppendedKeepsRun(r);
      hide RunOk;
    }
    hide Appended;
  }

  lemma CancelKeepsRun(r: Run)
    requires RunOk(r) && !r.settled
    ensures RunOk(Cancelling(r))
    ensures RunOk(r.(settled := true, died := true))
  {
  }

  /** Every run is accounted for, and no two unsettled runs share a group. */
  ghost predicate ServiceOk(s: Service) {
    && (forall u :: u in s.runs ==> RunOk(s.runs[u]))
    && (forall u :: u in s.active <==> u in s.runs && !s.runs[u].settled)
    && (forall u, v :: u in s.active && v in s.active && GroupOf(s.runs[u].kind) == GroupOf(s.runs[v].kind) ==> u == v)
  }

  lemma StepKeepsService(s: Service, e: Event)
    requires ServiceOk(s) && Step(s, e).Some?
    ensures ServiceOk(Step(s, e).value)
  {
    hide RunOk;
    if e.On? {
      var r := s.runs[e.uid];
      ActKeepsRun(r, e.action);
      SettledStays(r, e.action);
      hide Act;
    } else if e.Admit? {
      NewRunOk(e.kind);
      hide NewRun;
      assert forall u :: u in s.active ==> GroupOf(s.runs[u].kind) != GroupOf(e.kind);
    }
  }

  lemma ActKeepsRun(r: Run, a: Action)
    requires RunOk(r) && Act(r, a).Some?
    ensures RunOk(Act(r, a).value)
  {
    hide RunOk;
    hide WorkerActs;
    hide SupervisorActs;
    hide Cancelling;
    if WorkerActs(r, a).Some? {
      WorkerKeepsRun(r, a);
    }
    if !r.settled {
      CancelKeepsRun(r);
      if SupervisorActs(r, a).Some? {
        SupervisorKeepsRun(r, a);
      }
    }
  }

  lemma SettledStays(r: Run, a: Action)
    requires Act(r, a).Some?
    ensures r.settled ==> Act(r, a).value.settled
    ensures Act(r, a).value.kind == r.kind
    ensures r.cancelRequested ==> Act(r, a).value.cancelRequested
    ensures r.died ==> Act(r, a).value.died
  {
    hide SupervisorActs;
    hide WorkerActs;
    if WorkerActs(r, a).Some? {
      WorkerStays(r, a);
    }
    if !r.settled && SupervisorActs(r, a).Some? {
      SupervisorStays(r, a);
    }
  }

  lemma WorkerStays(r: Run, a: Action)
    requires WorkerActs(r, a).Some?
    ensures var n := WorkerActs(r, a).value;
            n.settled == r.settled && SameRun(r, n)
  {
  }

  /** Nothing but a cancel, the loss of the supervisor and the last append touch these. */
  ghost predicate SameRun(r: Run, n: Run) {
    n.kind == r.kind && n.cancelRequested == r.cancelRequested && n.died == r.died
  }

  lemma SettleStays(r: Run)
    requires r.fetch.Some?
    ensures SameRun(r, Settle(r))
  {
  }

  lemma AppendedStays(r: Run)
    requires r.fetch.Some? && Appended(r).Some?
    ensures SameRun(r, Appended(r).value)
  {
    hide Settle;
    match r.pc
    case AppendSkipped =>
      SettleStays(r.(enrichment := Some(StageSkipped), scoring := Some(StageSkipped)));
    case AppendScoringNotStarted => SettleStays(r.(scoring := Some(StageCancelled)));
    case AppendScoringEnd(result) => SettleStays(r.(scoring := Some(result)));
    case _ =>
  }

  lemma SupervisorStays(r: Run, a: Action)
    requires !r.settled && SupervisorActs(r, a).Some?
    ensures SameRun(r, SupervisorActs(r, a).value)
  {
    hide Appended;
    if a == AppendReturns {
      AppendedStays(r);
    }
  }

  lemma NewRunOk(kind: Kind)
    ensures RunOk(NewRun(kind)) && !NewRun(kind).settled && NewRun(kind).kind == kind
  {
  }

  /** The invariants hold in every state any interleaving can reach. */
  lemma {:induction false} EveryInterleaving(es: seq<Event>)
    requires Exec(IDLE, es).Some?
    ensures ServiceOk(Exec(IDLE, es).value)
  {
    if es != [] {
      EveryInterleaving(es[..|es| - 1]);
      hide ServiceOk;
      hide Step;
      StepKeepsService(Exec(IDLE, es[..|es| - 1]).value, es[|es| - 1]);
    }
  }
}
