/**
 The rows `build_queue` reports as left out (ranking.py:338-436): which of them are shown, with
 what detail, in which order, and how their number relates to the counts.
 */
module QueueDetails {
  import opened Wrappers
  import opened Ordering
  import opened TodayQueue
  import opened QueueOrder

  /** What a row says of a job's age and of what is not known about it. */
  lemma RowInFields(job: Job, su: Setup)
    ensures var f := FreshnessOf(job, su);
            && f.age == AgeOf(job, su)
            && f.basis == (if job.posted.Some? then Some(Posted)
                           else if job.firstSeen.Some? then Some(FirstSeen) else None)
            && (f.bucket == Fresh <==> IsFresh(job, su)) && (f.bucket == Stale <==> IsStale(job, su))
            && (f.bucket == Unknown <==> job.posted.None? && job.firstSeen.None?)
    ensures UncertaintyFlags(job)
         == (if !Readable(job) || job.oddsScore.None? then [Unscored] else [])
            + if job.hasDesc then [] else [NoDescription]
  {
  }

  /** The detail of a left-out row, by its reason. */
  predicate Fits(e: Exclusion, su: Setup) {
    match e.reason
    case StalePosting =>
      e.detail == Age(AgeOf(e.job, su), if e.job.posted.Some? then Some(Posted) else Some(FirstSeen))
    case CompanyCap => e.detail == CompanyHolds(su.policy.companyCap)
    case UncertaintyCap =>
      e.detail == Flagged((if !Readable(e.job) || e.job.oddsScore.None? then [Unscored] else [])
                          + if e.job.hasDesc then [] else [NoDescription])
    case BeyondCap => e.detail == NextUp
    case _ => false
  }

  /** Stale rows come first, then what the caps kept out, then what comes next. */
  predicate InPhases(reason: Reason, later: Reason) {
    (later == StalePosting ==> reason == StalePosting) && (reason == BeyondCap ==> later == BeyondCap)
  }

  function Told(detailed: seq<Exclusion>, reason: Reason): nat {
    if detailed == [] then 0
    else
      Told(detailed[..|detailed| - 1], reason) + if detailed[|detailed| - 1].reason == reason then 1 else 0
  }

  function AtMost(n: nat, limit: int): nat {
    if n <= limit then n else if limit < 0 then 0 else limit
  }

  /** How many rows are shown: all but the next ones, of which there are no more than slots. */
  predicate NumbersTell(b: Board, limit: int) {
    && (forall r :: r in {StalePosting, CompanyCap, UncertaintyCap} ==> Told(b.detailed, r) == b.counts[r])
    && (forall r :: r in {NotNew, Hidden, Snoozed, TierBelowCutoff} ==> Told(b.detailed, r) == 0)
    && Told(b.detailed, BeyondCap) == AtMost(b.counts[BeyondCap], limit)
  }

  ghost predicate DetailsTell(b: Board, su: Setup, limit: int) {
    && (forall e :: e in b.detailed ==> Fits(e, su))
    && NumbersTell(b, limit)
    && (forall i, j :: 0 <= i < j < |b.detailed| ==> InPhases(b.detailed[i].reason, b.detailed[j].reason))
  }

  lemma OneMoreTold(detailed: seq<Exclusion>, e: Exclusion, r: Reason)
    ensures Told(detailed + [e], r) == Told(detailed, r) + if e.reason == r then 1 else 0
  {
    assert (detailed + [e])[..|detailed|] == detailed;
  }

  /** One more left-out row. */
  lemma ExcludeTells(b: Board, job: Job, reason: Reason, detail: Detail, su: Setup, limit: int)
    requires DetailsTell(b, su, limit) && Fits(Exclusion(job, reason, detail), su)
    requires forall e :: e in b.detailed ==> InPhases(e.reason, reason)
    requires reason == BeyondCap ==> b.counts[BeyondCap] < limit
    ensures DetailsTell(Exclude(b, job, reason, detail), su, limit)
  {
    var n, e := Exclude(b, job, reason, detail), Exclusion(job, reason, detail);
    forall r ensures Told(n.detailed, r) == Told(b.detailed, r) + if reason == r then 1 else 0 {
      OneMoreTold(b.detailed, e, r);
    }
    hide Told, Fits;
    forall i, j | 0 <= i < j < |n.detailed| ensures InPhases(n.detailed[i].reason, n.detailed[j].reason) {
      assert n.detailed[i] == b.detailed[i] && b.detailed[i] in b.detailed;
    }
  }

  /** One more row that is only counted. */
  lemma CountTells(b: Board, n: Board, reason: Reason, su: Setup, limit: int)
    requires DetailsTell(b, su, limit) && n.detailed == b.detailed && n.counts == b.counts + multiset{reason}
    requires || reason in {NotNew, Hidden, Snoozed, TierBelowCutoff}
             || (reason == BeyondCap && b.counts[BeyondCap] >= limit)
    ensures DetailsTell(n, su, limit)
  {
    hide Told, Fits, InPhases;
  }

  lemma IneligibleReason(job: Job, su: Setup)
    ensures Ineligibility(job, su).Some? ==>
              Ineligibility(job, su).value in {NotNew, Hidden, Snoozed, TierBelowCutoff}
  {
  }

  lemma NothingTold(su: Setup, limit: int)
    ensures DetailsTell(Board([], {}, [], multiset{}, map[]), su, limit)
  {
    assert forall r: Reason :: Told([], r) == 0;
  }

  lemma {:induction false} GateTells(jobs: seq<Job>, su: Setup, limit: int)
    ensures var b := Gate(jobs, su).0;
            DetailsTell(b, su, limit) && forall e :: e in b.detailed ==> e.reason == StalePosting
    ensures Gate(jobs, su).0.counts[BeyondCap] == 0
  {
    if jobs == [] {
      NothingTold(su, limit);
    } else {
      GateTells(jobs[..|jobs| - 1], su, limit);
      var b, job := Gate(jobs[..|jobs| - 1], su).0, jobs[|jobs| - 1];
      IneligibleReason(job, su);
      RowInFields(job, su);
      var f := FreshnessOf(job, su);
      hide DetailsTell, Ineligibility, FreshnessOf;
      if Ineligibility(job, su).Some? {
        CountTells(b, Gate(jobs, su).0, Ineligibility(job, su).value, su, limit);
      } else if f.bucket == Stale {
        assert IsStale(job, su) && AgeOf(job, su).Some?;
        assert Fits(Exclusion(job, StalePosting, Age(f.age, f.basis)), su);
        ExcludeTells(b, job, StalePosting, Age(f.age, f.basis), su, limit);
      }
    }
  }

  lemma PushTells(b: Board, c: Candidate, su: Setup, limit: int)
    requires DetailsTell(b, su, limit) && forall e :: e in b.detailed ==> e.reason != BeyondCap
    ensures var n := Push(b, c, su);
            && DetailsTell(n, su, limit) && n.counts[BeyondCap] == b.counts[BeyondCap]
            && forall e :: e in n.detailed ==> e.reason != BeyondCap
  {
    var job := c.item.job;
    var d := b.(decided := b.decided + {job.url});
    RowInFields(job, su);
    assert DetailsTell(d, su, limit);
    hide DetailsTell, HeldBy, UncertainHeld, FreshnessOf, UncertaintyFlags;
    assert forall e :: e in b.detailed ==> InPhases(e.reason, CompanyCap) && InPhases(e.reason, UncertaintyCap);
    if |b.entries| < su.cap && job.url !in b.decided {
      match Blocked(d.entries, job, su)
      case Some(CompanyCap) => ExcludeTells(d, job, CompanyCap, CompanyHolds(su.policy.companyCap), su, limit);
      case Some(_) => ExcludeTells(d, job, UncertaintyCap, Flagged(UncertaintyFlags(job)), su, limit);
      case None => SameDetails(d, Push(b, c, su), su, limit);
    }
  }

  lemma SameDetails(b: Board, n: Board, su: Setup, limit: int)
    requires DetailsTell(b, su, limit) && n.detailed == b.detailed && n.counts == b.counts
    ensures DetailsTell(n, su, limit)
  {
    hide Told, Fits, InPhases;
  }

  lemma {:induction false} GreedyTells(b: Board, cs: seq<Candidate>, su: Setup, limit: int)
    requires DetailsTell(b, su, limit) && forall e :: e in b.detailed ==> e.reason != BeyondCap
    ensures var n := Greedy(b, cs, su);
            && DetailsTell(n, su, limit) && n.counts[BeyondCap] == b.counts[BeyondCap]
            && forall e :: e in n.detailed ==> e.reason != BeyondCap
    decreases |cs|
  {
    if cs != [] {
      PushTells(b, cs[0], su, limit);
      hide Push, DetailsTell;
      GreedyTells(Push(b, cs[0], su), cs[1..], su, limit);
    }
  }

  lemma OverflowStep(b: Board, bank: seq<Item>, n: nat, su: Setup)
    requires 0 < n <= |bank|
    ensures var before, shown := Overflow(b, bank, n - 1, su).0, Overflow(b, bank, n - 1, su).1;
            var after, shown' := Overflow(b, bank, n, su).0, Overflow(b, bank, n, su).1;
            var job := bank[n - 1].job;
            if job.url in b.decided then after == before && shown' == shown
            else if shown < su.cap then after == Exclude(before, job, BeyondCap, NextUp) && shown' == shown + 1
            else
              && after.detailed == before.detailed && after.counts == before.counts + multiset{BeyondCap}
              && shown' == shown
  {
  }

  lemma {:induction false} OverflowTells(b: Board, bank: seq<Item>, n: nat, su: Setup)
    requires n <= |bank| && DetailsTell(b, su, su.cap) && b.counts[BeyondCap] == 0
    ensures var after, shown := Overflow(b, bank, n, su).0, Overflow(b, bank, n, su).1;
            && DetailsTell(after, su, su.cap) && shown == AtMost(after.counts[BeyondCap], su.cap)
  {
    if n > 0 {
      OverflowTells(b, bank, n - 1, su);
      OverflowStep(b, bank, n, su);
      assert forall r: Reason :: InPhases(r, BeyondCap);
      hide DetailsTell, Overflow, InPhases;
      var before, shown := Overflow(b, bank, n - 1, su).0, Overflow(b, bank, n - 1, su).1;
      var job := bank[n - 1].job;
      if job.url !in b.decided {
        if shown < su.cap {
          ExcludeTells(before, job, BeyondCap, NextUp, su, su.cap);
        } else {
          CountTells(before, Overflow(b, bank, n, su).0, BeyondCap, su, su.cap);
        }
      }
    }
  }

  /**
   The rows shown as left out, for all jobs: each has the detail of its reason; stale ones, and
   those a cap kept out, are all shown; of those beyond the last slot as many as there are slots;
   of the others none; and they are shown in this order.
   */
  lemma DetailsOfTheQueue(jobs: seq<Job>, su: Setup)
    ensures DetailsTell(Compose(jobs, su), su, su.cap)
  {
    GateTells(SortBy(jobs, UrlKey), su, su.cap);
    hide DetailsTell, Gate, Greedy, Overflow;
    GreedyTells(Gate(SortBy(jobs, UrlKey), su).0, CandidatesOf(jobs, su), su, su.cap);
    OverflowTells(Drawn(jobs, su), BankOf(jobs, su), |BankOf(jobs, su)|, su);
  }

  /** The rows of the bank that were never decided, in bank order. */
  function NeverReached(bank: seq<Item>, decided: set<int>): seq<Job> {
    if bank == [] then []
    else
      var last := bank[|bank| - 1].job;
      NeverReached(bank[..|bank| - 1], decided) + if last.url in decided then [] else [last]
  }

  function Shown(jobs: seq<Job>): (shown: seq<Exclusion>)
    ensures |shown| == |jobs|
  {
    if jobs == [] then [] else Shown(jobs[..|jobs| - 1]) + [Exclusion(jobs[|jobs| - 1], BeyondCap, NextUp)]
  }

  lemma {:induction false} OverflowShows(b: Board, bank: seq<Item>, n: nat, su: Setup)
    requires n <= |bank|
    ensures var next := NeverReached(bank[..n], b.decided);
            && Overflow(b, bank, n, su).0.detailed == b.detailed + Shown(next[..AtMost(|next|, su.cap)])
            && Overflow(b, bank, n, su).1 == AtMost(|next|, su.cap)
  {
    if n == 0 {
      assert b.detailed + [] == b.detailed;
    } else {
      OverflowShows(b, bank, n - 1, su);
      OverflowStep(b, bank, n, su);
      assert bank[..n][..n - 1] == bank[..n - 1];
      var before, next := NeverReached(bank[..n - 1], b.decided), NeverReached(bank[..n], b.decided);
      hide Overflow;
      assert next[..|before|] == before;
      var k, m := AtMost(|before|, su.cap), AtMost(|next|, su.cap);
      if bank[n - 1].job.url !in b.decided && |before| < su.cap {
        assert next[..m][..m - 1] == before[..k];
        assert next[..m][m - 1] == bank[n - 1].job;
      } else {
        assert next[..m] == before[..k];
      }
    }
  }

  /** The rows shown as next are the first of those the bank would have offered next. */
  lemma NextInBankOrder(jobs: seq<Job>, su: Setup)
    ensures var drawn := Drawn(jobs, su);
            var next := NeverReached(BankOf(jobs, su), drawn.decided);
            Compose(jobs, su).detailed == drawn.detailed + Shown(next[..AtMost(|next|, su.cap)])
  {
    var bank := BankOf(jobs, su);
    hide Overflow, BankOf, Drawn;
    OverflowShows(Drawn(jobs, su), bank, |bank|, su);
    assert bank[..|bank|] == bank;
  }
}
