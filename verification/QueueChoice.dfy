/**
 Which jobs the Today queue takes (ranking.py:338-418), told from the fields of the jobs: the
 lanes take turns in their orders, and a job is taken when its first turn comes exactly if the
 jobs taken before it leave it a slot under every cap.
 */
module QueueChoice {
  import opened Wrappers
  import opened Ordering
  import opened TodayQueue
  import opened QueueVerdicts
  import opened QueueOrder

  // -------------------------------------------------------------------------- the turns

  /** How many offered jobs come before `job` in the bank lane. */
  ghost function BankPlace(job: Job, jobs: seq<Job>, su: Setup): nat {
    |set j | j in jobs && Offered(j, su) && BankBefore(j, job, su)|
  }

  /** How many offered jobs of tier 4 or more come before `job` in the aim lane. */
  ghost function AimPlace(job: Job, jobs: seq<Job>, su: Setup): nat {
    |set j | j in jobs && Offered(j, su) && j.tier >= 4 && AimBefore(j, job, su)|
  }

  function Turn(lane: Lane, place: nat): nat {
    2 * place + if lane == Bank then 0 else 1
  }

  /** The first turn a job gets, in either lane. */
  ghost function FirstTurn(job: Job, jobs: seq<Job>, su: Setup): nat {
    var bank := Turn(Bank, BankPlace(job, jobs, su));
    if job.tier >= 4 && Turn(Aim, AimPlace(job, jobs, su)) < bank then Turn(Aim, AimPlace(job, jobs, su)) else bank
  }

  // -------------------------------------------------------------- a lane and its places

  ghost predicate InOrderOf(lane: seq<Item>, before: (Job, Job) -> bool) {
    forall k, l :: 0 <= k < l < |lane| ==>
      before(lane[k].job, lane[l].job) && !before(lane[l].job, lane[k].job)
  }

  ghost function JobsOf(lane: seq<Item>): set<Job> {
    set k | 0 <= k < |lane| :: lane[k].job
  }

  lemma {:induction false} JobsCounted(lane: seq<Item>, before: (Job, Job) -> bool)
    requires InOrderOf(lane, before) && forall x :: !before(x, x)
    ensures |JobsOf(lane)| == |lane|
  {
    if lane != [] {
      var init, last := lane[..|lane| - 1], lane[|lane| - 1];
      JobsCounted(init, before);
      forall k | 0 <= k < |init| ensures init[k].job != last.job {
        assert before(lane[k].job, last.job);
      }
      assert JobsOf(lane) == JobsOf(init) + {last.job};
    }
  }

  /** The place of a job in its lane is the number of jobs before it. */
  lemma PlaceInLane(lane: seq<Item>, before: (Job, Job) -> bool, i: nat)
    requires InOrderOf(lane, before) && (forall x :: !before(x, x)) && i < |lane|
    ensures |set j | j in JobsOf(lane) && before(j, lane[i].job)| == i
  {
    var ahead := set j | j in JobsOf(lane) && before(j, lane[i].job);
    forall j ensures j in ahead <==> j in JobsOf(lane[..i]) {
      if j in ahead {
        var k :| 0 <= k < |lane| && lane[k].job == j;
        assert k < i;
        assert lane[..i][k].job == j;
      }
      if j in JobsOf(lane[..i]) {
        var k :| 0 <= k < i && lane[..i][k].job == j;
        assert before(lane[k].job, lane[i].job);
      }
    }
    assert ahead == JobsOf(lane[..i]);
    JobsCounted(lane[..i], before);
  }

  lemma BankTotal(a: Job, b: Job, su: Setup)
    ensures a.url != b.url ==> (BankBefore(a, b, su) <==> !BankBefore(b, a, su))
    ensures a.url != b.url ==> (AimBefore(a, b, su) <==> !AimBefore(b, a, su))
    ensures !BankBefore(a, a, su) && !AimBefore(a, a, su)
  {
    hide Place, MatchOf, CompetitionOf, Readable, IsFresh;
  }

  function AimOf(jobs: seq<Job>, su: Setup): seq<Item> {
    SortBy(HighTier(Gate(SortBy(jobs, UrlKey), su).1), AimKey)
  }

  lemma AimMembers(jobs: seq<Job>, su: Setup)
    ensures forall item :: item in AimOf(jobs, su) <==>
              item.job in jobs && Passes(item.job, su) && item.freshness == FreshnessOf(item.job, su)
              && item.job.tier >= 4
  {
    SortByMembers(jobs, UrlKey);
    GateMembers(SortBy(jobs, UrlKey), su);
    HighTierMembers(Gate(SortBy(jobs, UrlKey), su).1);
    SortByMembers(HighTier(Gate(SortBy(jobs, UrlKey), su).1), AimKey);
  }

  lemma {:induction false} HighTierDistinct(items: seq<Item>)
    requires Distinct(items, ItemUrl)
    ensures Distinct(HighTier(items), ItemUrl)
  {
    if items != [] {
      var init, last := items[..|items| - 1], items[|items| - 1];
      HighTierDistinct(init);
      HighTierMembers(init);
      var high := HighTier(init);
      forall i | 0 <= i < |high| ensures ItemUrl(high[i]) != ItemUrl(last) {
        assert high[i] in high && high[i] in init;
        var k :| 0 <= k < |init| && init[k] == high[i];
        assert ItemUrl(items[k]) != ItemUrl(items[|init|]);
      }
    }
  }

  /** The bank lane is in its order, and holds the offered jobs. */
  lemma BankLane(jobs: seq<Job>, su: Setup)
    requires Distinct(jobs, UrlOf)
    ensures InOrderOf(BankOf(jobs, su), (a, b) => BankBefore(a, b, su))
    ensures forall j :: j in JobsOf(BankOf(jobs, su)) <==> j in jobs && Offered(j, su)
  {
    var lane := BankOf(jobs, su);
    BankMembers(jobs, su);
    BankDistinct(jobs, su);
    SortByKeeps(Gate(SortBy(jobs, UrlKey), su).1, BankKey);
    assert Ordered(lane, BankKey);
    hide BankOf;
    LaneJobs(lane, jobs, su, j => true);
    forall k, l | 0 <= k < l < |lane|
      ensures BankBefore(lane[k].job, lane[l].job, su) && !BankBefore(lane[l].job, lane[k].job, su)
    {
      assert lane[k] in lane && lane[l] in lane;
      GateInFields(lane[k].job, su);
      GateInFields(lane[l].job, su);
      hide BankBefore, BankKey, Less, Offered, Passes, FreshnessOf;
      assert lane[k] == ItemOf(lane[k].job, su) && lane[l] == ItemOf(lane[l].job, su);
      assert ItemUrl(lane[k]) != ItemUrl(lane[l]);
      assert !Less(BankKey(lane[l]), BankKey(lane[k]));
      BankKeyMeans(lane[l].job, lane[k].job, su);
      BankTotal(lane[l].job, lane[k].job, su);
    }
  }

  lemma LaneJobs(lane: seq<Item>, jobs: seq<Job>, su: Setup, high: Job -> bool)
    requires forall item :: item in lane <==>
               item.job in jobs && Passes(item.job, su) && item.freshness == FreshnessOf(item.job, su) && high(item.job)
    ensures forall j :: j in JobsOf(lane) <==> j in jobs && Offered(j, su) && high(j)
  {
    forall j ensures j in JobsOf(lane) <==> j in jobs && Offered(j, su) && high(j) {
      GateInFields(j, su);
      hide Passes, Offered, FreshnessOf;
      if j in JobsOf(lane) {
        var k :| 0 <= k < |lane| && lane[k].job == j;
        assert lane[k] in lane;
      }
      if j in jobs && Offered(j, su) && high(j) {
        assert ItemOf(j, su) in lane;
        var k :| 0 <= k < |lane| && lane[k] == ItemOf(j, su);
      }
    }
  }

  lemma AimLane(jobs: seq<Job>, su: Setup)
    requires Distinct(jobs, UrlOf)
    ensures InOrderOf(AimOf(jobs, su), (a, b) => AimBefore(a, b, su))
    ensures forall j :: j in JobsOf(AimOf(jobs, su)) <==> j in jobs && Offered(j, su) && j.tier >= 4
  {
    var lane := AimOf(jobs, su);
    AimMembers(jobs, su);
    var eligible := Gate(SortBy(jobs, UrlKey), su).1;
    SortByDistinct(jobs, UrlKey, UrlOf);
    GateDistinct(SortBy(jobs, UrlKey), su);
    HighTierDistinct(eligible);
    SortByDistinct(HighTier(eligible), AimKey, ItemUrl);
    SortByKeeps(HighTier(eligible), AimKey);
    assert Ordered(lane, AimKey) && Distinct(lane, ItemUrl);
    hide AimOf;
    LaneJobs(lane, jobs, su, (j: Job) => j.tier >= 4);
    forall k, l | 0 <= k < l < |lane|
      ensures AimBefore(lane[k].job, lane[l].job, su) && !AimBefore(lane[l].job, lane[k].job, su)
    {
      assert lane[k] in lane && lane[l] in lane;
      GateInFields(lane[k].job, su);
      GateInFields(lane[l].job, su);
      hide AimBefore, AimKey, Less, Offered, Passes, FreshnessOf;
      assert lane[k] == ItemOf(lane[k].job, su) && lane[l] == ItemOf(lane[l].job, su);
      assert ItemUrl(lane[k]) != ItemUrl(lane[l]);
      assert !Less(AimKey(lane[l]), AimKey(lane[k]));
      AimKeyMeans(lane[l].job, lane[k].job, su);
      BankTotal(lane[l].job, lane[k].job, su);
    }
  }

  lemma BankPlaces(jobs: seq<Job>, su: Setup, i: nat)
    requires Distinct(jobs, UrlOf) && i < |BankOf(jobs, su)|
    ensures BankPlace(BankOf(jobs, su)[i].job, jobs, su) == i
  {
    var lane := BankOf(jobs, su);
    BankLane(jobs, su);
    forall x ensures !BankBefore(x, x, su) {
      BankTotal(x, x, su);
    }
    hide BankOf, BankBefore, Offered;
    PlaceInLane(lane, (a, b) => BankBefore(a, b, su), i);
    assert (set j | j in jobs && Offered(j, su) && BankBefore(j, lane[i].job, su))
        == (set j | j in JobsOf(lane) && ((a, b) => BankBefore(a, b, su))(j, lane[i].job));
  }

  lemma AimPlaces(jobs: seq<Job>, su: Setup, i: nat)
    requires Distinct(jobs, UrlOf) && i < |AimOf(jobs, su)|
    ensures AimPlace(AimOf(jobs, su)[i].job, jobs, su) == i
  {
    var lane := AimOf(jobs, su);
    AimLane(jobs, su);
    forall x ensures !AimBefore(x, x, su) {
      BankTotal(x, x, su);
    }
    hide AimOf, AimBefore, Offered;
    PlaceInLane(lane, (a, b) => AimBefore(a, b, su), i);
    assert (set j | j in jobs && Offered(j, su) && j.tier >= 4 && AimBefore(j, lane[i].job, su))
        == (set j | j in JobsOf(lane) && ((a, b) => AimBefore(a, b, su))(j, lane[i].job));
  }

  // ------------------------------------------------------------------ drawing in turns

  function TurnOf(c: Candidate): nat { Turn(c.lane, c.laneRank) }
  function EntryTurn(e: Entry): nat { Turn(e.lane, e.laneRank) }

  ghost predicate InTurn(cs: seq<Candidate>) {
    forall k, l :: 0 <= k < l < |cs| ==> TurnOf(cs[k]) < TurnOf(cs[l])
  }

  /** The candidates are the rows of both lanes, each in its own turn. */
  lemma {:induction false} InterleaveInTurn(bank: seq<Item>, aim: seq<Item>, i: nat)
    ensures InTurn(Interleave(bank, aim, i))
    ensures forall c :: c in Interleave(bank, aim, i) <==>
              && i <= c.laneRank
              && (if c.lane == Bank then c.laneRank < |bank| && c.item == bank[c.laneRank]
                  else c.laneRank < |aim| && c.item == aim[c.laneRank])
    decreases |bank| + |aim| - i
  {
    if i < |bank| || i < |aim| {
      InterleaveInTurn(bank, aim, i + 1);
      var rest, all := Interleave(bank, aim, i + 1), Interleave(bank, aim, i);
      var head := (if i < |bank| then [Candidate(bank[i], Bank, i)] else [])
                  + (if i < |aim| then [Candidate(aim[i], Aim, i)] else []);
      assert all == head + rest;
      forall k, l | 0 <= k < l < |all| ensures TurnOf(all[k]) < TurnOf(all[l]) {
        assert l >= |head| ==> all[l] in rest;
      }
    }
  }

  ghost predicate MadeFrom(e: Entry, c: Candidate) {
    && e.job == c.item.job && e.lane == c.lane && e.laneRank == c.laneRank && e.freshness == c.item.freshness
    && e.flags == UncertaintyFlags(e.job)
  }

  lemma {:induction false} GreedySplits(b: Board, cs: seq<Candidate>, more: seq<Candidate>, su: Setup)
    ensures Greedy(b, cs + more, su) == Greedy(Greedy(b, cs, su), more, su)
    decreases |cs|
  {
    if cs == [] {
      assert cs + more == more;
    } else {
      assert (cs + more)[0] == cs[0] && (cs + more)[1..] == cs[1..] + more;
      hide Push;
      GreedySplits(Push(b, cs[0], su), cs[1..], more, su);
    }
  }

  lemma PushMakes(b: Board, c: Candidate, su: Setup)
    ensures var n := Push(b, c, su);
            && b.decided <= n.decided <= b.decided + {c.item.job.url}
            && (n.entries == b.entries
                || exists e :: n.entries == b.entries + [e] && MadeFrom(e, c) && e.rank == |b.entries| + 1)
  {
    var n := Push(b, c, su);
    if n.entries != b.entries {
      var e := n.entries[|b.entries|];
      assert n.entries == b.entries + [e] && MadeFrom(e, c);
    }
  }

  /** Entries have been added, each made from one of these candidates. */
  ghost predicate GrownBy(entries: seq<Entry>, after: seq<Entry>, cs: seq<Candidate>) {
    entries <= after && forall i :: |entries| <= i < |after| ==> exists c :: c in cs && MadeFrom(after[i], c)
  }

  /** The entries of a draw come from its candidates, in their turns, and are numbered. */
  lemma {:induction false} GreedyMakes(b: Board, cs: seq<Candidate>, su: Setup)
    requires InTurn(cs)
    ensures var d := Greedy(b, cs, su);
            && GrownBy(b.entries, d.entries, cs)
            && (forall i :: |b.entries| <= i < |d.entries| ==> d.entries[i].rank == i + 1)
            && (forall i, j :: |b.entries| <= i < j < |d.entries| ==> EntryTurn(d.entries[i]) < EntryTurn(d.entries[j]))
            && d.decided <= b.decided + (set c | c in cs :: c.item.job.url)
    decreases |cs|
  {
    if cs != [] {
      var n := Push(b, cs[0], su);
      PushMakes(b, cs[0], su);
      hide Push;
      GreedyMakes(n, cs[1..], su);
      var d := Greedy(b, cs, su);
      assert forall c :: c in cs[1..] ==> c in cs && TurnOf(cs[0]) < TurnOf(c);
      assert cs[0] in cs;
      forall i | |b.entries| <= i < |d.entries| ensures d.entries[i].rank == i + 1 {
        assert i < |n.entries| ==> d.entries[i] == n.entries[i];
      }
      forall i | |b.entries| <= i < |d.entries| ensures exists c :: c in cs && MadeFrom(d.entries[i], c) {
        if i < |n.entries| {
          assert d.entries[i] == n.entries[i] && MadeFrom(d.entries[i], cs[0]);
        }
      }
    }
  }

  /** A url that was decided without being queued is never queued. */
  lemma {:induction false} NeverAgain(b: Board, cs: seq<Candidate>, su: Setup, url: int)
    requires url in b.decided || |b.entries| >= su.cap
    requires forall e :: e in b.entries ==> e.job.url != url
    ensures forall e :: e in Greedy(b, cs, su).entries ==> e.job.url != url
    decreases |cs|
  {
    if cs != [] {
      NeverAgain(Push(b, cs[0], su), cs[1..], su, url);
    }
  }

  // ------------------------------------------------------------------ what the caps count

  ghost function Colleagues(entries: seq<Entry>, job: Job): set<nat> {
    set i: nat | i < |entries| && SameCompany(entries[i].job, job)
  }

  ghost function UncertainOnes(entries: seq<Entry>): set<nat> {
    set i: nat | i < |entries| && Uncertain(entries[i].job)
  }

  lemma OneMoreEntry(entries: seq<Entry>, job: Job)
    requires entries != []
    ensures var n := |entries| - 1;
            && |Colleagues(entries, job)| ==
               |Colleagues(entries[..n], job)| + (if SameCompany(entries[n].job, job) then 1 else 0)
            && |UncertainOnes(entries)| == |UncertainOnes(entries[..n])| + (if Uncertain(entries[n].job) then 1 else 0)
  {
    hide SameCompany, Uncertain;
    var n := |entries| - 1;
    var held, uncertain := Colleagues(entries[..n], job), UncertainOnes(entries[..n]);
    assert Colleagues(entries, job) == held + if SameCompany(entries[n].job, job) then {n} else {};
    assert UncertainOnes(entries) == uncertain + if Uncertain(entries[n].job) then {n} else {};
    assert n !in held && n !in uncertain;
  }

  lemma {:induction false} HeldAreColleagues(entries: seq<Entry>, job: Job, su: Setup)
    ensures HeldBy(entries, CompanyKeyOf(job)) == |Colleagues(entries, job)|
    ensures UncertainHeld(entries) == |UncertainOnes(entries)|
  {
    hide SameCompany, Uncertain, CompanyKeyOf, UncertaintyFlags;
    if entries == [] {
      assert Colleagues(entries, job) == {} && UncertainOnes(entries) == {};
    } else {
      var n := |entries| - 1;
      HeldAreColleagues(entries[..n], job, su);
      CapsInFields(entries[n].job, job, su);
      OneMoreEntry(entries, job);
      hide Colleagues, UncertainOnes;
    }
  }

  /** A free slot, a free place for the company, and one for uncertain jobs if it is one. */
  ghost predicate LeavesRoom(earlier: seq<Entry>, job: Job, su: Setup) {
    && |earlier| < su.cap
    && |Colleagues(earlier, job)| < su.policy.companyCap
    && (Uncertain(job) ==> |UncertainOnes(earlier)| < su.UncertainCap())
  }

  lemma RoomMeansPushed(b: Board, c: Candidate, su: Setup)
    requires c.item.job.url !in b.decided
    ensures var n := Push(b, c, su);
            if LeavesRoom(b.entries, c.item.job, su) then |n.entries| == |b.entries| + 1
            else n.entries == b.entries && (c.item.job.url in n.decided || |n.entries| >= su.cap)
  {
    HeldAreColleagues(b.entries, c.item.job, su);
    CapsInFields(c.item.job, c.item.job, su);
    hide HeldBy, UncertainHeld, Uncertain, UncertaintyFlags, Colleagues, UncertainOnes;
  }

  // ------------------------------------------------------------------------ the theorems

  /** A candidate is an offered job at its place in the lane. */
  ghost predicate InItsPlace(c: Candidate, jobs: seq<Job>, su: Setup) {
    && c.item.job in jobs && Offered(c.item.job, su) && c.item == ItemOf(c.item.job, su)
    && (c.lane == Aim ==> c.item.job.tier >= 4)
    && c.laneRank == if c.lane == Bank then BankPlace(c.item.job, jobs, su) else AimPlace(c.item.job, jobs, su)
  }

  ghost function BankTurn(job: Job, jobs: seq<Job>, su: Setup): Candidate {
    Candidate(ItemOf(job, su), Bank, BankPlace(job, jobs, su))
  }

  ghost function AimTurn(job: Job, jobs: seq<Job>, su: Setup): Candidate {
    Candidate(ItemOf(job, su), Aim, AimPlace(job, jobs, su))
  }

  /** The candidates are the offered jobs, each at its place in each of its lanes, in turn. */
  lemma TheCandidates(jobs: seq<Job>, su: Setup)
    requires Distinct(jobs, UrlOf)
    ensures var cs := CandidatesOf(jobs, su);
            && InTurn(cs)
            && (forall c :: c in cs ==> InItsPlace(c, jobs, su))
            && (forall job :: job in jobs && Offered(job, su) ==>
                  BankTurn(job, jobs, su) in cs && (job.tier >= 4 ==> AimTurn(job, jobs, su) in cs))
  {
    var bank, aim, cs := BankOf(jobs, su), AimOf(jobs, su), CandidatesOf(jobs, su);
    InterleaveInTurn(bank, aim, 0);
    assert cs == Interleave(bank, aim, 0);
    hide BankOf, AimOf, BankPlace, AimPlace, Offered, FreshnessOf, Interleave, Distinct, InItsPlace, InTurn;
    hide CandidatesOf;
    forall c | c in cs ensures InItsPlace(c, jobs, su) {
      if c.lane == Bank {
        BankRows(jobs, su, c.laneRank);
      } else {
        AimRows(jobs, su, c.laneRank);
      }
      RowInItsPlace(c, jobs, su);
    }
    forall job | job in jobs && Offered(job, su)
      ensures BankTurn(job, jobs, su) in cs && (job.tier >= 4 ==> AimTurn(job, jobs, su) in cs)
    {
      OfferedRows(jobs, su, job);
    }
  }

  lemma RowInItsPlace(c: Candidate, jobs: seq<Job>, su: Setup)
    requires if c.lane == Bank then BankRow(jobs, su, c.laneRank) && c.item == BankOf(jobs, su)[c.laneRank]
             else AimRow(jobs, su, c.laneRank) && c.item == AimOf(jobs, su)[c.laneRank]
    ensures InItsPlace(c, jobs, su)
  {
    hide BankOf, AimOf, BankPlace, AimPlace, Offered, FreshnessOf;
  }

  /** Row i of the bank lane is an offered job with i offered jobs before it. */
  ghost predicate BankRow(jobs: seq<Job>, su: Setup, i: nat) {
    i < |BankOf(jobs, su)| &&
    var item := BankOf(jobs, su)[i];
    item.job in jobs && Offered(item.job, su) && item == ItemOf(item.job, su) && BankPlace(item.job, jobs, su) == i
  }

  ghost predicate AimRow(jobs: seq<Job>, su: Setup, i: nat) {
    i < |AimOf(jobs, su)| &&
    var item := AimOf(jobs, su)[i];
    && item.job in jobs && Offered(item.job, su) && item.job.tier >= 4
    && item == ItemOf(item.job, su) && AimPlace(item.job, jobs, su) == i
  }

  /** An offered job has its row in each of its lanes. */
  ghost predicate RowsOf(jobs: seq<Job>, su: Setup, job: Job) {
    && BankPlace(job, jobs, su) < |BankOf(jobs, su)|
    && BankOf(jobs, su)[BankPlace(job, jobs, su)] == ItemOf(job, su)
    && (job.tier >= 4 ==>
          && AimPlace(job, jobs, su) < |AimOf(jobs, su)|
          && AimOf(jobs, su)[AimPlace(job, jobs, su)] == ItemOf(job, su))
  }

  lemma BankRows(jobs: seq<Job>, su: Setup, i: nat)
    requires Distinct(jobs, UrlOf) && i < |BankOf(jobs, su)|
    ensures BankRow(jobs, su, i)
  {
    BankPlaces(jobs, su, i);
    BankMembers(jobs, su);
    hide BankPlace, BankOf, Offered, Passes, FreshnessOf;
    var item := BankOf(jobs, su)[i];
    assert item in BankOf(jobs, su);
    GateInFields(item.job, su);
  }

  lemma AimRows(jobs: seq<Job>, su: Setup, i: nat)
    requires Distinct(jobs, UrlOf) && i < |AimOf(jobs, su)|
    ensures AimRow(jobs, su, i)
  {
    AimPlaces(jobs, su, i);
    AimMembers(jobs, su);
    hide AimPlace, AimOf, Offered, Passes, FreshnessOf;
    var item := AimOf(jobs, su)[i];
    assert item in AimOf(jobs, su);
    GateInFields(item.job, su);
  }

  lemma OfferedRows(jobs: seq<Job>, su: Setup, job: Job)
    requires Distinct(jobs, UrlOf) && job in jobs && Offered(job, su)
    ensures RowsOf(jobs, su, job)
  {
    BankMembers(jobs, su);
    AimMembers(jobs, su);
    GateInFields(job, su);
    hide BankPlace, AimPlace, BankOf, AimOf, Offered, Passes, FreshnessOf;
    var item := ItemOf(job, su);
    assert item in BankOf(jobs, su);
    var i :| 0 <= i < |BankOf(jobs, su)| && BankOf(jobs, su)[i] == item;
    BankPlaces(jobs, su, i);
    if job.tier >= 4 {
      assert item in AimOf(jobs, su);
      var k :| 0 <= k < |AimOf(jobs, su)| && AimOf(jobs, su)[k] == item;
      AimPlaces(jobs, su, k);
    }
  }

  // ------------------------------------------------------------------------ the theorems

  /** An entry is an offered job at its place in the lane, and is labelled as its fields say. */
  ghost predicate InItsTurn(e: Entry, jobs: seq<Job>, su: Setup) {
    && e.job in jobs && Offered(e.job, su)
    && (e.lane == Aim ==> e.job.tier >= 4)
    && e.laneRank == (if e.lane == Bank then BankPlace(e.job, jobs, su) else AimPlace(e.job, jobs, su))
    && (e.flags == [] <==> !Uncertain(e.job))
  }

  /** The queue is numbered, and its jobs come in the turns of the lanes, each at its place. */
  lemma EntriesInTurn(jobs: seq<Job>, su: Setup)
    requires Distinct(jobs, UrlOf)
    ensures var q := Compose(jobs, su).entries;
            && (forall i :: 0 <= i < |q| ==> q[i].rank == i + 1 && InItsTurn(q[i], jobs, su))
            && (forall i, j :: 0 <= i < j < |q| ==> EntryTurn(q[i]) < EntryTurn(q[j]))
  {
    var gated, cs := Gate(SortBy(jobs, UrlKey), su).0, CandidatesOf(jobs, su);
    GateMembers(SortBy(jobs, UrlKey), su);
    TheCandidates(jobs, su);
    OverflowKeeps(Drawn(jobs, su), BankOf(jobs, su), |BankOf(jobs, su)|, su);
    GreedyMakes(gated, cs, su);
    var q := Compose(jobs, su).entries;
    assert q == Greedy(gated, cs, su).entries;
    hide *;
    forall i | 0 <= i < |q| ensures q[i].rank == i + 1 && InItsTurn(q[i], jobs, su) {
      MadeSomehow(q, cs, i);
      var c :| c in cs && MadeFrom(q[i], c);
      MadeInTurn(q[i], c, jobs, su);
    }
  }

  lemma MadeSomehow(entries: seq<Entry>, cs: seq<Candidate>, i: nat)
    requires GrownBy([], entries, cs) && i < |entries|
    ensures exists c :: c in cs && MadeFrom(entries[i], c)
  {
    hide MadeFrom;
    var e := entries[i];
    var c :| c in cs && MadeFrom(e, c);
  }

  lemma MadeInTurn(e: Entry, c: Candidate, jobs: seq<Job>, su: Setup)
    requires MadeFrom(e, c) && InItsPlace(c, jobs, su)
    ensures InItsTurn(e, jobs, su) && EntryTurn(e) == TurnOf(c)
  {
    CapsInFields(e.job, e.job, su);
    hide Offered, Uncertain, UncertaintyFlags, BankPlace, AimPlace;
  }

  /** A job's candidates are its turns, and the first of them is its first turn. */
  lemma FirstCandidate(jobs: seq<Job>, su: Setup, job: Job) returns (k: nat)
    requires Distinct(jobs, UrlOf) && job in jobs && Offered(job, su)
    ensures var cs := CandidatesOf(jobs, su);
            && k < |cs| && cs[k].item.job == job && TurnOf(cs[k]) == FirstTurn(job, jobs, su)
            && forall i :: 0 <= i < k ==> cs[i].item.job.url != job.url
  {
    TheCandidates(jobs, su);
    var cs := CandidatesOf(jobs, su);
    hide CandidatesOf, BankPlace, AimPlace, Offered, Distinct;
    var aims := job.tier >= 4 && Turn(Aim, AimPlace(job, jobs, su)) < Turn(Bank, BankPlace(job, jobs, su));
    var c := if aims then AimTurn(job, jobs, su) else BankTurn(job, jobs, su);
    assert c in cs;
    k :| 0 <= k < |cs| && cs[k] == c;
    forall i | 0 <= i < k ensures cs[i].item.job.url != job.url {
      if cs[i].item.job.url == job.url {
        assert cs[i] in cs && TurnOf(cs[i]) < TurnOf(cs[k]);
        SameUrlSameJob(jobs, cs[i].item.job, job);
      }
    }
  }

  /**
   Of the entries before the first turn of `job`, `n` in number, it depends whether it is taken:
   then and there, or never.
   */
  ghost predicate Decides(q: seq<Entry>, n: nat, job: Job, turn: nat, su: Setup) {
    && n <= |q|
    && (forall i :: 0 <= i < n ==> EntryTurn(q[i]) < turn)
    && (forall i :: n <= i < |q| ==> EntryTurn(q[i]) >= turn)
    && (if LeavesRoom(q[..n], job, su) then n < |q| && q[n].job == job && EntryTurn(q[n]) == turn
        else forall e :: e in q ==> e.job.url != job.url)
  }

  /** What the draw makes of the job whose first candidate is `cs[k]`. */
  lemma DrawDecides(b: Board, cs: seq<Candidate>, k: nat, su: Setup)
    requires b.entries == [] && b.decided == {} && InTurn(cs) && k < |cs|
    requires forall i :: 0 <= i < k ==> cs[i].item.job.url != cs[k].item.job.url
    ensures var q := Greedy(b, cs, su).entries;
            var n := |Greedy(b, cs[..k], su).entries|;
            Decides(q, n, cs[k].item.job, TurnOf(cs[k]), su)
  {
    var job := cs[k].item.job;
    var before := Greedy(b, cs[..k], su);
    var next := Push(before, cs[k], su);
    assert cs == cs[..k] + ([cs[k]] + cs[k + 1..]);
    GreedySplits(b, cs[..k], [cs[k]] + cs[k + 1..], su);
    OnePush(before, cs[k], cs[k + 1..], su);
    PartsInTurn(cs, k);
    GreedyMakes(b, cs[..k], su);
    GreedyMakes(next, cs[k + 1..], su);
    NotDecidedYet(before.decided, cs, k);
    RoomMeansPushed(before, cs[k], su);
    PushMakes(before, cs[k], su);
    hide *;
    var d := Greedy(next, cs[k + 1..], su);
    BeforeAndAfter(before.entries, next.entries, d.entries, cs, k);
    assert d.entries[..|before.entries|] == before.entries;
    if !LeavesRoom(before.entries, job, su) {
      NotQueuedYet(before.entries, cs, k);
      NeverAgain(next, cs[k + 1..], su, job.url);
    }
    DecidesIf(d.entries, before.entries, next.entries, cs[k], su);
  }

  lemma PartsInTurn(cs: seq<Candidate>, k: nat)
    requires InTurn(cs) && k < |cs|
    ensures InTurn(cs[..k]) && InTurn(cs[k + 1..])
  {
  }

  lemma NotDecidedYet(decided: set<int>, cs: seq<Candidate>, k: nat)
    requires k < |cs| && decided <= set c | c in cs[..k] :: c.item.job.url
    requires forall i :: 0 <= i < k ==> cs[i].item.job.url != cs[k].item.job.url
    ensures cs[k].item.job.url !in decided
  {
  }

  lemma NotQueuedYet(entries: seq<Entry>, cs: seq<Candidate>, k: nat)
    requires k < |cs| && GrownBy([], entries, cs[..k])
    requires forall i :: 0 <= i < k ==> cs[i].item.job.url != cs[k].item.job.url
    ensures forall e :: e in entries ==> e.job.url != cs[k].item.job.url
  {
    forall e | e in entries ensures e.job.url != cs[k].item.job.url {
      var i :| 0 <= i < |entries| && entries[i] == e;
      var c :| c in cs[..k] && MadeFrom(e, c);
    }
  }

  lemma DecidesIf(q: seq<Entry>, before: seq<Entry>, next: seq<Entry>, c: Candidate, su: Setup)
    requires before <= q && next <= q && q[..|before|] == before
    requires forall i :: 0 <= i < |before| ==> EntryTurn(q[i]) < TurnOf(c)
    requires forall i :: |before| <= i < |q| ==> EntryTurn(q[i]) >= TurnOf(c)
    requires |next| > |before| ==> q[|before|].job == c.item.job && EntryTurn(q[|before|]) == TurnOf(c)
    requires if LeavesRoom(before, c.item.job, su) then |next| == |before| + 1
             else forall e :: e in q ==> e.job.url != c.item.job.url
    ensures Decides(q, |before|, c.item.job, TurnOf(c), su)
  {
    hide LeavesRoom, EntryTurn, TurnOf;
  }

  lemma OnePush(b: Board, c: Candidate, more: seq<Candidate>, su: Setup)
    ensures Greedy(b, [c] + more, su) == Greedy(Push(b, c, su), more, su)
  {
    assert ([c] + more)[1..] == more;
    hide Push;
  }

  lemma BeforeAndAfter(before: seq<Entry>, next: seq<Entry>, all: seq<Entry>, cs: seq<Candidate>, k: nat)
    requires InTurn(cs) && k < |cs| && GrownBy([], before, cs[..k]) && GrownBy(next, all, cs[k + 1..])
    requires next == before || exists e :: next == before + [e] && MadeFrom(e, cs[k])
    ensures before <= all
    ensures forall i :: 0 <= i < |before| ==> EntryTurn(all[i]) < TurnOf(cs[k])
    ensures forall i :: |before| <= i < |all| ==> EntryTurn(all[i]) >= TurnOf(cs[k])
    ensures |next| > |before| ==> all[|before|].job == cs[k].item.job && EntryTurn(all[|before|]) == TurnOf(cs[k])
  {
    forall i | 0 <= i < |before| ensures EntryTurn(all[i]) < TurnOf(cs[k]) {
      assert all[i] == before[i];
      var c :| c in cs[..k] && MadeFrom(before[i], c);
      var l :| 0 <= l < k && cs[l] == c;
    }
    forall i | |next| <= i < |all| ensures EntryTurn(all[i]) >= TurnOf(cs[k]) {
      var c :| c in cs[k + 1..] && MadeFrom(all[i], c);
      var l :| k < l < |cs| && cs[l] == c;
    }
    if |next| > |before| {
      assert all[|before|] == next[|before|];
    }
  }

  /**
   Whether an offered job is queued is decided at its first turn, by the jobs taken before it:
   it is, exactly if they leave a slot, a place for its company, and one for uncertain jobs
   should it be one.
   */
  lemma TakenAtFirstTurn(jobs: seq<Job>, su: Setup, job: Job) returns (n: nat)
    requires Distinct(jobs, UrlOf) && job in jobs && Offered(job, su)
    ensures Decides(Compose(jobs, su).entries, n, job, FirstTurn(job, jobs, su), su)
  {
    var gated, cs := Gate(SortBy(jobs, UrlKey), su).0, CandidatesOf(jobs, su);
    GateMembers(SortBy(jobs, UrlKey), su);
    OverflowKeeps(Drawn(jobs, su), BankOf(jobs, su), |BankOf(jobs, su)|, su);
    TheCandidates(jobs, su);
    var k := FirstCandidate(jobs, su, job);
    DrawDecides(gated, cs, k, su);
    n := |Greedy(gated, cs[..k], su).entries|;
    assert Compose(jobs, su).entries == Greedy(gated, cs, su).entries;
    hide *;
  }
}
