/**
 The Today queue (ranking.py) as a specification: two sorted lanes, interleaved bank first,
 and a greedy fold that fills the queue under three caps. The code itself is modelled in
 `QueueComposer`, which is proved equal to `Compose` here.

 A `url_b64` is its rank in code-point order; a company is its stripped, case-folded name
 (None when empty); dates are day numbers, None when unparseable.
 */
module TodayQueue {
  import opened Wrappers
  import opened Ordering

  datatype JobState = JobState(status: string, hidden: bool, snoozedUntil: Option<int>)
  datatype Job = Job(
    url: int, state: Option<JobState>, tier: int,
    posted: Option<int>, firstSeen: Option<int>,
    odds: Option<string>, oddsScore: Option<int>, hasDesc: bool, company: Option<int>)
  datatype Policy = Policy(
    minTier: int, companyCap: int, freshDays: int, staleDays: int, uncertainCap: Option<int>)
  datatype Setup = Setup(cap: int, today: int, policy: Policy) {
    function UncertainCap(): int {
      if policy.uncertainCap.Some? then policy.uncertainCap.value
      else if cap / 5 > 1 then cap / 5 else 1
    }
  }

  // ------------------------------------------------------------- odds bands

  /** Index of the first " / ". */
  function FindSeparator(s: string): (i: Option<nat>)
    ensures i.Some? ==> i.value + 3 <= |s| && s[i.value..i.value + 3] == " / "
  {
    if |s| < 3 then None
    else if s[..3] == " / " then Some(0)
    else
      var rest := FindSeparator(s[1..]);
      if rest.None? then None
      else
        assert s[1..][rest.value..rest.value + 3] == s[rest.value + 1..rest.value + 4];
        Some(rest.value + 1)
  }

  function ParseOdds(odds: Option<string>): (Option<string>, Option<string>) {
    if odds.None? || odds.value == "" then (None, None)
    else
      var i := FindSeparator(odds.value);
      if i.None? then (None, None)
      else (Some(odds.value[..i.value]), Some(odds.value[i.value + 3..]))
  }

  function MatchRank(m: Option<string>): int {
    if m == Some("Strong match") then 0
    else if m == Some("Moderate match") then 1
    else if m == Some("Weak match") then 2
    else if m == Some("Level stretch") then 3
    else 5
  }

  function CompetitionRank(c: Option<string>): int {
    if c == Some("Lower bar") then 0
    else if c == Some("Standard") then 1
    else if c == Some("High competition") then 2
    else 3
  }

  function OddsRank(m: Option<string>, c: Option<string>): int {
    if m.None? || c.None? then 1000 else MatchRank(m) * 10 + CompetitionRank(c)
  }

  // -------------------------------------------------------------- freshness

  datatype Bucket = Fresh | Aging | Unknown | Stale
  datatype Basis = Posted | FirstSeen
  datatype Freshness = Freshness(bucket: Bucket, age: Option<nat>, basis: Option<Basis>)

  function FreshnessOf(job: Job, su: Setup): Freshness {
    if job.posted.Some? then Aged(job.posted.value, Posted, su)
    else if job.firstSeen.Some? then Aged(job.firstSeen.value, FirstSeen, su)
    else Freshness(Unknown, None, None)
  }

  function Aged(day: int, basis: Basis, su: Setup): Freshness {
    var age: nat := if su.today - day > 0 then su.today - day else 0;
    var bucket :=
      if age <= su.policy.freshDays then Fresh
      else if age <= su.policy.staleDays then Aging
      else Stale;
    Freshness(bucket, Some(age), Some(basis))
  }

  function BucketRank(b: Bucket): int {
    match b
    case Fresh => 0
    case Aging => 1
    case Unknown => 1
    case Stale => 2
  }

  // ------------------------------------------------------------ eligibility

  datatype Reason =
    | NotNew | Hidden | Snoozed | TierBelowCutoff | StalePosting
    | CompanyCap | UncertaintyCap | BeyondCap
  datatype Flag = Unscored | NoDescription
  datatype Detail =
    | Age(days: Option<nat>, basis: Option<Basis>)
    | CompanyHolds(slots: int)
    | Flagged(flags: seq<Flag>)
    | NextUp
  datatype Exclusion = Exclusion(job: Job, reason: Reason, detail: Detail)

  function Ineligibility(job: Job, su: Setup): Option<Reason> {
    if job.state.Some? && job.state.value.status != "New" then Some(NotNew)
    else if job.state.Some? && job.state.value.hidden then Some(Hidden)
    else if job.state.Some? && job.state.value.snoozedUntil.Some?
            && job.state.value.snoozedUntil.value > su.today then Some(Snoozed)
    else if job.tier < su.policy.minTier then Some(TierBelowCutoff)
    else None
  }

  function UncertaintyFlags(job: Job): seq<Flag> {
    var (m, c) := ParseOdds(job.odds);
    (if m.None? || c.None? || job.oddsScore.None? then [Unscored] else [])
    + (if !job.hasDesc then [NoDescription] else [])
  }

  /** A job without a company is its own company. */
  datatype CompanyKey = Named(name: int) | Own(url: int)

  function CompanyKeyOf(job: Job): CompanyKey {
    if job.company.Some? then Named(job.company.value) else Own(job.url)
  }

  // ------------------------------------------------------------------ lanes

  datatype Item = Item(job: Job, freshness: Freshness)

  function UrlKey(job: Job): Key {
    [job.url]
  }

  function ScoreKeys(job: Job): Key {
    if job.oddsScore.None? then [1, 0] else [0, -job.oddsScore.value]
  }

  function BankKey(item: Item): Key {
    var (m, c) := ParseOdds(item.job.odds);
    [CompetitionRank(c), MatchRank(m), BucketRank(item.freshness.bucket)]
    + ScoreKeys(item.job) + [-item.job.tier, item.job.url]
  }

  function AimKey(item: Item): Key {
    var (m, c) := ParseOdds(item.job.odds);
    [-item.job.tier, OddsRank(m, c), BucketRank(item.freshness.bucket)]
    + ScoreKeys(item.job) + [item.job.url]
  }

  datatype Lane = Bank | Aim
  datatype Candidate = Candidate(item: Item, lane: Lane, laneRank: nat)

  /** The lanes from index `i` on, one from each in turn, bank first. */
  function Interleave(bank: seq<Item>, aim: seq<Item>, i: nat): seq<Candidate>
    decreases |bank| + |aim| - i
  {
    if i >= |bank| && i >= |aim| then []
    else
      (if i < |bank| then [Candidate(bank[i], Bank, i)] else [])
      + (if i < |aim| then [Candidate(aim[i], Aim, i)] else [])
      + Interleave(bank, aim, i + 1)
  }

  function HighTier(items: seq<Item>): seq<Item> {
    if items == [] then []
    else
      var last := items[|items| - 1];
      HighTier(items[..|items| - 1]) + if last.job.tier >= 4 then [last] else []
  }

  // ------------------------------------------------------------- the greedy fold

  datatype Entry = Entry(job: Job, rank: nat, lane: Lane, laneRank: nat, freshness: Freshness, flags: seq<Flag>)

  /**
   A queue in the making. `charged` says which reason each excluded url is counted under; the
   code keeps only the counts.
   */
  datatype Board = Board(
    entries: seq<Entry>, decided: set<int>, detailed: seq<Exclusion>,
    counts: multiset<Reason>, charged: map<int, Reason>)

  function HeldBy(entries: seq<Entry>, company: CompanyKey): nat {
    if entries == [] then 0
    else
      HeldBy(entries[..|entries| - 1], company)
      + if CompanyKeyOf(entries[|entries| - 1].job) == company then 1 else 0
  }

  function UncertainHeld(entries: seq<Entry>): nat {
    if entries == [] then 0
    else
      UncertainHeld(entries[..|entries| - 1])
      + if UncertaintyFlags(entries[|entries| - 1].job) != [] then 1 else 0
  }

  function Exclude(b: Board, job: Job, reason: Reason, detail: Detail): Board {
    b.(counts := b.counts + multiset{reason},
       charged := b.charged[job.url := reason],
       detailed := b.detailed + [Exclusion(job, reason, detail)])
  }

  /** Which cap keeps `job` out of a queue that holds `entries`, if any. */
  function Blocked(entries: seq<Entry>, job: Job, su: Setup): Option<Reason> {
    if HeldBy(entries, CompanyKeyOf(job)) >= su.policy.companyCap then Some(CompanyCap)
    else if UncertaintyFlags(job) != [] && UncertainHeld(entries) >= su.UncertainCap() then
      Some(UncertaintyCap)
    else None
  }

  /** Take the candidate unless the queue is full, its url was decided, or a cap blocks it. */
  function Push(b: Board, c: Candidate, su: Setup): Board {
    var job := c.item.job;
    if |b.entries| >= su.cap || job.url in b.decided then b
    else
      var flags := UncertaintyFlags(job);
      var b := b.(decided := b.decided + {job.url});
      match Blocked(b.entries, job, su)
      case Some(CompanyCap) => Exclude(b, job, CompanyCap, CompanyHolds(su.policy.companyCap))
      case Some(_) => Exclude(b, job, UncertaintyCap, Flagged(flags))
      case None =>
        b.(entries := b.entries
             + [Entry(job, |b.entries| + 1, c.lane, c.laneRank, c.item.freshness, flags)])
  }

  function Greedy(b: Board, cs: seq<Candidate>, su: Setup): Board
    decreases |cs|
  {
    if cs == [] then b else Greedy(Push(b, cs[0], su), cs[1..], su)
  }

  /** The gate before the lanes: every job is eligible, or counted under its first failing check. */
  function Gate(jobs: seq<Job>, su: Setup): (Board, seq<Item>) {
    if jobs == [] then (Board([], {}, [], multiset{}, map[]), [])
    else
      var (b, eligible) := Gate(jobs[..|jobs| - 1], su);
      var job := jobs[|jobs| - 1];
      var failure := Ineligibility(job, su);
      var freshness := FreshnessOf(job, su);
      if failure.Some? then
        (b.(counts := b.counts + multiset{failure.value},
            charged := b.charged[job.url := failure.value]), eligible)
      else if freshness.bucket == Stale then
        (Exclude(b, job, StalePosting, Age(freshness.age, freshness.basis)), eligible)
      else (b, eligible + [Item(job, freshness)])
  }

  /** The first `n` rows of the bank: what was never decided is beyond the cap. */
  function Overflow(b: Board, bank: seq<Item>, n: nat, su: Setup): (r: (Board, nat))
    requires n <= |bank|
  {
    if n == 0 then (b, 0)
    else
      var (b1, shown) := Overflow(b, bank, n - 1, su);
      var job := bank[n - 1].job;
      if job.url in b.decided then (b1, shown)
      else if shown < su.cap then (Exclude(b1, job, BeyondCap, NextUp), shown + 1)
      else (b1.(counts := b1.counts + multiset{BeyondCap},
                charged := b1.charged[job.url := BeyondCap]), shown)
  }

  function BankOf(jobs: seq<Job>, su: Setup): seq<Item> {
    SortBy(Gate(SortBy(jobs, UrlKey), su).1, BankKey)
  }

  function CandidatesOf(jobs: seq<Job>, su: Setup): seq<Candidate> {
    Interleave(
      BankOf(jobs, su), SortBy(HighTier(Gate(SortBy(jobs, UrlKey), su).1), AimKey), 0)
  }

  /** The board once the lanes have been drawn from. */
  function Drawn(jobs: seq<Job>, su: Setup): Board {
    Greedy(Gate(SortBy(jobs, UrlKey), su).0, CandidatesOf(jobs, su), su)
  }

  /** `build_queue`, with the charges it counts. */
  function Compose(jobs: seq<Job>, su: Setup): Board {
    Overflow(Drawn(jobs, su), BankOf(jobs, su), |BankOf(jobs, su)|, su).0
  }

  function UrlOf(job: Job): int {
    job.url
  }

  function ItemUrl(item: Item): int {
    item.job.url
  }

  /** The queue does not depend on the order the jobs arrive in. */
  lemma QueueIgnoresOrder(jobs: seq<Job>, shuffled: seq<Job>, su: Setup)
    requires Distinct(jobs, UrlOf) && multiset(jobs) == multiset(shuffled)
    ensures Compose(jobs, su) == Compose(shuffled, su)
  {
    SortByPermutation(jobs, shuffled, UrlKey);
  }

  lemma {:induction false} FullStaysFull(b: Board, cs: seq<Candidate>, su: Setup)
    requires |b.entries| >= su.cap
    ensures Greedy(b, cs, su) == b
    decreases |cs|
  {
    if cs != [] {
      FullStaysFull(b, cs[1..], su);
    }
  }

  // ------------------------------------------------------------- who is eligible

  predicate Passes(job: Job, su: Setup) {
    Ineligibility(job, su).None? && FreshnessOf(job, su).bucket != Stale
  }

  lemma {:induction false} GateMembers(jobs: seq<Job>, su: Setup)
    ensures forall item :: item in Gate(jobs, su).1 <==>
              item.job in jobs && Passes(item.job, su) && item.freshness == FreshnessOf(item.job, su)
    ensures Gate(jobs, su).0.entries == [] && Gate(jobs, su).0.decided == {}
    ensures |Gate(jobs, su).0.counts| + |Gate(jobs, su).1| == |jobs|
  {
    if jobs != [] {
      var init, last := jobs[..|jobs| - 1], jobs[|jobs| - 1];
      GateMembers(init, su);
      assert jobs == init + [last];
    }
  }

  lemma BankMembers(jobs: seq<Job>, su: Setup)
    ensures forall item :: item in BankOf(jobs, su) <==>
              item.job in jobs && Passes(item.job, su) && item.freshness == FreshnessOf(item.job, su)
    ensures |Gate(SortBy(jobs, UrlKey), su).0.counts| + |BankOf(jobs, su)| == |jobs|
  {
    SortByMembers(jobs, UrlKey);
    GateMembers(SortBy(jobs, UrlKey), su);
    SortByMembers(Gate(SortBy(jobs, UrlKey), su).1, BankKey);
  }

  lemma {:induction false} HighTierMembers(items: seq<Item>)
    ensures forall item :: item in HighTier(items) <==> item in items && item.job.tier >= 4
  {
    if items != [] {
      var init, last := items[..|items| - 1], items[|items| - 1];
      HighTierMembers(init);
      assert items == init + [last];
    }
  }

  lemma {:induction false} InterleaveMembers(bank: seq<Item>, aim: seq<Item>, i: nat)
    ensures forall c :: c in Interleave(bank, aim, i) ==> c.item in bank || c.item in aim
    ensures forall j :: i <= j < |bank| ==> Candidate(bank[j], Bank, j) in Interleave(bank, aim, i)
    decreases |bank| + |aim| - i
  {
    if i < |bank| || i < |aim| {
      InterleaveMembers(bank, aim, i + 1);
    }
  }

  /** The candidates are the bank's rows; the aim lane only repeats some of them. */
  lemma CandidateMembers(jobs: seq<Job>, su: Setup)
    ensures forall c :: c in CandidatesOf(jobs, su) ==> c.item in BankOf(jobs, su)
    ensures forall item :: item in BankOf(jobs, su) ==>
              exists c :: c in CandidatesOf(jobs, su) && c.item == item
  {
    var eligible := Gate(SortBy(jobs, UrlKey), su).1;
    var bank, aim := BankOf(jobs, su), SortBy(HighTier(eligible), AimKey);
    HighTierMembers(eligible);
    SortByMembers(eligible, BankKey);
    SortByMembers(HighTier(eligible), AimKey);
    InterleaveMembers(bank, aim, 0);
    forall item | item in bank ensures exists c :: c in CandidatesOf(jobs, su) && c.item == item {
      var j :| 0 <= j < |bank| && bank[j] == item;
      assert Candidate(bank[j], Bank, j) in CandidatesOf(jobs, su);
    }
  }

  // ---------------------------------------------------------------- the caps

  ghost predicate WithinCaps(entries: seq<Entry>, su: Setup) {
    && (entries != [] ==> |entries| <= su.cap)
    && (forall company :: HeldBy(entries, company) > 0 ==>
          HeldBy(entries, company) <= su.policy.companyCap)
    && (UncertainHeld(entries) > 0 ==> UncertainHeld(entries) <= su.UncertainCap())
    && (forall i :: 0 <= i < |entries| ==> entries[i].rank == i + 1)
  }

  lemma HeldByOneMore(entries: seq<Entry>, e: Entry, company: CompanyKey)
    ensures HeldBy(entries + [e], company)
         == HeldBy(entries, company) + if CompanyKeyOf(e.job) == company then 1 else 0
    ensures UncertainHeld(entries + [e])
         == UncertainHeld(entries) + if UncertaintyFlags(e.job) != [] then 1 else 0
  {
    assert (entries + [e])[..|entries|] == entries;
  }

  lemma PushWithinCaps(b: Board, c: Candidate, su: Setup)
    requires WithinCaps(b.entries, su)
    ensures WithinCaps(Push(b, c, su).entries, su)
  {
    var job := c.item.job;
    if Push(b, c, su).entries != b.entries {
      var e := Push(b, c, su).entries[|b.entries|];
      forall company ensures HeldBy(b.entries + [e], company)
          == HeldBy(b.entries, company) + if CompanyKeyOf(job) == company then 1 else 0
      {
        HeldByOneMore(b.entries, e, company);
      }
      HeldByOneMore(b.entries, e, CompanyKeyOf(job));
    }
  }

  lemma {:induction false} GreedyWithinCaps(b: Board, cs: seq<Candidate>, su: Setup)
    requires WithinCaps(b.entries, su)
    ensures WithinCaps(Greedy(b, cs, su).entries, su)
    decreases |cs|
  {
    if cs != [] {
      PushWithinCaps(b, cs[0], su);
      GreedyWithinCaps(Push(b, cs[0], su), cs[1..], su);
    }
  }

  lemma {:induction false} OverflowKeeps(b: Board, bank: seq<Item>, n: nat, su: Setup)
    requires n <= |bank|
    ensures Overflow(b, bank, n, su).0.entries == b.entries
    ensures Overflow(b, bank, n, su).0.decided == b.decided
  {
    if n > 0 {
      OverflowKeeps(b, bank, n - 1, su);
    }
  }

  /** Whatever the jobs, the queue respects the slot, company and uncertainty caps. */
  lemma QueueWithinCaps(jobs: seq<Job>, su: Setup)
    ensures WithinCaps(Compose(jobs, su).entries, su)
  {
    GateMembers(SortBy(jobs, UrlKey), su);
    GreedyWithinCaps(Gate(SortBy(jobs, UrlKey), su).0, CandidatesOf(jobs, su), su);
    OverflowKeeps(Drawn(jobs, su), BankOf(jobs, su), |BankOf(jobs, su)|, su);
  }

  // ------------------------------------------------------------- conservation

  lemma {:induction false} GreedyBalance(b: Board, cs: seq<Candidate>, su: Setup)
    ensures var d := Greedy(b, cs, su);
            && |d.entries| + |d.counts| - |d.decided| == |b.entries| + |b.counts| - |b.decided|
            && b.decided <= d.decided
            && forall u :: u in d.decided ==> u in b.decided || exists c :: c in cs && c.item.job.url == u
    decreases |cs|
  {
    if cs != [] {
      GreedyBalance(Push(b, cs[0], su), cs[1..], su);
      assert forall c :: c in cs[1..] ==> c in cs;
    }
  }

  /** Rows among the first `n` of the bank whose url has been decided. */
  function DecidedRows(bank: seq<Item>, decided: set<int>, n: nat): nat
    requires n <= |bank|
  {
    if n == 0 then 0
    else DecidedRows(bank, decided, n - 1) + if bank[n - 1].job.url in decided then 1 else 0
  }

  lemma {:induction false} OverflowBalance(b: Board, bank: seq<Item>, n: nat, su: Setup)
    requires n <= |bank|
    ensures |Overflow(b, bank, n, su).0.counts| == |b.counts| + n - DecidedRows(bank, b.decided, n)
  {
    if n > 0 {
      OverflowBalance(b, bank, n - 1, su);
    }
  }

  /** No two of the first `n` rows share a decided url. */
  ghost predicate NoTwins(bank: seq<Item>, decided: set<int>, n: nat)
    requires n <= |bank|
  {
    forall i, j :: 0 <= i < j < n && bank[i].job.url in decided ==> bank[i].job.url != bank[j].job.url
  }

  ghost function UrlsUpTo(bank: seq<Item>, n: nat): set<int>
    requires n <= |bank|
  {
    set i | 0 <= i < n :: bank[i].job.url
  }

  lemma {:induction false} TwinsLoseRows(bank: seq<Item>, decided: set<int>, n: nat)
    requires n <= |bank|
    ensures |decided * UrlsUpTo(bank, n)| <= DecidedRows(bank, decided, n)
    ensures |decided * UrlsUpTo(bank, n)| == DecidedRows(bank, decided, n) <==> NoTwins(bank, decided, n)
  {
    if n > 0 {
      TwinsLoseRows(bank, decided, n - 1);
      TwinStep(bank, decided, n);
      hide UrlsUpTo;
      hide NoTwins;
      MeetOneMore(decided, UrlsUpTo(bank, n - 1), bank[n - 1].job.url);
    }
  }

  lemma MeetOneMore(decided: set<int>, urls: set<int>, u: int)
    ensures |decided * (urls + {u})|
         == |decided * urls| + if u in decided && u !in decided * urls then 1 else 0
  {
    if u in decided && u !in decided * urls {
      assert decided * (urls + {u}) == decided * urls + {u};
    } else {
      assert decided * (urls + {u}) == decided * urls;
    }
  }

  lemma TwinStep(bank: seq<Item>, decided: set<int>, n: nat)
    requires 0 < n <= |bank|
    ensures UrlsUpTo(bank, n) == UrlsUpTo(bank, n - 1) + {bank[n - 1].job.url}
    ensures NoTwins(bank, decided, n) <==>
              NoTwins(bank, decided, n - 1)
              && bank[n - 1].job.url !in decided * UrlsUpTo(bank, n - 1)
  {
    var u := bank[n - 1].job.url;
    if u in decided * UrlsUpTo(bank, n - 1) {
      var i :| 0 <= i < n - 1 && bank[i].job.url == u;
      assert !NoTwins(bank, decided, n);
    } else if NoTwins(bank, decided, n - 1) {
      forall i | 0 <= i < n - 1 && bank[i].job.url in decided ensures bank[i].job.url != u {
        assert bank[i].job.url in UrlsUpTo(bank, n - 1);
      }
    }
  }

  /**
   Every job is queued or counted, exactly when no two eligible rows share a url that was
   decided. When two do, the later one is lost; nothing is ever counted twice.
   */
  lemma Conservation(jobs: seq<Job>, su: Setup)
    ensures |Compose(jobs, su).entries| + |Compose(jobs, su).counts| <= |jobs|
    ensures |Compose(jobs, su).entries| + |Compose(jobs, su).counts| == |jobs| <==>
            NoTwins(BankOf(jobs, su), Drawn(jobs, su).decided, |BankOf(jobs, su)|)
  {
    var bank, gated, drawn := BankOf(jobs, su), Gate(SortBy(jobs, UrlKey), su).0, Drawn(jobs, su);
    BankMembers(jobs, su);
    GateMembers(SortBy(jobs, UrlKey), su);
    CandidateMembers(jobs, su);
    GreedyBalance(gated, CandidatesOf(jobs, su), su);
    OverflowKeeps(drawn, bank, |bank|, su);
    OverflowBalance(drawn, bank, |bank|, su);
    TwinsLoseRows(bank, drawn.decided, |bank|);
    forall u | u in drawn.decided ensures u in UrlsUpTo(bank, |bank|) {
      var c :| c in CandidatesOf(jobs, su) && c.item.job.url == u;
      var i :| 0 <= i < |bank| && bank[i] == c.item;
    }
    assert drawn.decided * UrlsUpTo(bank, |bank|) == drawn.decided;
  }

  lemma {:induction false} GateDistinct(jobs: seq<Job>, su: Setup)
    requires Distinct(jobs, UrlOf)
    ensures Distinct(Gate(jobs, su).1, ItemUrl)
  {
    if jobs != [] {
      GateDistinct(jobs[..|jobs| - 1], su);
      GateMembers(jobs[..|jobs| - 1], su);
      var before, last := Gate(jobs[..|jobs| - 1], su).1, jobs[|jobs| - 1];
      forall i | 0 <= i < |before| ensures ItemUrl(before[i]) != UrlOf(last) {
        assert before[i] in before;
        var k :| 0 <= k < |jobs| - 1 && jobs[k] == before[i].job;
        assert UrlOf(jobs[k]) != UrlOf(jobs[|jobs| - 1]);
      }
    }
  }

  lemma BankDistinct(jobs: seq<Job>, su: Setup)
    requires Distinct(jobs, UrlOf)
    ensures Distinct(BankOf(jobs, su), ItemUrl)
  {
    SortByDistinct(jobs, UrlKey, UrlOf);
    GateDistinct(SortBy(jobs, UrlKey), su);
    SortByDistinct(Gate(SortBy(jobs, UrlKey), su).1, BankKey, ItemUrl);
  }

  /** With distinct urls, `considered` is always accounted for. */
  lemma DistinctConserved(jobs: seq<Job>, su: Setup)
    requires Distinct(jobs, UrlOf)
    ensures |Compose(jobs, su).entries| + |Compose(jobs, su).counts| == |jobs|
  {
    Conservation(jobs, su);
    BankDistinct(jobs, su);
    var bank := BankOf(jobs, su);
    forall i, j | 0 <= i < j < |bank| ensures bank[i].job.url != bank[j].job.url {
      assert ItemUrl(bank[i]) != ItemUrl(bank[j]);
    }
  }
}
