/**
 Why a job is or is not in the Today queue: with distinct urls every job is queued or charged
 to exactly one reason, the counts are the charges, and each charge is still justified by the
 finished queue. So no excluded eligible job could be added.
 */
module QueueVerdicts {
  import opened Wrappers
  import opened Ordering
  import opened TodayQueue

  ghost function QueuedUrls(entries: seq<Entry>): set<int> {
    set e | e in entries :: e.job.url
  }

  ghost function ChargedWith(charged: map<int, Reason>, r: Reason): set<int> {
    set u | u in charged.Keys && charged[u] == r
  }

  /** The counts are what the charges say, and no job is both queued and charged. */
  ghost predicate Booked(b: Board) {
    && (forall r :: b.counts[r] == |ChargedWith(b.charged, r)|)
    && b.charged.Keys !! QueuedUrls(b.entries)
  }

  lemma ChargeOne(charged: map<int, Reason>, u: int, why: Reason, r: Reason)
    requires u !in charged
    ensures |ChargedWith(charged[u := why], r)| == |ChargedWith(charged, r)| + if r == why then 1 else 0
  {
    var after := ChargedWith(charged[u := why], r);
    if r == why {
      assert after == ChargedWith(charged, r) + {u};
    } else {
      assert after == ChargedWith(charged, r);
    }
  }

  lemma BookCharge(b: Board, after: Board, u: int, why: Reason)
    requires Booked(b) && u !in b.charged && u !in QueuedUrls(b.entries)
    requires after.entries == b.entries && after.charged == b.charged[u := why]
    requires after.counts == b.counts + multiset{why}
    ensures Booked(after)
  {
    forall r ensures after.counts[r] == |ChargedWith(after.charged, r)| {
      ChargeOne(b.charged, u, why, r);
    }
    assert after.charged.Keys == b.charged.Keys + {u};
  }

  // ---------------------------------------------------------------- the gate

  function GateReason(job: Job, su: Setup): Option<Reason> {
    if Ineligibility(job, su).Some? then Ineligibility(job, su)
    else if FreshnessOf(job, su).bucket == Stale then Some(StalePosting)
    else None
  }

  /** The gate charged exactly the jobs it stopped, each with its first failing check. */
  ghost predicate GateCharged(charged: map<int, Reason>, jobs: seq<Job>, su: Setup) {
    && (forall u :: u in charged ==> exists job :: job in jobs && job.url == u)
    && (forall job :: job in jobs ==>
          if GateReason(job, su).Some? then
            job.url in charged && charged[job.url] == GateReason(job, su).value
          else job.url !in charged)
  }

  lemma GateChargesOneMore(charged: map<int, Reason>, init: seq<Job>, last: Job, su: Setup)
    requires GateCharged(charged, init, su) && Distinct(init + [last], UrlOf)
    ensures last.url !in charged
    ensures GateCharged(
      if GateReason(last, su).Some? then charged[last.url := GateReason(last, su).value] else charged,
      init + [last], su)
  {
    var jobs := init + [last];
    forall job | job in init ensures job.url != last.url {
      var k :| 0 <= k < |init| && init[k] == job;
      assert UrlOf(jobs[k]) != UrlOf(jobs[|init|]);
    }
  }

  lemma {:induction false} GateBooked(jobs: seq<Job>, su: Setup)
    requires Distinct(jobs, UrlOf)
    ensures Booked(Gate(jobs, su).0)
    ensures GateCharged(Gate(jobs, su).0.charged, jobs, su)
  {
    if jobs == [] {
      assert forall r :: ChargedWith(map[], r) == {};
    } else {
      hide Booked;
      hide GateCharged;
      var init, last := jobs[..|jobs| - 1], jobs[|jobs| - 1];
      GateBooked(init, su);
      GateMembers(init, su);
      GateMembers(jobs, su);
      assert jobs == init + [last];
      GateChargesOneMore(Gate(init, su).0.charged, init, last, su);
      if GateReason(last, su).Some? {
        BookCharge(Gate(init, su).0, Gate(jobs, su).0, last.url, GateReason(last, su).value);
      } else {
        assert Gate(jobs, su).0 == Gate(init, su).0;
      }
    }
  }

  // ---------------------------------------------------------- the greedy fold

  /** What the fold keeps: `gate` holds the gate's charges, disjoint from all candidates. */
  ghost predicate Drawing(b: Board, gate: set<int>) {
    && Booked(b)
    && gate !! b.decided
    && b.charged.Keys + QueuedUrls(b.entries) == gate + b.decided
  }

  lemma PushDrawing(b: Board, c: Candidate, su: Setup, gate: set<int>)
    requires Drawing(b, gate) && c.item.job.url !in gate
    ensures Drawing(Push(b, c, su), gate)
  {
    var job, after := c.item.job, Push(b, c, su);
    if after != b {
      assert job.url !in gate + b.decided;
      if after.entries == b.entries {
        var why := Blocked(b.entries, job, su).value;
        BookCharge(b, after, job.url, why);
        assert after.charged.Keys == b.charged.Keys + {job.url};
      } else {
        assert QueuedUrls(after.entries) == QueuedUrls(b.entries) + {job.url};
      }
    }
  }

  lemma {:induction false} GreedyDrawing(b: Board, cs: seq<Candidate>, su: Setup, gate: set<int>)
    requires Drawing(b, gate) && forall c :: c in cs ==> c.item.job.url !in gate
    ensures Drawing(Greedy(b, cs, su), gate)
    decreases |cs|
  {
    if cs != [] {
      PushDrawing(b, cs[0], su, gate);
      assert forall c :: c in cs[1..] ==> c in cs;
      GreedyDrawing(Push(b, cs[0], su), cs[1..], su, gate);
    }
  }

  /** A reason the finished queue itself still gives for leaving the job out. */
  ghost predicate Justified(entries: seq<Entry>, job: Job, why: Reason, su: Setup) {
    match why
    case CompanyCap => HeldBy(entries, CompanyKeyOf(job)) >= su.policy.companyCap
    case UncertaintyCap =>
      UncertaintyFlags(job) != [] && UncertainHeld(entries) >= su.UncertainCap()
    case BeyondCap => |entries| >= su.cap
    case _ => GateReason(job, su) == Some(why)
  }

  lemma {:induction false} MoreHeld(entries: seq<Entry>, more: seq<Entry>, company: CompanyKey)
    requires entries <= more
    ensures HeldBy(entries, company) <= HeldBy(more, company)
    ensures UncertainHeld(entries) <= UncertainHeld(more)
    decreases |more|
  {
    if entries != more {
      MoreHeld(entries, more[..|more| - 1], company);
    } else {
      assert entries == more;
    }
  }

  lemma StaysJustified(entries: seq<Entry>, more: seq<Entry>, job: Job, why: Reason, su: Setup)
    requires entries <= more && Justified(entries, job, why, su)
    ensures Justified(more, job, why, su)
  {
    MoreHeld(entries, more, CompanyKeyOf(job));
  }

  /** Every job with a charged url is left out for a reason that holds. */
  ghost predicate AllJustified(b: Board, jobs: seq<Job>, su: Setup) {
    forall job :: job in jobs && job.url in b.charged ==>
      Justified(b.entries, job, b.charged[job.url], su)
  }

  lemma PushJustified(b: Board, c: Candidate, jobs: seq<Job>, su: Setup)
    requires AllJustified(b, jobs, su) && Distinct(jobs, UrlOf) && c.item.job in jobs
    requires b.charged.Keys * {c.item.job.url} <= b.decided
    ensures AllJustified(Push(b, c, su), jobs, su)
    ensures b.entries <= Push(b, c, su).entries
  {
    var after := Push(b, c, su);
    forall job | job in jobs && job.url in after.charged
      ensures Justified(after.entries, job, after.charged[job.url], su)
    {
      if job.url in b.charged && after.charged[job.url] == b.charged[job.url] {
        StaysJustified(b.entries, after.entries, job, b.charged[job.url], su);
      } else {
        SameUrlSameJob(jobs, job, c.item.job);
      }
    }
  }

  lemma SameUrlSameJob(jobs: seq<Job>, x: Job, y: Job)
    requires Distinct(jobs, UrlOf) && x in jobs && y in jobs && x.url == y.url
    ensures x == y
  {
    var i :| 0 <= i < |jobs| && jobs[i] == x;
    var j :| 0 <= j < |jobs| && jobs[j] == y;
    assert i < j ==> UrlOf(jobs[i]) != UrlOf(jobs[j]);
    assert j < i ==> UrlOf(jobs[j]) != UrlOf(jobs[i]);
  }

  lemma {:induction false} GreedyJustified(
    b: Board, cs: seq<Candidate>, jobs: seq<Job>, su: Setup, gate: set<int>)
    requires AllJustified(b, jobs, su) && Distinct(jobs, UrlOf) && Drawing(b, gate)
    requires forall c :: c in cs ==> c.item.job in jobs && c.item.job.url !in gate
    ensures AllJustified(Greedy(b, cs, su), jobs, su)
    decreases |cs|
  {
    if cs != [] {
      PushJustified(b, cs[0], jobs, su);
      PushDrawing(b, cs[0], su, gate);
      assert forall c :: c in cs[1..] ==> c in cs;
      GreedyJustified(Push(b, cs[0], su), cs[1..], jobs, su, gate);
    }
  }

  /** If some candidate was never decided, the queue is full. */
  lemma {:induction false} UndecidedMeansFull(b: Board, cs: seq<Candidate>, su: Setup, c: Candidate)
    requires c in cs && c.item.job.url !in Greedy(b, cs, su).decided
    ensures |Greedy(b, cs, su).entries| >= su.cap
    decreases |cs|
  {
    var next := Push(b, cs[0], su);
    GreedyBalance(next, cs[1..], su);
    if c == cs[0] {
      assert |next.entries| >= su.cap;
      FullStaysFull(next, cs[1..], su);
    } else {
      assert c in cs[1..];
      UndecidedMeansFull(next, cs[1..], su, c);
    }
  }

  // --------------------------------------------------------------- overflow

  /** Overflow charged the undecided urls it met, and left every other charge alone. */
  ghost predicate Overflowed(
    charged: map<int, Reason>, after: map<int, Reason>, beyond: set<int>)
  {
    && after.Keys == charged.Keys + beyond
    && (forall u :: u in charged ==> after[u] == charged[u])
    && (forall u :: u in beyond ==> after[u] == BeyondCap)
  }

  lemma OverflowOneMore(
    charged: map<int, Reason>, after: map<int, Reason>, beyond: set<int>, u: int)
    requires Overflowed(charged, after, beyond) && u !in charged
    ensures Overflowed(charged, after[u := BeyondCap], beyond + {u})
  {
    assert after[u := BeyondCap].Keys == after.Keys + {u};
  }

  /** Undecided rows are neither charged nor queued. */
  ghost predicate Untouched(b: Board, bank: seq<Item>) {
    forall item :: item in bank && item.job.url !in b.decided ==>
      item.job.url !in b.charged && item.job.url !in QueuedUrls(b.entries)
  }

  lemma NothingOverflowed(b: Board, bank: seq<Item>, su: Setup)
    ensures Overflow(b, bank, 0, su).0 == b
    ensures Overflowed(b.charged, b.charged, UrlsUpTo(bank, 0) - b.decided)
  {
    assert UrlsUpTo(bank, 0) == {};
  }

  lemma OverflowUnfolds(b: Board, bank: seq<Item>, n: nat, su: Setup)
    requires 0 < n <= |bank|
    ensures var before, after := Overflow(b, bank, n - 1, su).0, Overflow(b, bank, n, su).0;
            if bank[n - 1].job.url in b.decided then after == before
            else
              && after.entries == before.entries
              && after.counts == before.counts + multiset{BeyondCap}
              && after.charged == before.charged[bank[n - 1].job.url := BeyondCap]
  {
  }

  lemma UntouchedRow(b: Board, bank: seq<Item>, i: nat)
    requires i < |bank| && Untouched(b, bank) && bank[i].job.url !in b.decided
    ensures bank[i].job.url !in b.charged && bank[i].job.url !in QueuedUrls(b.entries)
  {
    assert bank[i] in bank;
  }

  lemma {:induction false} OverflowBooked(b: Board, bank: seq<Item>, n: nat, su: Setup)
    requires n <= |bank| && Distinct(bank, ItemUrl) && Booked(b) && Untouched(b, bank)
    ensures var o := Overflow(b, bank, n, su).0;
            Booked(o) && Overflowed(b.charged, o.charged, UrlsUpTo(bank, n) - b.decided)
    decreases n
  {
    hide *;
    if n == 0 {
      NothingOverflowed(b, bank, su);
    } else {
      OverflowBooked(b, bank, n - 1, su);
      OverflowKeeps(b, bank, n - 1, su);
      OverflowUnfolds(b, bank, n, su);
      TwinStep(bank, b.decided, n);
      NewUrl(bank, n);
      var before, after := Overflow(b, bank, n - 1, su).0, Overflow(b, bank, n, su).0;
      var u := bank[n - 1].job.url;
      if u !in b.decided {
        UntouchedRow(b, bank, n - 1);
        OverflowCharge(b, before, after, UrlsUpTo(bank, n - 1) - b.decided, u);
        assert UrlsUpTo(bank, n) - b.decided == UrlsUpTo(bank, n - 1) - b.decided + {u};
      } else {
        assert UrlsUpTo(bank, n) - b.decided == UrlsUpTo(bank, n - 1) - b.decided;
      }
    }
  }

  lemma OverflowCharge(b: Board, before: Board, after: Board, beyond: set<int>, u: int)
    requires Booked(before) && Overflowed(b.charged, before.charged, beyond)
    requires u !in b.charged && u !in beyond && u !in QueuedUrls(b.entries)
    requires before.entries == b.entries && after.entries == b.entries
    requires after.charged == before.charged[u := BeyondCap]
    requires after.counts == before.counts + multiset{BeyondCap}
    ensures Booked(after) && Overflowed(b.charged, after.charged, beyond + {u})
  {
    assert u !in before.charged.Keys;
    hide Booked;
    BookCharge(before, after, u, BeyondCap);
    OverflowOneMore(b.charged, before.charged, beyond, u);
  }

  lemma NewUrl(bank: seq<Item>, n: nat)
    requires 0 < n <= |bank| && Distinct(bank, ItemUrl)
    ensures bank[n - 1].job.url !in UrlsUpTo(bank, n - 1)
  {
    forall i | 0 <= i < n - 1 ensures bank[i].job.url != bank[n - 1].job.url {
      assert ItemUrl(bank[i]) != ItemUrl(bank[n - 1]);
    }
  }

  // ------------------------------------------------------------ the verdicts

  /**
   With distinct urls: every job is either queued or charged to one reason, never both; the
   reported count of each reason is the number of jobs charged to it; and every charge is
   justified by the finished queue.
   */
  lemma EveryJobOnce(jobs: seq<Job>, su: Setup)
    requires Distinct(jobs, UrlOf)
    ensures var q := Compose(jobs, su);
            && Booked(q)
            && (forall job :: job in jobs ==>
                  job.url in q.charged || job.url in QueuedUrls(q.entries))
            && AllJustified(q, jobs, su)
  {
    var gated, cs := Gate(SortBy(jobs, UrlKey), su).0, CandidatesOf(jobs, su);
    var gate := gated.charged.Keys;
    GateReady(jobs, su);
    CandidatesReady(jobs, su);
    hide *;
    GreedyDrawing(gated, cs, su, gate);
    GreedyJustified(gated, cs, jobs, su, gate);
    VerdictsAfterDrawing(jobs, su, Drawn(jobs, su), BankOf(jobs, su), cs, gated, gate);
  }

  /** The board before the lanes are drawn from. */
  lemma GateReady(jobs: seq<Job>, su: Setup)
    requires Distinct(jobs, UrlOf)
    ensures var gated := Gate(SortBy(jobs, UrlKey), su).0;
            && Drawing(gated, gated.charged.Keys)
            && AllJustified(gated, jobs, su)
            && GateCharged(gated.charged, jobs, su)
  {
    var sorted := SortBy(jobs, UrlKey);
    SortByDistinct(jobs, UrlKey, UrlOf);
    GateBooked(sorted, su);
    GateMembers(sorted, su);
    var gated := Gate(sorted, su).0;
    hide Gate;
    hide SortBy;
    forall job | job in jobs && job.url in gated.charged
      ensures Justified([], job, gated.charged[job.url], su)
    {
      assert job in sorted;
      GateReasons(job, su);
    }
    assert forall job :: job in jobs <==> job in sorted;
  }

  /** The bank is the jobs the gate did not charge, and the candidates are the bank. */
  lemma CandidatesReady(jobs: seq<Job>, su: Setup)
    requires Distinct(jobs, UrlOf)
    ensures var gate := Gate(SortBy(jobs, UrlKey), su).0.charged.Keys;
            && Distinct(BankOf(jobs, su), ItemUrl)
            && (forall c :: c in CandidatesOf(jobs, su) ==>
                  c.item.job in jobs && c.item.job.url !in gate)
            && (forall item :: item in BankOf(jobs, su) ==>
                  && item.job in jobs && item.job.url !in gate
                  && exists c :: c in CandidatesOf(jobs, su) && c.item == item)
            && (forall job :: job in jobs && job.url !in gate ==>
                  exists item :: item in BankOf(jobs, su) && item.job == job)
  {
    BankMembers(jobs, su);
    BankDistinct(jobs, su);
    CandidateMembers(jobs, su);
    GateReady(jobs, su);
    var gate := Gate(SortBy(jobs, UrlKey), su).0.charged;
    var bank := BankOf(jobs, su);
    hide Gate;
    hide SortBy;
    hide BankOf;
    hide CandidatesOf;
    forall job | job in jobs && job.url !in gate
      ensures exists item :: item in bank && item.job == job
    {
      assert Item(job, FreshnessOf(job, su)) in bank;
    }
  }

  lemma GateReasons(job: Job, su: Setup)
    ensures GateReason(job, su).Some? ==> GateReason(job, su).value !in {CompanyCap, UncertaintyCap, BeyondCap}
  {
  }

  lemma VerdictsAfterDrawing(
    jobs: seq<Job>, su: Setup, drawn: Board, bank: seq<Item>, cs: seq<Candidate>, gated: Board,
    gate: set<int>)
    requires Distinct(jobs, UrlOf) && Distinct(bank, ItemUrl)
    requires drawn == Greedy(gated, cs, su)
    requires Drawing(drawn, gate) && AllJustified(drawn, jobs, su)
    requires forall item :: item in bank ==>
               && item.job in jobs && item.job.url !in gate
               && exists c :: c in cs && c.item == item
    requires forall job :: job in jobs && job.url !in gate ==> exists item :: item in bank && item.job == job
    ensures var q := Overflow(drawn, bank, |bank|, su).0;
            && Booked(q)
            && (forall job :: job in jobs ==>
                  job.url in q.charged || job.url in QueuedUrls(q.entries))
            && AllJustified(q, jobs, su)
  {
    var q := Overflow(drawn, bank, |bank|, su).0;
    OverflowBooked(drawn, bank, |bank|, su);
    OverflowKeeps(drawn, bank, |bank|, su);
    forall job | job in jobs
      ensures job.url in q.charged || job.url in QueuedUrls(q.entries)
      ensures job.url in q.charged ==> Justified(q.entries, job, q.charged[job.url], su)
    {
      if job.url !in gate && job.url !in drawn.decided {
        var item :| item in bank && item.job == job;
        var i :| 0 <= i < |bank| && bank[i] == item;
        assert job.url in UrlsUpTo(bank, |bank|);
        var c :| c in cs && c.item == item;
        UndecidedMeansFull(gated, cs, su, c);
      } else {
        assert job.url in gate + drawn.decided;
        assert job.url !in UrlsUpTo(bank, |bank|) - drawn.decided by {
          forall i | 0 <= i < |bank| && job.url !in drawn.decided ensures bank[i].job.url != job.url {
            assert bank[i] in bank;
          }
        }
      }
    }
  }

  /**
   Maximality: an eligible job that was left out could not be added to the finished queue
   without going over the slot, company or uncertainty cap.
   */
  lemma QueueIsMaximal(jobs: seq<Job>, su: Setup, job: Job)
    requires Distinct(jobs, UrlOf) && job in jobs && Passes(job, su)
    requires job.url !in QueuedUrls(Compose(jobs, su).entries)
    ensures |Compose(jobs, su).entries| >= su.cap
            || Blocked(Compose(jobs, su).entries, job, su).Some?
  {
    EveryJobOnce(jobs, su);
    hide Compose;
  }

  /** The queue holds only eligible jobs it was given, each once. */
  lemma {:induction false} GreedyEntriesDistinct(b: Board, cs: seq<Candidate>, su: Setup)
    requires Distinct(b.entries, EntryUrl)
    requires forall e :: e in b.entries ==> e.job.url in b.decided
    requires forall e :: e in b.entries ==> Passes(e.job, su)
    requires forall c :: c in cs ==> Passes(c.item.job, su)
    ensures Distinct(Greedy(b, cs, su).entries, EntryUrl)
    ensures forall e :: e in Greedy(b, cs, su).entries ==> Passes(e.job, su)
    decreases |cs|
  {
    if cs != [] {
      var next := Push(b, cs[0], su);
      forall i | 0 <= i < |b.entries| ensures EntryUrl(b.entries[i]) in b.decided {
        assert b.entries[i] in b.entries;
      }
      assert forall e :: e in next.entries ==> e in b.entries || e.job == cs[0].item.job;
      assert forall c :: c in cs[1..] ==> c in cs;
      GreedyEntriesDistinct(next, cs[1..], su);
    }
  }

  function EntryUrl(e: Entry): int {
    e.job.url
  }

  lemma QueueHoldsEligible(jobs: seq<Job>, su: Setup)
    ensures Distinct(Compose(jobs, su).entries, EntryUrl)
    ensures forall e :: e in Compose(jobs, su).entries ==> Passes(e.job, su)
  {
    BankMembers(jobs, su);
    GateMembers(SortBy(jobs, UrlKey), su);
    CandidateMembers(jobs, su);
    GreedyEntriesDistinct(Gate(SortBy(jobs, UrlKey), su).0, CandidatesOf(jobs, su), su);
    OverflowKeeps(Drawn(jobs, su), BankOf(jobs, su), |BankOf(jobs, su)|, su);
  }

  // ---------------------------------------------------- why urls must differ

  /** Two eligible postings that both carry the empty url: one is queued, one vanishes. */
  lemma EmptyUrlsLoseAJob(su: Setup)
    requires su == Setup(10, 0, Policy(3, 2, 14, 45, None))
    ensures var job := Job(0, None, 3, Some(0), None, None, None, true, None);
            var other := job.(tier := 5);
            |Compose([job, other], su).entries| + |Compose([job, other], su).counts| < 2
  {
    var job := Job(0, None, 3, Some(0), None, None, None, true, None);
    var other := job.(tier := 5);
    var jobs, bank := [job, other], BankOf([job, other], su);
    BankMembers(jobs, su);
    CandidateMembers(jobs, su);
    Conservation(jobs, su);
    GateMembers(SortBy(jobs, UrlKey), su);
    var one, two := Item(job, FreshnessOf(job, su)), Item(other, FreshnessOf(other, su));
    assert one in bank && two in bank;
    var i :| 0 <= i < |bank| && bank[i] == one;
    var j :| 0 <= j < |bank| && bank[j] == two;
    if NoTwins(bank, Drawn(jobs, su).decided, |bank|) {
      assert 0 !in Drawn(jobs, su).decided;
      var c :| c in CandidatesOf(jobs, su) && c.item == one;
      UndecidedMeansFull(Gate(SortBy(jobs, UrlKey), su).0, CandidatesOf(jobs, su), su, c);
      OverflowKeeps(Drawn(jobs, su), bank, |bank|, su);
    }
  }
}
