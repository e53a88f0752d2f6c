/**
 `build_queue` as ranking.py runs it: mutable entries, counters and sets, two closures and
 three loops. It is proved to compute exactly `TodayQueue.Compose`.
 The dict of counts is a multiset of reasons.
 */
module QueueComposer {
  import opened Wrappers
  import opened Ordering
  import opened TodayQueue

  datatype QueueResult = QueueResult(
    entries: seq<Entry>, excluded: seq<Exclusion>, counts: multiset<Reason>, considered: nat)

  function CompanyCount(tally: map<CompanyKey, int>, company: CompanyKey): int {
    if company in tally then tally[company] else 0
  }

  ghost predicate Tallies(tally: map<CompanyKey, int>, entries: seq<Entry>) {
    forall company :: CompanyCount(tally, company) == HeldBy(entries, company)
  }

  lemma TallyOf(tally: map<CompanyKey, int>, entries: seq<Entry>, company: CompanyKey)
    requires Tallies(tally, entries)
    ensures CompanyCount(tally, company) == HeldBy(entries, company)
  {
  }

  lemma TallyOneMore(tally: map<CompanyKey, int>, entries: seq<Entry>, e: Entry)
    requires Tallies(tally, entries)
    ensures var company := CompanyKeyOf(e.job);
            Tallies(tally[company := CompanyCount(tally, company) + 1], entries + [e])
    ensures UncertainHeld(entries + [e])
         == UncertainHeld(entries) + if UncertaintyFlags(e.job) != [] then 1 else 0
  {
    var company := CompanyKeyOf(e.job);
    forall c ensures CompanyCount(tally[company := CompanyCount(tally, company) + 1], c)
        == HeldBy(entries + [e], c)
    {
      HeldByOneMore(entries, e, c);
    }
    HeldByOneMore(entries, e, company);
  }

  class Composer {
    const su: Setup
    var entries: seq<Entry>
    var decided: set<int>
    var companyCounts: map<CompanyKey, int>
    var uncertainUsed: int
    var counts: multiset<Reason>
    var detailed: seq<Exclusion>
    ghost var charged: map<int, Reason>

    ghost function View(): Board
      reads this
    {
      Board(entries, decided, detailed, counts, charged)
    }

    /** The running counters agree with the entries they count. */
    ghost predicate Valid()
      reads this
    {
      Tallies(companyCounts, entries) && uncertainUsed == UncertainHeld(entries)
    }

    constructor (su: Setup)
      ensures Valid() && this.su == su && View() == Board([], {}, [], multiset{}, map[])
    {
      this.su := su;
      entries, decided, companyCounts := [], {}, map[];
      uncertainUsed := 0;
      counts, detailed, charged := multiset{}, [], map[];
    }

    method Count(job: Job, reason: Reason)
      modifies this`counts, this`charged
      ensures counts == old(counts) + multiset{reason}
      ensures charged == old(charged)[job.url := reason]
    {
      counts := counts + multiset{reason};
      charged := charged[job.url := reason];
    }

    method CountInDetail(job: Job, reason: Reason, detail: Detail)
      modifies this`counts, this`charged, this`detailed
      ensures View() == Exclude(old(View()), job, reason, detail)
    {
      Count(job, reason);
      detailed := detailed + [Exclusion(job, reason, detail)];
    }

    /** The gate over all jobs in url order. */
    method GateAll(sorted: seq<Job>) returns (eligible: seq<Item>)
      requires View() == Board([], {}, [], multiset{}, map[])
      modifies this`counts, this`charged, this`detailed
      ensures (View(), eligible) == Gate(sorted, su)
    {
      eligible := [];
      for n := 0 to |sorted|
        invariant (View(), eligible) == Gate(sorted[..n], su)
      {
        var job := sorted[n];
        assert sorted[..n + 1][..n] == sorted[..n] && sorted[..n + 1][n] == job;
        var failure := Ineligibility(job, su);
        if failure.Some? {
          Count(job, failure.value);
          continue;
        }
        var freshness := FreshnessOf(job, su);
        if freshness.bucket == Stale {
          CountInDetail(job, StalePosting, Age(freshness.age, freshness.basis));
          continue;
        }
        eligible := eligible + [Item(job, freshness)];
      }
      assert sorted[..|sorted|] == sorted;
    }

    method TryPush(item: Item, lane: Lane, laneRank: nat)
      requires Valid() && |entries| < su.cap
      modifies this
      ensures Valid() && View() == Push(old(View()), Candidate(item, lane, laneRank), su)
    {
      hide UncertaintyFlags;
      hide CompanyKeyOf;
      hide HeldBy;
      hide UncertainHeld;
      var job := item.job;
      if job.url in decided {
        return;
      }
      var company := CompanyKeyOf(job);
      hide Tallies, FreshnessOf;
      TallyOf(companyCounts, entries, company);
      if CompanyCount(companyCounts, company) >= su.policy.companyCap {
        decided := decided + {job.url};
        CountInDetail(job, CompanyCap, CompanyHolds(su.policy.companyCap));
        return;
      }
      var flags := UncertaintyFlags(job);
      if flags != [] && uncertainUsed >= su.UncertainCap() {
        decided := decided + {job.url};
        CountInDetail(job, UncertaintyCap, Flagged(flags));
        return;
      }
      decided := decided + {job.url};
      companyCounts := companyCounts[company := CompanyCount(companyCounts, company) + 1];
      if flags != [] {
        uncertainUsed := uncertainUsed + 1;
      }
      var entry := Entry(job, |entries| + 1, lane, laneRank, item.freshness, flags);
      TallyOneMore(old(companyCounts), entries, entry);
      entries := entries + [entry];
    }

    /** Draw from the lanes in turn, bank first, until the queue is full. */
    method DrawLanes(bank: seq<Item>, aim: seq<Item>)
      requires Valid()
      modifies this
      ensures Valid() && View() == Greedy(old(View()), Interleave(bank, aim, 0), su)
    {
      hide Push;
      ghost var goal := Greedy(View(), Interleave(bank, aim, 0), su);
      var i := 0;
      while i < |bank| || i < |aim|
        invariant Valid()
        invariant Greedy(View(), Interleave(bank, aim, i), su) == goal
        decreases |bank| + |aim| - i
      {
        FullBoardStays(View(), Interleave(bank, aim, i), su);
        if |entries| >= su.cap {
          break;
        }
        ghost var rest := AimTurn(bank, aim, i);
        if i < |bank| {
          GreedyStep(View(), Candidate(bank[i], Bank, i), rest, su);
          assert Interleave(bank, aim, i) == [Candidate(bank[i], Bank, i)] + rest;
          TryPush(bank[i], Bank, i);
        } else {
          assert Interleave(bank, aim, i) == rest;
        }
        assert Greedy(View(), rest, su) == goal;
        FullBoardStays(View(), rest, su);
        if |entries| >= su.cap {
          break;
        }
        if i < |aim| {
          GreedyStep(View(), Candidate(aim[i], Aim, i), Interleave(bank, aim, i + 1), su);
          TryPush(aim[i], Aim, i);
        } else {
          assert rest == Interleave(bank, aim, i + 1);
        }
        i := i + 1;
      }
    }

    /** Count what the lanes never reached; the first `cap` of them are shown as "next up". */
    method CountOverflow(bank: seq<Item>)
      modifies this`counts, this`charged, this`detailed
      ensures View() == Overflow(old(View()), bank, |bank|, su).0
    {
      ghost var drawn := View();
      var shown := 0;
      for n := 0 to |bank|
        invariant (View(), shown) == Overflow(drawn, bank, n, su)
        invariant decided == drawn.decided
      {
        var job := bank[n].job;
        if job.url in decided {
          continue;
        }
        if shown < su.cap {
          CountInDetail(job, BeyondCap, NextUp);
          shown := shown + 1;
        } else {
          Count(job, BeyondCap);
        }
      }
    }
  }

  /** The aim lane's turn at index `i`, and everything after it. */
  ghost function AimTurn(bank: seq<Item>, aim: seq<Item>, i: nat): seq<Candidate> {
    (if i < |aim| then [Candidate(aim[i], Aim, i)] else []) + Interleave(bank, aim, i + 1)
  }

  lemma GreedyStep(b: Board, c: Candidate, rest: seq<Candidate>, su: Setup)
    ensures Greedy(b, [c] + rest, su) == Greedy(Push(b, c, su), rest, su)
  {
    assert ([c] + rest)[1..] == rest;
  }

  lemma FullBoardStays(b: Board, cs: seq<Candidate>, su: Setup)
    ensures |b.entries| >= su.cap ==> Greedy(b, cs, su) == b
  {
    if |b.entries| >= su.cap {
      FullStaysFull(b, cs, su);
    }
  }

  method BuildQueue(jobs: seq<Job>, su: Setup) returns (result: QueueResult)
    ensures var q := Compose(jobs, su);
            result == QueueResult(q.entries, q.detailed, q.counts, |jobs|)
  {
    var composer := new Composer(su);
    var eligible := composer.GateAll(SortBy(jobs, UrlKey));
    var bank := SortBy(eligible, BankKey);
    var aim := SortBy(HighTier(eligible), AimKey);
    composer.DrawLanes(bank, aim);
    composer.CountOverflow(bank);
    return QueueResult(composer.entries, composer.detailed, composer.counts, |jobs|);
  }
}
