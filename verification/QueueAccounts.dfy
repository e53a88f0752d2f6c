/**
 When the Today queue accounts for every job (ranking.py:296-436), told from the jobs alone:
 queued plus counted is the number of jobs, for every slot cap, exactly when no two jobs that
 pass the gate share a url.
 */
module QueueAccounts {
  import opened Wrappers
  import opened Ordering
  import opened TodayQueue
  import QueueVerdicts

  /** Every job is in the queue or in one of the counts. */
  predicate Accounted(jobs: seq<Job>, su: Setup) {
    |Compose(jobs, su).entries| + |Compose(jobs, su).counts| == |jobs|
  }

  /** No two jobs that pass the gate share a url. */
  predicate EligibleDistinct(jobs: seq<Job>, su: Setup) {
    forall i, j :: 0 <= i < j < |jobs| && Passes(jobs[i], su) && Passes(jobs[j], su) ==> jobs[i].url != jobs[j].url
  }

  // ------------------------------------------------ the bank and the eligible jobs

  lemma {:induction false} GateDistinctIff(jobs: seq<Job>, su: Setup)
    ensures Distinct(Gate(jobs, su).1, ItemUrl) <==> EligibleDistinct(jobs, su)
  {
    if jobs != [] {
      var init, last := jobs[..|jobs| - 1], jobs[|jobs| - 1];
      GateDistinctIff(init, su);
      GateMembers(init, su);
      assert jobs == init + [last];
      var before := Gate(init, su).1;
      hide Gate;
      assert EligibleDistinct(jobs, su) <==>
             EligibleDistinct(init, su)
             && (Passes(last, su) ==>
                   forall i :: 0 <= i < |init| && Passes(init[i], su) ==> init[i].url != last.url) by {
        assert forall i :: 0 <= i < |init| ==> jobs[i] == init[i];
      }
      NewRowDistinct(init, last, before, su);
      GateUnfolds(jobs, su);
    }
  }

  lemma GateUnfolds(jobs: seq<Job>, su: Setup)
    requires jobs != []
    ensures var last := jobs[|jobs| - 1];
            Gate(jobs, su).1 == Gate(jobs[..|jobs| - 1], su).1
                                + if Passes(last, su) then [Item(last, FreshnessOf(last, su))] else []
  {
    var before := Gate(jobs[..|jobs| - 1], su).1;
    assert before + [] == before;
  }

  lemma NewRowDistinct(init: seq<Job>, last: Job, before: seq<Item>, su: Setup)
    requires forall item :: item in before <==>
               item.job in init && Passes(item.job, su) && item.freshness == FreshnessOf(item.job, su)
    ensures Distinct(before + [Item(last, FreshnessOf(last, su))], ItemUrl) <==>
              && Distinct(before, ItemUrl)
              && forall i :: 0 <= i < |init| && Passes(init[i], su) ==> init[i].url != last.url
    ensures before + [] == before
  {
    var after := before + [Item(last, FreshnessOf(last, su))];
    if forall i :: 0 <= i < |init| && Passes(init[i], su) ==> init[i].url != last.url {
      forall k | 0 <= k < |before| ensures ItemUrl(before[k]) != last.url {
        assert before[k] in before;
        var i :| 0 <= i < |init| && init[i] == before[k].job;
      }
    } else {
      var i :| 0 <= i < |init| && Passes(init[i], su) && init[i].url == last.url;
      assert Item(init[i], FreshnessOf(init[i], su)) in before;
      var k :| 0 <= k < |before| && before[k] == Item(init[i], FreshnessOf(init[i], su));
      assert ItemUrl(after[k]) == ItemUrl(after[|before|]);
    }
    assert Distinct(after, ItemUrl) ==> Distinct(before, ItemUrl) by {
      assert forall k :: 0 <= k < |before| ==> after[k] == before[k];
    }
  }

  lemma {:induction false} EligibleCount(jobs: seq<Job>, su: Setup, item: Item)
    ensures multiset(Gate(jobs, su).1)[item] ==
            if Passes(item.job, su) && item.freshness == FreshnessOf(item.job, su) then multiset(jobs)[item.job] else 0
  {
    if jobs != [] {
      var init, last := jobs[..|jobs| - 1], jobs[|jobs| - 1];
      EligibleCount(init, su, item);
      GateUnfolds(jobs, su);
      assert jobs == init + [last];
      hide Gate, Passes, FreshnessOf;
    }
  }

  /** The bank's urls are distinct exactly when those of the eligible jobs are. */
  lemma BankDistinctIff(jobs: seq<Job>, su: Setup)
    ensures Distinct(BankOf(jobs, su), ItemUrl) <==> EligibleDistinct(jobs, su)
  {
    var sorted := SortBy(jobs, UrlKey);
    SortByKeeps(jobs, UrlKey);
    var a, b := Gate(jobs, su).1, Gate(sorted, su).1;
    assert multiset(a) == multiset(b) by {
      hide Gate, Passes, FreshnessOf;
      forall item ensures multiset(a)[item] == multiset(b)[item] {
        EligibleCount(jobs, su, item);
        EligibleCount(sorted, su, item);
      }
    }
    SortByKeeps(b, BankKey);
    DistinctPermutation(a, BankOf(jobs, su), ItemUrl);
    GateDistinctIff(jobs, su);
  }

  // ---------------------------------------------------------------- the theorems

  /** Jobs whose urls differ where they pass the gate are accounted for under any caps. */
  lemma DistinctEligibleAccounted(jobs: seq<Job>, su: Setup)
    requires EligibleDistinct(jobs, su)
    ensures Accounted(jobs, su)
  {
    BankDistinctIff(jobs, su);
    Conservation(jobs, su);
    var bank := BankOf(jobs, su);
    forall i, j | 0 <= i < j < |bank| ensures bank[i].job.url != bank[j].job.url {
      assert ItemUrl(bank[i]) != ItemUrl(bank[j]);
    }
  }

  /** In a queue that is not full every bank row was decided. */
  lemma RoomMeansDecided(jobs: seq<Job>, su: Setup)
    requires |Compose(jobs, su).entries| < su.cap
    ensures forall item :: item in BankOf(jobs, su) ==> item.job.url in Drawn(jobs, su).decided
  {
    CandidateMembers(jobs, su);
    OverflowKeeps(Drawn(jobs, su), BankOf(jobs, su), |BankOf(jobs, su)|, su);
    forall item | item in BankOf(jobs, su) ensures item.job.url in Drawn(jobs, su).decided {
      var c :| c in CandidatesOf(jobs, su) && c.item == item;
      if item.job.url !in Drawn(jobs, su).decided {
        QueueVerdicts.UndecidedMeansFull(Gate(SortBy(jobs, UrlKey), su).0, CandidatesOf(jobs, su), su, c);
      }
    }
  }

  /** As long as the queue has room, the accounting holds exactly for distinct eligible urls. */
  lemma AccountedWhileThereIsRoom(jobs: seq<Job>, su: Setup)
    requires |Compose(jobs, su).entries| < su.cap
    ensures Accounted(jobs, su) <==> EligibleDistinct(jobs, su)
  {
    RoomMeansDecided(jobs, su);
    Conservation(jobs, su);
    BankDistinctIff(jobs, su);
    var bank, decided := BankOf(jobs, su), Drawn(jobs, su).decided;
    hide BankOf, Drawn, Compose;
    forall i | 0 <= i < |bank| ensures bank[i].job.url in decided {
      assert bank[i] in bank;
    }
    assert NoTwins(bank, decided, |bank|) <==> Distinct(bank, ItemUrl);
  }

  /** The gate does not look at the slot cap. */
  lemma GateIgnoresCap(jobs: seq<Job>, su: Setup, cap: int)
    ensures EligibleDistinct(jobs, su.(cap := cap)) <==> EligibleDistinct(jobs, su)
  {
    forall job ensures Passes(job, su.(cap := cap)) <==> Passes(job, su) {
    }
  }

  /**
   The accounting holds for every slot cap exactly when no two eligible jobs share a url; with
   more slots than jobs it already fails when two do.
   */
  lemma AccountedForEveryCap(jobs: seq<Job>, su: Setup)
    ensures (forall cap: int :: Accounted(jobs, su.(cap := cap))) <==> EligibleDistinct(jobs, su)
    ensures su.cap > |jobs| ==> (Accounted(jobs, su) <==> EligibleDistinct(jobs, su))
  {
    forall cap: int
      ensures EligibleDistinct(jobs, su) ==> Accounted(jobs, su.(cap := cap))
      ensures cap > |jobs| ==> (Accounted(jobs, su.(cap := cap)) <==> EligibleDistinct(jobs, su))
    {
      var other := su.(cap := cap);
      GateIgnoresCap(jobs, su, cap);
      if EligibleDistinct(jobs, su) {
        DistinctEligibleAccounted(jobs, other);
      }
      if cap > |jobs| {
        Conservation(jobs, other);
        AccountedWhileThereIsRoom(jobs, other);
      }
    }
    assert su.(cap := su.cap) == su;
    var roomy := su.(cap := |jobs| + 1);
    assert Accounted(jobs, roomy) <==> EligibleDistinct(jobs, su);
  }
}
