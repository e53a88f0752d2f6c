/**
 The Today queue told from the fields of the jobs (ranking.py:68-436): which jobs are offered,
 in which order each lane brings them, and which of them the caps let in.
 */
module QueueOrder {
  import opened Wrappers
  import opened Ordering
  import opened TodayQueue
  import opened QueueVerdicts

  // ------------------------------------------------------------------------ the fields

  /** Days since the job was posted, or first seen when that is not known. */
  function AgeOf(job: Job, su: Setup): Option<int> {
    var day := if job.posted.Some? then job.posted else job.firstSeen;
    if day.None? then None else Some(if day.value >= su.today then 0 else su.today - day.value)
  }

  predicate IsFresh(job: Job, su: Setup) {
    AgeOf(job, su).Some? && AgeOf(job, su).value <= su.policy.freshDays
  }

  predicate IsStale(job: Job, su: Setup) {
    && AgeOf(job, su).Some?
    && AgeOf(job, su).value > su.policy.freshDays && AgeOf(job, su).value > su.policy.staleDays
  }

  /** A job the user has not dealt with, of a tier that is wanted, and not stale. */
  predicate Offered(job: Job, su: Setup) {
    && (job.state.Some? ==>
          && job.state.value.status == "New" && !job.state.value.hidden
          && (job.state.value.snoozedUntil.Some? ==> job.state.value.snoozedUntil.value <= su.today))
    && job.tier >= su.policy.minTier
    && !IsStale(job, su)
  }

  /** The check a job that is not offered fails first. */
  function FirstFailing(job: Job, su: Setup): Reason {
    var s := job.state.GetOr(JobState("New", false, None));
    if s.status != "New" then NotNew
    else if s.hidden then Hidden
    else if s.snoozedUntil.Some? && su.today < s.snoozedUntil.value then Snoozed
    else if su.policy.minTier > job.tier then TierBelowCutoff
    else StalePosting
  }

  const MATCHES: seq<string> := ["Strong match", "Moderate match", "Weak match", "Level stretch"]
  const COMPETITIONS: seq<string> := ["Lower bar", "Standard", "High competition"]

  /** The place of a band among the known ones; all others come after them. */
  function Place(band: Option<string>, bands: seq<string>): nat {
    if bands == [] || band == Some(bands[0]) then 0 else 1 + Place(band, bands[1..])
  }

  function MatchOf(job: Job): Option<string> { ParseOdds(job.odds).0 }
  function CompetitionOf(job: Job): Option<string> { ParseOdds(job.odds).1 }
  predicate Readable(job: Job) { MatchOf(job).Some? && CompetitionOf(job).Some? }

  predicate HigherScore(a: Option<int>, b: Option<int>) {
    a.Some? && (b.None? || a.value > b.value)
  }

  predicate Uncertain(job: Job) {
    !Readable(job) || job.oddsScore.None? || !job.hasDesc
  }

  predicate SameCompany(a: Job, b: Job) {
    if a.company.Some? || b.company.Some? then a.company == b.company else a.url == b.url
  }

  predicate SeparatorAt(s: string, i: nat) {
    i + 3 <= |s| && s[i] == ' ' && s[i + 1] == '/' && s[i + 2] == ' '
  }

  /** The odds of a job fall into two halves at the first separator, if there is one. */
  lemma OddsHalves(odds: Option<string>, m: string, c: string)
    ensures ParseOdds(odds) == (Some(m), Some(c)) <==>
            odds == Some(m + " / " + c) && forall i :: 0 <= i < |m| ==> !SeparatorAt(odds.value, i)
    ensures ParseOdds(odds).0.Some? <==> ParseOdds(odds).1.Some?
    ensures ParseOdds(odds).0.Some? <==> odds.Some? && exists i :: SeparatorAt(odds.value, i)
  {
    if odds.Some? {
      FirstSeparator(odds.value);
      var s, at := odds.value, FindSeparator(odds.value);
      hide FindSeparator;
      if at.Some? {
        assert s == s[..at.value] + " / " + s[at.value + 3..];
      }
      if s == m + " / " + c {
        assert SeparatorAt(s, |m|);
        assert s[..|m|] == m && s[|m| + 3..] == c;
      }
    }
  }

  lemma {:induction false} FirstSeparator(s: string)
    ensures FindSeparator(s).None? ==> forall i :: !SeparatorAt(s, i)
    ensures FindSeparator(s).Some? ==>
              && SeparatorAt(s, FindSeparator(s).value)
              && forall i :: 0 <= i < FindSeparator(s).value ==> !SeparatorAt(s, i)
  {
    if |s| >= 3 {
      assert s[..3] == " / " <==> SeparatorAt(s, 0);
      FirstSeparator(s[1..]);
      forall i: nat | i > 0 ensures SeparatorAt(s, i) <==> SeparatorAt(s[1..], i - 1) {
      }
    }
  }

  /** The gate lets through exactly the jobs offered, and charges the others with the first check they fail. */
  lemma GateInFields(job: Job, su: Setup)
    ensures Passes(job, su) <==> Offered(job, su)
    ensures GateReason(job, su) == if Offered(job, su) then None else Some(FirstFailing(job, su))
  {
  }

  /** What the caps count, in fields; the uncertain ones get a fifth of the slots, and at least one. */
  lemma CapsInFields(a: Job, b: Job, su: Setup)
    ensures UncertaintyFlags(a) != [] <==> Uncertain(a)
    ensures CompanyKeyOf(a) == CompanyKeyOf(b) <==> SameCompany(a, b)
    ensures su.policy.uncertainCap.None? && su.cap >= 0 ==>
              && su.UncertainCap() >= 1
              && (5 * su.UncertainCap() <= su.cap || su.UncertainCap() == 1) && su.cap < 5 * su.UncertainCap() + 5
    ensures su.policy.uncertainCap.Some? ==> su.UncertainCap() == su.policy.uncertainCap.value
  {
  }

  // ------------------------------------------------------------------ the lanes' orders

  /**
   The bank lane: the lower competition first, then the better match, fresh before the rest,
   scored before unscored and the higher score first, the higher tier, and then the url.
   */
  predicate BankBefore(a: Job, b: Job, su: Setup) {
    var ca, cb := Place(CompetitionOf(a), COMPETITIONS), Place(CompetitionOf(b), COMPETITIONS);
    var ma, mb := Place(MatchOf(a), MATCHES), Place(MatchOf(b), MATCHES);
    if ca != cb then ca < cb
    else if ma != mb then ma < mb
    else if IsFresh(a, su) != IsFresh(b, su) then IsFresh(a, su)
    else if a.oddsScore != b.oddsScore then HigherScore(a.oddsScore, b.oddsScore)
    else if a.tier != b.tier then a.tier > b.tier
    else a.url < b.url
  }

  /**
   The aim lane: the higher tier first, then readable odds before others, of those the better
   match and then the lower competition, and then as in the bank lane.
   */
  predicate AimBefore(a: Job, b: Job, su: Setup) {
    var ca, cb := Place(CompetitionOf(a), COMPETITIONS), Place(CompetitionOf(b), COMPETITIONS);
    var ma, mb := Place(MatchOf(a), MATCHES), Place(MatchOf(b), MATCHES);
    if a.tier != b.tier then a.tier > b.tier
    else if Readable(a) != Readable(b) then Readable(a)
    else if Readable(a) && ma != mb then ma < mb
    else if Readable(a) && ca != cb then ca < cb
    else if IsFresh(a, su) != IsFresh(b, su) then IsFresh(a, su)
    else if a.oddsScore != b.oddsScore then HigherScore(a.oddsScore, b.oddsScore)
    else a.url < b.url
  }

  lemma PlacesAre(band: Option<string>)
    ensures Place(band, MATCHES) == (if MatchRank(band) == 5 then 4 else MatchRank(band))
    ensures Place(band, COMPETITIONS) == CompetitionRank(band)
    ensures MatchRank(band) in {0, 1, 2, 3, 5} && 0 <= CompetitionRank(band) <= 3
  {
    assert MATCHES == ["Strong match"] + (["Moderate match"] + (["Weak match"] + (["Level stretch"] + [])));
    assert COMPETITIONS == ["Lower bar"] + (["Standard"] + (["High competition"] + []));
    PlaceCons(band, "Level stretch", []);
    PlaceCons(band, "Weak match", ["Level stretch"] + []);
    PlaceCons(band, "Moderate match", ["Weak match"] + (["Level stretch"] + []));
    PlaceCons(band, "Strong match", ["Moderate match"] + (["Weak match"] + (["Level stretch"] + [])));
    PlaceCons(band, "High competition", []);
    PlaceCons(band, "Standard", ["High competition"] + []);
    PlaceCons(band, "Lower bar", ["Standard"] + (["High competition"] + []));
    hide Place;
    NoPlace(band);
  }

  lemma NoPlace(band: Option<string>)
    ensures Place(band, []) == 0
  {
  }

  lemma PlaceCons(band: Option<string>, first: string, rest: seq<string>)
    ensures Place(band, [first] + rest) == if band == Some(first) then 0 else 1 + Place(band, rest)
  {
    assert ([first] + rest)[1..] == rest;
  }

  lemma LessCons(x: int, xs: Key, y: int, ys: Key)
    ensures Less([x] + xs, [y] + ys) <==> x < y || (x == y && Less(xs, ys))
  {
    assert ([x] + xs)[1..] == xs && ([y] + ys)[1..] == ys;
  }

  lemma ScoreLess(a: Job, b: Job, xs: Key, ys: Key)
    ensures Less(ScoreKeys(a) + xs, ScoreKeys(b) + ys) <==>
            if a.oddsScore != b.oddsScore then HigherScore(a.oddsScore, b.oddsScore) else Less(xs, ys)
  {
    var x, y := ScoreKeys(a), ScoreKeys(b);
    assert x + xs == [x[0]] + ([x[1]] + xs) && y + ys == [y[0]] + ([y[1]] + ys);
    LessCons(x[0], [x[1]] + xs, y[0], [y[1]] + ys);
    LessCons(x[1], xs, y[1], ys);
  }

  lemma TailLess(x: int, u: int, y: int, v: int)
    ensures Less([x, u], [y, v]) <==> x < y || (x == y && u < v)
    ensures Less([u], [v]) <==> u < v
  {
    assert [x, u] == [x] + [u] && [y, v] == [y] + [v];
    assert [u] == [u] + [] && [v] == [v] + [];
    LessCons(x, [u], y, [v]);
    LessCons(u, [], v, []);
  }

  lemma HeadLess(a: Key, b: Key)
    requires |a| >= 3 && |b| >= 3
    ensures Less(a, b) <==>
            if a[0] != b[0] then a[0] < b[0]
            else if a[1] != b[1] then a[1] < b[1]
            else if a[2] != b[2] then a[2] < b[2]
            else Less(a[3..], b[3..])
  {
    var x, y := a[3..], b[3..];
    assert a == [a[0]] + ([a[1]] + ([a[2]] + x)) && b == [b[0]] + ([b[1]] + ([b[2]] + y));
    LessCons(a[0], [a[1]] + ([a[2]] + x), b[0], [b[1]] + ([b[2]] + y));
    LessCons(a[1], [a[2]] + x, b[1], [b[2]] + y);
    LessCons(a[2], x, b[2], y);
  }

  ghost function ItemOf(job: Job, su: Setup): Item {
    Item(job, FreshnessOf(job, su))
  }

  lemma FreshRank(job: Job, su: Setup)
    requires !IsStale(job, su)
    ensures BucketRank(FreshnessOf(job, su).bucket) == if IsFresh(job, su) then 0 else 1
  {
  }

  /** The bank's sort key puts one job before another exactly in that order. */
  lemma BankKeyMeans(a: Job, b: Job, su: Setup)
    requires Offered(a, su) && Offered(b, su)
    ensures Less(BankKey(ItemOf(a, su)), BankKey(ItemOf(b, su))) <==> BankBefore(a, b, su)
  {
    PlacesAre(MatchOf(a));
    PlacesAre(MatchOf(b));
    PlacesAre(CompetitionOf(a));
    PlacesAre(CompetitionOf(b));
    FreshRank(a, su);
    FreshRank(b, su);
    hide Less, Place, MatchRank, CompetitionRank, FreshnessOf, ParseOdds, BucketRank, ScoreKeys, Offered, IsFresh;
    hide MATCHES, COMPETITIONS, HigherScore, Readable, IsStale;
    var x, y := BankKey(ItemOf(a, su)), BankKey(ItemOf(b, su));
    assert x[3..] == ScoreKeys(a) + [-a.tier, a.url] && y[3..] == ScoreKeys(b) + [-b.tier, b.url];
    HeadLess(x, y);
    ScoreLess(a, b, [-a.tier, a.url], [-b.tier, b.url]);
    TailLess(-a.tier, a.url, -b.tier, b.url);
  }

  lemma AimKeyMeans(a: Job, b: Job, su: Setup)
    requires Offered(a, su) && Offered(b, su)
    ensures Less(AimKey(ItemOf(a, su)), AimKey(ItemOf(b, su))) <==> AimBefore(a, b, su)
  {
    PlacesAre(MatchOf(a));
    PlacesAre(MatchOf(b));
    PlacesAre(CompetitionOf(a));
    PlacesAre(CompetitionOf(b));
    FreshRank(a, su);
    FreshRank(b, su);
    OddsPlaces(a, b);
    hide Less, Place, MatchRank, CompetitionRank, FreshnessOf, ParseOdds, BucketRank, ScoreKeys, OddsRank, Offered;
    hide IsFresh, MATCHES, COMPETITIONS, HigherScore, Readable, IsStale;
    var x, y := AimKey(ItemOf(a, su)), AimKey(ItemOf(b, su));
    assert x[3..] == ScoreKeys(a) + [a.url] && y[3..] == ScoreKeys(b) + [b.url];
    HeadLess(x, y);
    ScoreLess(a, b, [a.url], [b.url]);
    TailLess(0, a.url, 0, b.url);
  }

  lemma OddsPlaces(a: Job, b: Job)
    ensures var (ra, rb) := (OddsRank(MatchOf(a), CompetitionOf(a)), OddsRank(MatchOf(b), CompetitionOf(b)));
            var (ma, mb) := (Place(MatchOf(a), MATCHES), Place(MatchOf(b), MATCHES));
            var (ca, cb) := (Place(CompetitionOf(a), COMPETITIONS), Place(CompetitionOf(b), COMPETITIONS));
            && (ra < rb <==>
                  if Readable(a) != Readable(b) then Readable(a)
                  else Readable(a) && (ma < mb || (ma == mb && ca < cb)))
            && (ra == rb <==> Readable(a) == Readable(b) && (Readable(a) ==> ma == mb && ca == cb))
  {
    PlacesAre(MatchOf(a));
    PlacesAre(MatchOf(b));
    PlacesAre(CompetitionOf(a));
    PlacesAre(CompetitionOf(b));
    hide Place, MatchRank, CompetitionRank, ParseOdds;
  }
}
