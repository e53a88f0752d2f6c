/**
 The tier and the total of a posting in numbers (rubric.py:604-796), told from its facts: what
 the scale does to a total, what each limit allows, what each rule adds, and which of the
 refusals comes first.
 */
module Tiers {
  import opened Wrappers
  import opened FeatureVector
  import opened Scoring

  // ------------------------------------------------------------------------- the scale

  /** A total on the scale from 1 to 5. */
  predicate OnScale(tier: int, total: int) {
    && (total >= 5 ==> tier == 5)
    && (total <= 1 ==> tier == 1)
    && (1 < total < 5 ==> tier == total)
  }

  /** The limits that apply to a posting: for its family, its description, its age. */
  predicate LimitedTo(limit: int, x: Facts, p: Profile) {
    || (FamilyPoints(x, p) < p.tierRules.funcCapMinFunc && limit == p.tierRules.funcCapTier)
    || (!x.hasDesc && limit == p.tierRules.noDescCapTier)
    || (x.age.Some? && x.age.value > p.tierRules.staleCapDays && limit == p.tierRules.staleCapTier)
    || (x.age.None? && x.aggregator && limit == p.tierRules.undatedAggregatorCapTier)
  }

  ghost predicate Unlimited(x: Facts, p: Profile) {
    forall limit :: !LimitedTo(limit, x, p)
  }

  /** The lowest of the scaled total and the limits that apply. */
  lemma TierInNumbers(tier: int, x: Facts, p: Profile)
    requires RightTier(tier, x, p)
    ensures forall scaled :: OnScale(scaled, RawTotal(x, p)) ==>
              && tier <= scaled && (forall limit :: LimitedTo(limit, x, p) ==> tier <= limit)
              && (tier == scaled || LimitedTo(tier, x, p))
    ensures Unlimited(x, p) ==> OnScale(tier, RawTotal(x, p))
  {
    hide RawTotal;
    forall limit ensures limit in CapsOn(x, p) <==> LimitedTo(limit, x, p) {
    }
    hide CapsOn, LimitedTo;
    var limits := {Clamp(RawTotal(x, p))} + CapsOn(x, p);
    assert Clamp(RawTotal(x, p)) in limits;
    assert forall limit :: LimitedTo(limit, x, p) ==> limit in limits;
  }

  /** Under the same limits a larger total never gives a lower tier. */
  lemma LargerTotalNoLowerTier(low: int, x: Facts, high: int, y: Facts, p: Profile)
    requires RightTier(low, x, p) && RightTier(high, y, p) && RawTotal(x, p) <= RawTotal(y, p)
    requires forall limit :: LimitedTo(limit, x, p) <==> LimitedTo(limit, y, p)
    ensures low <= high
  {
    TierInNumbers(low, x, p);
    TierInNumbers(high, y, p);
    ScaleIsMonotone(RawTotal(x, p), RawTotal(y, p));
    hide RightTier, RawTotal, LimitedTo, OnScale;
  }

  lemma ScaleIsMonotone(a: int, b: int)
    requires a <= b
    ensures exists low, high :: OnScale(low, a) && OnScale(high, b) && low <= high
  {
    var low := if a >= 5 then 5 else if a <= 1 then 1 else a;
    var high := if b >= 5 then 5 else if b <= 1 then 1 else b;
    assert OnScale(low, a) && OnScale(high, b);
  }

  /** The replay in numbers: the scaled total of the vector, or the lowest cap it records. */
  lemma ReplayInNumbers(tier: int, v: Features)
    requires RawScore in v && Lowest(tier, Recorded(v))
    ensures forall scaled :: OnScale(scaled, Amount(v, RawScore)) ==>
              && tier <= scaled && (forall c :: c in SCORE_ROW_CAP_FEATURES && c in v ==> tier <= Amount(v, c))
              && (tier == scaled || exists c :: c in SCORE_ROW_CAP_FEATURES && c in v && tier == Amount(v, c))
    ensures (forall c :: c in SCORE_ROW_CAP_FEATURES ==> c !in v) ==> OnScale(tier, Amount(v, RawScore))
  {
    hide Amount;
    assert Clamp(Amount(v, RawScore)) in Recorded(v);
    forall c | c in SCORE_ROW_CAP_FEATURES && c in v ensures tier <= Amount(v, c) {
      assert Amount(v, c) in Recorded(v);
    }
  }

  /** Replaying a vector with the same caps and a larger total never gives a lower tier. */
  lemma LargerTotalNoLowerReplay(low: int, v: Features, high: int, w: Features)
    requires RawScore in v && RawScore in w && Lowest(low, Recorded(v)) && Lowest(high, Recorded(w))
    requires Amount(v, RawScore) <= Amount(w, RawScore)
    requires forall c :: c in SCORE_ROW_CAP_FEATURES ==> (c in v <==> c in w) && Amount(v, c) == Amount(w, c)
    ensures low <= high
  {
    ReplayInNumbers(low, v);
    ReplayInNumbers(high, w);
    ScaleIsMonotone(Amount(v, RawScore), Amount(w, RawScore));
    hide Recorded, Amount, OnScale;
  }

  /** What `ScoreRow` and `ReconstructTier` return, in numbers. */
  method ScoreInNumbers(x: Facts, p: Profile, caps: seq<Feature>)
    returns (r: Outcome, replay: Result<int, ReplayError>)
    requires ValidProfile(p) && forall c :: c in caps <==> c in SCORE_ROW_CAP_FEATURES
    ensures replay == Ok(r.tier)
    ensures BlockerOf(x, p).Some? ==> r.tier == 0
    ensures BlockerOf(x, p).None? ==> Amount(r.features, RawScore) == RawTotal(x, p)
    ensures BlockerOf(x, p).None? && Unlimited(x, p) ==>
              && (RawTotal(x, p) >= 5 ==> r.tier == 5)
              && (RawTotal(x, p) <= 1 ==> r.tier == 1)
              && (1 < RawTotal(x, p) < 5 ==> r.tier == RawTotal(x, p))
    ensures BlockerOf(x, p).None? ==> forall limit :: LimitedTo(limit, x, p) ==> r.tier <= limit
  {
    hide *;
    r := ScoreRow(x, p);
    replay := ReconstructTier(r.features, caps);
    if BlockerOf(x, p).Some? {
      BlockedVector(BlockerOf(x, p).value);
    } else {
      VectorReplays(r.tier, x, p);
      VectorIsClosed(r, x, p);
      LowestUnique(r.tier, replay.value, Recorded(r.features));
      TotalEntry(x, p);
      TierInNumbers(r.tier, x, p);
      if Unlimited(x, p) {
        ScaleReads(r.tier, RawTotal(x, p));
      }
      ScaleIsMonotone(RawTotal(x, p), RawTotal(x, p));
    }
  }

  lemma ScaleReads(tier: int, total: int)
    requires OnScale(tier, total)
    ensures (total >= 5 ==> tier == 5) && (total <= 1 ==> tier == 1) && (1 < total < 5 ==> tier == total)
  {
  }

  // ------------------------------------------------------------------------- the total

  lemma GainsUpTo(rules: seq<Feature>, n: nat, x: Facts, p: Profile)
    requires n < |rules|
    ensures Gains(rules[..n + 1], x, p) == Gains(rules[..n], x, p) + PointsOf(rules[n], x, p)
  {
    assert rules[..n + 1][..n] == rules[..n];
    hide PointsOf;
  }

  lemma EarlyGains(x: Facts, p: Profile)
    ensures Gains(EARLY, x, p) ==
            PointsOf(FunctionMatch, x, p)
            + PointsOf(TpmSenior, x, p) + PointsOf(TpmIiStretch, x, p) + PointsOf(StretchLevel, x, p)
            + PointsOf(YearsPenalty, x, p) + PointsOf(YearsBonus, x, p) + PointsOf(YearsPrefPenalty, x, p)
            + PointsOf(DomainTier2, x, p) + PointsOf(DomainTier1, x, p) + PointsOf(TargetCo, x, p)
  {
    hide PointsOf, Gains;
    NoGains(EARLY, x, p);
    GainsUpTo(EARLY, 0, x, p);
    GainsUpTo(EARLY, 1, x, p);
    GainsUpTo(EARLY, 2, x, p);
    GainsUpTo(EARLY, 3, x, p);
    GainsUpTo(EARLY, 4, x, p);
    GainsUpTo(EARLY, 5, x, p);
    GainsUpTo(EARLY, 6, x, p);
    GainsUpTo(EARLY, 7, x, p);
    GainsUpTo(EARLY, 8, x, p);
    GainsUpTo(EARLY, 9, x, p);
  }

  lemma LateGains(x: Facts, p: Profile)
    ensures Gains(LATE, x, p) ==
            PointsOf(Stale30d, x, p) + PointsOf(CompInBand, x, p) + PointsOf(LowComp, x, p)
            + PointsOf(C2c, x, p) + PointsOf(StaffingW2, x, p) + PointsOf(DegreeGated, x, p)
  {
    hide PointsOf, Gains;
    NoGains(LATE, x, p);
    GainsUpTo(LATE, 0, x, p);
    GainsUpTo(LATE, 1, x, p);
    GainsUpTo(LATE, 2, x, p);
    GainsUpTo(LATE, 3, x, p);
    GainsUpTo(LATE, 4, x, p);
    GainsUpTo(LATE, 5, x, p);
  }

  lemma NoGains(rules: seq<Feature>, x: Facts, p: Profile)
    ensures Gains(rules[..0], x, p) == 0 && rules[..|rules|] == rules
  {
  }

  function Weight(f: Feature, p: Profile): int {
    if f in p.weights then p.weights[f] else 0
  }

  function FamilyPoints(x: Facts, p: Profile): int {
    if x.family.Some? && x.family.value in p.functionWeight then p.functionWeight[x.family.value] else 1
  }

  /** At most one rule on the title's level. */
  function LevelPoints(x: Facts, p: Profile): int {
    if x.family == Some(Tpm) then
      if x.senior then Weight(TpmSenior, p) else if x.tpmIi then Weight(TpmIiStretch, p) else 0
    else if !x.senior then 0
    else if x.family == Some(Validation) || x.family == Some(Techops) then Weight(StretchLevel, p)
    else if x.family == Some(Support) && x.bigTech then Weight(StretchLevel, p)
    else 0
  }

  /** Years asked for cost in the penalized range, and otherwise pay when they are few. */
  function YearsPoints(x: Facts, p: Profile): int {
    var asked := if x.yearsRequired.Some? then x.yearsRequired.value else 0;
    if asked == 0 then 0
    else if asked >= p.limits.penaltyYearsLow && asked <= p.limits.penaltyYearsHigh then Weight(YearsPenalty, p)
    else if asked <= p.limits.bonusYearsMax then Weight(YearsBonus, p)
    else 0
  }

  function WishedYearsPoints(x: Facts, p: Profile): int {
    var wished := if x.yearsPreferred.Some? then x.yearsPreferred.value else 0;
    if wished == 0 || wished < p.limits.prefPenaltyYearsMin then 0 else Weight(YearsPrefPenalty, p)
  }

  function DomainPoints(x: Facts, p: Profile): int {
    if x.domainTier2 then Weight(DomainTier2, p) else if x.domainTier1 then Weight(DomainTier1, p) else 0
  }

  /** Pay in the band counts for the posting, and only otherwise can it be too low. */
  function PayPoints(x: Facts, p: Profile): int {
    var low := if x.payLow.Some? then x.payLow.value else 0.0;
    var high := if x.payHigh.Some? then x.payHigh.value else 0.0;
    if high == 0.0 then 0
    else if low != 0.0 && low <= p.limits.bandHigh && high >= p.limits.bandLow then Weight(CompInBand, p)
    else if high < p.limits.lowComp then Weight(LowComp, p)
    else 0
  }

  function ContractPoints(x: Facts, p: Profile): int {
    if x.c2c then Weight(C2c, p) else if x.staffing then Weight(StaffingW2, p) else 0
  }

  lemma LevelRules(x: Facts, p: Profile)
    ensures PointsOf(TpmSenior, x, p) + PointsOf(TpmIiStretch, x, p) + PointsOf(StretchLevel, x, p) == LevelPoints(x, p)
  {
  }

  lemma YearsRules(x: Facts, p: Profile)
    ensures PointsOf(YearsPenalty, x, p) + PointsOf(YearsBonus, x, p) == YearsPoints(x, p)
    ensures PointsOf(YearsPrefPenalty, x, p) == WishedYearsPoints(x, p)
  {
  }

  lemma DomainAndEmployerRules(x: Facts, p: Profile)
    ensures PointsOf(DomainTier2, x, p) + PointsOf(DomainTier1, x, p) == DomainPoints(x, p)
    ensures PointsOf(FunctionMatch, x, p) == FamilyPoints(x, p)
    ensures PointsOf(TargetCo, x, p) == if x.targetEmployer then Weight(TargetCo, p) else 0
  {
  }

  lemma PayRules(x: Facts, p: Profile)
    ensures PointsOf(CompInBand, x, p) + PointsOf(LowComp, x, p) == PayPoints(x, p)
    ensures PointsOf(C2c, x, p) + PointsOf(StaffingW2, x, p) == ContractPoints(x, p)
  {
  }

  lemma AgeAndDegreeRules(x: Facts, p: Profile)
    ensures PointsOf(Stale30d, x, p) ==
            if x.age.Some? && x.age.value > p.tierRules.stalePenaltyDays then Weight(Stale30d, p) else 0
    ensures PointsOf(DegreeGated, x, p) == if x.degreeRequired then Weight(DegreeGated, p) else 0
  {
  }

  /**
   What the rules add. Those on the title exclude each other, as do the two on required years,
   the two on the domain, the two on pay and the two on the contract; a Principal or Staff title
   cuts what has been gathered before age, pay, contract and degree are looked at.
   */
  lemma TotalFromFacts(x: Facts, p: Profile)
    ensures var early := FamilyPoints(x, p) + LevelPoints(x, p) + YearsPoints(x, p) + WishedYearsPoints(x, p)
                         + DomainPoints(x, p) + (if x.targetEmployer then Weight(TargetCo, p) else 0);
            var cut := if x.staffTitle && early > p.tierRules.staffCapTier then p.tierRules.staffCapTier else early;
            RawTotal(x, p) ==
            cut + (if x.age.Some? && x.age.value > p.tierRules.stalePenaltyDays then Weight(Stale30d, p) else 0)
            + PayPoints(x, p) + ContractPoints(x, p) + (if x.degreeRequired then Weight(DegreeGated, p) else 0)
  {
    EarlyGains(x, p);
    LateGains(x, p);
    LevelRules(x, p);
    YearsRules(x, p);
    DomainAndEmployerRules(x, p);
    PayRules(x, p);
    AgeAndDegreeRules(x, p);
    hide Gains, EARLY, LATE, PointsOf, LevelPoints, YearsPoints, WishedYearsPoints, DomainPoints, PayPoints;
    hide ContractPoints, FamilyPoints, Weight;
  }

  // --------------------------------------------------------------------- the refusals

  /** The checks that refuse a posting, in the order they are made. */
  const REFUSALS: seq<string> := [
    "non_us_location", "off_target_location", "active_clearance", "specialist_skill_or_title",
    "people_management", "years_required_too_high", "senior_design_verification",
    "no_role_family_match", "off_focus_role"]

  predicate Refuses(i: nat, x: Facts, p: Profile)
    requires i < |REFUSALS|
  {
    match i
    case 0 => x.nonUs
    case 1 => !(x.bayArea || x.remote)
    case 2 => x.clearance
    case 3 => x.excluded
    case 4 => x.peopleManagement
    case 5 => x.yearsRequired.Some? && x.yearsRequired.value != 0 && x.yearsRequired.value >= p.limits.blockerYearsMin
    case 6 => x.family == Some(Validation) && x.senior && x.validationDesign
    case 7 => x.family == None
    case _ => x.family.Some? && x.family.value !in p.inScope
  }

  /** A posting is refused exactly when some check refuses it, under the first that does. */
  lemma FirstRefusal(x: Facts, p: Profile)
    ensures BlockerOf(x, p).None? <==> forall i :: 0 <= i < |REFUSALS| ==> !Refuses(i, x, p)
    ensures forall i :: 0 <= i < |REFUSALS| && Refuses(i, x, p) && (forall j :: 0 <= j < i ==> !Refuses(j, x, p)) ==>
              BlockerOf(x, p) == Some(REFUSALS[i])
  {
    assert |REFUSALS| == 9;
    var none := forall i :: 0 <= i < |REFUSALS| ==> !Refuses(i, x, p);
    assert none <==>
           && !Refuses(0, x, p) && !Refuses(1, x, p) && !Refuses(2, x, p) && !Refuses(3, x, p) && !Refuses(4, x, p)
           && !Refuses(5, x, p) && !Refuses(6, x, p) && !Refuses(7, x, p) && !Refuses(8, x, p);
    forall i | 0 <= i < |REFUSALS| && Refuses(i, x, p) && (forall j :: 0 <= j < i ==> !Refuses(j, x, p))
      ensures BlockerOf(x, p) == Some(REFUSALS[i])
    {
      assert forall j: nat :: j in {0, 1, 2, 3, 4, 5, 6, 7} && j < i ==> !Refuses(j, x, p);
    }
  }

  // ---------------------------------------------------------------- what is recorded

  /** The limits that are looked at before a cap: the scale, and the caps in front of it. */
  ghost predicate AheadOf(c: Feature, limit: int, x: Facts, p: Profile) {
    || OnScale(limit, RawTotal(x, p))
    || (c != CapFunc && FamilyPoints(x, p) < p.tierRules.funcCapMinFunc && limit == p.tierRules.funcCapTier)
    || (c == CapUndatedAggregator && !x.hasDesc && limit == p.tierRules.noDescCapTier)
  }

  /**
   A cap is recorded, at its limit, when it applies and everything ahead of it is above that limit;
   the cap on old postings is recorded whenever it applies.
   */
  lemma CapsRecorded(x: Facts, p: Profile)
    ensures CapFunc in Vector(x, p) <==>
              && FamilyPoints(x, p) < p.tierRules.funcCapMinFunc
              && forall l :: AheadOf(CapFunc, l, x, p) ==> l > p.tierRules.funcCapTier
    ensures CapNoDesc in Vector(x, p) <==>
              !x.hasDesc && forall l :: AheadOf(CapNoDesc, l, x, p) ==> l > p.tierRules.noDescCapTier
    ensures CapStale in Vector(x, p) <==> x.age.Some? && x.age.value > p.tierRules.staleCapDays
    ensures CapUndatedAggregator in Vector(x, p) <==>
              && x.age.None? && x.aggregator
              && forall l :: AheadOf(CapUndatedAggregator, l, x, p) ==> l > p.tierRules.undatedAggregatorCapTier
    ensures var v, rules := Vector(x, p), p.tierRules;
            && (CapFunc in v ==> v[CapFunc] == Points(rules.funcCapTier))
            && (CapNoDesc in v ==> v[CapNoDesc] == Points(rules.noDescCapTier))
            && (CapStale in v ==> v[CapStale] == Points(rules.staleCapTier))
            && (CapUndatedAggregator in v ==> v[CapUndatedAggregator] == Points(rules.undatedAggregatorCapTier))
  {
    VectorCaps(x, p);
    hide Vector, RawTotal;
    AheadIsScaled(RawTotal(x, p));
    CapRule(CapFunc, p.tierRules.funcCapTier, x, p);
    CapRule(CapNoDesc, p.tierRules.noDescCapTier, x, p);
    CapRule(CapUndatedAggregator, p.tierRules.undatedAggregatorCapTier, x, p);
  }

  lemma VectorCaps(x: Facts, p: Profile)
    ensures forall c :: c in CAPS ==> (c in Vector(x, p) <==> CapRecorded(c, x, p))
    ensures forall c :: c in CAPS && c in Vector(x, p) ==> Vector(x, p)[c] == Points(CapTier(c, p))
  {
    CapsAreNew(x, p);
    hide Contributed, CapRecorded, CapTier, RawTotal;
  }

  lemma AheadIsScaled(total: int)
    ensures forall l :: OnScale(l, total) <==> l == Clamp(total)
  {
  }

  /** Being above everything ahead is being above what the caps ahead have left. */
  lemma CapRule(c: Feature, t: int, x: Facts, p: Profile)
    requires c in {CapFunc, CapNoDesc, CapUndatedAggregator}
    ensures var left := if c == CapFunc then Clamp(RawTotal(x, p))
                        else if c == CapNoDesc then AfterFuncCap(x, p) else AfterDescCap(x, p);
            (forall l :: AheadOf(c, l, x, p) ==> l > t) <==> left > t
  {
    hide RawTotal, Clamp, OnScale, FunctionWeight, FamilyPoints;
    AheadIsScaled(RawTotal(x, p));
    FamilyWeight(x, p);
    var left := if c == CapFunc then Clamp(RawTotal(x, p))
                else if c == CapNoDesc then AfterFuncCap(x, p) else AfterDescCap(x, p);
    assert AheadOf(c, left, x, p);
    assert forall l :: AheadOf(c, l, x, p) ==> l >= left;
  }

  lemma FamilyWeight(x: Facts, p: Profile)
    ensures FunctionWeight(x, p) == FamilyPoints(x, p)
  {
  }

  /** Entries that raise no flag: the family's points, what speaks for the posting, and the total. */
  predicate Silent(f: Feature) {
    f in {FunctionMatch, YearsBonus, DomainTier2, DomainTier1, CompInBand, RawScore}
  }

  lemma EntriesAreKnown(x: Facts, p: Profile)
    ensures forall f :: f in Vector(x, p) ==> f in ALL || f == RawScore || f in CAPS
  {
    hide Fires, EntryOf, CapRecorded, CapTier, RawTotal;
  }

  lemma KnownFlags(f: Feature)
    ensures f in ALL || f == RawScore || f in CAPS ==> (f in FLAGGED <==> !Silent(f))
  {
  }

  /** The flag of a refusal. */
  predicate RefusalFlag(flag: Flag, code: string) {
    match flag
    case OffTargetLoc => code == "off_target_location"
    case Skip => code == "no_role_family_match" || code == "off_focus_role"
    case Blocking => code != "off_target_location" && code != "no_role_family_match" && code != "off_focus_role"
    case Rule(_) => false
  }

  /** What `ScoreRow` leaves besides the tier: one flag for a refusal, else one for each entry that is not silent. */
  method FlagsInWords(x: Facts, p: Profile) returns (r: Outcome)
    requires ValidProfile(p)
    ensures BlockerOf(x, p).Some? ==>
              && r.features == map[Blocker := Code(BlockerOf(x, p).value)]
              && |r.flags| == 1 && RefusalFlag(r.flags[0], BlockerOf(x, p).value)
    ensures BlockerOf(x, p).None? ==>
              forall f :: Rule(f) in r.flags <==> f in r.features && !Silent(f)
  {
    hide *;
    r := ScoreRow(x, p);
    if BlockerOf(x, p).Some? {
      RefusedInWords(BlockerOf(x, p).value);
    }
    forall f | f in Vector(x, p) ensures f in FLAGGED <==> !Silent(f) {
      EntriesAreKnown(x, p);
      KnownFlags(f);
    }
  }

  lemma RefusedInWords(code: string)
    ensures Blocked(code).features == map[Blocker := Code(code)]
    ensures |Blocked(code).flags| == 1 && RefusalFlag(Blocked(code).flags[0], code)
  {
  }
}
