/**
 The fit axis (rubric.py:559-796): the scorer works through its rules step by step, with a
 clamp half way and four caps at the end, and leaves a vector from which alone the tier can
 be derived again.

 What the regular expressions and parsers find in a posting are inputs (`Facts`).
 */
module Scoring {
  import opened Wrappers
  import opened FeatureVector

  datatype Family = Tpm | Validation | Techops | Support | Family(name: string)

  datatype TierRules = TierRules(
    staffCapTier: int, funcCapMinFunc: int, funcCapTier: int, noDescCapTier: int,
    stalePenaltyDays: int, staleCapDays: int, staleCapTier: int, undatedAggregatorCapTier: int)

  datatype Limits = Limits(
    blockerYearsMin: int, penaltyYearsLow: int, penaltyYearsHigh: int, bonusYearsMax: int,
    prefPenaltyYearsMin: int, bandLow: real, bandHigh: real, lowComp: real)

  datatype Profile = Profile(
    weights: Weights, functionWeight: map<Family, int>, inScope: set<Family>,
    limits: Limits, tierRules: TierRules)

  datatype Facts = Facts(
    nonUs: bool, bayArea: bool, remote: bool, family: Option<Family>,
    clearance: bool, excluded: bool, peopleManagement: bool,
    yearsRequired: Option<int>, yearsPreferred: Option<int>,
    senior: bool, tpmIi: bool, validationDesign: bool, bigTech: bool,
    domainTier2: bool, domainTier1: bool, targetEmployer: bool, staffTitle: bool,
    age: Option<int>, payLow: Option<real>, payHigh: Option<real>,
    c2c: bool, staffing: bool, hasDesc: bool, degreeRequired: bool, aggregator: bool)

  function Min(a: int, b: int): int { if a <= b then a else b }
  function Clamp(n: int): int { if n < 1 then 1 else if n > 5 then 5 else n }

  /** Python's truth of an optional number: neither missing nor zero. */
  predicate Years(y: Option<int>) { y.Some? && y.value != 0 }
  predicate Pay(y: Option<real>) { y.Some? && y.value != 0.0 }

  /** `ValidateWeightTable` has accepted the profile's table. */
  ghost predicate ValidProfile(p: Profile) {
    ValidateWeightTable(p.weights, REQUIRED_SCORE_ROW_WEIGHTS).Ok?
  }

  // ------------------------------------------------------------ what is wanted

  function FunctionWeight(x: Facts, p: Profile): int {
    if x.family.Some? && x.family.value in p.functionWeight then p.functionWeight[x.family.value] else 1
  }

  /** The reason a posting is not scored at all; the first that applies. */
  function BlockerOf(x: Facts, p: Profile): Option<string> {
    if x.nonUs then Some("non_us_location")
    else if !x.bayArea && !x.remote then Some("off_target_location")
    else if x.clearance then Some("active_clearance")
    else if x.excluded then Some("specialist_skill_or_title")
    else if x.peopleManagement then Some("people_management")
    else if Years(x.yearsRequired) && x.yearsRequired.value >= p.limits.blockerYearsMin then
      Some("years_required_too_high")
    else if x.family == Some(Validation) && x.senior && x.validationDesign then
      Some("senior_design_verification")
    else if x.family.None? then Some("no_role_family_match")
    else if x.family.value !in p.inScope then Some("off_focus_role")
    else None
  }

  predicate AsksPenalizedYears(x: Facts, p: Profile) {
    Years(x.yearsRequired) && p.limits.penaltyYearsLow <= x.yearsRequired.value <= p.limits.penaltyYearsHigh
  }

  predicate PayInBand(x: Facts, p: Profile) {
    Pay(x.payLow) && Pay(x.payHigh)
    && x.payLow.value <= p.limits.bandHigh && x.payHigh.value >= p.limits.bandLow
  }

  /** Whether a contribution applies to a posting, rule by rule and in no particular order. */
  predicate Fires(f: Feature, x: Facts, p: Profile) {
    match f
    case FunctionMatch => true
    case TpmSenior => x.family == Some(Tpm) && x.senior
    case TpmIiStretch => x.family == Some(Tpm) && !x.senior && x.tpmIi
    case StretchLevel =>
      x.senior && (x.family in { Some(Validation), Some(Techops) } || (x.family == Some(Support) && x.bigTech))
    case YearsPenalty => AsksPenalizedYears(x, p)
    case YearsBonus =>
      !AsksPenalizedYears(x, p) && Years(x.yearsRequired) && x.yearsRequired.value <= p.limits.bonusYearsMax
    case YearsPrefPenalty =>
      Years(x.yearsPreferred) && x.yearsPreferred.value >= p.limits.prefPenaltyYearsMin
    case DomainTier2 => x.domainTier2
    case DomainTier1 => x.domainTier1 && !x.domainTier2
    case TargetCo => x.targetEmployer
    case StaffCapDelta => x.staffTitle
    case Stale30d => x.age.Some? && x.age.value > p.tierRules.stalePenaltyDays
    case CompInBand => PayInBand(x, p)
    case LowComp => !PayInBand(x, p) && Pay(x.payHigh) && x.payHigh.value < p.limits.lowComp
    case C2c => x.c2c
    case StaffingW2 => x.staffing && !x.c2c
    case DegreeGated => x.degreeRequired
    case _ => false
  }

  /** The rules before the clamp on Principal/Staff titles, and those after it. */
  const EARLY: seq<Feature> := [FunctionMatch, TpmSenior, TpmIiStretch, StretchLevel, YearsPenalty,
    YearsBonus, YearsPrefPenalty, DomainTier2, DomainTier1, TargetCo]
  const LATE: seq<Feature> := [Stale30d, CompInBand, LowComp, C2c, StaffingW2, DegreeGated]
  const CONTRIBUTIONS: seq<Feature> := EARLY + [StaffCapDelta] + LATE

  function PointsOf(f: Feature, x: Facts, p: Profile): int {
    if !Fires(f, x, p) then 0
    else if f == FunctionMatch then FunctionWeight(x, p)
    else if f in p.weights then p.weights[f]
    else 0
  }

  /** The points the profile gives for those of `rules` that apply, from the facts alone. */
  function Gains(rules: seq<Feature>, x: Facts, p: Profile): int {
    if rules == [] then 0
    else Gains(rules[..|rules| - 1], x, p) + PointsOf(rules[|rules| - 1], x, p)
  }

  function AfterStaffClamp(x: Facts, p: Profile): int {
    var early := Gains(EARLY, x, p);
    if x.staffTitle then Min(early, p.tierRules.staffCapTier) else early
  }

  function RawTotal(x: Facts, p: Profile): int {
    AfterStaffClamp(x, p) + Gains(LATE, x, p)
  }

  /** Every upper limit the facts put on the tier of a scored posting. */
  function CapsOn(x: Facts, p: Profile): set<int> {
    (if LowFunction(x, p) then { p.tierRules.funcCapTier } else {})
    + (if !x.hasDesc then { p.tierRules.noDescCapTier } else {})
    + (if Stale(x, p) then { p.tierRules.staleCapTier } else {})
    + (if Undated(x) then { p.tierRules.undatedAggregatorCapTier } else {})
  }

  ghost predicate Lowest(t: int, limits: set<int>) {
    t in limits && forall l :: l in limits ==> t <= l
  }

  lemma LowestUnique(a: int, b: int, limits: set<int>)
    requires Lowest(a, limits) && Lowest(b, limits)
    ensures a == b
  {
  }

  ghost predicate RightTier(tier: int, x: Facts, p: Profile) {
    Lowest(tier, {Clamp(RawTotal(x, p))} + CapsOn(x, p))
  }

  /** What the vector holds for the contributions in `rules`. */
  ghost function Contributed(rules: set<Feature>, x: Facts, p: Profile): Features {
    map f | f in rules && Fires(f, x, p) :: Points(EntryOf(f, x, p))
  }

  ghost function EntryOf(f: Feature, x: Facts, p: Profile): int {
    if f == StaffCapDelta then AfterStaffClamp(x, p) - Gains(EARLY, x, p) else PointsOf(f, x, p)
  }

  ghost const ALL: set<Feature> := SCORE_ROW_CONTRIBUTIONS
  ghost const CAPS: set<Feature> := { CapFunc, CapNoDesc, CapStale, CapUndatedAggregator }
  const FLAGGED: set<Feature> := {
    TpmSenior, TpmIiStretch, StretchLevel, YearsPenalty, YearsPrefPenalty, TargetCo, StaffCapDelta,
    Stale30d, LowComp, C2c, StaffingW2, DegreeGated, CapFunc, CapNoDesc, CapStale, CapUndatedAggregator }

  predicate LowFunction(x: Facts, p: Profile) { FunctionWeight(x, p) < p.tierRules.funcCapMinFunc }
  predicate Stale(x: Facts, p: Profile) { x.age.Some? && x.age.value > p.tierRules.staleCapDays }
  predicate Undated(x: Facts) { x.age.None? && x.aggregator }

  function AfterFuncCap(x: Facts, p: Profile): int {
    var clamped := Clamp(RawTotal(x, p));
    if LowFunction(x, p) then Min(clamped, p.tierRules.funcCapTier) else clamped
  }

  function AfterDescCap(x: Facts, p: Profile): int {
    if x.hasDesc then AfterFuncCap(x, p) else Min(AfterFuncCap(x, p), p.tierRules.noDescCapTier)
  }

  /** A cap is recorded when it lowered the tier; the one on old postings, whenever it applies. */
  ghost predicate CapRecorded(c: Feature, x: Facts, p: Profile) {
    match c
    case CapFunc => LowFunction(x, p) && Clamp(RawTotal(x, p)) > p.tierRules.funcCapTier
    case CapNoDesc => !x.hasDesc && AfterFuncCap(x, p) > p.tierRules.noDescCapTier
    case CapStale => Stale(x, p)
    case CapUndatedAggregator => Undated(x) && AfterDescCap(x, p) > p.tierRules.undatedAggregatorCapTier
    case _ => false
  }

  function CapTier(c: Feature, p: Profile): int {
    match c
    case CapFunc => p.tierRules.funcCapTier
    case CapNoDesc => p.tierRules.noDescCapTier
    case CapStale => p.tierRules.staleCapTier
    case _ => p.tierRules.undatedAggregatorCapTier
  }

  ghost function Capped(caps: set<Feature>, x: Facts, p: Profile): Features {
    map c | c in caps && CapRecorded(c, x, p) :: Points(CapTier(c, p))
  }

  /** The vector of a scored posting: its contributions, their total, and its caps. */
  ghost function Vector(x: Facts, p: Profile): Features {
    Contributed(ALL, x, p)[RawScore := Points(RawTotal(x, p))] + Capped(CAPS, x, p)
  }

  // ------------------------------------------------------------------- replay

  datatype ReplayError = KeyError

  /** The clamped total and the caps a vector records, whatever their order. */
  function Recorded(features: Features): set<int>
    requires RawScore in features
  {
    {Clamp(Amount(features, RawScore))} + (set c | c in SCORE_ROW_CAP_FEATURES && c in features :: Amount(features, c))
  }

  /** `reconstruct_tier`: the tier again, from the vector alone. */
  method ReconstructTier(features: Features, caps: seq<Feature>) returns (r: Result<int, ReplayError>)
    requires forall c :: c in caps <==> c in SCORE_ROW_CAP_FEATURES
    ensures Blocker in features ==> r == Ok(0)
    ensures Blocker !in features && RawScore !in features ==> r == Err(KeyError)
    ensures Blocker !in features && RawScore in features ==> r.Ok? && Lowest(r.value, Recorded(features))
  {
    if Blocker in features {
      return Ok(0);
    }
    if RawScore !in features {
      return Err(KeyError);
    }
    var tier := Clamp(Amount(features, RawScore));
    for i := 0 to |caps|
      invariant tier in Recorded(features)
      invariant tier <= Clamp(Amount(features, RawScore))
      invariant forall j :: 0 <= j < i && caps[j] in features ==> tier <= Amount(features, caps[j])
    {
      if caps[i] in features {
        assert caps[i] in caps;
        tier := Min(tier, Amount(features, caps[i]));
      }
    }
    forall c | c in SCORE_ROW_CAP_FEATURES && c in features ensures tier <= Amount(features, c) {
      assert c in caps;
      var j :| 0 <= j < |caps| && caps[j] == c;
    }
    return Ok(tier);
  }

  // ------------------------------------------------------- the totals of a vector

  lemma {:induction false} GainsJoin(a: seq<Feature>, b: seq<Feature>, x: Facts, p: Profile)
    ensures Gains(a + b, x, p) == Gains(a, x, p) + Gains(b, x, p)
  {
    if b == [] {
      assert a + b == a;
    } else {
      assert (a + b)[..|a + b| - 1] == a + b[..|b| - 1];
      GainsJoin(a, b[..|b| - 1], x, p);
    }
  }

  /** Entries for ordinary rules add up to the gains the facts give. */
  lemma {:induction false} SumIsGains(rules: seq<Feature>, features: Features, x: Facts, p: Profile)
    requires forall f :: f in rules ==> Amount(features, f) == PointsOf(f, x, p)
    ensures Sum(rules, features) == Gains(rules, x, p)
  {
    if rules != [] {
      SumIsGains(rules[..|rules| - 1], features, x, p);
    }
  }

  lemma SumOne(f: Feature, features: Features)
    ensures Sum([f], features) == Amount(features, f)
  {
    assert [f][..0] == [];
  }

  /** The rules before and after the clamp are all the weighted rules, each once. */
  ghost predicate Split(early: seq<Feature>, late: seq<Feature>) {
    && (forall f :: f in early ==> f in ALL && f != StaffCapDelta)
    && (forall f :: f in late ==> f in ALL && f != StaffCapDelta && f !in early)
  }

  /** Where a rule stands: before the clamp, the clamp itself, after it, or not a contribution. */
  ghost function Stage(f: Feature): int {
    match f
    case FunctionMatch | TpmSenior | TpmIiStretch | StretchLevel | YearsPenalty => 0
    case YearsBonus | YearsPrefPenalty | DomainTier2 | DomainTier1 | TargetCo => 0
    case StaffCapDelta => 1
    case Stale30d | CompInBand | LowComp | C2c | StaffingW2 | DegreeGated => 2
    case _ => 3
  }

  lemma EarlyStage()
    ensures forall f :: f in EARLY ==> Stage(f) == 0
  {
  }

  lemma LateStage()
    ensures forall f :: f in LATE ==> Stage(f) == 2
  {
  }

  lemma StaffStage()
    ensures Stage(StaffCapDelta) == 1
  {
  }

  lemma AllStages(f: Feature)
    ensures f in ALL <==> Stage(f) < 3
  {
  }

  lemma EarlyLate()
    ensures Split(EARLY, LATE)
  {
    EarlyStage();
    LateStage();
    var early, late := EARLY, LATE;
    SplitByStage(early, late);
  }

  lemma SplitByStage(early: seq<Feature>, late: seq<Feature>)
    requires forall f :: f in early ==> Stage(f) == 0
    requires forall f :: f in late ==> Stage(f) == 2
    ensures Split(early, late)
  {
    forall f | f in early ensures f in ALL {
      AllStages(f);
    }
    forall f | f in late ensures f in ALL {
      AllStages(f);
    }
  }

  lemma ContributionOrder()
    ensures CONTRIBUTIONS == EARLY + [StaffCapDelta] + LATE
    ensures CONTRIBUTIONS == EARLY + ([StaffCapDelta] + LATE)
  {
  }

  lemma EntriesAreGains(rules: seq<Feature>, covered: set<Feature>, features: Features, x: Facts, p: Profile)
    requires ValidProfile(p)
    requires forall f :: f in rules ==> f in ALL && f in covered && f != StaffCapDelta
    requires forall f :: f in covered ==> Amount(features, f) == Amount(Contributed(covered, x, p), f)
    ensures Sum(rules, features) == Gains(rules, x, p)
  {
    hide *;
    forall f | f in rules ensures Amount(features, f) == PointsOf(f, x, p) {
      OneEntry(f, covered, x, p);
    }
    SumIsGains(rules, features, x, p);
  }

  lemma OneEntry(f: Feature, covered: set<Feature>, x: Facts, p: Profile)
    requires f in covered && f != StaffCapDelta
    ensures Amount(Contributed(covered, x, p), f) == PointsOf(f, x, p)
  {
  }

  lemma SumBeforeClamp(early: seq<Feature>, late: seq<Feature>, x: Facts, p: Profile)
    requires ValidProfile(p) && Split(early, late)
    ensures Sum(early + ([StaffCapDelta] + late), Contributed(Set(early), x, p)) == Gains(early, x, p)
  {
    hide Sum, Gains, Fires, PointsOf;
    var features := Contributed(Set(early), x, p);
    EntriesAreGains(early, Set(early), features, x, p);
    SumJoin(early, [StaffCapDelta] + late, features);
    SumZero([StaffCapDelta] + late, features);
  }

  lemma EarlySum(x: Facts, p: Profile)
    requires ValidProfile(p)
    ensures Sum(CONTRIBUTIONS, Contributed(Set(EARLY), x, p)) == Gains(EARLY, x, p)
  {
    EarlyLate();
    ContributionOrder();
    hide *;
    SumBeforeClamp(EARLY, LATE, x, p);
  }

  function Set(rules: seq<Feature>): set<Feature> {
    set f | f in rules
  }

  lemma {:induction false} SumZero(rules: seq<Feature>, features: Features)
    requires forall f :: f in rules ==> Amount(features, f) == 0
    ensures Sum(rules, features) == 0
  {
    if rules != [] {
      SumZero(rules[..|rules| - 1], features);
    }
  }

  /** The contributions of a vector, the clamp's delta among them, add up to the raw total. */
  lemma ContributionsSum(features: Features, x: Facts, p: Profile)
    requires ValidProfile(p)
    requires forall f :: f in ALL ==> Amount(features, f) == Amount(Contributed(ALL, x, p), f)
    ensures Sum(CONTRIBUTIONS, features) == RawTotal(x, p)
  {
    hide *;
    EarlyLate();
    ContributionOrder();
    StaffEntry(x, p);
    AllStages(StaffCapDelta);
    assert Stage(StaffCapDelta) < 3 by { StaffStage(); }
    SumAroundClamp(EARLY, LATE, features, x, p);
  }

  lemma SumAroundClamp(early: seq<Feature>, late: seq<Feature>, features: Features, x: Facts, p: Profile)
    requires ValidProfile(p) && Split(early, late)
    requires forall f :: f in ALL ==> Amount(features, f) == Amount(Contributed(ALL, x, p), f)
    ensures Sum(early + [StaffCapDelta] + late, features)
            == Gains(early, x, p) + Amount(features, StaffCapDelta) + Gains(late, x, p)
  {
    hide Sum, Gains, Fires, PointsOf;
    EntriesAreGains(early, ALL, features, x, p);
    EntriesAreGains(late, ALL, features, x, p);
    SumJoin(early + [StaffCapDelta], late, features);
    SumJoin(early, [StaffCapDelta], features);
    SumOne(StaffCapDelta, features);
  }

  lemma StaffEntry(x: Facts, p: Profile)
    ensures Amount(Contributed(ALL, x, p), StaffCapDelta) + Gains(EARLY, x, p) + Gains(LATE, x, p) == RawTotal(x, p)
  {
    hide Gains, PointsOf;
  }

  /** The place of a contribution in the order they are summed in. */
  ghost function Place(f: Feature): int {
    match f
    case FunctionMatch => 0 case TpmSenior => 1 case TpmIiStretch => 2 case StretchLevel => 3
    case YearsPenalty => 4 case YearsBonus => 5 case YearsPrefPenalty => 6 case DomainTier2 => 7
    case DomainTier1 => 8 case TargetCo => 9 case StaffCapDelta => 10 case Stale30d => 11
    case CompInBand => 12 case LowComp => 13 case C2c => 14 case StaffingW2 => 15 case _ => 16
  }

  lemma Places()
    ensures forall i :: 0 <= i < |CONTRIBUTIONS| ==> Place(CONTRIBUTIONS[i]) == i
  {
    assert CONTRIBUTIONS == [FunctionMatch, TpmSenior, TpmIiStretch, StretchLevel, YearsPenalty, YearsBonus,
      YearsPrefPenalty, DomainTier2, DomainTier1, TargetCo, StaffCapDelta, Stale30d, CompInBand, LowComp, C2c,
      StaffingW2, DegreeGated];
  }

  lemma ContributionsAreDistinct()
    ensures NoRepeats(CONTRIBUTIONS)
  {
    Places();
    DistinctByPlace(CONTRIBUTIONS);
  }

  lemma DistinctByPlace(rules: seq<Feature>)
    requires forall i :: 0 <= i < |rules| ==> Place(rules[i]) == i
    ensures NoRepeats(rules)
  {
  }

  /** What the card holds once the rules in `done` have been gone through. */
  ghost predicate Settled(card: Scorecard, done: set<Feature>, x: Facts, p: Profile)
    reads card
  {
    card.Valid() && card.features == Contributed(done, x, p)
  }

  /** Going through one more rule. */
  lemma OneRule(done: set<Feature>, f: Feature, x: Facts, p: Profile)
    requires f !in done
    ensures f !in Contributed(done, x, p)
    ensures Contributed(done + {f}, x, p)
            == if Fires(f, x, p) then Contributed(done, x, p)[f := Points(EntryOf(f, x, p))]
               else Contributed(done, x, p)
  {
    hide Fires, EntryOf;
  }

  lemma Weighted(f: Feature, x: Facts, p: Profile)
    requires ValidProfile(p) && f in REQUIRED_SCORE_ROW_WEIGHTS
    ensures f in p.weights
    ensures Fires(f, x, p) ==> EntryOf(f, x, p) == p.weights[f]
  {
    hide Fires;
  }

  /** A rule with a configured weight. */
  lemma WeightedRule(done: set<Feature>, f: Feature, x: Facts, p: Profile)
    requires ValidProfile(p) && f in REQUIRED_SCORE_ROW_WEIGHTS && f !in done
    ensures f in p.weights && f !in Contributed(done, x, p)
    ensures Contributed(done + {f}, x, p)
            == if Fires(f, x, p) then Contributed(done, x, p)[f := Points(p.weights[f])] else Contributed(done, x, p)
  {
    OneRule(done, f, x, p);
    Weighted(f, x, p);
    hide Fires, EntryOf;
  }

  method ScoreLevel(card: Scorecard, x: Facts, p: Profile, ghost done: set<Feature>) returns (blocked: bool)
    requires ValidProfile(p) && Settled(card, done, x, p)
    requires TpmSenior !in done && TpmIiStretch !in done && StretchLevel !in done
    modifies card
    ensures blocked <==> x.family == Some(Validation) && x.senior && x.validationDesign
    ensures !blocked ==> Settled(card, done + {TpmSenior} + {TpmIiStretch} + {StretchLevel}, x, p)
  {
    WeightedRule(done, TpmSenior, x, p);
    WeightedRule(done + {TpmSenior}, TpmIiStretch, x, p);
    WeightedRule(done + {TpmSenior} + {TpmIiStretch}, StretchLevel, x, p);
    hide Contributed, EntryOf, Scorecard.Valid;
    blocked := false;
    if x.family == Some(Tpm) && x.senior {
      card.Enter(TpmSenior, p.weights[TpmSenior]);
    } else if x.family == Some(Tpm) && x.tpmIi {
      card.Enter(TpmIiStretch, p.weights[TpmIiStretch]);
    } else if x.family == Some(Validation) && x.senior && x.validationDesign {
      return true;
    } else if x.senior && (x.family == Some(Validation) || x.family == Some(Techops)) {
      card.Enter(StretchLevel, p.weights[StretchLevel]);
    } else if x.senior && x.family == Some(Support) && x.bigTech {
      card.Enter(StretchLevel, p.weights[StretchLevel]);
    }
  }

  method ScoreYears(card: Scorecard, x: Facts, p: Profile, ghost done: set<Feature>)
    requires ValidProfile(p) && Settled(card, done, x, p)
    requires YearsPenalty !in done && YearsBonus !in done && YearsPrefPenalty !in done
    modifies card
    ensures Settled(card, done + {YearsPenalty} + {YearsBonus} + {YearsPrefPenalty}, x, p)
  {
    WeightedRule(done, YearsPenalty, x, p);
    WeightedRule(done + {YearsPenalty}, YearsBonus, x, p);
    WeightedRule(done + {YearsPenalty} + {YearsBonus}, YearsPrefPenalty, x, p);
    hide Contributed, EntryOf, Scorecard.Valid;
    if Years(x.yearsRequired)
       && p.limits.penaltyYearsLow <= x.yearsRequired.value <= p.limits.penaltyYearsHigh {
      card.Enter(YearsPenalty, p.weights[YearsPenalty]);
    } else if Years(x.yearsRequired) && x.yearsRequired.value <= p.limits.bonusYearsMax {
      card.Enter(YearsBonus, p.weights[YearsBonus]);
    }
    if Years(x.yearsPreferred) && x.yearsPreferred.value >= p.limits.prefPenaltyYearsMin {
      card.Enter(YearsPrefPenalty, p.weights[YearsPrefPenalty]);
    }
  }

  method ScoreDomain(card: Scorecard, x: Facts, p: Profile, ghost done: set<Feature>)
    requires ValidProfile(p) && Settled(card, done, x, p)
    requires DomainTier2 !in done && DomainTier1 !in done
    modifies card
    ensures Settled(card, done + {DomainTier2} + {DomainTier1}, x, p)
  {
    WeightedRule(done, DomainTier2, x, p);
    WeightedRule(done + {DomainTier2}, DomainTier1, x, p);
    hide Contributed, EntryOf, Scorecard.Valid;
    if x.domainTier2 {
      card.Enter(DomainTier2, p.weights[DomainTier2]);
    } else if x.domainTier1 {
      card.Enter(DomainTier1, p.weights[DomainTier1]);
    }
  }

  method ScoreEmployer(card: Scorecard, x: Facts, p: Profile, ghost done: set<Feature>)
    requires ValidProfile(p) && Settled(card, done, x, p) && TargetCo !in done
    modifies card
    ensures Settled(card, done + {TargetCo}, x, p)
  {
    WeightedRule(done, TargetCo, x, p);
    hide Contributed, EntryOf, Scorecard.Valid;
    if x.targetEmployer {
      card.Enter(TargetCo, p.weights[TargetCo]);
    }
  }

  /** The clamp half way, entered as the change it makes to the running total. */
  method ScoreStaffTitle(card: Scorecard, x: Facts, p: Profile, ghost done: set<Feature>)
    requires Settled(card, done, x, p) && StaffCapDelta !in done
    requires card.score == Gains(EARLY, x, p)
    modifies card
    ensures Settled(card, done + {StaffCapDelta}, x, p)
  {
    OneRule(done, StaffCapDelta, x, p);
    hide Contributed, Gains, Scorecard.Valid;
    if x.staffTitle {
      var capped := Min(card.score, p.tierRules.staffCapTier);
      card.Enter(StaffCapDelta, capped - card.score);
    }
  }

  method ScorePay(card: Scorecard, x: Facts, p: Profile, ghost done: set<Feature>)
    requires ValidProfile(p) && Settled(card, done, x, p)
    requires Stale30d !in done && CompInBand !in done && LowComp !in done
    modifies card
    ensures Settled(card, done + {Stale30d} + {CompInBand} + {LowComp}, x, p)
  {
    WeightedRule(done, Stale30d, x, p);
    WeightedRule(done + {Stale30d}, CompInBand, x, p);
    WeightedRule(done + {Stale30d} + {CompInBand}, LowComp, x, p);
    hide Contributed, EntryOf, Scorecard.Valid;
    if x.age.Some? && x.age.value > p.tierRules.stalePenaltyDays {
      card.Enter(Stale30d, p.weights[Stale30d]);
    }
    if Pay(x.payLow) && Pay(x.payHigh)
       && x.payLow.value <= p.limits.bandHigh && x.payHigh.value >= p.limits.bandLow {
      card.Enter(CompInBand, p.weights[CompInBand]);
    } else if Pay(x.payHigh) && x.payHigh.value < p.limits.lowComp {
      card.Enter(LowComp, p.weights[LowComp]);
    }
  }

  method ScoreEmployment(card: Scorecard, x: Facts, p: Profile, ghost done: set<Feature>)
    requires ValidProfile(p) && Settled(card, done, x, p)
    requires C2c !in done && StaffingW2 !in done && DegreeGated !in done
    modifies card
    ensures Settled(card, done + {C2c} + {StaffingW2} + {DegreeGated}, x, p)
  {
    WeightedRule(done, C2c, x, p);
    WeightedRule(done + {C2c}, StaffingW2, x, p);
    WeightedRule(done + {C2c} + {StaffingW2}, DegreeGated, x, p);
    hide Contributed, EntryOf, Scorecard.Valid;
    if x.c2c {
      card.Enter(C2c, p.weights[C2c]);
    } else if x.staffing {
      card.Enter(StaffingW2, p.weights[StaffingW2]);
    }
    if x.degreeRequired {
      card.Enter(DegreeGated, p.weights[DegreeGated]);
    }
  }

  // ----------------------------------------------------------------- the caps

  /** Going through one more cap. */
  lemma OneCap(base: Features, done: set<Feature>, c: Feature, x: Facts, p: Profile)
    requires c !in done && c !in base
    ensures c !in base + Capped(done, x, p)
    ensures base + Capped(done + {c}, x, p)
            == if CapRecorded(c, x, p) then (base + Capped(done, x, p))[c := Points(CapTier(c, p))]
               else base + Capped(done, x, p)
  {
    hide CapRecorded, CapTier;
  }

  lemma NoCapYet(base: Features, x: Facts, p: Profile)
    ensures base + Capped({}, x, p) == base
  {
    hide CapRecorded, CapTier;
  }

  function AfterAllCaps(x: Facts, p: Profile): int {
    if Stale(x, p) then Min(AfterDescCap(x, p), p.tierRules.staleCapTier)
    else if Undated(x) then Min(AfterDescCap(x, p), p.tierRules.undatedAggregatorCapTier)
    else AfterDescCap(x, p)
  }

  /** One cap after another, the tier comes down to the lowest limit the facts set. */
  lemma CapsGiveTheLowest(x: Facts, p: Profile)
    ensures RightTier(AfterAllCaps(x, p), x, p)
  {
    hide RawTotal, FunctionWeight;
  }

  lemma CapsAreNew(x: Facts, p: Profile)
    ensures CAPS !! Contributed(ALL, x, p)[RawScore := Points(RawTotal(x, p))].Keys
  {
    hide Fires, EntryOf, RawTotal;
  }

  ghost predicate CapsSettled(card: Scorecard, base: Features, done: set<Feature>, x: Facts, p: Profile)
    reads card
  {
    card.Valid() && card.features == base + Capped(done, x, p)
  }

  method CapByFunction(card: Scorecard, raw: int, x: Facts, p: Profile, ghost base: Features, ghost done: set<Feature>)
    returns (tier: int)
    requires CapsSettled(card, base, done, x, p) && CapFunc !in base && CapFunc !in done
    requires raw == RawTotal(x, p)
    modifies card
    ensures CapsSettled(card, base, done + {CapFunc}, x, p)
    ensures tier == AfterFuncCap(x, p)
  {
    OneCap(base, done, CapFunc, x, p);
    hide Capped, RawTotal, FunctionWeight, Scorecard.Valid;
    tier := Clamp(raw);
    if FunctionWeight(x, p) < p.tierRules.funcCapMinFunc && tier > p.tierRules.funcCapTier {
      tier := p.tierRules.funcCapTier;
      card.Enter(CapFunc, tier);
    }
  }

  method CapByDescription(
    card: Scorecard, before: int, x: Facts, p: Profile, ghost base: Features, ghost done: set<Feature>)
    returns (tier: int)
    requires CapsSettled(card, base, done, x, p) && CapNoDesc !in base && CapNoDesc !in done
    requires before == AfterFuncCap(x, p)
    modifies card
    ensures CapsSettled(card, base, done + {CapNoDesc}, x, p)
    ensures tier == AfterDescCap(x, p)
  {
    OneCap(base, done, CapNoDesc, x, p);
    hide Capped, AfterFuncCap, Scorecard.Valid;
    tier := before;
    if !x.hasDesc && tier > p.tierRules.noDescCapTier {
      tier := p.tierRules.noDescCapTier;
      card.Enter(CapNoDesc, tier);
    }
  }

  method CapByAge(card: Scorecard, before: int, x: Facts, p: Profile, ghost base: Features, ghost done: set<Feature>)
    returns (tier: int)
    requires CapsSettled(card, base, done, x, p) && CapStale !in base && CapUndatedAggregator !in base
    requires CapStale !in done && CapUndatedAggregator !in done
    requires before == AfterDescCap(x, p)
    modifies card
    ensures CapsSettled(card, base, done + {CapStale} + {CapUndatedAggregator}, x, p)
    ensures tier == AfterAllCaps(x, p)
  {
    OneCap(base, done, CapStale, x, p);
    OneCap(base, done + {CapStale}, CapUndatedAggregator, x, p);
    hide Capped, AfterDescCap, Scorecard.Valid;
    tier := before;
    if x.age.Some? && x.age.value > p.tierRules.staleCapDays {
      tier := Min(tier, p.tierRules.staleCapTier);
      card.Enter(CapStale, p.tierRules.staleCapTier);
    } else if x.age.None? && x.aggregator {
      if tier > p.tierRules.undatedAggregatorCapTier {
        tier := p.tierRules.undatedAggregatorCapTier;
        card.Enter(CapUndatedAggregator, tier);
      }
    }
  }

  method ScoreCaps(card: Scorecard, x: Facts, p: Profile) returns (tier: int)
    requires card.Valid()
    requires card.features == Contributed(ALL, x, p)[RawScore := Points(RawTotal(x, p))]
    requires card.score == RawTotal(x, p)
    modifies card
    ensures card.Valid() && card.features == Vector(x, p)
    ensures RightTier(tier, x, p)
  {
    ghost var base := card.features;
    ghost var done: set<Feature> := {};
    CapsAreNew(x, p);
    NoCapYet(base, x, p);
    CapsGiveTheLowest(x, p);
    assert done + {CapFunc} + {CapNoDesc} + {CapStale} + {CapUndatedAggregator} == CAPS;
    hide Contributed, Capped, RawTotal, AfterFuncCap, AfterDescCap, AfterAllCaps, Scorecard.Valid, RightTier;
    tier := CapByFunction(card, card.score, x, p, base, done);
    tier := CapByDescription(card, tier, x, p, base, done + {CapFunc});
    tier := CapByAge(card, tier, x, p, base, done + {CapFunc} + {CapNoDesc});
  }

  datatype Outcome = Outcome(tier: int, flags: seq<Flag>, features: Features)

  function FlagFor(code: string): Flag {
    if code == "off_target_location" then OffTargetLoc
    else if code == "no_role_family_match" || code == "off_focus_role" then Skip
    else Blocking
  }

  function Blocked(code: string): Outcome {
    Outcome(0, [FlagFor(code)], map[Blocker := Code(code)])
  }

  /** Everything a posting is refused for before the first rule is looked at. */
  method Gate(x: Facts, p: Profile) returns (code: Option<string>)
    ensures code.Some? ==> code == BlockerOf(x, p)
    ensures code.None? ==>
              BlockerOf(x, p) ==
              if x.family == Some(Validation) && x.senior && x.validationDesign then Some("senior_design_verification")
              else if x.family.None? then Some("no_role_family_match")
              else if x.family.value !in p.inScope then Some("off_focus_role")
              else None
  {
    if x.nonUs {
      return Some("non_us_location");
    }
    if !(x.bayArea || x.remote) {
      return Some("off_target_location");
    }
    if x.clearance {
      return Some("active_clearance");
    }
    if x.excluded {
      return Some("specialist_skill_or_title");
    }
    if x.peopleManagement {
      return Some("people_management");
    }
    if Years(x.yearsRequired) && x.yearsRequired.value >= p.limits.blockerYearsMin {
      return Some("years_required_too_high");
    }
    return None;
  }

  /** `done` is what comes before the last rule ahead of the clamp. */
  ghost predicate RoleDone(done: set<Feature>) {
    done == {FunctionMatch, TpmSenior, TpmIiStretch, StretchLevel, YearsPenalty, YearsBonus,
      YearsPrefPenalty, DomainTier2, DomainTier1}
  }

  lemma RoleRules(done: set<Feature>)
    requires done == {FunctionMatch} + {TpmSenior} + {TpmIiStretch} + {StretchLevel} + {YearsPenalty}
                     + {YearsBonus} + {YearsPrefPenalty} + {DomainTier2} + {DomainTier1}
    ensures RoleDone(done)
  {
  }

  lemma RestRules(done: set<Feature>)
    requires RoleDone(done)
    ensures done + {TargetCo} + {StaffCapDelta} + {Stale30d} + {CompInBand} + {LowComp}
            + {C2c} + {StaffingW2} + {DegreeGated} == ALL
    ensures done !! {TargetCo, StaffCapDelta, Stale30d, CompInBand, LowComp, C2c, StaffingW2, DegreeGated}
  {
  }

  lemma RoleIsEarly(done: set<Feature>)
    requires RoleDone(done)
    ensures done + {TargetCo} == Set(EARLY)
  {
  }

  method StartCard(x: Facts, p: Profile) returns (card: Scorecard)
    ensures fresh(card) && card.rules == CONTRIBUTIONS && card.flagged == FLAGGED
    ensures Settled(card, {FunctionMatch}, x, p)
  {
    ContributionsAreDistinct();
    hide Scorecard.Valid;
    card := new Scorecard(CONTRIBUTIONS, FLAGGED);
    var weight := FunctionWeight(x, p);
    ghost var none: set<Feature> := {};
    OneRule(none, FunctionMatch, x, p);
    assert none + {FunctionMatch} == {FunctionMatch};
    assert card.features == Contributed(none, x, p);
    card.Enter(FunctionMatch, weight);
  }

  /** The rules up to the ones that can still refuse the posting. */
  method ScoreRole(x: Facts, p: Profile) returns (card: Scorecard, blocked: bool, ghost done: set<Feature>)
    requires ValidProfile(p)
    ensures fresh(card) && card.rules == CONTRIBUTIONS && card.flagged == FLAGGED
    ensures blocked <==> x.family == Some(Validation) && x.senior && x.validationDesign
    ensures !blocked ==> Settled(card, done, x, p) && RoleDone(done)
  {
    hide *;
    card := StartCard(x, p);
    done := {FunctionMatch};
    blocked := ScoreLevel(card, x, p, done);
    if blocked {
      return;
    }
    done := done + {TpmSenior} + {TpmIiStretch} + {StretchLevel};
    ScoreYears(card, x, p, done);
    done := done + {YearsPenalty} + {YearsBonus} + {YearsPrefPenalty};
    ScoreDomain(card, x, p, done);
    done := done + {DomainTier2} + {DomainTier1};
    RoleRules(done);
  }

  lemma TotalBeforeClamp(card: Scorecard, done: set<Feature>, x: Facts, p: Profile)
    requires ValidProfile(p) && card.rules == CONTRIBUTIONS
    requires Settled(card, done + {TargetCo}, x, p) && RoleDone(done)
    ensures card.score == Gains(EARLY, x, p)
  {
    RoleIsEarly(done);
    EarlySum(x, p);
    hide Gains, Contributed, Sum, NoRepeats, Set, RoleDone;
  }

  lemma TotalAtTheEnd(card: Scorecard, x: Facts, p: Profile)
    requires ValidProfile(p) && card.rules == CONTRIBUTIONS && Settled(card, ALL, x, p)
    ensures card.score == RawTotal(x, p)
    ensures card.Valid() && card.features == Contributed(ALL, x, p)
  {
    assert card.features == Contributed(ALL, x, p);
    ContributionsSum(card.features, x, p);
    hide RawTotal, Contributed, Sum, NoRepeats;
  }

  /** The rules after that, up to the recorded total. */
  method ScoreRest(card: Scorecard, x: Facts, p: Profile, ghost done: set<Feature>)
    requires ValidProfile(p) && card.rules == CONTRIBUTIONS
    requires Settled(card, done, x, p) && RoleDone(done)
    modifies card
    ensures card.Valid() && card.score == RawTotal(x, p)
    ensures card.features == Contributed(ALL, x, p)[RawScore := Points(RawTotal(x, p))]
  {
    hide *;
    RestRules(done);
    ghost var rest := done + {TargetCo};
    ScoreEmployer(card, x, p, done);
    TotalBeforeClamp(card, done, x, p);
    ScoreStaffTitle(card, x, p, rest);
    rest := rest + {StaffCapDelta};
    ScorePay(card, x, p, rest);
    rest := rest + {Stale30d} + {CompInBand} + {LowComp};
    ScoreEmployment(card, x, p, rest);
    rest := rest + {C2c} + {StaffingW2} + {DegreeGated};
    TotalAtTheEnd(card, x, p);
    RawIsNew(x, p);
    card.Enter(RawScore, card.score);
  }

  lemma RawIsNew(x: Facts, p: Profile)
    ensures RawScore !in Contributed(ALL, x, p) && RawScore !in CONTRIBUTIONS
  {
    hide EntryOf, Fires;
  }

  /** `_score_row_core` (rubric.py:604-773). */
  method ScoreRow(x: Facts, p: Profile) returns (r: Outcome)
    requires ValidProfile(p)
    ensures BlockerOf(x, p).Some? ==> r == Blocked(BlockerOf(x, p).value)
    ensures BlockerOf(x, p).None? ==>
              && r.features == Vector(x, p)
              && RightTier(r.tier, x, p)
              && forall f :: Rule(f) in r.flags <==> f in r.features && f in FLAGGED
  {
    var code := Gate(x, p);
    hide *;
    if code.Some? {
      return Blocked(code.value);
    }
    var card, senior, done := ScoreRole(x, p);
    if senior {
      return Blocked("senior_design_verification");
    }
    if x.family.None? {
      return Blocked("no_role_family_match");
    }
    if x.family.value !in p.inScope {
      return Blocked("off_focus_role");
    }
    ScoreRest(card, x, p, done);
    var tier := ScoreCaps(card, x, p);
    assert forall f :: Rule(f) in card.flags <==> f in card.features && f in card.flagged by {
      ValidCard(card);
    }
    return Outcome(tier, card.flags, card.features);
  }

  lemma ValidCard(card: Scorecard)
    requires card.Valid()
    ensures forall f :: Rule(f) in card.flags <==> f in card.features && f in card.flagged
  {
  }

  // ------------------------------------------------------ what the vector is good for

  /** What the vector says of its total, of a cap, and of a contribution. */
  lemma TotalEntry(x: Facts, p: Profile)
    ensures RawScore in Vector(x, p) && Amount(Vector(x, p), RawScore) == RawTotal(x, p)
  {
    assert RawScore !in Capped(CAPS, x, p);
    hide Contributed, Capped, RawTotal;
  }

  lemma CapEntry(c: Feature, x: Facts, p: Profile)
    requires c in CAPS
    ensures c in Vector(x, p) <==> CapRecorded(c, x, p)
    ensures c in Vector(x, p) ==> Amount(Vector(x, p), c) == CapTier(c, p)
  {
    CapsAreNew(x, p);
    hide Contributed, CapRecorded, CapTier, RawTotal;
  }

  lemma RuleEntry(f: Feature, x: Facts, p: Profile)
    requires f in ALL
    ensures Amount(Vector(x, p), f) == Amount(Contributed(ALL, x, p), f)
  {
    KindsApart(f);
    Lookup(ALL, CAPS, f, x, p);
    hide Contributed, Capped, RawTotal, Amount;
  }

  lemma KindsApart(f: Feature)
    requires f in ALL
    ensures f !in CAPS && f != RawScore
  {
  }

  lemma Lookup(rules: set<Feature>, caps: set<Feature>, f: Feature, x: Facts, p: Profile)
    requires f in rules && f !in caps && f != RawScore
    ensures Amount(Contributed(rules, x, p)[RawScore := Points(RawTotal(x, p))] + Capped(caps, x, p), f)
            == Amount(Contributed(rules, x, p), f)
  {
    hide Fires, EntryOf, CapRecorded, CapTier, RawTotal;
  }

  lemma CapList()
    ensures forall c :: c in SCORE_ROW_CAP_FEATURES <==> c in CAPS
  {
  }

  lemma LowestRecorded(tier: int, v: Features)
    requires RawScore in v
    requires tier <= Clamp(Amount(v, RawScore))
    requires forall c :: c in SCORE_ROW_CAP_FEATURES && c in v ==> tier <= Amount(v, c)
    requires tier == Clamp(Amount(v, RawScore))
             || exists c :: c in SCORE_ROW_CAP_FEATURES && c in v && tier == Amount(v, c)
    ensures Lowest(tier, Recorded(v))
  {
  }

  /** The tier is the lowest of what the vector recorded: replaying gives it back. */
  lemma VectorReplays(tier: int, x: Facts, p: Profile)
    requires RightTier(tier, x, p)
    ensures RawScore in Vector(x, p) && Lowest(tier, Recorded(Vector(x, p)))
  {
    TotalEntry(x, p);
    CapList();
    TierUnderRecordedCaps(tier, x, p);
    if tier != Clamp(RawTotal(x, p)) {
      LoweringCap(tier, x, p);
    }
    hide *;
    var v := Vector(x, p);
    forall c | c in SCORE_ROW_CAP_FEATURES && c in v ensures tier <= Amount(v, c) {
      CapEntry(c, x, p);
    }
    if tier != Clamp(RawTotal(x, p)) {
      var c :| c in CAPS && CapRecorded(c, x, p) && tier == CapTier(c, p);
      CapEntry(c, x, p);
      assert c in SCORE_ROW_CAP_FEATURES;
    }
    LowestRecorded(tier, v);
  }

  lemma BlockedVector(code: string)
    ensures Blocked(code).tier == 0 && Blocker in Blocked(code).features
  {
  }

  /** Scoring a row and replaying the vector it left gives the tier again, blocked or not. */
  method ScoreAndReplay(x: Facts, p: Profile, caps: seq<Feature>)
    returns (r: Outcome, replay: Result<int, ReplayError>)
    requires ValidProfile(p) && forall c :: c in caps <==> c in SCORE_ROW_CAP_FEATURES
    ensures replay == Ok(r.tier)
  {
    hide *;
    r := ScoreRow(x, p);
    replay := ReconstructTier(r.features, caps);
    if BlockerOf(x, p).Some? {
      BlockedVector(BlockerOf(x, p).value);
    } else {
      VectorReplays(r.tier, x, p);
      VectorIsClosed(r, x, p);
      LowestUnique(r.tier, replay.value, Recorded(r.features));
    }
  }

  lemma TierUnderRecordedCaps(tier: int, x: Facts, p: Profile)
    requires RightTier(tier, x, p)
    ensures tier <= Clamp(RawTotal(x, p))
    ensures forall c :: c in CAPS && CapRecorded(c, x, p) ==> tier <= CapTier(c, p)
  {
    hide RawTotal, FunctionWeight, Clamp;
    var limits := {Clamp(RawTotal(x, p))} + CapsOn(x, p);
    assert Clamp(RawTotal(x, p)) in limits;
    forall c | c in CAPS && CapRecorded(c, x, p) ensures tier <= CapTier(c, p) {
      assert CapTier(c, p) in limits;
    }
  }

  lemma LoweringCap(tier: int, x: Facts, p: Profile)
    requires RightTier(tier, x, p) && tier != Clamp(RawTotal(x, p))
    ensures exists c :: c in CAPS && CapRecorded(c, x, p) && tier == CapTier(c, p)
  {
    CapsGiveTheLowest(x, p);
    LowestUnique(tier, AfterAllCaps(x, p), {Clamp(RawTotal(x, p))} + CapsOn(x, p));
    hide RawTotal, FunctionWeight, RightTier;
    var c :=
      if tier != AfterDescCap(x, p) && Stale(x, p) then CapStale
      else if tier != AfterDescCap(x, p) then CapUndatedAggregator
      else if tier != AfterFuncCap(x, p) then CapNoDesc
      else CapFunc;
    assert c in CAPS && CapRecorded(c, x, p) && tier == CapTier(c, p);
  }

  /** The contributions of every scored vector add up to the total it records. */
  lemma VectorAddsUp(x: Facts, p: Profile)
    requires ValidProfile(p)
    ensures Sum(CONTRIBUTIONS, Vector(x, p)) == Amount(Vector(x, p), RawScore) == RawTotal(x, p)
  {
    TotalEntry(x, p);
    forall f | f in ALL ensures Amount(Vector(x, p), f) == Amount(Contributed(ALL, x, p), f) {
      RuleEntry(f, x, p);
    }
    hide *;
    ContributionsSum(Vector(x, p), x, p);
  }

  /** No contribution can be left out of a vector, unless it was worth nothing. */
  lemma EveryContributionCounts(f: Feature, x: Facts, p: Profile)
    requires ValidProfile(p) && f in CONTRIBUTIONS
    ensures Sum(CONTRIBUTIONS, Vector(x, p) - {f}) == Amount(Vector(x, p), RawScore)
            <==> Amount(Vector(x, p), f) == 0
  {
    VectorAddsUp(x, p);
    ContributionsAreDistinct();
    hide *;
    DroppedEntry(CONTRIBUTIONS, Vector(x, p), f);
  }

  /** A stored vector has one of two closed shapes. */
  lemma VectorIsClosed(r: Outcome, x: Facts, p: Profile)
    requires BlockerOf(x, p).Some? ==> r == Blocked(BlockerOf(x, p).value)
    requires BlockerOf(x, p).None? ==> r.features == Vector(x, p)
    ensures BlockerOf(x, p).Some? ==>
              && r.features.Keys == {Blocker} && r.features[Blocker].Code?
              && r.features[Blocker].code in BLOCKER_CODES
    ensures BlockerOf(x, p).None? ==>
              REQUIRED_PRESENT_SCORE_ROW_FEATURES <= r.features.Keys <= REQUIRED_SCORE_ROW_FEATURES - {Blocker}
  {
    if BlockerOf(x, p).Some? {
      hide Vector;
    } else {
      ClosedKeys(x, p);
    }
  }

  lemma ClosedKeys(x: Facts, p: Profile)
    ensures REQUIRED_PRESENT_SCORE_ROW_FEATURES <= Vector(x, p).Keys <= REQUIRED_SCORE_ROW_FEATURES - {Blocker}
  {
    assert Fires(FunctionMatch, x, p) && FunctionMatch in Contributed(ALL, x, p);
    hide Fires, EntryOf, CapRecorded, CapTier, RawTotal;
    var v := Vector(x, p);
    assert v.Keys <= ALL + {RawScore} + CAPS;
  }

  /** The tier of a scored posting, by what the facts say. */
  lemma TierBounds(tier: int, x: Facts, p: Profile)
    requires RightTier(tier, x, p)
    ensures tier <= 5
    ensures tier >= 1 <==> forall l :: l in CapsOn(x, p) ==> l >= 1
    ensures !x.hasDesc ==> tier <= p.tierRules.noDescCapTier
    ensures LowFunction(x, p) ==> tier <= p.tierRules.funcCapTier
    ensures CapsOn(x, p) == {} ==> tier == Clamp(RawTotal(x, p))
  {
    hide RawTotal, FunctionWeight;
    var limits := {Clamp(RawTotal(x, p))} + CapsOn(x, p);
    assert Clamp(RawTotal(x, p)) in limits;
    if !x.hasDesc {
      assert p.tierRules.noDescCapTier in limits;
    }
    if LowFunction(x, p) {
      assert p.tierRules.funcCapTier in limits;
    }
  }
}
