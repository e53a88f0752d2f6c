/**
 The odds of a posting in words and numbers (rubric.py:393-483): what each group of rules adds to
 the score, and which labels it gets.
 */
module OddsInWords {
  import opened Wrappers
  import opened FeatureVector
  import opened Hireability

  function Weight(f: Feature, w: Rules): int {
    if f in w.weights then w.weights[f] else 0
  }

  /** The highest level the title names. */
  function LevelPoints(x: Facts, w: Rules): int {
    if x.staffPrincipal then Weight(StaffPrincipal, w)
    else if x.senior then Weight(Senior, w)
    else if x.junior then Weight(Junior, w)
    else 0
  }

  function YearsPoints(x: Facts, w: Rules): int {
    var asked := x.yearsRequired.GetOr(0);
    if asked == 0 then 0
    else if asked <= w.bonusYearsMax then Weight(YearsLow, w)
    else if asked >= w.penaltyYearsMin then Weight(YearsHigh, w)
    else 0
  }

  /** Skills count only in a description of more than 400 characters. */
  function SkillPoints(x: Facts, w: Rules): int {
    if x.descLength <= 400 then 0
    else
      (if x.skillHits > 5 then Weight(SkillsStrong, w)
       else if x.skillHits > 2 then Weight(SkillsModerate, w)
       else if x.skillHits < 2 then Weight(SkillsThin, w)
       else 0)
      + if x.exactStack then Weight(ExactStack, w) else 0
  }

  function PayPoints(x: Facts, w: Rules): int {
    if x.payHigh >= w.highBar then Weight(CompHighBar, w)
    else if x.payHigh > 0 && x.payHigh < w.nearLevel then Weight(CompNearLevel, w)
    else 0
  }

  function Flagged(f: Feature, x: Facts, w: Rules): int {
    if Rule(f) in x.flags then Weight(f, w) else 0
  }

  lemma SumUpTo(rules: seq<Feature>, n: nat, features: Features)
    requires n < |rules|
    ensures Sum(rules[..n + 1], features) == Sum(rules[..n], features) + Amount(features, rules[n])
  {
    assert rules[..n + 1][..n] == rules[..n];
  }

  lemma SumOfRules(v: Features)
    ensures Sum(ODDS_RULES, v) ==
            Amount(v, StaffPrincipal) + Amount(v, Senior) + Amount(v, Junior) + Amount(v, YearsLow)
            + Amount(v, YearsHigh) + Amount(v, HighCompetition) + Amount(v, StaffingW2) + Amount(v, SkillsStrong)
            + Amount(v, SkillsModerate) + Amount(v, SkillsThin) + Amount(v, ExactStack) + Amount(v, CompHighBar)
            + Amount(v, CompNearLevel) + Amount(v, DegreeGated)
  {
    hide Amount;
    assert Sum(ODDS_RULES[..0], v) == 0 && ODDS_RULES[..14] == ODDS_RULES;
    hide Sum;
    SumUpTo(ODDS_RULES, 0, v);
    SumUpTo(ODDS_RULES, 1, v);
    SumUpTo(ODDS_RULES, 2, v);
    SumUpTo(ODDS_RULES, 3, v);
    SumUpTo(ODDS_RULES, 4, v);
    SumUpTo(ODDS_RULES, 5, v);
    SumUpTo(ODDS_RULES, 6, v);
    SumUpTo(ODDS_RULES, 7, v);
    SumUpTo(ODDS_RULES, 8, v);
    SumUpTo(ODDS_RULES, 9, v);
    SumUpTo(ODDS_RULES, 10, v);
    SumUpTo(ODDS_RULES, 11, v);
    SumUpTo(ODDS_RULES, 12, v);
    SumUpTo(ODDS_RULES, 13, v);
  }

  lemma RuleAmount(f: Feature, x: Facts, w: Rules)
    requires f in REQUIRED_HIREABILITY_WEIGHTS
    ensures Amount(Contributed(REQUIRED_HIREABILITY_WEIGHTS, x, w), f) == if Fires(f, x, w) then Weight(f, w) else 0
  {
    hide Fires;
  }

  lemma LevelAmounts(x: Facts, w: Rules)
    ensures var v := Contributed(REQUIRED_HIREABILITY_WEIGHTS, x, w);
            && Amount(v, StaffPrincipal) + Amount(v, Senior) + Amount(v, Junior) == LevelPoints(x, w)
            && Amount(v, YearsLow) + Amount(v, YearsHigh) == YearsPoints(x, w)
  {
    RuleAmount(StaffPrincipal, x, w);
    RuleAmount(Senior, x, w);
    RuleAmount(Junior, x, w);
    RuleAmount(YearsLow, x, w);
    RuleAmount(YearsHigh, x, w);
    hide Contributed, Amount;
  }

  lemma SkillAmounts(x: Facts, w: Rules)
    ensures var v := Contributed(REQUIRED_HIREABILITY_WEIGHTS, x, w);
            Amount(v, SkillsStrong) + Amount(v, SkillsModerate) + Amount(v, SkillsThin) + Amount(v, ExactStack)
            == SkillPoints(x, w)
  {
    RuleAmount(SkillsStrong, x, w);
    RuleAmount(SkillsModerate, x, w);
    RuleAmount(SkillsThin, x, w);
    RuleAmount(ExactStack, x, w);
    hide Contributed, Amount;
  }

  lemma PoolAmounts(x: Facts, w: Rules)
    ensures var v := Contributed(REQUIRED_HIREABILITY_WEIGHTS, x, w);
            && Amount(v, CompHighBar) + Amount(v, CompNearLevel) == PayPoints(x, w)
            && Amount(v, HighCompetition) == (if x.highCompetition then Weight(HighCompetition, w) else 0)
            && Amount(v, StaffingW2) == Flagged(StaffingW2, x, w)
            && Amount(v, DegreeGated) == Flagged(DegreeGated, x, w)
  {
    RuleAmount(CompHighBar, x, w);
    RuleAmount(CompNearLevel, x, w);
    RuleAmount(HighCompetition, x, w);
    RuleAmount(StaffingW2, x, w);
    RuleAmount(DegreeGated, x, w);
    hide Contributed, Amount;
  }

  /** The fit label, by the title, the length of the description and the skills found in it. */
  predicate FitLabel(text: string, x: Facts) {
    && (x.staffPrincipal ==> text == "Level stretch")
    && (!x.staffPrincipal && x.descLength <= 400 ==> text == "Unscored")
    && (!x.staffPrincipal && x.descLength > 400 ==>
          && (x.exactStack || x.skillHits >= 6 ==> text == "Strong match")
          && (!x.exactStack && 2 <= x.skillHits <= 5 ==> text == "Moderate match")
          && (!x.exactStack && x.skillHits < 2 ==> text == "Weak match"))
  }

  /** The competition label, by the pool, the pay and the flags of the fit axis. */
  predicate PoolLabel(text: string, x: Facts, w: Rules) {
    var high := x.highCompetition || x.payHigh >= w.highBar || Rule(DegreeGated) in x.flags;
    && (high ==> text == "High competition")
    && (!high && Rule(StaffingW2) in x.flags ==> text == "Lower bar")
    && (!high && Rule(StaffingW2) !in x.flags ==> text == "Standard")
  }

  lemma LabelsFit(x: Facts, w: Rules)
    ensures FitLabel(MatchLabel(x), x) && PoolLabel(CompetitionLabel(x, w), x, w)
  {
  }

  lemma ScoreIsPoints(x: Facts, w: Rules)
    ensures Sum(ODDS_RULES, Contributed(REQUIRED_HIREABILITY_WEIGHTS, x, w)) ==
            LevelPoints(x, w) + YearsPoints(x, w) + SkillPoints(x, w) + PayPoints(x, w)
            + (if x.highCompetition then Weight(HighCompetition, w) else 0)
            + Flagged(StaffingW2, x, w) + Flagged(DegreeGated, x, w)
  {
    SumOfRules(Contributed(REQUIRED_HIREABILITY_WEIGHTS, x, w));
    LevelAmounts(x, w);
    SkillAmounts(x, w);
    PoolAmounts(x, w);
    hide Contributed, Amount, Sum, LevelPoints, YearsPoints, SkillPoints, PayPoints, Flagged;
  }

  /** What `Hireability` returns: the points of each group, and the two labels, joined by " / ". */
  method OddsFromFacts(x: Facts, w: Rules) returns (r: Odds)
    requires ValidRules(w)
    ensures r.score ==
            LevelPoints(x, w) + YearsPoints(x, w) + SkillPoints(x, w) + PayPoints(x, w)
            + (if x.highCompetition then Weight(HighCompetition, w) else 0)
            + Flagged(StaffingW2, x, w) + Flagged(DegreeGated, x, w)
    ensures FitLabel(r.matchLabel, x) && PoolLabel(r.competitionLabel, x, w)
  {
    ScoreIsPoints(x, w);
    LabelsFit(x, w);
    hide Contributed, Sum, MatchLabel, CompetitionLabel, LevelPoints, YearsPoints, SkillPoints, PayPoints, Flagged;
    r := Hireability.Hireability(x, w);
  }
}
