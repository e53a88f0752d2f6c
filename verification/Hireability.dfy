/**
 The odds axis (rubric.py:393-483): the odds of landing a job, scored apart from the fit
 tier, with two labels read off the same vector. The labels meet again in the queue, which
 parses them back out of one string.
 */
module Hireability {
  import opened Wrappers
  import opened FeatureVector
  import TodayQueue

  datatype Rules = Rules(
    weights: Weights, bonusYearsMax: int, penaltyYearsMin: int, highBar: int, nearLevel: int)

  /** What the patterns and parsers find; `flags` are those the fit axis left on the row. */
  datatype Facts = Facts(
    staffPrincipal: bool, senior: bool, junior: bool, yearsRequired: Option<int>, highCompetition: bool,
    flags: seq<Flag>, descLength: nat, skillHits: nat, exactStack: bool, payHigh: int)

  ghost predicate ValidRules(w: Rules) {
    ValidateWeightTable(w.weights, REQUIRED_HIREABILITY_WEIGHTS).Ok?
  }

  predicate LongDescription(x: Facts) {
    x.descLength > 400
  }

  predicate Asks(x: Facts) {
    x.yearsRequired.Some? && x.yearsRequired.value != 0
  }

  /** Whether a rule applies, one by one. */
  predicate Fires(f: Feature, x: Facts, w: Rules) {
    match f
    case StaffPrincipal => x.staffPrincipal
    case Senior => x.senior && !x.staffPrincipal
    case Junior => x.junior && !x.senior && !x.staffPrincipal
    case YearsLow => Asks(x) && x.yearsRequired.value <= w.bonusYearsMax
    case YearsHigh => Asks(x) && x.yearsRequired.value > w.bonusYearsMax && x.yearsRequired.value >= w.penaltyYearsMin
    case HighCompetition => x.highCompetition
    case StaffingW2 => Rule(StaffingW2) in x.flags
    case SkillsStrong => LongDescription(x) && x.skillHits >= 6
    case SkillsModerate => LongDescription(x) && 3 <= x.skillHits < 6
    case SkillsThin => LongDescription(x) && x.skillHits <= 1
    case ExactStack => LongDescription(x) && x.exactStack
    case CompHighBar => x.payHigh >= w.highBar
    case CompNearLevel => 0 < x.payHigh < w.nearLevel && x.payHigh < w.highBar
    case DegreeGated => Rule(DegreeGated) in x.flags
    case _ => false
  }

  ghost function Contributed(done: set<Feature>, x: Facts, w: Rules): Features {
    map f | f in done && Fires(f, x, w) :: Points(if f in w.weights then w.weights[f] else 0)
  }

  function MatchLabel(x: Facts): string {
    if x.staffPrincipal then "Level stretch"
    else if !LongDescription(x) then "Unscored"
    else if x.skillHits >= 6 || x.exactStack then "Strong match"
    else if x.skillHits <= 1 then "Weak match"
    else "Moderate match"
  }

  function CompetitionLabel(x: Facts, w: Rules): string {
    if x.highCompetition || x.payHigh >= w.highBar || Rule(DegreeGated) in x.flags then "High competition"
    else if Rule(StaffingW2) in x.flags then "Lower bar"
    else "Standard"
  }

  datatype Odds = Odds(text: string, matchLabel: string, competitionLabel: string, score: int, features: Features)

  const ODDS_RULES: seq<Feature> := [
    StaffPrincipal, Senior, Junior, YearsLow, YearsHigh, HighCompetition, StaffingW2,
    SkillsStrong, SkillsModerate, SkillsThin, ExactStack, CompHighBar, CompNearLevel, DegreeGated]

  // --------------------------------------------------------------- the scorer

  ghost predicate Settled(card: Scorecard, done: set<Feature>, x: Facts, w: Rules)
    reads card
  {
    card.Valid() && card.features == Contributed(done, x, w)
  }

  /** Going through one more rule. */
  lemma OneRule(done: set<Feature>, f: Feature, x: Facts, w: Rules)
    requires f in w.weights && f !in done
    ensures f !in Contributed(done, x, w)
    ensures Contributed(done + {f}, x, w)
            == if Fires(f, x, w) then Contributed(done, x, w)[f := Points(w.weights[f])] else Contributed(done, x, w)
  {
    hide Fires;
  }

  method ScoreLevel(card: Scorecard, x: Facts, w: Rules, ghost done: set<Feature>)
    requires {StaffPrincipal, Senior, Junior} <= w.weights.Keys && Settled(card, done, x, w)
    requires StaffPrincipal !in done && Senior !in done && Junior !in done
    modifies card
    ensures Settled(card, done + {StaffPrincipal} + {Senior} + {Junior}, x, w)
  {
    OneRule(done, StaffPrincipal, x, w);
    OneRule(done + {StaffPrincipal}, Senior, x, w);
    OneRule(done + {StaffPrincipal} + {Senior}, Junior, x, w);
    hide Contributed, Scorecard.Valid;
    if x.staffPrincipal {
      card.Enter(StaffPrincipal, w.weights[StaffPrincipal]);
    } else if x.senior {
      card.Enter(Senior, w.weights[Senior]);
    } else if x.junior {
      card.Enter(Junior, w.weights[Junior]);
    }
  }

  method ScoreYears(card: Scorecard, x: Facts, w: Rules, ghost done: set<Feature>)
    requires {YearsLow, YearsHigh} <= w.weights.Keys && Settled(card, done, x, w)
    requires YearsLow !in done && YearsHigh !in done
    modifies card
    ensures Settled(card, done + {YearsLow} + {YearsHigh}, x, w)
  {
    OneRule(done, YearsLow, x, w);
    OneRule(done + {YearsLow}, YearsHigh, x, w);
    hide Contributed, Scorecard.Valid;
    if Asks(x) && x.yearsRequired.value <= w.bonusYearsMax {
      card.Enter(YearsLow, w.weights[YearsLow]);
    } else if Asks(x) && x.yearsRequired.value >= w.penaltyYearsMin {
      card.Enter(YearsHigh, w.weights[YearsHigh]);
    }
  }

  method ScorePool(card: Scorecard, x: Facts, w: Rules, ghost done: set<Feature>)
    requires {HighCompetition, StaffingW2} <= w.weights.Keys && Settled(card, done, x, w)
    requires HighCompetition !in done && StaffingW2 !in done
    modifies card
    ensures Settled(card, done + {HighCompetition} + {StaffingW2}, x, w)
  {
    OneRule(done, HighCompetition, x, w);
    OneRule(done + {HighCompetition}, StaffingW2, x, w);
    hide Contributed, Scorecard.Valid;
    if x.highCompetition {
      card.Enter(HighCompetition, w.weights[HighCompetition]);
    }
    if Rule(StaffingW2) in x.flags {
      card.Enter(StaffingW2, w.weights[StaffingW2]);
    }
  }

  method ScoreSkills(card: Scorecard, x: Facts, w: Rules, ghost done: set<Feature>)
    requires {SkillsStrong, SkillsModerate, SkillsThin} <= w.weights.Keys && Settled(card, done, x, w)
    requires SkillsStrong !in done && SkillsModerate !in done && SkillsThin !in done
    modifies card
    ensures Settled(card, done + {SkillsStrong} + {SkillsModerate} + {SkillsThin}, x, w)
  {
    OneRule(done, SkillsStrong, x, w);
    OneRule(done + {SkillsStrong}, SkillsModerate, x, w);
    OneRule(done + {SkillsStrong} + {SkillsModerate}, SkillsThin, x, w);
    hide Contributed, Scorecard.Valid;
    if x.descLength > 400 {
      if x.skillHits >= 6 {
        card.Enter(SkillsStrong, w.weights[SkillsStrong]);
      } else if x.skillHits >= 3 {
        card.Enter(SkillsModerate, w.weights[SkillsModerate]);
      } else if x.skillHits <= 1 {
        card.Enter(SkillsThin, w.weights[SkillsThin]);
      }
    }
  }

  method ScoreExactStack(card: Scorecard, x: Facts, w: Rules, ghost done: set<Feature>)
    requires ExactStack in w.weights && Settled(card, done, x, w) && ExactStack !in done
    modifies card
    ensures Settled(card, done + {ExactStack}, x, w)
  {
    OneRule(done, ExactStack, x, w);
    hide Contributed, Scorecard.Valid;
    if x.descLength > 400 {
      if x.exactStack {
        card.Enter(ExactStack, w.weights[ExactStack]);
      }
    }
  }

  method ScorePayAndDegree(card: Scorecard, x: Facts, w: Rules, ghost done: set<Feature>)
    requires {CompHighBar, CompNearLevel, DegreeGated} <= w.weights.Keys && Settled(card, done, x, w)
    requires CompHighBar !in done && CompNearLevel !in done && DegreeGated !in done
    modifies card
    ensures Settled(card, done + {CompHighBar} + {CompNearLevel} + {DegreeGated}, x, w)
  {
    OneRule(done, CompHighBar, x, w);
    OneRule(done + {CompHighBar}, CompNearLevel, x, w);
    OneRule(done + {CompHighBar} + {CompNearLevel}, DegreeGated, x, w);
    hide Contributed, Scorecard.Valid;
    if x.payHigh >= w.highBar {
      card.Enter(CompHighBar, w.weights[CompHighBar]);
    } else if 0 < x.payHigh < w.nearLevel {
      card.Enter(CompNearLevel, w.weights[CompNearLevel]);
    }
    if Rule(DegreeGated) in x.flags {
      card.Enter(DegreeGated, w.weights[DegreeGated]);
    }
  }

  /** The place of a rule in the order they are summed in. */
  ghost function Place(f: Feature): int {
    match f
    case StaffPrincipal => 0 case Senior => 1 case Junior => 2 case YearsLow => 3 case YearsHigh => 4
    case HighCompetition => 5 case StaffingW2 => 6 case SkillsStrong => 7 case SkillsModerate => 8
    case SkillsThin => 9 case ExactStack => 10 case CompHighBar => 11 case CompNearLevel => 12 case _ => 13
  }

  lemma Places()
    ensures forall i :: 0 <= i < |ODDS_RULES| ==> Place(ODDS_RULES[i]) == i
  {
  }

  lemma DistinctByPlace(rules: seq<Feature>)
    requires forall i :: 0 <= i < |rules| ==> Place(rules[i]) == i
    ensures NoRepeats(rules)
  {
  }

  lemma RulesAreDistinct()
    ensures NoRepeats(ODDS_RULES)
  {
    Places();
    DistinctByPlace(ODDS_RULES);
  }

  /** The rules summed are all the keys a vector may have. */
  lemma EveryKeyIsSummed()
    ensures forall f :: f in ODDS_RULES <==> f in REQUIRED_HIREABILITY_WEIGHTS
  {
  }

  lemma AllRules(done: set<Feature>)
    requires done == {StaffPrincipal, Senior, Junior, YearsLow, YearsHigh, HighCompetition, StaffingW2,
      SkillsStrong, SkillsModerate, SkillsThin, ExactStack, CompHighBar, CompNearLevel, DegreeGated}
    ensures done == REQUIRED_HIREABILITY_WEIGHTS
  {
  }

  /** The validated table has every weight the scorer will look up. */
  lemma WeightsAreThere(w: Rules)
    requires ValidRules(w)
    ensures {StaffPrincipal, Senior, Junior} <= w.weights.Keys
    ensures {YearsLow, YearsHigh} <= w.weights.Keys
    ensures {HighCompetition, StaffingW2} <= w.weights.Keys
    ensures {SkillsStrong, SkillsModerate, SkillsThin} <= w.weights.Keys && ExactStack in w.weights
    ensures {CompHighBar, CompNearLevel, DegreeGated} <= w.weights.Keys
  {
  }

  method StartCard(x: Facts, w: Rules) returns (card: Scorecard)
    ensures fresh(card) && card.rules == ODDS_RULES && Settled(card, {}, x, w)
  {
    RulesAreDistinct();
    hide Scorecard.Valid, Fires;
    card := new Scorecard(ODDS_RULES, {});
  }

  method ScoreRules(x: Facts, w: Rules) returns (card: Scorecard)
    requires ValidRules(w)
    ensures fresh(card) && card.rules == ODDS_RULES && Settled(card, REQUIRED_HIREABILITY_WEIGHTS, x, w)
  {
    hide *;
    WeightsAreThere(w);
    card := StartCard(x, w);
    ghost var done: set<Feature> := {};
    ScoreLevel(card, x, w, done);
    done := done + {StaffPrincipal} + {Senior} + {Junior};
    ScoreYears(card, x, w, done);
    done := done + {YearsLow} + {YearsHigh};
    ScorePool(card, x, w, done);
    done := done + {HighCompetition} + {StaffingW2};
    ScoreSkills(card, x, w, done);
    done := done + {SkillsStrong} + {SkillsModerate} + {SkillsThin};
    ScoreExactStack(card, x, w, done);
    done := done + {ExactStack};
    ScorePayAndDegree(card, x, w, done);
    done := done + {CompHighBar} + {CompNearLevel} + {DegreeGated};
    AllRules(done);
  }

  lemma Listed(done: set<Feature>, f: Feature, x: Facts, w: Rules)
    requires f in done
    ensures f in Contributed(done, x, w) <==> Fires(f, x, w)
  {
    hide Fires;
  }

  lemma LabelRules()
    ensures {StaffPrincipal, SkillsStrong, ExactStack, SkillsThin, HighCompetition, CompHighBar,
      DegreeGated, StaffingW2}
            <= REQUIRED_HIREABILITY_WEIGHTS
  {
  }

  /** Reading the labels off the vector. */
  method Labels(features: Features, x: Facts, w: Rules) returns (fit: string, competition: string)
    requires features == Contributed(REQUIRED_HIREABILITY_WEIGHTS, x, w)
    ensures fit == MatchLabel(x) && competition == CompetitionLabel(x, w)
  {
    hide *;
    LabelRules();
    Listed(REQUIRED_HIREABILITY_WEIGHTS, StaffPrincipal, x, w);
    Listed(REQUIRED_HIREABILITY_WEIGHTS, SkillsStrong, x, w);
    Listed(REQUIRED_HIREABILITY_WEIGHTS, ExactStack, x, w);
    Listed(REQUIRED_HIREABILITY_WEIGHTS, SkillsThin, x, w);
    Listed(REQUIRED_HIREABILITY_WEIGHTS, HighCompetition, x, w);
    Listed(REQUIRED_HIREABILITY_WEIGHTS, CompHighBar, x, w);
    Listed(REQUIRED_HIREABILITY_WEIGHTS, DegreeGated, x, w);
    Listed(REQUIRED_HIREABILITY_WEIGHTS, StaffingW2, x, w);
    if StaffPrincipal in features {
      fit := "Level stretch";
    } else if SkillsStrong in features || ExactStack in features {
      fit := "Strong match";
    } else if SkillsThin in features {
      fit := "Weak match";
    } else if x.descLength <= 400 {
      fit := "Unscored";
    } else {
      fit := "Moderate match";
    }
    if HighCompetition in features || CompHighBar in features || DegreeGated in features {
      competition := "High competition";
    } else if StaffingW2 in features {
      competition := "Lower bar";
    } else {
      competition := "Standard";
    }
    FitByRules(x, w);
    CompetitionByRules(x, w);
  }

  /** The labels, rule by rule. */
  lemma FitByRules(x: Facts, w: Rules)
    ensures MatchLabel(x) ==
            if Fires(StaffPrincipal, x, w) then "Level stretch"
            else if Fires(SkillsStrong, x, w) || Fires(ExactStack, x, w) then "Strong match"
            else if Fires(SkillsThin, x, w) then "Weak match"
            else if x.descLength <= 400 then "Unscored"
            else "Moderate match"
  {
  }

  lemma CompetitionByRules(x: Facts, w: Rules)
    ensures CompetitionLabel(x, w) ==
            if Fires(HighCompetition, x, w) || Fires(CompHighBar, x, w) || Fires(DegreeGated, x, w) then
              "High competition"
            else if Fires(StaffingW2, x, w) then "Lower bar"
            else "Standard"
  {
  }

  /** `_hireability_core` (rubric.py:393-483). */
  method Hireability(x: Facts, w: Rules) returns (r: Odds)
    requires ValidRules(w)
    ensures r.features == Contributed(REQUIRED_HIREABILITY_WEIGHTS, x, w)
    ensures r.score == Sum(ODDS_RULES, r.features)
    ensures r.features.Keys <= REQUIRED_HIREABILITY_WEIGHTS
    ensures r.matchLabel == MatchLabel(x) && r.competitionLabel == CompetitionLabel(x, w)
    ensures TodayQueue.ParseOdds(Some(r.text)) == (Some(MatchLabel(x)), Some(CompetitionLabel(x, w)))
  {
    var card := ScoreRules(x, w);
    var fit, competition := Labels(card.features, x, w);
    LabelsAreRanked(x, w);
    LabelParses(fit, competition);
    hide MatchLabel, CompetitionLabel, TodayQueue.ParseOdds;
    r := Odds(fit + " / " + competition, fit, competition, card.score, card.features);
  }

  // --------------------------------------------------------------- the labels

  lemma {:induction false} SeparatorAfter(before: string, after: string)
    requires '/' !in before
    ensures TodayQueue.FindSeparator(before + " / " + after) == Some(|before|)
  {
    var s := before + " / " + after;
    if before == "" {
      assert s[..3] == " / ";
    } else {
      SeparatorAfter(before[1..], after);
      assert s[1..] == before[1..] + " / " + after;
      NotYet(before, after);
    }
  }

  lemma NotYet(before: string, after: string)
    requires before != "" && '/' !in before
    ensures |before + " / " + after| >= 3 && (before + " / " + after)[..3] != " / "
  {
    var s := before + " / " + after;
    assert s[..3][1] == s[1];
    assert s[1] == if |before| == 1 then ' ' else before[1];
  }

  /** Any fit label comes back out of the combined string, with the rest as the other half. */
  lemma LabelParses(fit: string, competition: string)
    requires '/' !in fit
    ensures TodayQueue.ParseOdds(Some(fit + " / " + competition)) == (Some(fit), Some(competition))
  {
    SeparatorAfter(fit, competition);
    var s := fit + " / " + competition;
    assert s[..|fit|] == fit && s[|fit| + 3..] == competition;
  }

  /** The queue knows every label this axis gives, except that "Unscored" ranks last. */
  lemma LabelsAreRanked(x: Facts, w: Rules)
    ensures TodayQueue.MatchRank(Some(MatchLabel(x))) == 5 <==> !x.staffPrincipal && !LongDescription(x)
    ensures TodayQueue.CompetitionRank(Some(CompetitionLabel(x, w))) < 3
    ensures '/' !in MatchLabel(x)
  {
  }

  /** Whatever the fit axis raised on a scored row, this axis counts, and nothing else. */
  lemma AxesAgree(fit: Features, flagged: set<Feature>, x: Facts, w: Rules)
    requires forall f :: Rule(f) in x.flags <==> f in fit && f in flagged
    requires StaffingW2 in flagged && DegreeGated in flagged
    ensures var odds := Contributed(REQUIRED_HIREABILITY_WEIGHTS, x, w);
            && (StaffingW2 in odds <==> StaffingW2 in fit)
            && (DegreeGated in odds <==> DegreeGated in fit)
  {
  }
}
