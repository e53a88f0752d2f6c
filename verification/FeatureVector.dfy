/**
 The stored feature vector of the scorer (candidate_profile.py:52-200): which keys exist,
 which of them are contributions to the total, and the card on which the scorer keeps its
 running total, its flags and the vector.
 */
module FeatureVector {
  import opened Wrappers

  datatype Feature =
      // rules of the fit axis with a configured weight
    | TpmSenior | TpmIiStretch | StretchLevel | YearsPenalty | YearsBonus | YearsPrefPenalty
    | DomainTier2 | DomainTier1 | TargetCo | Stale30d | CompInBand | LowComp | C2c
      // rules of both axes
    | StaffingW2 | DegreeGated
      // computed entries of the fit axis
    | FunctionMatch | StaffCapDelta | RawScore
    | CapFunc | CapNoDesc | CapStale | CapUndatedAggregator | Blocker
      // rules of the odds axis
    | StaffPrincipal | Senior | Junior | YearsLow | YearsHigh | HighCompetition
    | SkillsStrong | SkillsModerate | SkillsThin | ExactStack | CompHighBar | CompNearLevel
      // any other key a profile or a stored vector may hold
    | Other(name: string)

  datatype Value = Points(n: int) | Code(code: string)
  type Features = map<Feature, Value>
  type Weights = map<Feature, int>

  const REQUIRED_SCORE_ROW_WEIGHTS: set<Feature> := {
    TpmSenior, TpmIiStretch, StretchLevel, YearsPenalty, YearsBonus, YearsPrefPenalty,
    DomainTier2, DomainTier1, TargetCo, Stale30d, CompInBand, LowComp, C2c, StaffingW2, DegreeGated }

  const REQUIRED_HIREABILITY_WEIGHTS: set<Feature> := {
    StaffPrincipal, Senior, Junior, YearsLow, YearsHigh, HighCompetition, StaffingW2,
    SkillsStrong, SkillsModerate, SkillsThin, ExactStack, CompHighBar, CompNearLevel, DegreeGated }

  const SCORE_ROW_CONTRIBUTIONS: set<Feature> := REQUIRED_SCORE_ROW_WEIGHTS + { FunctionMatch, StaffCapDelta }

  const SCORE_ROW_CAP_FEATURES: seq<Feature> := [CapFunc, CapNoDesc, CapStale, CapUndatedAggregator]

  const REQUIRED_SCORE_ROW_FEATURES: set<Feature> :=
    SCORE_ROW_CONTRIBUTIONS + { RawScore } + { CapFunc, CapNoDesc, CapStale, CapUndatedAggregator } + { Blocker }

  const REQUIRED_PRESENT_SCORE_ROW_FEATURES: set<Feature> := { FunctionMatch, RawScore }

  const BLOCKER_CODES: set<string> := {
    "non_us_location", "off_target_location", "active_clearance", "specialist_skill_or_title",
    "people_management", "years_required_too_high", "senior_design_verification",
    "no_role_family_match", "off_focus_role" }

  datatype TableError = MissingWeights(missing: set<Feature>) | UnknownWeights(extra: set<Feature>)

  /** `_validate_weight_table`: the table must name exactly the rules the scorer has. */
  function ValidateWeightTable(table: Weights, required: set<Feature>): (r: Result<Weights, TableError>)
    ensures r.Ok? <==> table.Keys == required
    ensures r.Ok? ==> r.value == table
  {
    if required - table.Keys != {} then Err(MissingWeights(required - table.Keys))
    else if table.Keys - required != {} then Err(UnknownWeights(table.Keys - required))
    else
      assert table.Keys == required by {
        assert forall f :: f in required ==> f !in required - table.Keys;
        assert forall f :: f in table.Keys ==> f !in table.Keys - required;
      }
      Ok(table)
  }

  // ------------------------------------------------------------------- totals

  function Amount(features: Features, f: Feature): int {
    if f in features && features[f].Points? then features[f].n else 0
  }

  /** What the entries for `rules` add up to. */
  function Sum(rules: seq<Feature>, features: Features): int {
    if rules == [] then 0
    else Sum(rules[..|rules| - 1], features) + Amount(features, rules[|rules| - 1])
  }

  ghost predicate NoRepeats(rules: seq<Feature>) {
    forall i, j :: 0 <= i < j < |rules| ==> rules[i] != rules[j]
  }

  lemma {:induction false} SumSame(rules: seq<Feature>, a: Features, b: Features)
    requires forall f :: f in rules ==> Amount(a, f) == Amount(b, f)
    ensures Sum(rules, a) == Sum(rules, b)
  {
    if rules != [] {
      SumSame(rules[..|rules| - 1], a, b);
    }
  }

  /** A new entry moves the total by its value when it is one of the rules, and not otherwise. */
  lemma {:induction false} SumEntry(rules: seq<Feature>, features: Features, f: Feature, n: int)
    requires NoRepeats(rules) && f !in features
    ensures Sum(rules, features[f := Points(n)]) == Sum(rules, features) + (if f in rules then n else 0)
  {
    if rules != [] {
      var init, last := rules[..|rules| - 1], rules[|rules| - 1];
      assert rules == init + [last];
      if f == last {
        SumSame(init, features[f := Points(n)], features);
      } else {
        SumEntry(init, features, f, n);
      }
    }
  }

  lemma {:induction false} SumJoin(a: seq<Feature>, b: seq<Feature>, features: Features)
    ensures Sum(a + b, features) == Sum(a, features) + Sum(b, features)
  {
    if b == [] {
      assert a + b == a;
    } else {
      assert (a + b)[..|a + b| - 1] == a + b[..|b| - 1];
      SumJoin(a, b[..|b| - 1], features);
    }
  }

  /** Dropping an entry leaves the total right exactly when the entry was worth nothing. */
  lemma {:induction false} DroppedEntry(rules: seq<Feature>, features: Features, f: Feature)
    requires NoRepeats(rules) && f in rules
    ensures Sum(rules, features - {f}) == Sum(rules, features) - Amount(features, f)
  {
    var init, last := rules[..|rules| - 1], rules[|rules| - 1];
    assert rules == init + [last];
    if f == last {
      SumSame(init, features - {f}, features);
    } else {
      DroppedEntry(init, features, f);
    }
  }

  // -------------------------------------------------------------------- flags

  datatype Flag = Rule(rule: Feature) | Blocking | OffTargetLoc | Skip

  /** The running total, the flags and the vector of one row while it is being scored. */
  class Scorecard {
    const rules: seq<Feature>
    const flagged: set<Feature>
    var score: int
    var flags: seq<Flag>
    var features: Features

    ghost predicate Valid()
      reads this
    {
      && NoRepeats(rules)
      && score == Sum(rules, features)
      && forall f :: Rule(f) in flags <==> f in features && f in flagged
    }

    constructor (rules: seq<Feature>, flagged: set<Feature>)
      requires NoRepeats(rules)
      ensures Valid() && features == map[] && score == 0 && flags == []
      ensures this.rules == rules && this.flagged == flagged
    {
      this.rules, this.flagged := rules, flagged;
      score, flags, features := 0, [], map[];
      new;
      SumOfNothing(rules);
    }

    /** One entry of the vector; a rule moves the total, a flagged one leaves its flag. */
    method Enter(f: Feature, n: int)
      requires Valid() && f !in features
      modifies this
      ensures Valid() && features == old(features)[f := Points(n)]
      ensures score == old(score) + (if f in rules then n else 0)
    {
      SumEntry(rules, features, f, n);
      features := features[f := Points(n)];
      if f in rules {
        score := score + n;
      }
      if f in flagged {
        flags := flags + [Rule(f)];
      }
    }
  }

  lemma {:induction false} SumOfNothing(rules: seq<Feature>)
    ensures Sum(rules, map[]) == 0
  {
    if rules != [] {
      SumOfNothing(rules[..|rules| - 1]);
    }
  }
}
