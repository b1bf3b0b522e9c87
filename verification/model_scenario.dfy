/** A scenario of a company (src/model/scenario.rs): an investment thesis
    with the intrinsic value it implies and the probability that it plays
    out. */
module ModelScenario {

  import opened Validation

  datatype Scenario = Scenario(thesis: string, intrinsicValue: real, probability: real)

  /** `PartialEq`: two scenarios are equal when their theses are, whatever
      their numbers. */
  predicate Equal(a: Scenario, b: Scenario)
  {
    a.thesis == b.thesis
  }

  /** `Hash`: only the thesis is fed to the hasher. */
  function HashKey(s: Scenario): string
  {
    s.thesis
  }

  /** Equality ignores the numbers, and equal scenarios hash alike, as a
      `HashSet` requires. */
  lemma EqualityByThesis(a: Scenario, b: Scenario)
    ensures Equal(a, b) <==> HashKey(a) == HashKey(b)
    ensures Equal(a, b) <==> Equal(Scenario(a.thesis, 0.0, 0.0), Scenario(b.thesis, 1.0, 1.0))
  {
  }

  /** `scenario_return`: the relative gain (or loss) from buying the whole
      business at `marketCap` if it turns out to be worth the intrinsic
      value. */
  function ScenarioReturn(s: Scenario, marketCap: real): (r: real)
    requires marketCap > 0.0
    ensures marketCap * (1.0 + r) == s.intrinsicValue
  {
    (s.intrinsicValue - marketCap) / marketCap
  }

  /** `probability_weighted_return`: the scenario's return scaled by its
      probability. */
  function ProbabilityWeightedReturn(s: Scenario, marketCap: real): (r: real)
    requires marketCap > 0.0
    ensures marketCap * r == s.probability * (s.intrinsicValue - marketCap)
  {
    s.probability * ScenarioReturn(s, marketCap)
  }

  /** A scenario with a non-negative probability has a negative weighted
      return exactly when it is a loss that may happen. */
  lemma WeightedReturnSign(s: Scenario, marketCap: real)
    requires marketCap > 0.0 && s.probability >= 0.0
    ensures ProbabilityWeightedReturn(s, marketCap) < 0.0 <==>
      s.probability > 0.0 && s.intrinsicValue < marketCap
  {
    var r := ScenarioReturn(s, marketCap);
    assert r < 0.0 <==> s.intrinsicValue < marketCap;
    if s.probability > 0.0 && r < 0.0 {
      assert s.probability * r < 0.0;
    }
    if s.probability > 0.0 && r >= 0.0 {
      assert s.probability * r >= 0.0;
    }
  }

  /** `validate_probability_bounds`: a probability must lie in [0, 1]; a
      negative one is reported before one above 1 is considered. */
  function ValidateProbabilityBounds(s: Scenario): (r: ValidationResult)
    ensures r == OK <==> 0.0 <= s.probability <= 1.0
    ensures s.probability < 0.0 ==> r == Problem(NegativeProbabilityForScenario, ERROR, [])
    ensures s.probability > 1.0 ==> r == Problem(ProbabilityForScenarioGreaterThanOne, ERROR, [])
  {
    if s.probability < 0.0 then Problem(NegativeProbabilityForScenario, ERROR, [])
    else if s.probability > 1.0 then Problem(ProbabilityForScenarioGreaterThanOne, ERROR, [])
    else OK
  }

  /** `validate`: a single-element set holding the bounds check. */
  function Validate(s: Scenario): (r: set<ValidationResult>)
    ensures |r| == 1
    ensures ValidateProbabilityBounds(s) in r
    ensures HasProblem(r) <==> s.probability < 0.0 || s.probability > 1.0
  {
    {ValidateProbabilityBounds(s)}
  }
}
