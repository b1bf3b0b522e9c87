/** A candidate company (src/model/company.rs): identified by its ticker,
    priced by its market capitalisation, and described by the scenarios an
    investor believes in. */
module ModelCompany {

  import opened Common
  import opened Sequences
  import opened Validation
  import ModelScenario

  /** The codes a company's validation can report, its scenarios' included. */
  predicate IsCode(code: Code)
  {
    || code.NoScenariosForCompany? || code.ScenariosAreNotUnique?
    || code.ProbabilitiesDoNotSumUpToOne? || code.NegativeExpectedReturnForACompany?
    || code.CompanyWithNoDownsideScenario?
    || code.NegativeProbabilityForScenario? || code.ProbabilityForScenarioGreaterThanOne?
  }

  datatype Company = Company(
    name: string,
    ticker: string,
    description: string,
    marketCap: real,
    scenarios: seq<ModelScenario.Scenario>)

  /** `PartialEq`: two companies are equal when their tickers are. */
  predicate Equal(a: Company, b: Company)
  {
    a.ticker == b.ticker
  }

  /** `Hash`: only the ticker is fed to the hasher. */
  function HashKey(c: Company): string
  {
    c.ticker
  }

  lemma EqualityByTicker(a: Company, b: Company)
    ensures Equal(a, b) <==> HashKey(a) == HashKey(b)
    ensures Equal(a, b) <==> Equal(a.(name := b.name, marketCap := b.marketCap, scenarios := []), b)
  {
  }

  function Theses(scenarios: seq<ModelScenario.Scenario>): (t: seq<string>)
    ensures |t| == |scenarios| && forall i :: 0 <= i < |t| ==> t[i] == scenarios[i].thesis
  {
    seq(|scenarios|, i requires 0 <= i < |scenarios| => scenarios[i].thesis)
  }

  function Probabilities(scenarios: seq<ModelScenario.Scenario>): (p: seq<real>)
    ensures |p| == |scenarios| && forall i :: 0 <= i < |p| ==> p[i] == scenarios[i].probability
  {
    seq(|scenarios|, i requires 0 <= i < |scenarios| => scenarios[i].probability)
  }

  /** The probability-weighted return of each scenario at the company's
      market cap. */
  function WeightedReturns(c: Company): (w: seq<real>)
    requires c.marketCap > 0.0
    ensures |w| == |c.scenarios|
    ensures forall i :: 0 <= i < |w| ==>
      c.marketCap * w[i] == c.scenarios[i].probability * (c.scenarios[i].intrinsicValue - c.marketCap)
  {
    seq(|c.scenarios|, i requires 0 <= i < |c.scenarios| =>
      ModelScenario.ProbabilityWeightedReturn(c.scenarios[i], c.marketCap))
  }

  /** The company's expected return: the sum of its weighted returns. */
  function ExpectedReturn(c: Company): real
    requires c.marketCap > 0.0
  {
    Sum(WeightedReturns(c))
  }

  /** Scaling by the market cap, the expected return is the probability
      weighted intrinsic value minus the market cap weighted by the total
      probability. */
  lemma {:induction false} ExpectedReturnScaled(c: Company)
    requires c.marketCap > 0.0
    ensures c.marketCap * ExpectedReturn(c) ==
      WeightedValue(c.scenarios) - c.marketCap * Sum(Probabilities(c.scenarios))
    decreases |c.scenarios|
  {
    if |c.scenarios| > 0 {
      var rest := c.(scenarios := c.scenarios[1..]);
      ExpectedReturnScaled(rest);
      assert WeightedReturns(c)[1..] == WeightedReturns(rest);
      assert Probabilities(c.scenarios)[1..] == Probabilities(rest.scenarios);
    }
  }

  /** The probability-weighted intrinsic value of the scenarios. */
  function WeightedValue(scenarios: seq<ModelScenario.Scenario>): real
  {
    if |scenarios| == 0 then 0.0
    else scenarios[0].probability * scenarios[0].intrinsicValue + WeightedValue(scenarios[1..])
  }

  /** The probabilities sum to 1 within the tolerance. */
  predicate ProbabilitiesSumToOne(c: Company)
  {
    1.0 - TOLERANCE <= Sum(Probabilities(c.scenarios)) <= 1.0 + TOLERANCE
  }

  /** The expected payoff falls short of the price: the probability-weighted
      intrinsic value is below the market cap weighted by the total
      probability. */
  predicate LosesInExpectation(c: Company)
  {
    WeightedValue(c.scenarios) < c.marketCap * Sum(Probabilities(c.scenarios))
  }

  /** No scenario's probability-weighted loss reaches the tolerance, relative
      to the market cap. */
  predicate WithoutDownside(c: Company)
  {
    forall i :: 0 <= i < |c.scenarios| ==>
      c.scenarios[i].probability * (c.scenarios[i].intrinsicValue - c.marketCap) > -TOLERANCE * c.marketCap
  }

  /** `validate_at_least_one_scenario`. */
  function ValidateAtLeastOneScenario(c: Company): (r: ValidationResult)
    ensures r != OK <==> |c.scenarios| == 0
    ensures r != OK ==> r == Problem(NoScenariosForCompany, ERROR, [c.name, c.ticker])
  {
    if |c.scenarios| == 0 then Problem(NoScenariosForCompany, ERROR, [c.name, c.ticker]) else OK
  }

  /** `validate_all_scenarios_unique`: the scenarios, deduplicated by thesis,
      must be as many as they were; that is, no two share a thesis. */
  function ValidateAllScenariosUnique(c: Company): (r: ValidationResult)
    ensures r != OK <==> exists i, j :: 0 <= i < j < |c.scenarios| && c.scenarios[i].thesis == c.scenarios[j].thesis
    ensures r != OK ==> r == Problem(ScenariosAreNotUnique, ERROR, [c.name])
  {
    var theses := Theses(c.scenarios);
    ElementsCardinality(theses);
    if |c.scenarios| != |Elements(theses)| then Problem(ScenariosAreNotUnique, ERROR, [c.name]) else OK
  }

  /** `validate_probabilities_sum_up_to_one`: the probabilities must sum to
      1 within the tolerance. */
  function ValidateProbabilitiesSumUpToOne(c: Company): (r: ValidationResult)
    ensures r == OK <==> ProbabilitiesSumToOne(c)
    ensures r != OK ==> r == Problem(ProbabilitiesDoNotSumUpToOne, ERROR, [c.name])
  {
    var sum := Sum(Probabilities(c.scenarios));
    if Abs(sum - 1.0) > TOLERANCE then Problem(ProbabilitiesDoNotSumUpToOne, ERROR, [c.name]) else OK
  }

  /** `validate_negative_expected_return`: a warning when the expected return
      is negative, which with shorting prohibited is a bet never worth
      taking. */
  function ValidateNegativeExpectedReturn(c: Company): (r: ValidationResult)
    requires c.marketCap > 0.0
    ensures r != OK <==> LosesInExpectation(c)
    ensures r != OK ==> r == Problem(NegativeExpectedReturnForACompany, WARNING, [c.ticker])
  {
    ExpectedReturnScaled(c);
    if ExpectedReturn(c) < 0.0 then Problem(NegativeExpectedReturnForACompany, WARNING, [c.ticker]) else OK
  }

  /** `validate_no_downside_scenario`: a warning when no scenario has a
      weighted return at or below minus the tolerance. A company without
      scenarios has no downside either. */
  function ValidateNoDownsideScenario(c: Company): (r: ValidationResult)
    requires c.marketCap > 0.0
    ensures r != OK <==> WithoutDownside(c)
    ensures r != OK ==> r == Problem(CompanyWithNoDownsideScenario, WARNING, [c.ticker])
  {
    var w := WeightedReturns(c);
    if forall i :: 0 <= i < |w| ==> w[i] > -TOLERANCE then Problem(CompanyWithNoDownsideScenario, WARNING, [c.ticker]) else OK
  }

  /** `validate_all_scenarios`: the union of every scenario's results. */
  function ValidateAllScenarios(scenarios: seq<ModelScenario.Scenario>): (r: set<ValidationResult>)
    ensures forall i :: 0 <= i < |scenarios| ==> ModelScenario.ValidateProbabilityBounds(scenarios[i]) in r
    ensures forall v :: v in r ==> exists i :: 0 <= i < |scenarios| && v == ModelScenario.ValidateProbabilityBounds(scenarios[i])
  {
    if |scenarios| == 0 then {}
    else
      var rest := ValidateAllScenarios(scenarios[1..]);
      assert forall i :: 1 <= i < |scenarios| ==> scenarios[i] == scenarios[1..][i - 1];
      ModelScenario.Validate(scenarios[0]) + rest
  }

  /** `validate`: the five company checks together with every scenario's
      checks, and nothing outside the company and scenario codes. */
  function Validate(c: Company): (r: set<ValidationResult>)
    requires c.marketCap > 0.0
    ensures forall i :: 0 <= i < |c.scenarios| ==> ModelScenario.Validate(c.scenarios[i]) <= r
    ensures forall v :: v in r && v.Problem? ==> IsCode(v.code)
  {
    ScenarioCodesOnly(c);
    OwnResults(c) + ValidateAllScenarios(c.scenarios)
  }

  /** The results of the five company checks. */
  function OwnResults(c: Company): (r: set<ValidationResult>)
    requires c.marketCap > 0.0
    ensures forall v :: v in r && v.Problem? ==> IsCode(v.code)
  {
    {
      ValidateAtLeastOneScenario(c), ValidateAllScenariosUnique(c),
      ValidateProbabilitiesSumUpToOne(c), ValidateNegativeExpectedReturn(c),
      ValidateNoDownsideScenario(c)
    }
  }

  /** The scenario checks never report a company code. */
  lemma ScenarioCodesOnly(c: Company)
    ensures forall v :: v in ValidateAllScenarios(c.scenarios) && v.Problem? ==>
      v.code == NegativeProbabilityForScenario || v.code == ProbabilityForScenarioGreaterThanOne
  {
  }

  /** In five results that each pass or carry their own code, the first code
      is reported exactly when the first result is a problem. */
  lemma ReportsFirstOfFive(r1: ValidationResult, r2: ValidationResult, r3: ValidationResult,
                           r4: ValidationResult, r5: ValidationResult, code: Code)
    requires r1 == OK || r1.code == code
    requires r2 == OK || r2.code != code
    requires r3 == OK || r3.code != code
    requires r4 == OK || r4.code != code
    requires r5 == OK || r5.code != code
    ensures Reports({r1, r2, r3, r4, r5}, code) <==> r1 != OK
  {
    if r1 != OK {
      assert r1 in {r1, r2, r3, r4, r5};
    }
  }

  /** Whether `code` is reported by `Validate` is decided by the company's
      own checks. */
  lemma ReportsOwn(c: Company, code: Code)
    requires c.marketCap > 0.0
    requires code != NegativeProbabilityForScenario && code != ProbabilityForScenarioGreaterThanOne
    ensures Reports(Validate(c), code) <==> Reports(OwnResults(c), code)
  {
    ScenarioCodesOnly(c);
    ReportsUnion(OwnResults(c), ValidateAllScenarios(c.scenarios), code);
  }

  /** `Validate` reports a missing scenario exactly when there is none. */
  lemma ValidateReportsNoScenarios(c: Company)
    requires c.marketCap > 0.0
    ensures Reports(Validate(c), NoScenariosForCompany) <==> |c.scenarios| == 0
  {
    ReportsOwn(c, NoScenariosForCompany);
    ReportsFirstOfFive(ValidateAtLeastOneScenario(c), ValidateAllScenariosUnique(c),
      ValidateProbabilitiesSumUpToOne(c), ValidateNegativeExpectedReturn(c),
      ValidateNoDownsideScenario(c), NoScenariosForCompany);
  }

  /** `Validate` reports duplicate theses exactly when two scenarios share
      one. */
  lemma ValidateReportsNotUnique(c: Company)
    requires c.marketCap > 0.0
    ensures Reports(Validate(c), ScenariosAreNotUnique) <==>
      exists i, j :: 0 <= i < j < |c.scenarios| && c.scenarios[i].thesis == c.scenarios[j].thesis
  {
    ReportsOwn(c, ScenariosAreNotUnique);
    assert OwnResults(c) == {ValidateAllScenariosUnique(c), ValidateAtLeastOneScenario(c),
      ValidateProbabilitiesSumUpToOne(c), ValidateNegativeExpectedReturn(c),
      ValidateNoDownsideScenario(c)};
    ReportsFirstOfFive(ValidateAllScenariosUnique(c), ValidateAtLeastOneScenario(c),
      ValidateProbabilitiesSumUpToOne(c), ValidateNegativeExpectedReturn(c),
      ValidateNoDownsideScenario(c), ScenariosAreNotUnique);
  }

  /** `Validate` reports the probability sum exactly when it is off 1 by more
      than the tolerance. */
  lemma ValidateReportsSum(c: Company)
    requires c.marketCap > 0.0
    ensures Reports(Validate(c), ProbabilitiesDoNotSumUpToOne) <==> !ProbabilitiesSumToOne(c)
  {
    ReportsOwn(c, ProbabilitiesDoNotSumUpToOne);
    assert OwnResults(c) == {ValidateProbabilitiesSumUpToOne(c), ValidateAtLeastOneScenario(c),
      ValidateAllScenariosUnique(c), ValidateNegativeExpectedReturn(c),
      ValidateNoDownsideScenario(c)};
    ReportsFirstOfFive(ValidateProbabilitiesSumUpToOne(c), ValidateAtLeastOneScenario(c),
      ValidateAllScenariosUnique(c), ValidateNegativeExpectedReturn(c),
      ValidateNoDownsideScenario(c), ProbabilitiesDoNotSumUpToOne);
  }

  /** `Validate` warns of a negative expected return exactly when the
      weighted intrinsic value falls short of the weighted market cap. */
  lemma ValidateReportsNegativeReturn(c: Company)
    requires c.marketCap > 0.0
    ensures Reports(Validate(c), NegativeExpectedReturnForACompany) <==> LosesInExpectation(c)
  {
    ReportsOwn(c, NegativeExpectedReturnForACompany);
    assert OwnResults(c) == {ValidateNegativeExpectedReturn(c), ValidateAtLeastOneScenario(c),
      ValidateAllScenariosUnique(c), ValidateProbabilitiesSumUpToOne(c),
      ValidateNoDownsideScenario(c)};
    ReportsFirstOfFive(ValidateNegativeExpectedReturn(c), ValidateAtLeastOneScenario(c),
      ValidateAllScenariosUnique(c), ValidateProbabilitiesSumUpToOne(c),
      ValidateNoDownsideScenario(c), NegativeExpectedReturnForACompany);
  }

  /** `Validate` warns of a missing downside exactly when every scenario's
      weighted return is above minus the tolerance. */
  lemma ValidateReportsNoDownside(c: Company)
    requires c.marketCap > 0.0
    ensures Reports(Validate(c), CompanyWithNoDownsideScenario) <==> WithoutDownside(c)
  {
    ReportsOwn(c, CompanyWithNoDownsideScenario);
    assert OwnResults(c) == {ValidateNoDownsideScenario(c), ValidateAtLeastOneScenario(c),
      ValidateAllScenariosUnique(c), ValidateProbabilitiesSumUpToOne(c),
      ValidateNegativeExpectedReturn(c)};
    ReportsFirstOfFive(ValidateNoDownsideScenario(c), ValidateAtLeastOneScenario(c),
      ValidateAllScenariosUnique(c), ValidateProbabilitiesSumUpToOne(c),
      ValidateNegativeExpectedReturn(c), CompanyWithNoDownsideScenario);
  }
}
