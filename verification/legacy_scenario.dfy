/** The first revision of a scenario (src/scenario.rs): the constructor
    checks its arguments and panics instead of reporting validation
    results. */
module LegacyScenario {

  import opened Common
  import ModelScenario
  import Validation

  datatype Scenario = Scenario(thesis: string, intrinsicValue: real, probability: real)

  /** The smallest intrinsic value accepted: the value of a whole business,
      not of one share. */
  const MIN_INTRINSIC_VALUE: real := 100000.0

  /** Why `Scenario::new` panics. */
  datatype Panic =
    | IntrinsicValueTooSmall(intrinsicValue: real)
    | NegativeProbability(probability: real)
    | ProbabilityAboveOne(probability: real)

  /** `PartialEq`: two scenarios are equal when their theses are. */
  predicate Equal(a: Scenario, b: Scenario)
  {
    a.thesis == b.thesis
  }

  /** `Hash`: only the thesis is fed to the hasher. */
  function HashKey(s: Scenario): string
  {
    s.thesis
  }

  /** Equality ignores the numbers, and equal scenarios hash alike. */
  lemma EqualityByThesis(a: Scenario, b: Scenario)
    ensures Equal(a, b) <==> HashKey(a) == HashKey(b)
    ensures Equal(a, b) <==> Equal(a.(intrinsicValue := 0.0, probability := 0.0), b)
  {
  }

  /** `validate_intrinsic_value`. */
  function CheckIntrinsicValue(s: Scenario): (r: Option<Panic>)
    ensures r.None? <==> s.intrinsicValue >= MIN_INTRINSIC_VALUE
    ensures r.Some? ==> r.value == IntrinsicValueTooSmall(s.intrinsicValue)
  {
    if s.intrinsicValue < MIN_INTRINSIC_VALUE then Some(IntrinsicValueTooSmall(s.intrinsicValue)) else None
  }

  /** `validate_probability_bounds`: a negative probability is caught before
      one above 1 is looked at. */
  function CheckProbabilityBounds(s: Scenario): (r: Option<Panic>)
    ensures r.None? <==> 0.0 <= s.probability <= 1.0
    ensures s.probability < 0.0 ==> r == Some(NegativeProbability(s.probability))
    ensures s.probability > 1.0 ==> r == Some(ProbabilityAboveOne(s.probability))
  {
    if s.probability < 0.0 then Some(NegativeProbability(s.probability))
    else if s.probability > 1.0 then Some(ProbabilityAboveOne(s.probability))
    else None
  }

  /** `Scenario::new`: the scenario is built first and then checked, the
      intrinsic value before the probability; the first failing check
      panics. */
  function New(thesis: string, intrinsicValue: real, probability: real): (r: Outcome<Scenario, Panic>)
    ensures r.Returns? <==> intrinsicValue >= MIN_INTRINSIC_VALUE && 0.0 <= probability <= 1.0
    ensures r.Returns? ==> r.value.thesis == thesis && r.value.intrinsicValue == intrinsicValue
                           && r.value.probability == probability
    ensures intrinsicValue < MIN_INTRINSIC_VALUE ==> r == Panics(IntrinsicValueTooSmall(intrinsicValue))
    ensures intrinsicValue >= MIN_INTRINSIC_VALUE && probability < 0.0 ==>
      r == Panics(NegativeProbability(probability))
    ensures intrinsicValue >= MIN_INTRINSIC_VALUE && probability > 1.0 ==>
      r == Panics(ProbabilityAboveOne(probability))
  {
    var s := Scenario(thesis, intrinsicValue, probability);
    match CheckIntrinsicValue(s)
    case Some(reason) => Panics(reason)
    case None =>
      match CheckProbabilityBounds(s)
      case Some(reason) => Panics(reason)
      case None => Returns(s)
  }

  /** The probability check agrees with the later, non-panicking
      revision's: a scenario with a large enough intrinsic value is built
      exactly when that revision finds its probability in bounds. */
  lemma NewAgreesWithValidation(thesis: string, intrinsicValue: real, probability: real)
    requires intrinsicValue >= MIN_INTRINSIC_VALUE
    ensures New(thesis, intrinsicValue, probability).Returns? <==>
      ModelScenario.ValidateProbabilityBounds(ModelScenario.Scenario(thesis, intrinsicValue, probability))
        == Validation.OK
  {
  }

  /** The panics the unit tests expect: a probability of -0.2 or 1.2, and
      an intrinsic value of 42 even with a valid probability; the two
      scenarios built with one thesis are equal. */
  lemma ExpectedPanics()
    ensures New("Something", 10000000000.0, -0.2) == Panics(NegativeProbability(-0.2))
    ensures New("Something", 10000000000.0, 1.2) == Panics(ProbabilityAboveOne(1.2))
    ensures New("Something", 42.0, 0.5) == Panics(IntrinsicValueTooSmall(42.0))
    ensures New("Awesome thesis", 12000000.0, 0.3).Returns?
    ensures New("Awesome thesis", 120000000.0, 0.4).Returns?
    ensures Equal(New("Awesome thesis", 12000000.0, 0.3).value, New("Awesome thesis", 120000000.0, 0.4).value)
  {
  }
}
