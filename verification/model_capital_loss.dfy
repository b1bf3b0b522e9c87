/** The tolerated loss of capital (src/model/capital_loss.rs): "I accept
    losing `fractionOfCapital` of my capital with probability
    `probabilityOfLoss`". Both numbers must lie in (0, 1]. */
module ModelCapitalLoss {

  import opened Common
  import opened Validation

  datatype CapitalLoss = CapitalLoss(fractionOfCapital: real, probabilityOfLoss: real)

  /** The codes a capital loss validation can report. */
  predicate IsCode(code: Code)
  {
    || code.ProbabilityOfLossZeroOrNegative? || code.ProbabilityOfLossGreaterThanOne?
    || code.FractionOfCapitalZeroOrNegative? || code.FractionOfCapitalGreaterThanOne?
  }

  /** `validate_probability_of_loss_bounds`: a probability below the
      tolerance counts as zero or negative and is reported first; one above
      1 is reported otherwise. */
  function ValidateProbabilityOfLossBounds(l: CapitalLoss): (r: ValidationResult)
    ensures r == OK <==> TOLERANCE <= l.probabilityOfLoss <= 1.0
    ensures l.probabilityOfLoss < TOLERANCE ==> r == Problem(ProbabilityOfLossZeroOrNegative, ERROR, [])
    ensures TOLERANCE <= l.probabilityOfLoss && l.probabilityOfLoss > 1.0 ==>
      r == Problem(ProbabilityOfLossGreaterThanOne, ERROR, [])
  {
    if l.probabilityOfLoss < TOLERANCE then Problem(ProbabilityOfLossZeroOrNegative, ERROR, [])
    else if l.probabilityOfLoss > 1.0 then Problem(ProbabilityOfLossGreaterThanOne, ERROR, [])
    else OK
  }

  /** `validate_fraction_of_capital_bounds`: the same bounds for the
      fraction of capital. */
  function ValidateFractionOfCapitalBounds(l: CapitalLoss): (r: ValidationResult)
    ensures r == OK <==> TOLERANCE <= l.fractionOfCapital <= 1.0
    ensures l.fractionOfCapital < TOLERANCE ==> r == Problem(FractionOfCapitalZeroOrNegative, ERROR, [])
    ensures TOLERANCE <= l.fractionOfCapital && l.fractionOfCapital > 1.0 ==>
      r == Problem(FractionOfCapitalGreaterThanOne, ERROR, [])
  {
    if l.fractionOfCapital < TOLERANCE then Problem(FractionOfCapitalZeroOrNegative, ERROR, [])
    else if l.fractionOfCapital > 1.0 then Problem(FractionOfCapitalGreaterThanOne, ERROR, [])
    else OK
  }

  /** `validate`: both bound checks; the input has a problem exactly when
      some number is outside [TOLERANCE, 1], and every problem is an error
      with one of the four codes. */
  function Validate(l: CapitalLoss): (r: set<ValidationResult>)
    ensures 1 <= |r| <= 2
    ensures HasProblem(r) <==>
      !(TOLERANCE <= l.probabilityOfLoss <= 1.0 && TOLERANCE <= l.fractionOfCapital <= 1.0)
    ensures forall v :: v in r && v.Problem? ==> IsCode(v.code) && v.severity == ERROR
  {
    var fraction := ValidateFractionOfCapitalBounds(l);
    var probability := ValidateProbabilityOfLossBounds(l);
    assert fraction != OK ==> fraction in {fraction, probability};
    assert probability != OK ==> probability in {fraction, probability};
    {fraction, probability}
  }
}
