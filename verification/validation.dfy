/** Validation results (src/validation/result.rs): a check either passes or
    reports a problem with a stable code and a severity. */
module Validation {

  datatype Severity = ERROR | WARNING

  /** The stable codes the model validations report. */
  datatype Code =
    | NegativeProbabilityForScenario
    | ProbabilityForScenarioGreaterThanOne
    | NoScenariosForCompany
    | ScenariosAreNotUnique
    | ProbabilitiesDoNotSumUpToOne
    | NegativeExpectedReturnForACompany
    | CompanyWithNoDownsideScenario
    | ProbabilityOfLossZeroOrNegative
    | ProbabilityOfLossGreaterThanOne
    | FractionOfCapitalZeroOrNegative
    | FractionOfCapitalGreaterThanOne
    | AllTickersMustBeUnique
    | PermanentLossNeedsLongOnly
    | MaximumIndividualAllocationNegative
    | MaximumTotalLeverageRatioNegative

  /** The code as the API reports it. */
  function Text(code: Code): string
  {
    match code
    case NegativeProbabilityForScenario => "negative-probability-for-scenario"
    case ProbabilityForScenarioGreaterThanOne => "probability-for-scenario-greater-than-one"
    case NoScenariosForCompany => "no-scenarios-for-company"
    case ScenariosAreNotUnique => "scenarios-are-not-unique"
    case ProbabilitiesDoNotSumUpToOne => "probabilities-for-all-scenarios-do-not-sum-up-to-one"
    case NegativeExpectedReturnForACompany => "negative-expected-return-for-a-company"
    case CompanyWithNoDownsideScenario => "company-with-no-downside-scenario"
    case ProbabilityOfLossZeroOrNegative => "probability-of-loss-of-capital-cannot-be-zero-or-negative"
    case ProbabilityOfLossGreaterThanOne => "probability-of-loss-cannot-be-greater-than-one"
    case FractionOfCapitalZeroOrNegative => "fraction-of-capital-cannot-be-zero-or-negative"
    case FractionOfCapitalGreaterThanOne => "fraction-of-capital-cannot-be-greater-than-one"
    case AllTickersMustBeUnique => "all-tickers-must-be-unique"
    case PermanentLossNeedsLongOnly => "maximum-permanent-loss-constraint-works-only-with-long-only-constraint"
    case MaximumIndividualAllocationNegative => "maximum-individual-allocation-cannot-be-negative"
    case MaximumTotalLeverageRatioNegative => "maximum-total-leverage-ratio-cannot-be-negative"
  }

  /** `ValidationResult`. A problem's `detail` lists the string values its
      message interpolates (names, tickers), in order; the message wording and
      interpolated floats are not modelled, so two problems that differ only
      in a float of their message are the same problem here. */
  datatype ValidationResult =
    | OK
    | Problem(code: Code, severity: Severity, detail: seq<string>)

  /** Some result in the set is not `OK`: a warning counts as much as an
      error. */
  predicate HasProblem(results: set<ValidationResult>)
  {
    exists r :: r in results && r != OK
  }

  /** `code` is reported by some result in the set. */
  predicate Reports(results: set<ValidationResult>, code: Code)
  {
    exists r :: r in results && r.Problem? && r.code == code
  }

  /** Adding results that never carry `code` does not change whether `code`
      is reported. */
  lemma ReportsUnion(a: set<ValidationResult>, b: set<ValidationResult>, code: Code)
    requires forall v :: v in b && v.Problem? ==> v.code != code
    ensures Reports(a + b, code) <==> Reports(a, code)
  {
  }

  /** A union reports a code exactly when one of its parts does. */
  lemma ReportsEither(a: set<ValidationResult>, b: set<ValidationResult>, code: Code)
    ensures Reports(a + b, code) <==> Reports(a, code) || Reports(b, code)
  {
  }
}
