/** Portfolios and the allocation request (src/model/portfolio.rs): the
    candidates to allocate between and the optional constraints on the
    allocation. */
module ModelPortfolio {

  import opened Common
  import opened Sequences
  import opened Strings
  import opened Validation
  import ModelCompany
  import ModelCapitalLoss

  /** A company with the fraction of capital allocated to it. */
  datatype PortfolioCompany = PortfolioCompany(company: ModelCompany.Company, fraction: real)

  datatype Portfolio = Portfolio(companies: seq<PortfolioCompany>)

  /** `AllocationInput`; every constraint is optional and absent by
      default. */
  datatype AllocationInput = AllocationInput(
    candidates: seq<ModelCompany.Company>,
    longOnly: Option<bool>,
    maxPermanentLossOfCapital: Option<ModelCapitalLoss.CapitalLoss>,
    maxIndividualAllocation: Option<real>,
    maxTotalLeverageRatio: Option<real>)

  /** Every company has a positive market cap, which the return
      computations divide by. */
  predicate PricedCompanies(companies: seq<ModelCompany.Company>)
  {
    forall i :: 0 <= i < |companies| ==> companies[i].marketCap > 0.0
  }

  function Tickers(companies: seq<ModelCompany.Company>): (t: seq<string>)
    ensures |t| == |companies| && forall i :: 0 <= i < |t| ==> t[i] == companies[i].ticker
  {
    seq(|companies|, i requires 0 <= i < |companies| => companies[i].ticker)
  }

  /** The union of every candidate's validation. */
  function ValidateCandidates(companies: seq<ModelCompany.Company>): (r: set<ValidationResult>)
    requires PricedCompanies(companies)
    ensures forall i :: 0 <= i < |companies| ==> ModelCompany.Validate(companies[i]) <= r
    ensures forall v :: v in r && v.Problem? ==> ModelCompany.IsCode(v.code)
  {
    if |companies| == 0 then {}
    else
      var rest := ValidateCandidates(companies[1..]);
      assert forall i :: 1 <= i < |companies| ==> companies[i] == companies[1..][i - 1];
      ModelCompany.Validate(companies[0]) + rest
  }

  /** Every result of the union comes from some candidate's validation. */
  lemma {:induction false} CandidateResultsHaveSource(companies: seq<ModelCompany.Company>, v: ValidationResult)
    requires PricedCompanies(companies)
    requires v in ValidateCandidates(companies)
    ensures exists i :: 0 <= i < |companies| && v in ModelCompany.Validate(companies[i])
  {
    if v !in ModelCompany.Validate(companies[0]) {
      CandidateResultsHaveSource(companies[1..], v);
      var i :| 0 <= i < |companies[1..]| && v in ModelCompany.Validate(companies[1..][i]);
      assert v in ModelCompany.Validate(companies[i + 1]);
    }
  }

  /** The duplicate-ticker check: the tickers, deduplicated, must be as many
      as the candidates. The problem lists every ticker. */
  function ValidateUniqueTickers(companies: seq<ModelCompany.Company>): (r: set<ValidationResult>)
    ensures r != {} <==> exists i, j :: 0 <= i < j < |companies| && companies[i].ticker == companies[j].ticker
    ensures r != {} ==> r == {Problem(AllTickersMustBeUnique, ERROR, [Join(Tickers(companies), ", ")])}
  {
    var tickers := Tickers(companies);
    ElementsCardinality(tickers);
    if |tickers| != |Elements(tickers)| then {Problem(AllTickersMustBeUnique, ERROR, [Join(tickers, ", ")])}
    else {}
  }

  /** The capital loss is validated only when it is given. */
  function ValidateCapitalLoss(input: AllocationInput): (r: set<ValidationResult>)
    ensures input.maxPermanentLossOfCapital.Some? ==>
      r == ModelCapitalLoss.Validate(input.maxPermanentLossOfCapital.value)
    ensures input.maxPermanentLossOfCapital.None? ==> r == {}
  {
    match input.maxPermanentLossOfCapital
    case Some(loss) => ModelCapitalLoss.Validate(loss)
    case None => {}
  }

  /** A capital loss bound needs `longOnly` to be explicitly true; an absent
      flag counts as false. */
  function ValidateLossNeedsLongOnly(input: AllocationInput): (r: set<ValidationResult>)
    ensures r != {} <==> input.maxPermanentLossOfCapital.Some? && input.longOnly != Some(true)
    ensures r != {} ==> r == {Problem(PermanentLossNeedsLongOnly, ERROR, [])}
  {
    var longOnly := match input.longOnly case Some(b) => b case None => false;
    if input.maxPermanentLossOfCapital.Some? && !longOnly then {Problem(PermanentLossNeedsLongOnly, ERROR, [])}
    else {}
  }

  /** A maximum individual allocation, when given, must not be negative. */
  function ValidateMaxIndividualAllocation(input: AllocationInput): (r: set<ValidationResult>)
    ensures r != {} <==> input.maxIndividualAllocation.Some? && input.maxIndividualAllocation.value < 0.0
    ensures r != {} ==> r == {Problem(MaximumIndividualAllocationNegative, ERROR, [])}
  {
    match input.maxIndividualAllocation
    case Some(maxF) => if maxF < 0.0 then {Problem(MaximumIndividualAllocationNegative, ERROR, [])} else {}
    case None => {}
  }

  /** A maximum total leverage ratio, when given, must not be negative. */
  function ValidateMaxTotalLeverageRatio(input: AllocationInput): (r: set<ValidationResult>)
    ensures r != {} <==> input.maxTotalLeverageRatio.Some? && input.maxTotalLeverageRatio.value < 0.0
    ensures r != {} ==> r == {Problem(MaximumTotalLeverageRatioNegative, ERROR, [])}
  {
    match input.maxTotalLeverageRatio
    case Some(maxLr) => if maxLr < 0.0 then {Problem(MaximumTotalLeverageRatioNegative, ERROR, [])} else {}
    case None => {}
  }

  /** The results of the checks on the request as a whole. */
  function InputResults(input: AllocationInput): set<ValidationResult>
  {
    ValidateUniqueTickers(input.candidates) + ValidateCapitalLoss(input)
      + ValidateLossNeedsLongOnly(input) + ValidateMaxIndividualAllocation(input)
      + ValidateMaxTotalLeverageRatio(input)
  }

  /** `validate`: every candidate's results together with the checks on the
      request as a whole. */
  function Validate(input: AllocationInput): (r: set<ValidationResult>)
    requires PricedCompanies(input.candidates)
    ensures forall i :: 0 <= i < |input.candidates| ==> ModelCompany.Validate(input.candidates[i]) <= r
    ensures input.maxPermanentLossOfCapital.Some? ==>
      ModelCapitalLoss.Validate(input.maxPermanentLossOfCapital.value) <= r
  {
    ValidateCandidates(input.candidates) + InputResults(input)
  }

  /** No company result carries a request-level code, so each of those is
      reported exactly when the request-level checks report it. */
  lemma ReportsInput(input: AllocationInput, code: Code)
    requires PricedCompanies(input.candidates)
    requires !ModelCompany.IsCode(code)
    ensures Reports(Validate(input), code) <==> Reports(InputResults(input), code)
  {
    assert Validate(input) == InputResults(input) + ValidateCandidates(input.candidates);
    ReportsUnion(InputResults(input), ValidateCandidates(input.candidates), code);
  }

  /** Which codes the request-level checks report, check by check. */
  lemma InputReports(input: AllocationInput, code: Code)
    ensures Reports(InputResults(input), code) <==>
      || (code == AllTickersMustBeUnique && exists i, j ::
            0 <= i < j < |input.candidates| && input.candidates[i].ticker == input.candidates[j].ticker)
      || (input.maxPermanentLossOfCapital.Some? &&
            Reports(ModelCapitalLoss.Validate(input.maxPermanentLossOfCapital.value), code))
      || (code == PermanentLossNeedsLongOnly &&
            input.maxPermanentLossOfCapital.Some? && input.longOnly != Some(true))
      || (code == MaximumIndividualAllocationNegative &&
            input.maxIndividualAllocation.Some? && input.maxIndividualAllocation.value < 0.0)
      || (code == MaximumTotalLeverageRatioNegative &&
            input.maxTotalLeverageRatio.Some? && input.maxTotalLeverageRatio.value < 0.0)
  {
    var tickers := ValidateUniqueTickers(input.candidates);
    var loss := ValidateCapitalLoss(input);
    var longOnly := ValidateLossNeedsLongOnly(input);
    var individual := ValidateMaxIndividualAllocation(input);
    var leverage := ValidateMaxTotalLeverageRatio(input);
    ReportsEither(tickers, loss, code);
    ReportsEither(tickers + loss, longOnly, code);
    ReportsEither(tickers + loss + longOnly, individual, code);
    ReportsEither(tickers + loss + longOnly + individual, leverage, code);
    if tickers != {} {
      assert Problem(AllTickersMustBeUnique, ERROR, [Join(Tickers(input.candidates), ", ")]) in tickers;
    }
    if longOnly != {} {
      assert Problem(PermanentLossNeedsLongOnly, ERROR, []) in longOnly;
    }
    if individual != {} {
      assert Problem(MaximumIndividualAllocationNegative, ERROR, []) in individual;
    }
    if leverage != {} {
      assert Problem(MaximumTotalLeverageRatioNegative, ERROR, []) in leverage;
    }
  }

  /** Duplicate tickers are reported exactly when two candidates share one. */
  lemma ValidateReportsDuplicateTickers(input: AllocationInput)
    requires PricedCompanies(input.candidates)
    ensures Reports(Validate(input), AllTickersMustBeUnique) <==>
      exists i, j :: 0 <= i < j < |input.candidates| && input.candidates[i].ticker == input.candidates[j].ticker
  {
    ReportsInput(input, AllTickersMustBeUnique);
    InputReports(input, AllTickersMustBeUnique);
  }

  /** A capital loss bound without an explicit long-only flag is reported
      exactly then. */
  lemma ValidateReportsLossWithoutLongOnly(input: AllocationInput)
    requires PricedCompanies(input.candidates)
    ensures Reports(Validate(input), PermanentLossNeedsLongOnly) <==>
      input.maxPermanentLossOfCapital.Some? && input.longOnly != Some(true)
  {
    ReportsInput(input, PermanentLossNeedsLongOnly);
    InputReports(input, PermanentLossNeedsLongOnly);
  }

  /** A negative maximum individual allocation is reported exactly then. */
  lemma ValidateReportsNegativeIndividualAllocation(input: AllocationInput)
    requires PricedCompanies(input.candidates)
    ensures Reports(Validate(input), MaximumIndividualAllocationNegative) <==>
      input.maxIndividualAllocation.Some? && input.maxIndividualAllocation.value < 0.0
  {
    ReportsInput(input, MaximumIndividualAllocationNegative);
    InputReports(input, MaximumIndividualAllocationNegative);
  }

  /** A negative maximum total leverage ratio is reported exactly then. */
  lemma ValidateReportsNegativeLeverage(input: AllocationInput)
    requires PricedCompanies(input.candidates)
    ensures Reports(Validate(input), MaximumTotalLeverageRatioNegative) <==>
      input.maxTotalLeverageRatio.Some? && input.maxTotalLeverageRatio.value < 0.0
  {
    ReportsInput(input, MaximumTotalLeverageRatioNegative);
    InputReports(input, MaximumTotalLeverageRatioNegative);
  }

  /** A capital loss code is reported exactly when a capital loss is given
      and its own validation reports the code. */
  lemma ValidateReportsCapitalLoss(input: AllocationInput, code: Code)
    requires PricedCompanies(input.candidates)
    requires ModelCapitalLoss.IsCode(code)
    ensures Reports(Validate(input), code) <==>
      input.maxPermanentLossOfCapital.Some? &&
      Reports(ModelCapitalLoss.Validate(input.maxPermanentLossOfCapital.value), code)
  {
    ReportsInput(input, code);
    InputReports(input, code);
  }
}
