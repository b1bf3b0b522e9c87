/** The glue around the allocator (src/lib.rs): a validation gate that
    panics on any problem, a filter that keeps the candidates with a
    positive expected return, and the mapping of the allocated portfolio
    to the response. The allocation itself (`kelly_allocate`) is a
    parameter. */
module Lib {

  import opened Common
  import opened Validation
  import ModelCompany
  import ModelPortfolio
  import Constraint

  /** The panic of the gate; it lists every result the candidates'
      validations produced. */
  datatype Panic = FoundValidationErrors(results: set<ValidationResult>)

  datatype TickerAndFraction = TickerAndFraction(ticker: string, fraction: real)

  datatype AllocationResult = AllocationResult(allocations: seq<TickerAndFraction>)

  datatype ProbabilityAndReturn = ProbabilityAndReturn(probability: real, weightedReturn: real)

  datatype AnalysisResult = AnalysisResult(
    worstCaseOutcome: ProbabilityAndReturn,
    cumulativeProbabilityOfLoss: real,
    expectedValue: real)

  datatype CompleteResult = CompleteResult(
    resultingPortfolio: AllocationResult,
    resultingAnalysis: AnalysisResult)

  /** Some candidate's own validation reports a problem of any severity. */
  predicate AnyProblem(candidates: seq<ModelCompany.Company>)
    requires ModelPortfolio.PricedCompanies(candidates)
  {
    exists i :: 0 <= i < |candidates| && HasProblem(ModelCompany.Validate(candidates[i]))
  }

  /** The union of the candidates' results has a problem exactly when some
      candidate's results do. */
  lemma UnionHasProblem(candidates: seq<ModelCompany.Company>)
    requires ModelPortfolio.PricedCompanies(candidates)
    ensures HasProblem(ModelPortfolio.ValidateCandidates(candidates)) <==> AnyProblem(candidates)
  {
    var all := ModelPortfolio.ValidateCandidates(candidates);
    if HasProblem(all) {
      var v :| v in all && v != OK;
      ModelPortfolio.CandidateResultsHaveSource(candidates, v);
    }
  }

  /** The gate of `create_candidates` and `allocate`: every candidate is
      validated and the union of the results panics if any result is not
      `OK`, warnings included; otherwise the candidates pass unchanged. */
  function Gate(candidates: seq<ModelCompany.Company>): (r: Outcome<seq<ModelCompany.Company>, Panic>)
    requires ModelPortfolio.PricedCompanies(candidates)
    ensures r.Panics? <==> AnyProblem(candidates)
    ensures r.Panics? ==> r.reason == FoundValidationErrors(ModelPortfolio.ValidateCandidates(candidates))
    ensures r.Returns? ==> r.value == candidates
  {
    var all := ModelPortfolio.ValidateCandidates(candidates);
    UnionHasProblem(candidates);
    if HasProblem(all) then Panics(FoundValidationErrors(all)) else Returns(candidates)
  }

  /** A candidate with a negative expected return stops the gate, although
      its validation reports only a warning. */
  lemma NegativeExpectedReturnStopsGate(candidates: seq<ModelCompany.Company>, i: nat)
    requires ModelPortfolio.PricedCompanies(candidates)
    requires i < |candidates| && ModelCompany.ExpectedReturn(candidates[i]) < 0.0
    ensures Gate(candidates).Panics?
  {
    var c := candidates[i];
    var warning := ModelCompany.ValidateNegativeExpectedReturn(c);
    assert warning != OK;
    assert warning in ModelCompany.OwnResults(c);
    assert warning in ModelCompany.Validate(c);
  }

  /** The filter's test: Σ p·(iv − mc)/mc over the scenarios is strictly
      positive. */
  predicate Kept(c: ModelCompany.Company)
  {
    c.marketCap > 0.0 && ModelCompany.ExpectedReturn(c) > 0.0
  }

  /** The candidates with a positive expected return, in input order. */
  function FilterPositive(candidates: seq<ModelCompany.Company>): (r: seq<ModelCompany.Company>)
    requires ModelPortfolio.PricedCompanies(candidates)
    ensures ModelPortfolio.PricedCompanies(r)
    ensures |r| <= |candidates|
    ensures forall i :: 0 <= i < |r| ==> Kept(r[i]) && r[i] in candidates
    ensures forall i :: 0 <= i < |candidates| ==> (candidates[i] in r <==> Kept(candidates[i]))
  {
    if |candidates| == 0 then []
    else
      var rest := FilterPositive(candidates[1..]);
      assert forall i :: 1 <= i < |candidates| ==> candidates[i] == candidates[1..][i - 1];
      if Kept(candidates[0]) then [candidates[0]] + rest else rest
  }

  /** The filter keeps the order: filtering a concatenation concatenates
      the filtered parts. Together with its effect on a single candidate
      this determines the filter completely. */
  lemma {:induction false} FilterAppend(a: seq<ModelCompany.Company>, b: seq<ModelCompany.Company>)
    requires ModelPortfolio.PricedCompanies(a) && ModelPortfolio.PricedCompanies(b)
    ensures ModelPortfolio.PricedCompanies(a + b)
    ensures FilterPositive(a + b) == FilterPositive(a) + FilterPositive(b)
    decreases |a|
  {
    assert forall i :: 0 <= i < |a + b| ==> (a + b)[i] == if i < |a| then a[i] else b[i - |a|];
    if |a| > 0 {
      assert (a + b)[1..] == a[1..] + b;
      FilterAppend(a[1..], b);
    } else {
      assert a + b == b;
    }
  }

  /** A candidate kept by the filter appears as often as in the input; one
      dropped does not appear at all. */
  lemma {:induction false} FilterCounts(candidates: seq<ModelCompany.Company>, c: ModelCompany.Company)
    requires ModelPortfolio.PricedCompanies(candidates)
    ensures multiset(FilterPositive(candidates))[c] == if Kept(c) then multiset(candidates)[c] else 0
    decreases |candidates|
  {
    if |candidates| > 0 {
      FilterCounts(candidates[1..], c);
      assert candidates == [candidates[0]] + candidates[1..];
    }
  }

  /** Once the gate has passed, the filter drops only candidates whose
      expected return is exactly zero: a negative one would have raised a
      warning and stopped the gate. */
  lemma GateDropsOnlyBreakEven(candidates: seq<ModelCompany.Company>, i: nat)
    requires ModelPortfolio.PricedCompanies(candidates)
    requires Gate(candidates).Returns?
    requires i < |candidates| && candidates[i] !in FilterPositive(candidates)
    ensures ModelCompany.ExpectedReturn(candidates[i]) == 0.0
  {
    if ModelCompany.ExpectedReturn(candidates[i]) < 0.0 {
      NegativeExpectedReturnStopsGate(candidates, i);
    }
  }

  /** The response's allocations: the ticker and fraction of each company of
      the portfolio, in portfolio order. */
  function Allocations(p: ModelPortfolio.Portfolio): (r: seq<TickerAndFraction>)
    ensures |r| == |p.companies|
    ensures forall i :: 0 <= i < |r| ==>
      r[i].ticker == p.companies[i].company.ticker && r[i].fraction == p.companies[i].fraction
  {
    seq(|p.companies|, i requires 0 <= i < |p.companies| =>
      TickerAndFraction(p.companies[i].company.ticker, p.companies[i].fraction))
  }

  function AllocatedTickers(allocations: seq<TickerAndFraction>): seq<string>
  {
    seq(|allocations|, i requires 0 <= i < |allocations| => allocations[i].ticker)
  }

  function AllocatedFractions(allocations: seq<TickerAndFraction>): seq<real>
  {
    seq(|allocations|, i requires 0 <= i < |allocations| => allocations[i].fraction)
  }

  /** The two columns of the allocations are the portfolio's tickers and its
      fractions, so no company is lost, added or reordered. */
  lemma AllocationsColumns(p: ModelPortfolio.Portfolio)
    ensures AllocatedFractions(Allocations(p)) == Constraint.Fractions(p)
    ensures AllocatedTickers(Allocations(p)) ==
      ModelPortfolio.Tickers(seq(|p.companies|, i requires 0 <= i < |p.companies| => p.companies[i].company))
  {
  }

  /** `allocate`: the gate, the filter, the allocation of the kept
      candidates, and the response; the analysis part of the response is
      all zeros. */
  function Allocate(candidates: seq<ModelCompany.Company>,
                    kellyAllocate: seq<ModelCompany.Company> -> ModelPortfolio.Portfolio): (r: Outcome<CompleteResult, Panic>)
    requires ModelPortfolio.PricedCompanies(candidates)
    ensures r.Panics? <==> AnyProblem(candidates)
    ensures r.Panics? ==> r.reason == FoundValidationErrors(ModelPortfolio.ValidateCandidates(candidates))
    ensures r.Returns? ==>
      r.value.resultingPortfolio.allocations == Allocations(kellyAllocate(FilterPositive(candidates)))
    ensures r.Returns? ==>
      var analysis := r.value.resultingAnalysis;
      analysis.worstCaseOutcome.probability == 0.0 && analysis.worstCaseOutcome.weightedReturn == 0.0 &&
      analysis.cumulativeProbabilityOfLoss == 0.0 && analysis.expectedValue == 0.0
  {
    match Gate(candidates)
    case Panics(reason) => Panics(reason)
    case Returns(valid) =>
      var portfolio := kellyAllocate(FilterPositive(valid));
      Returns(CompleteResult(
        AllocationResult(Allocations(portfolio)),
        AnalysisResult(ProbabilityAndReturn(0.0, 0.0), 0.0, 0.0)))
  }
}
