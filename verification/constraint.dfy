/** The vocabulary the inequality constraints share
    (src/constraints/constraint.rs): a constraint contributes a derivative
    with respect to the allocation fractions and a function value, both read
    off a portfolio. */
module Constraint {

  import opened Common
  import ModelScenario
  import ModelCompany
  import ModelPortfolio

  /** Why a constraint constructor or a derivative panics. */
  datatype Panic =
    | CompanyIndexOutOfRange(index: nat, nCompanies: nat)
    | NegativeMaximumAllocation(maxAllocation: real)
    | NegativeMaximumLeverage(maxLeverage: real)
    | PositiveCapitalLoss(bound: real)
    | CapitalLossBelowMinusOne(bound: real)
    | NoWorstCaseScenario(ticker: string)

  /** The allocation fractions of a portfolio, company by company. */
  function Fractions(p: ModelPortfolio.Portfolio): (f: seq<real>)
    ensures |f| == |p.companies|
    ensures forall i :: 0 <= i < |f| ==> f[i] == p.companies[i].fraction
  {
    seq(|p.companies|, i requires 0 <= i < |p.companies| => p.companies[i].fraction)
  }

  /** Every company of the portfolio has a positive market cap. */
  predicate Priced(p: ModelPortfolio.Portfolio)
  {
    forall i :: 0 <= i < |p.companies| ==> p.companies[i].company.marketCap > 0.0
  }

  /** The smallest probability-weighted return over a company's scenarios,
      absent when there are none (`min` over `OrderedFloat`s). */
  function WorstWeightedReturn(c: ModelCompany.Company): (m: Option<real>)
    requires c.marketCap > 0.0
    ensures m.None? <==> |c.scenarios| == 0
    ensures m.Some? ==> (exists i :: 0 <= i < |c.scenarios| &&
                          m.value == ModelScenario.ProbabilityWeightedReturn(c.scenarios[i], c.marketCap))
    ensures m.Some? ==> forall i :: 0 <= i < |c.scenarios| ==>
      m.value <= ModelScenario.ProbabilityWeightedReturn(c.scenarios[i], c.marketCap)
    decreases |c.scenarios|
  {
    if |c.scenarios| == 0 then None
    else
      var head := ModelScenario.ProbabilityWeightedReturn(c.scenarios[0], c.marketCap);
      var rest := c.(scenarios := c.scenarios[1..]);
      var tail := WorstWeightedReturn(rest);
      assert forall i :: 1 <= i < |c.scenarios| ==> c.scenarios[i] == rest.scenarios[i - 1];
      if tail.Some? && tail.value < head then tail else Some(head)
  }

  /** The worst weighted return of every company, in portfolio order, or a
      panic naming the first company without scenarios. */
  function WorstWeightedReturns(p: ModelPortfolio.Portfolio): (r: Outcome<seq<real>, Panic>)
    requires Priced(p)
    ensures r.Panics? <==> exists i :: 0 <= i < |p.companies| && |p.companies[i].company.scenarios| == 0
    ensures r.Panics? ==> (exists i :: 0 <= i < |p.companies| &&
                             |p.companies[i].company.scenarios| == 0 &&
                             r.reason == NoWorstCaseScenario(p.companies[i].company.ticker) &&
                             forall j :: 0 <= j < i ==> |p.companies[j].company.scenarios| > 0)
    ensures r.Returns? ==> |r.value| == |p.companies| && forall i :: 0 <= i < |p.companies| ==>
      WorstWeightedReturn(p.companies[i].company) == Some(r.value[i])
    decreases |p.companies|
  {
    if |p.companies| == 0 then Returns([])
    else
      var first := p.companies[0].company;
      var rest := ModelPortfolio.Portfolio(p.companies[1..]);
      assert forall i :: 1 <= i < |p.companies| ==> p.companies[i] == rest.companies[i - 1];
      match WorstWeightedReturn(first)
      case None => Panics(NoWorstCaseScenario(first.ticker))
      case Some(m) =>
        match WorstWeightedReturns(rest)
        case Panics(reason) => Panics(reason)
        case Returns(tail) => Returns([m] + tail)
  }
}
