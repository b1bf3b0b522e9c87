/** The maximum capital loss constraint
    (src/constraints/maximum_capital_loss_constraint.rs): the portfolio's
    worst-case probability-weighted return, summed over the companies, may
    not fall below a (non-positive) bound. */
module MaximumCapitalLossConstraint {

  import opened Common
  import opened Sequences
  import opened Constraint
  import ModelPortfolio

  /** The bound is probability times the fraction of capital lost, negated:
      a loss is negative by convention. */
  datatype MaxCapitalLossConstraint = MaxCapitalLossConstraint(probabilityTimesFractionOfCapitalLost: real)

  /** `new`: a positive bound is rejected first, then one below -1; exactly
      [-1, 0] is accepted. */
  function New(probabilityTimesCapitalLost: real): (r: Outcome<MaxCapitalLossConstraint, Panic>)
    ensures r.Returns? <==> -1.0 <= probabilityTimesCapitalLost <= 0.0
    ensures probabilityTimesCapitalLost > 0.0 ==> r == Panics(PositiveCapitalLoss(probabilityTimesCapitalLost))
    ensures probabilityTimesCapitalLost < -1.0 ==> r == Panics(CapitalLossBelowMinusOne(probabilityTimesCapitalLost))
    ensures r.Returns? ==> r.value.probabilityTimesFractionOfCapitalLost == probabilityTimesCapitalLost
  {
    if probabilityTimesCapitalLost > 0.0 then Panics(PositiveCapitalLoss(probabilityTimesCapitalLost))
    else if probabilityTimesCapitalLost < -1.0 then Panics(CapitalLossBelowMinusOne(probabilityTimesCapitalLost))
    else Returns(MaxCapitalLossConstraint(probabilityTimesCapitalLost))
  }

  /** `d_constraint_d_fractions`: minus each company's worst weighted
      return, or a panic for the first company without scenarios. */
  function Derivative(c: MaxCapitalLossConstraint, p: ModelPortfolio.Portfolio): (r: Outcome<seq<real>, Panic>)
    requires Priced(p)
    ensures r.Panics? <==> exists i :: 0 <= i < |p.companies| && |p.companies[i].company.scenarios| == 0
    ensures r.Panics? ==> r == WorstWeightedReturns(p)
    ensures r.Returns? ==> |r.value| == |p.companies| && forall i :: 0 <= i < |p.companies| ==>
      WorstWeightedReturn(p.companies[i].company) == Some(-r.value[i])
  {
    match WorstWeightedReturns(p)
    case Panics(reason) => Panics(reason)
    case Returns(worst) => Returns(Negate(worst))
  }

  /** `function_value`: the derivative's linear form plus the bound and the
      slack; it panics when the derivative does. */
  function FunctionValue(c: MaxCapitalLossConstraint, p: ModelPortfolio.Portfolio, slack: real)
    : (r: Outcome<real, Panic>)
    requires Priced(p)
    ensures r.Panics? <==> Derivative(c, p).Panics?
  {
    match Derivative(c, p)
    case Panics(reason) => Panics(reason)
    case Returns(d) => Returns(Dot(d, Fractions(p)) + c.probabilityTimesFractionOfCapitalLost + slack)
  }

  /** Without slack the constraint holds exactly when the fraction-weighted
      sum of the worst-case returns is at least the bound. */
  lemma SatisfiedIffWorstCaseAboveBound(c: MaxCapitalLossConstraint, p: ModelPortfolio.Portfolio)
    requires Priced(p) && WorstWeightedReturns(p).Returns?
    ensures FunctionValue(c, p, 0.0).Returns?
    ensures FunctionValue(c, p, 0.0).value <= 0.0 <==>
      Dot(WorstWeightedReturns(p).value, Fractions(p)) >= c.probabilityTimesFractionOfCapitalLost
  {
    DotNegate(WorstWeightedReturns(p).value, Fractions(p));
  }
}
