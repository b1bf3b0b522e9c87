/** The capital loss constraint (src/constraints/capital_loss_constraint.rs):
    the fraction-weighted worst-case returns may lose at most
    `probabilityOfLoss * fractionOfCapital`. Unlike the maximum capital loss
    constraint the derivative is not negated. */
module CapitalLossConstraint {

  import opened Common
  import opened Sequences
  import opened Constraint
  import ModelPortfolio

  datatype CapitalLossConstraint = CapitalLossConstraint(fractionOfCapital: real, probabilityOfLoss: real)

  /** `d_constraint_d_fractions`: each company's worst weighted return, or a
      panic for the first company without scenarios. */
  function Derivative(c: CapitalLossConstraint, p: ModelPortfolio.Portfolio): (r: Outcome<seq<real>, Panic>)
    requires Priced(p)
    ensures r.Panics? <==> exists i :: 0 <= i < |p.companies| && |p.companies[i].company.scenarios| == 0
    ensures r.Returns? ==> |r.value| == |p.companies| && forall i :: 0 <= i < |p.companies| ==>
      WorstWeightedReturn(p.companies[i].company) == Some(r.value[i])
  {
    WorstWeightedReturns(p)
  }

  /** `function_value`: the derivative's linear form, less the tolerated
      loss, plus the slack. */
  function FunctionValue(c: CapitalLossConstraint, p: ModelPortfolio.Portfolio, slack: real)
    : (r: Outcome<real, Panic>)
    requires Priced(p)
    ensures r.Panics? <==> Derivative(c, p).Panics?
  {
    match Derivative(c, p)
    case Panics(reason) => Panics(reason)
    case Returns(d) => Returns(Dot(d, Fractions(p)) - c.probabilityOfLoss * c.fractionOfCapital + slack)
  }

  /** `is_satisfied`: the function value without slack is at most 0. */
  function IsSatisfied(c: CapitalLossConstraint, p: ModelPortfolio.Portfolio): (r: Outcome<bool, Panic>)
    requires Priced(p)
    ensures r.Panics? <==> Derivative(c, p).Panics?
    ensures r.Returns? ==> (r.value <==> FunctionValue(c, p, 0.0).value <= 0.0)
  {
    match FunctionValue(c, p, 0.0)
    case Panics(reason) => Panics(reason)
    case Returns(v) => Returns(v <= 0.0)
  }

  /** The constraint is satisfied exactly when the fraction-weighted worst
      case is at most the tolerated loss. */
  lemma SatisfiedIffWithinTolerance(c: CapitalLossConstraint, p: ModelPortfolio.Portfolio)
    requires Priced(p) && Derivative(c, p).Returns?
    ensures IsSatisfied(c, p).Returns?
    ensures IsSatisfied(c, p).value <==>
      Dot(Derivative(c, p).value, Fractions(p)) <= c.probabilityOfLoss * c.fractionOfCapital
  {
    var t := Dot(Derivative(c, p).value, Fractions(p));
    var loss := c.probabilityOfLoss * c.fractionOfCapital;
    FunctionValueDefined(c, p, 0.0);
    AtMostZero(t, loss);
  }

  /** Where the derivative exists the function value is its linear form
      less the tolerated loss, plus the slack. */
  lemma FunctionValueDefined(c: CapitalLossConstraint, p: ModelPortfolio.Portfolio, slack: real)
    requires Priced(p) && Derivative(c, p).Returns?
    ensures FunctionValue(c, p, slack).Returns?
    ensures FunctionValue(c, p, slack).value ==
      Dot(Derivative(c, p).value, Fractions(p)) - c.probabilityOfLoss * c.fractionOfCapital + slack
  {
  }

  lemma AtMostZero(t: real, bound: real)
    ensures t - bound + 0.0 <= 0.0 <==> t <= bound
  {
  }
}
