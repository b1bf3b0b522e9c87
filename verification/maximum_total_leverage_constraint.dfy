/** The maximum total leverage constraint
    (src/constraints/maximum_total_leverage_constraint.rs): the fractions may
    add up to at most 1 plus the leverage ratio (0 meaning no leverage). */
module MaximumTotalLeverageConstraint {

  import opened Common
  import opened Sequences
  import opened Constraint
  import ModelPortfolio

  datatype MaximumTotalLeverageConstraint = MaximumTotalLeverageConstraint(maxLeverageRatio: real)

  /** `new`: a negative ratio is rejected; 0 is accepted. */
  function New(maxLeverageRatio: real): (r: Outcome<MaximumTotalLeverageConstraint, Panic>)
    ensures r.Returns? <==> maxLeverageRatio >= 0.0
    ensures r.Panics? ==> r.reason == NegativeMaximumLeverage(maxLeverageRatio)
    ensures r.Returns? ==> r.value.maxLeverageRatio == maxLeverageRatio
  {
    if maxLeverageRatio < 0.0 then Panics(NegativeMaximumLeverage(maxLeverageRatio))
    else Returns(MaximumTotalLeverageConstraint(maxLeverageRatio))
  }

  /** `d_constraint_d_fractions`: 1 for every company. */
  function Derivative(c: MaximumTotalLeverageConstraint, p: ModelPortfolio.Portfolio): (d: seq<real>)
    ensures |d| == |p.companies| && forall j :: 0 <= j < |d| ==> d[j] == 1.0
  {
    Ones(|p.companies|)
  }

  /** `function_value`, computed through the derivative. */
  function FunctionValue(c: MaximumTotalLeverageConstraint, p: ModelPortfolio.Portfolio, slack: real): real
  {
    Dot(Derivative(c, p), Fractions(p)) + slack - c.maxLeverageRatio - 1.0
  }

  /** The function value is the total exposure (the sum of the fractions)
      plus the slack, less 1 plus the ratio. */
  lemma ValueIsTotalExposure(c: MaximumTotalLeverageConstraint, p: ModelPortfolio.Portfolio, slack: real)
    ensures FunctionValue(c, p, slack) == Sum(Fractions(p)) + slack - c.maxLeverageRatio - 1.0
  {
    DotOnes(Fractions(p));
  }

  /** Without slack the constraint holds exactly when the fractions add up
      to at most 1 plus the ratio; with ratio 0 that is no leverage at all. */
  lemma SatisfiedIffWithinLeverage(c: MaximumTotalLeverageConstraint, p: ModelPortfolio.Portfolio)
    ensures FunctionValue(c, p, 0.0) <= 0.0 <==> Sum(Fractions(p)) <= 1.0 + c.maxLeverageRatio
  {
    ValueIsTotalExposure(c, p, 0.0);
  }
}
