/** The long-only constraint (src/constraints/long_only_constraint.rs):
    one company's fraction may not go negative, so it cannot be shorted. */
module LongOnlyConstraint {

  import opened Common
  import opened Sequences
  import opened Constraint
  import ModelPortfolio

  datatype LongOnlyConstraint = LongOnlyConstraint(fractionIndex: nat)

  /** `new`: the index must name one of the `nCompanies` companies. With no
      companies `nCompanies - 1` underflows in Rust, so at least one is
      required. */
  function New(fractionIndex: nat, nCompanies: nat): (r: Outcome<LongOnlyConstraint, Panic>)
    requires nCompanies >= 1
    ensures r.Panics? <==> fractionIndex >= nCompanies
    ensures r.Panics? ==> r.reason == CompanyIndexOutOfRange(fractionIndex, nCompanies)
    ensures r.Returns? ==> r.value.fractionIndex == fractionIndex
  {
    if fractionIndex > nCompanies - 1 then Panics(CompanyIndexOutOfRange(fractionIndex, nCompanies))
    else Returns(LongOnlyConstraint(fractionIndex))
  }

  /** `d_constraint_d_fractions`: -1 for the constrained company, 0 for
      every other. */
  function Derivative(c: LongOnlyConstraint, p: ModelPortfolio.Portfolio): (d: seq<real>)
    requires c.fractionIndex < |p.companies|
    ensures |d| == |p.companies| && d[c.fractionIndex] == -1.0
    ensures forall j :: 0 <= j < |d| && j != c.fractionIndex ==> d[j] == 0.0
  {
    UnitVector(|p.companies|, c.fractionIndex, -1.0)
  }

  /** `function_value`. */
  function FunctionValue(c: LongOnlyConstraint, p: ModelPortfolio.Portfolio, slack: real): real
    requires c.fractionIndex < |p.companies|
  {
    -p.companies[c.fractionIndex].fraction + slack
  }

  /** The function value is the linear form given by the derivative, plus
      the slack; in particular no other company's fraction affects it. */
  lemma ValueIsLinear(c: LongOnlyConstraint, p: ModelPortfolio.Portfolio, slack: real)
    requires c.fractionIndex < |p.companies|
    ensures FunctionValue(c, p, slack) == Dot(Derivative(c, p), Fractions(p)) + slack
  {
    DotUnitVector(|p.companies|, c.fractionIndex, -1.0, Fractions(p));
  }

  /** Without slack the constraint holds (value at most 0) exactly when the
      constrained fraction is not negative. */
  lemma SatisfiedIffNotShort(c: LongOnlyConstraint, p: ModelPortfolio.Portfolio)
    requires c.fractionIndex < |p.companies|
    ensures Dot(Derivative(c, p), Fractions(p)) <= 0.0 <==> p.companies[c.fractionIndex].fraction >= 0.0
  {
    ValueIsLinear(c, p, 0.0);
  }
}
