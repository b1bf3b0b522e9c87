/** The maximum individual allocation constraint
    (src/constraints/maximum_individual_allocation_constraint.rs): an upper
    bound on one company's fraction. */
module MaximumIndividualAllocationConstraint {

  import opened Common
  import opened Sequences
  import opened Constraint
  import ModelPortfolio

  datatype MaximumIndividualAllocationConstraint =
    MaximumIndividualAllocationConstraint(fractionIndex: nat, maxAllocationFraction: real)

  /** `new`: a negative maximum is rejected first, then an index outside
      the `nCompanies` companies (at least one, as `nCompanies - 1` would
      underflow). */
  function New(fractionIndex: nat, maxAllocationFraction: real, nCompanies: nat)
    : (r: Outcome<MaximumIndividualAllocationConstraint, Panic>)
    requires nCompanies >= 1
    ensures r.Returns? <==> maxAllocationFraction >= 0.0 && fractionIndex < nCompanies
    ensures maxAllocationFraction < 0.0 ==> r == Panics(NegativeMaximumAllocation(maxAllocationFraction))
    ensures maxAllocationFraction >= 0.0 && fractionIndex >= nCompanies ==>
      r == Panics(CompanyIndexOutOfRange(fractionIndex, nCompanies))
    ensures r.Returns? ==>
      r.value.fractionIndex == fractionIndex && r.value.maxAllocationFraction == maxAllocationFraction
  {
    if maxAllocationFraction < 0.0 then Panics(NegativeMaximumAllocation(maxAllocationFraction))
    else if fractionIndex > nCompanies - 1 then Panics(CompanyIndexOutOfRange(fractionIndex, nCompanies))
    else Returns(MaximumIndividualAllocationConstraint(fractionIndex, maxAllocationFraction))
  }

  /** `d_constraint_d_fractions`: +1 for the constrained company, 0 for
      every other. */
  function Derivative(c: MaximumIndividualAllocationConstraint, p: ModelPortfolio.Portfolio): (d: seq<real>)
    requires c.fractionIndex < |p.companies|
    ensures |d| == |p.companies| && d[c.fractionIndex] == 1.0
    ensures forall j :: 0 <= j < |d| && j != c.fractionIndex ==> d[j] == 0.0
  {
    UnitVector(|p.companies|, c.fractionIndex, 1.0)
  }

  /** `function_value`. */
  function FunctionValue(c: MaximumIndividualAllocationConstraint, p: ModelPortfolio.Portfolio, slack: real): real
    requires c.fractionIndex < |p.companies|
  {
    p.companies[c.fractionIndex].fraction + slack - c.maxAllocationFraction
  }

  /** The function value is the derivative's linear form, plus the slack,
      minus the maximum. */
  lemma ValueIsLinear(c: MaximumIndividualAllocationConstraint, p: ModelPortfolio.Portfolio, slack: real)
    requires c.fractionIndex < |p.companies|
    ensures FunctionValue(c, p, slack) == Dot(Derivative(c, p), Fractions(p)) + slack - c.maxAllocationFraction
  {
    DotUnitVector(|p.companies|, c.fractionIndex, 1.0, Fractions(p));
  }

  /** Without slack the constraint holds exactly when the constrained
      fraction is at most the maximum. */
  lemma SatisfiedIffWithinMaximum(c: MaximumIndividualAllocationConstraint, p: ModelPortfolio.Portfolio)
    requires c.fractionIndex < |p.companies|
    ensures Dot(Derivative(c, p), Fractions(p)) - c.maxAllocationFraction <= 0.0 <==>
      p.companies[c.fractionIndex].fraction <= c.maxAllocationFraction
  {
    ValueIsLinear(c, p, 0.0);
  }
}
