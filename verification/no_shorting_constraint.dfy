/** The no-shorting constraint (src/constraints/no_shorting_constraint.rs):
    the same condition as the long-only constraint, built without a range
    check, so the index must be in range for every use. */
module NoShortingConstraint {

  import opened Sequences
  import opened Constraint
  import ModelPortfolio
  import LongOnlyConstraint

  datatype NoShortingConstraint = NoShortingConstraint(fractionIndex: nat)

  /** `d_constraint_d_fractions`: -1 for the constrained company, 0 for
      every other. */
  function Derivative(c: NoShortingConstraint, p: ModelPortfolio.Portfolio): (d: seq<real>)
    requires c.fractionIndex < |p.companies|
    ensures |d| == |p.companies| && d[c.fractionIndex] == -1.0
    ensures forall j :: 0 <= j < |d| && j != c.fractionIndex ==> d[j] == 0.0
  {
    var d := seq(|p.companies|, j requires 0 <= j < |p.companies| => 0.0);
    d[c.fractionIndex := -1.0]
  }

  /** `function_value`. */
  function FunctionValue(c: NoShortingConstraint, p: ModelPortfolio.Portfolio, slack: real): real
    requires c.fractionIndex < |p.companies|
  {
    -p.companies[c.fractionIndex].fraction + slack
  }

  /** For the same index the no-shorting and long-only constraints have the
      same derivative and the same function value. */
  lemma AgreesWithLongOnly(c: NoShortingConstraint, p: ModelPortfolio.Portfolio, slack: real)
    requires c.fractionIndex < |p.companies|
    ensures Derivative(c, p) == LongOnlyConstraint.Derivative(LongOnlyConstraint.LongOnlyConstraint(c.fractionIndex), p)
    ensures FunctionValue(c, p, slack) ==
      LongOnlyConstraint.FunctionValue(LongOnlyConstraint.LongOnlyConstraint(c.fractionIndex), p, slack)
  {
    var d := Derivative(c, p);
    var e := LongOnlyConstraint.Derivative(LongOnlyConstraint.LongOnlyConstraint(c.fractionIndex), p);
    assert forall j :: 0 <= j < |d| ==> d[j] == e[j];
  }

  /** The function value is the derivative's linear form plus the slack. */
  lemma ValueIsLinear(c: NoShortingConstraint, p: ModelPortfolio.Portfolio, slack: real)
    requires c.fractionIndex < |p.companies|
    ensures FunctionValue(c, p, slack) == Dot(Derivative(c, p), Fractions(p)) + slack
  {
    DotSparse(Derivative(c, p), Fractions(p), c.fractionIndex);
  }
}
