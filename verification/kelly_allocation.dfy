/** The Kelly allocator around its numerical solver
    (src/kelly_allocation.rs): a builder that collects inequality
    constraints, each kind at most once, and the case analysis of
    `allocate`, which solves one system per pattern of active and inactive
    constraints and keeps the viable solutions. The Newton-Raphson solver
    itself is a parameter. */
module KellyAllocation {

  import opened Common
  import opened MixedRadix
  import Constraint
  import ModelCompany
  import ModelCapitalLoss
  import ModelPortfolio
  import Analysis
  import LongOnlyConstraint
  import MaximumIndividualAllocationConstraint
  import MaximumTotalLeverageConstraint
  import MaximumCapitalLossConstraint

  /** `MAX_ITER`: the default iteration budget of the solver. */
  const MAX_ITER: nat := 100

  /** At most `2^MAX_CONSTRAINTS` systems are solved. */
  const MAX_CONSTRAINTS: nat := 22

  const LOSS_NEEDS_LONG_ONLY: string := "maximum-capital-loss-constraint-works-only-with-long-only-strategy"
  const TOO_MANY_SYSTEMS: string := "refusing-to-solve-more-than-4194304-systems"
  const NO_VIABLE_SOLUTION: string := "did-not-find-a-single-viable-solution"

  /** The boxed `dyn InequalityConstraint`s the allocator holds. */
  datatype InequalityConstraint =
    | LongOnly(longOnly: LongOnlyConstraint.LongOnlyConstraint)
    | MaxTotalLeverage(leverage: MaximumTotalLeverageConstraint.MaximumTotalLeverageConstraint)
    | MaxIndividualAllocation(individual: MaximumIndividualAllocationConstraint.MaximumIndividualAllocationConstraint)
    | MaxCapitalLoss(capitalLoss: MaximumCapitalLossConstraint.MaxCapitalLossConstraint)

  /** `KellyAllocator`: the constraints so far and one flag per kind. The
      logger is left out. */
  datatype KellyAllocator = KellyAllocator(
    maxIter: nat,
    constraints: seq<InequalityConstraint>,
    hasLongOnly: bool,
    hasMaxTotalLeverage: bool,
    hasMaxIndividualAllocation: bool,
    hasMaxPermanentLoss: bool)

  /** Why a builder panics. */
  datatype Panic =
    | LongOnlyAlreadySet
    | MaxTotalLeverageAlreadySet
    | MaxIndividualAllocationAlreadySet
    | MaxPermanentLossAlreadySet
    | NoCandidates(nCandidates: nat)
    | ConstraintPanics(reason: Constraint.Panic)

  /** Each flag is set exactly when a constraint of its kind is held. */
  predicate Tracks(a: KellyAllocator)
  {
    && (a.hasLongOnly <==> exists i :: 0 <= i < |a.constraints| && a.constraints[i].LongOnly?)
    && (a.hasMaxTotalLeverage <==> exists i :: 0 <= i < |a.constraints| && a.constraints[i].MaxTotalLeverage?)
    && (a.hasMaxIndividualAllocation <==>
          exists i :: 0 <= i < |a.constraints| && a.constraints[i].MaxIndividualAllocation?)
    && (a.hasMaxPermanentLoss <==> exists i :: 0 <= i < |a.constraints| && a.constraints[i].MaxCapitalLoss?)
  }

  /** `new`: no constraints and no flag set. */
  function New(maxIter: nat): (a: KellyAllocator)
    ensures Tracks(a) && |a.constraints| == 0 && a.maxIter == maxIter
  {
    KellyAllocator(maxIter, [], false, false, false, false)
  }

  /** `with_long_only_constraints`: one long-only constraint per candidate,
      for indices `0 .. nCandidates - 1` in order. */
  function WithLongOnlyConstraints(a: KellyAllocator, nCandidates: nat): (r: Outcome<KellyAllocator, Panic>)
    ensures r.Panics? <==> a.hasLongOnly || nCandidates < 1
    ensures a.hasLongOnly ==> r == Panics(LongOnlyAlreadySet)
    ensures !a.hasLongOnly && nCandidates < 1 ==> r == Panics(NoCandidates(nCandidates))
    ensures r.Returns? ==> var b := r.value;
      && b.hasLongOnly && b.maxIter == a.maxIter
      && b.hasMaxTotalLeverage == a.hasMaxTotalLeverage
      && b.hasMaxIndividualAllocation == a.hasMaxIndividualAllocation
      && b.hasMaxPermanentLoss == a.hasMaxPermanentLoss
      && |b.constraints| == |a.constraints| + nCandidates
      && b.constraints[..|a.constraints|] == a.constraints
      && forall i :: 0 <= i < nCandidates ==>
           b.constraints[|a.constraints| + i].LongOnly? &&
           LongOnlyConstraint.New(i, nCandidates) == Returns(b.constraints[|a.constraints| + i].longOnly)
    ensures r.Returns? && Tracks(a) ==> Tracks(r.value)
  {
    if a.hasLongOnly then Panics(LongOnlyAlreadySet)
    else if nCandidates < 1 then Panics(NoCandidates(nCandidates))
    else
      var added := LongOnlyBlock(nCandidates);
      var b := a.(constraints := a.constraints + added, hasLongOnly := true);
      AppendConstraints(a.constraints, added);
      assert Tracks(a) ==> Tracks(b) by {
        if Tracks(a) { TracksAfterLongOnly(a, added); }
      }
      Returns(b)
  }

  /** Appending long-only constraints and setting the long-only flag keeps
      every flag in step with the constraints held. */
  lemma TracksAfterLongOnly(a: KellyAllocator, added: seq<InequalityConstraint>)
    requires Tracks(a) && |added| > 0 && forall i :: 0 <= i < |added| ==> added[i].LongOnly?
    ensures Tracks(a.(constraints := a.constraints + added, hasLongOnly := true))
  {
    var c := a.constraints + added;
    AppendConstraints(a.constraints, added);
    assert c[|a.constraints|].LongOnly?;
    assert forall i :: 0 <= i < |c| && !c[i].LongOnly? ==> i < |a.constraints|;
  }

  /** The long-only constraints of indices `0 .. n - 1`, in order. */
  function LongOnlyBlock(n: nat): (added: seq<InequalityConstraint>)
    requires n >= 1
    ensures |added| == n
    ensures forall i :: 0 <= i < n ==>
      added[i].LongOnly? && LongOnlyConstraint.New(i, n) == Returns(added[i].longOnly)
  {
    seq(n, i requires 0 <= i < n => LongOnly(LongOnlyConstraint.New(i, n).value))
  }

  /** Appending keeps the held constraints in front and the added ones
      after them, in order. */
  lemma AppendConstraints(held: seq<InequalityConstraint>, added: seq<InequalityConstraint>)
    ensures (held + added)[..|held|] == held
    ensures forall i :: 0 <= i < |held| ==> (held + added)[i] == held[i]
    ensures forall i :: 0 <= i < |added| ==> (held + added)[|held| + i] == added[i]
  {
  }

  /** `with_maximum_total_leverage_constraint`: one constraint bounding the
      sum of the fractions. */
  function WithMaximumTotalLeverageConstraint(a: KellyAllocator, nCandidates: nat, maxTotalLeverage: real)
    : (r: Outcome<KellyAllocator, Panic>)
    ensures r.Panics? <==> a.hasMaxTotalLeverage || nCandidates < 1 || maxTotalLeverage < 0.0
    ensures a.hasMaxTotalLeverage ==> r == Panics(MaxTotalLeverageAlreadySet)
    ensures !a.hasMaxTotalLeverage && nCandidates < 1 ==> r == Panics(NoCandidates(nCandidates))
    ensures !a.hasMaxTotalLeverage && nCandidates >= 1 && maxTotalLeverage < 0.0 ==>
      r == Panics(ConstraintPanics(Constraint.NegativeMaximumLeverage(maxTotalLeverage)))
    ensures r.Returns? ==> var b := r.value;
      && b.hasMaxTotalLeverage && b.maxIter == a.maxIter
      && b.hasLongOnly == a.hasLongOnly
      && b.hasMaxIndividualAllocation == a.hasMaxIndividualAllocation
      && b.hasMaxPermanentLoss == a.hasMaxPermanentLoss
      && |b.constraints| == |a.constraints| + 1
      && b.constraints[..|a.constraints|] == a.constraints
      && b.constraints[|a.constraints|].MaxTotalLeverage?
      && MaximumTotalLeverageConstraint.New(maxTotalLeverage) == Returns(b.constraints[|a.constraints|].leverage)
    ensures r.Returns? && Tracks(a) ==> Tracks(r.value)
  {
    if a.hasMaxTotalLeverage then Panics(MaxTotalLeverageAlreadySet)
    else if nCandidates < 1 then Panics(NoCandidates(nCandidates))
    else match MaximumTotalLeverageConstraint.New(maxTotalLeverage)
      case Panics(reason) => Panics(ConstraintPanics(reason))
      case Returns(c) =>
        var b := a.(constraints := a.constraints + [MaxTotalLeverage(c)], hasMaxTotalLeverage := true);
        assert b.constraints[|a.constraints|].MaxTotalLeverage?;
        assert forall i :: 0 <= i < |a.constraints| ==> b.constraints[i] == a.constraints[i];
        Returns(b)
  }

  /** `with_maximum_individual_allocation_constraint`: one constraint per
      candidate, for indices `0 .. nCandidates - 1` in order. A negative
      maximum makes the first constructor call panic. */
  function WithMaximumIndividualAllocationConstraint(a: KellyAllocator, nCandidates: nat, maxAllocation: real)
    : (r: Outcome<KellyAllocator, Panic>)
    ensures r.Panics? <==> a.hasMaxIndividualAllocation || nCandidates < 1 || maxAllocation < 0.0
    ensures a.hasMaxIndividualAllocation ==> r == Panics(MaxIndividualAllocationAlreadySet)
    ensures !a.hasMaxIndividualAllocation && nCandidates < 1 ==> r == Panics(NoCandidates(nCandidates))
    ensures !a.hasMaxIndividualAllocation && nCandidates >= 1 && maxAllocation < 0.0 ==>
      r == Panics(ConstraintPanics(Constraint.NegativeMaximumAllocation(maxAllocation)))
    ensures r.Returns? ==> var b := r.value;
      && b.hasMaxIndividualAllocation && b.maxIter == a.maxIter
      && b.hasLongOnly == a.hasLongOnly
      && b.hasMaxTotalLeverage == a.hasMaxTotalLeverage
      && b.hasMaxPermanentLoss == a.hasMaxPermanentLoss
      && |b.constraints| == |a.constraints| + nCandidates
      && b.constraints[..|a.constraints|] == a.constraints
      && forall i :: 0 <= i < nCandidates ==>
           b.constraints[|a.constraints| + i].MaxIndividualAllocation? &&
           MaximumIndividualAllocationConstraint.New(i, maxAllocation, nCandidates) ==
             Returns(b.constraints[|a.constraints| + i].individual)
    ensures r.Returns? && Tracks(a) ==> Tracks(r.value)
  {
    if a.hasMaxIndividualAllocation then Panics(MaxIndividualAllocationAlreadySet)
    else if nCandidates < 1 then Panics(NoCandidates(nCandidates))
    else match MaximumIndividualAllocationConstraint.New(0, maxAllocation, nCandidates)
      case Panics(reason) => Panics(ConstraintPanics(reason))
      case Returns(_) =>
        var added := seq(nCandidates, i requires 0 <= i < nCandidates =>
          MaxIndividualAllocation(MaximumIndividualAllocationConstraint.New(i, maxAllocation, nCandidates).value));
        var b := a.(constraints := a.constraints + added, hasMaxIndividualAllocation := true);
        assert b.constraints[|a.constraints|].MaxIndividualAllocation?;
        assert forall i :: 0 <= i < |a.constraints| ==> b.constraints[i] == a.constraints[i];
        assert forall i :: 0 <= i < nCandidates ==> b.constraints[|a.constraints| + i] == added[i];
        Returns(b)
  }

  /** `with_maximum_permanent_loss_constraint`: one constraint whose bound is
      the tolerated loss with a negative sign. */
  function WithMaximumPermanentLossConstraint(a: KellyAllocator, loss: ModelCapitalLoss.CapitalLoss)
    : (r: Outcome<KellyAllocator, Panic>)
    ensures var bound := -(loss.fractionOfCapital * loss.probabilityOfLoss);
      && (r.Panics? <==> a.hasMaxPermanentLoss || bound > 0.0 || bound < -1.0)
      && (a.hasMaxPermanentLoss ==> r == Panics(MaxPermanentLossAlreadySet))
      && (!a.hasMaxPermanentLoss && bound > 0.0 ==>
            r == Panics(ConstraintPanics(Constraint.PositiveCapitalLoss(bound))))
      && (!a.hasMaxPermanentLoss && bound < -1.0 ==>
            r == Panics(ConstraintPanics(Constraint.CapitalLossBelowMinusOne(bound))))
    ensures r.Returns? ==> var b := r.value;
      && b.hasMaxPermanentLoss && b.maxIter == a.maxIter
      && b.hasLongOnly == a.hasLongOnly
      && b.hasMaxTotalLeverage == a.hasMaxTotalLeverage
      && b.hasMaxIndividualAllocation == a.hasMaxIndividualAllocation
      && |b.constraints| == |a.constraints| + 1
      && b.constraints[..|a.constraints|] == a.constraints
      && b.constraints[|a.constraints|].MaxCapitalLoss?
      && b.constraints[|a.constraints|].capitalLoss.probabilityTimesFractionOfCapitalLost ==
           -(loss.fractionOfCapital * loss.probabilityOfLoss)
    ensures r.Returns? && Tracks(a) ==> Tracks(r.value)
  {
    if a.hasMaxPermanentLoss then Panics(MaxPermanentLossAlreadySet)
    else match MaximumCapitalLossConstraint.New(-(loss.fractionOfCapital * loss.probabilityOfLoss))
      case Panics(reason) => Panics(ConstraintPanics(reason))
      case Returns(c) =>
        var b := a.(constraints := a.constraints + [MaxCapitalLoss(c)], hasMaxPermanentLoss := true);
        assert b.constraints[|a.constraints|].MaxCapitalLoss?;
        assert forall i :: 0 <= i < |a.constraints| ==> b.constraints[i] == a.constraints[i];
        Returns(b)
  }

  /** A loss given by two numbers in (0, 1] always yields a bound the
      constraint accepts. */
  lemma ValidLossIsAccepted(a: KellyAllocator, loss: ModelCapitalLoss.CapitalLoss)
    requires !a.hasMaxPermanentLoss
    requires 0.0 <= loss.fractionOfCapital <= 1.0 && 0.0 <= loss.probabilityOfLoss <= 1.0
    ensures WithMaximumPermanentLossConstraint(a, loss).Returns?
  {
    var f, p := loss.fractionOfCapital, loss.probabilityOfLoss;
    assert 0.0 <= f * p;
    assert f * p <= p by {
      assert (1.0 - f) * p >= 0.0;
    }
    assert -1.0 <= -(f * p) <= 0.0;
  }

  // ---------------------------------------------------------------------
  // Constraint activity
  // ---------------------------------------------------------------------

  /** The activity of the `n` constraints in system `index`: constraint `c`
      is active when bit `c` of the index is set, least significant bit
      first. */
  function Activity(index: nat, n: nat): (active: seq<bool>)
    ensures |active| == n
  {
    seq(n, c requires 0 <= c < n => Digits(index, Binary(n))[c] == 1)
  }

  /** Constraint `c` is active exactly when `index / 2^c` is odd. */
  lemma ActivityBit(index: nat, n: nat, c: nat)
    requires c < n
    ensures Activity(index, n)[c] <==> (index / Pow2(c)) % 2 == 1
  {
    DigitAt(index, Binary(n), c);
    ProdBinary(n, c);
  }

  /** The `2^n` system indices visit every activity pattern exactly once. */
  lemma ActivityBijective(n: nat)
    ensures forall i, j :: 0 <= i < j < Pow2(n) ==> Activity(i, n) != Activity(j, n)
    ensures forall p: seq<bool> :: |p| == n ==> exists i :: 0 <= i < Pow2(n) && Activity(i, n) == p
  {
    var r := Binary(n);
    assert r[..n] == r;
    ProdBinary(n, n);
    DigitsBijective(r);
    forall i, j | 0 <= i < j < Pow2(n) ensures Activity(i, n) != Activity(j, n) {
      DigitsValid(i, r);
      DigitsValid(j, r);
      var di, dj := Digits(i, r), Digits(j, r);
      assert di != dj;
      var c :| 0 <= c < n && di[c] != dj[c];
      assert Activity(i, n)[c] != Activity(j, n)[c];
    }
    forall p: seq<bool> | |p| == n ensures exists i :: 0 <= i < Pow2(n) && Activity(i, n) == p {
      var d := seq(n, c requires 0 <= c < n => if p[c] then 1 else 0);
      assert Valid(d, r);
      var i := Value(d, r);
      assert Activity(i, n) == p;
    }
  }

  // ---------------------------------------------------------------------
  // Viable solutions
  // ---------------------------------------------------------------------

  /** The solver returns vectors of the system size: the fractions of the
      companies followed by one slack per constraint. */
  ghost predicate SolverSized(solve: seq<bool> -> Result<seq<real>>, nCompanies: nat, nConstraints: nat)
  {
    forall p: seq<bool> :: |p| == nConstraints && solve(p).Ok? ==> |solve(p).value| == nCompanies + nConstraints
  }

  /** A solution is viable when no inactive constraint has a slack below the
      tolerance. */
  predicate Viable(x: seq<real>, active: seq<bool>, nCompanies: nat)
    requires |x| == nCompanies + |active|
  {
    forall c :: 0 <= c < |active| ==> active[c] || x[nCompanies + c] >= TOLERANCE
  }

  /** System `index` was solved and its solution is viable. */
  predicate ViableAt(solve: seq<bool> -> Result<seq<real>>, nCompanies: nat, nConstraints: nat, index: nat)
    requires SolverSized(solve, nCompanies, nConstraints)
  {
    var active := Activity(index, nConstraints);
    solve(active).Ok? && Viable(solve(active).value, active, nCompanies)
  }

  /** The viable solutions of systems `0 .. upto - 1`, in index order: the
      list `allocate` collects. */
  function ViableSolutions(solve: seq<bool> -> Result<seq<real>>, nCompanies: nat, nConstraints: nat, upto: nat)
    : seq<seq<real>>
    requires SolverSized(solve, nCompanies, nConstraints)
  {
    if upto == 0 then []
    else
      var earlier := ViableSolutions(solve, nCompanies, nConstraints, upto - 1);
      if ViableAt(solve, nCompanies, nConstraints, upto - 1)
      then earlier + [solve(Activity(upto - 1, nConstraints)).value]
      else earlier
  }

  /** A vector is collected exactly when some system below `upto` produced
      it as a viable solution. */
  lemma {:induction false} ViableSolutionsCharacterized(
      solve: seq<bool> -> Result<seq<real>>, nCompanies: nat, nConstraints: nat, upto: nat, x: seq<real>)
    requires SolverSized(solve, nCompanies, nConstraints)
    ensures x in ViableSolutions(solve, nCompanies, nConstraints, upto) <==>
      exists i :: 0 <= i < upto && ViableAt(solve, nCompanies, nConstraints, i) &&
                  solve(Activity(i, nConstraints)).value == x
  {
    if upto > 0 {
      ViableSolutionsCharacterized(solve, nCompanies, nConstraints, upto - 1, x);
    }
  }

  /** Every collected vector has the system size. */
  lemma {:induction false} ViableSolutionsSized(
      solve: seq<bool> -> Result<seq<real>>, nCompanies: nat, nConstraints: nat, upto: nat)
    requires SolverSized(solve, nCompanies, nConstraints)
    ensures forall x :: x in ViableSolutions(solve, nCompanies, nConstraints, upto) ==>
      |x| == nCompanies + nConstraints
  {
    forall x | x in ViableSolutions(solve, nCompanies, nConstraints, upto)
      ensures |x| == nCompanies + nConstraints
    {
      ViableSolutionsCharacterized(solve, nCompanies, nConstraints, upto, x);
    }
  }

  // ---------------------------------------------------------------------
  // Choosing the best solution
  // ---------------------------------------------------------------------

  /** The candidates with the fractions read off a solution vector. */
  function WithFractions(candidates: seq<ModelCompany.Company>, x: seq<real>): (h: seq<ModelPortfolio.PortfolioCompany>)
    requires |x| >= |candidates|
    ensures |h| == |candidates|
    ensures forall i :: 0 <= i < |h| ==> h[i].company == candidates[i] && h[i].fraction == x[i]
    ensures ModelPortfolio.PricedCompanies(candidates) ==> Analysis.Priced(h)
  {
    seq(|candidates|, i requires 0 <= i < |candidates| => ModelPortfolio.PortfolioCompany(candidates[i], x[i]))
  }

  /** The expected return of the portfolio a solution describes. */
  function Score(candidates: seq<ModelCompany.Company>, x: seq<real>): real
    requires ModelPortfolio.PricedCompanies(candidates) && |x| >= |candidates|
  {
    Analysis.ExpectedReturn(WithFractions(candidates, x))
  }

  /** `max_by_key` on the expected return: the position of the last
      solution with the highest score. */
  function BestSolution(candidates: seq<ModelCompany.Company>, solutions: seq<seq<real>>): (k: nat)
    requires ModelPortfolio.PricedCompanies(candidates) && |solutions| > 0
    requires forall x :: x in solutions ==> |x| >= |candidates|
    ensures k < |solutions|
    ensures forall j :: 0 <= j < |solutions| ==> Score(candidates, solutions[j]) <= Score(candidates, solutions[k])
    ensures forall j :: k < j < |solutions| ==> Score(candidates, solutions[j]) < Score(candidates, solutions[k])
  {
    if |solutions| == 1 then 0
    else
      var n := |solutions| - 1;
      assert forall x :: x in solutions[..n] ==> x in solutions;
      var m := BestSolution(candidates, solutions[..n]);
      assert solutions[n] in solutions && solutions[..n][m] == solutions[m];
      if Score(candidates, solutions[n]) >= Score(candidates, solutions[m]) then n else m
  }

  // ---------------------------------------------------------------------
  // allocate
  // ---------------------------------------------------------------------

  /** The portfolio holds the candidates with the fractions of the viable
      solution of system `index`. */
  predicate SolutionOf(p: ModelPortfolio.Portfolio, candidates: seq<ModelCompany.Company>,
                       solve: seq<bool> -> Result<seq<real>>, nConstraints: nat, index: nat)
    requires SolverSized(solve, |candidates|, nConstraints)
  {
    && ViableAt(solve, |candidates|, nConstraints, index)
    && p.companies == WithFractions(candidates, solve(Activity(index, nConstraints)).value)
  }

  /** `n_systems`: `pow(2, n)` on a 64-bit `usize`. Up to the limit it is
      `2^n`; between the limit and 64 constraints it exceeds the limit; from
      64 constraints on it wraps to 0 (a release build does not check the
      overflow). */
  function SystemCount(nConstraints: nat): (r: nat)
    ensures nConstraints <= MAX_CONSTRAINTS ==> r == Pow2(nConstraints) <= Pow2(MAX_CONSTRAINTS)
    ensures MAX_CONSTRAINTS < nConstraints < 64 ==> r == Pow2(nConstraints) > Pow2(MAX_CONSTRAINTS)
    ensures nConstraints >= 64 ==> r == 0
  {
    Pow2Usize(nConstraints);
    Pow2StrictlyMonotonic(MAX_CONSTRAINTS, nConstraints);
    Pow2(nConstraints) % USIZE_MODULUS
  }

  /** `allocate` gets past its pre-checks. */
  predicate Proceeds<O>(a: KellyAllocator, outcomes: Result<O>)
  {
    !(a.hasMaxPermanentLoss && !a.hasLongOnly) && SystemCount(|a.constraints|) <= Pow2(MAX_CONSTRAINTS) && outcomes.Ok?
  }

  /** `allocate`, given the enumeration of outcomes (`all_outcomes`) and the
      solver (`solve_system`, a function of the activity pattern). It
      refuses a loss constraint without long-only, and more than `2^22`
      systems; otherwise it solves every system, keeps the viable solutions,
      and sets the fractions of the best one. */
  method Allocate<O>(a: KellyAllocator, candidates: seq<ModelCompany.Company>, outcomes: Result<O>,
                     solve: seq<bool> -> Result<seq<real>>)
    returns (r: Result<ModelPortfolio.Portfolio>)
    requires ModelPortfolio.PricedCompanies(candidates)
    requires SolverSized(solve, |candidates|, |a.constraints|)
    ensures a.hasMaxPermanentLoss && !a.hasLongOnly ==> r == Err(Error(LOSS_NEEDS_LONG_ONLY))
    ensures !(a.hasMaxPermanentLoss && !a.hasLongOnly) && MAX_CONSTRAINTS < |a.constraints| < 64 ==>
      r == Err(Error(TOO_MANY_SYSTEMS))
    ensures !(a.hasMaxPermanentLoss && !a.hasLongOnly) && !(MAX_CONSTRAINTS < |a.constraints| < 64) && outcomes.Err? ==>
      r == Err(outcomes.error)
    ensures Proceeds(a, outcomes) ==>
      (r.Err? <==> forall i :: 0 <= i < SystemCount(|a.constraints|) ==> !ViableAt(solve, |candidates|, |a.constraints|, i))
    ensures Proceeds(a, outcomes) && r.Err? ==> r.error == Error(NO_VIABLE_SOLUTION)
    ensures Proceeds(a, outcomes) && |a.constraints| >= 64 ==> r == Err(Error(NO_VIABLE_SOLUTION))
    ensures r.Ok? ==> Proceeds(a, outcomes) && |a.constraints| <= MAX_CONSTRAINTS
    ensures r.Ok? ==> exists i :: 0 <= i < Pow2(|a.constraints|) && SolutionOf(r.value, candidates, solve, |a.constraints|, i)
    ensures r.Ok? ==> forall i :: 0 <= i < Pow2(|a.constraints|) && ViableAt(solve, |candidates|, |a.constraints|, i) ==>
      Analysis.ExpectedReturn(WithFractions(candidates, solve(Activity(i, |a.constraints|)).value)) <=
      Analysis.ExpectedReturn(r.value.companies)
  {
    if a.hasMaxPermanentLoss && !a.hasLongOnly {
      return Err(Error(LOSS_NEEDS_LONG_ONLY));
    }
    var nConstraints := |a.constraints|;
    var nSystems := SystemCount(nConstraints);
    if nSystems > Pow2(MAX_CONSTRAINTS) {
      return Err(Error(TOO_MANY_SYSTEMS));
    }
    if outcomes.Err? {
      return Err(outcomes.error);
    }
    r := SolveAndChoose(candidates, solve, nConstraints, nSystems);
  }

  /** The part of `allocate` after its pre-checks: solve every system, keep
      the viable solutions, and set the fractions of the best one, or report
      that no system has a viable solution. */
  method SolveAndChoose(candidates: seq<ModelCompany.Company>, solve: seq<bool> -> Result<seq<real>>,
                        nConstraints: nat, nSystems: nat)
    returns (r: Result<ModelPortfolio.Portfolio>)
    requires ModelPortfolio.PricedCompanies(candidates)
    requires SolverSized(solve, |candidates|, nConstraints)
    ensures r.Err? <==> forall i :: 0 <= i < nSystems ==> !ViableAt(solve, |candidates|, nConstraints, i)
    ensures r.Err? ==> r.error == Error(NO_VIABLE_SOLUTION)
    ensures r.Ok? ==> exists i :: 0 <= i < nSystems && SolutionOf(r.value, candidates, solve, nConstraints, i)
    ensures r.Ok? ==> forall i :: 0 <= i < nSystems && ViableAt(solve, |candidates|, nConstraints, i) ==>
      Analysis.ExpectedReturn(WithFractions(candidates, solve(Activity(i, nConstraints)).value)) <=
      Analysis.ExpectedReturn(r.value.companies)
  {
    var solutions := SolveAll(solve, |candidates|, nConstraints, nSystems);
    NoViableSolution(solve, |candidates|, nConstraints, nSystems);
    if |solutions| == 0 {
      return Err(Error(NO_VIABLE_SOLUTION));
    }
    ViableSolutionsSized(solve, |candidates|, nConstraints, nSystems);
    var best := BestSolution(candidates, solutions);
    BestIsBestOfAll(candidates, solve, nConstraints, nSystems, best);
    return Ok(ModelPortfolio.Portfolio(WithFractions(candidates, solutions[best])));
  }

  /** The loop over the system indices of `allocate`: solve each system and
      keep the solution when no inactive constraint's slack is below the
      tolerance. Failed systems are skipped. */
  method SolveAll(solve: seq<bool> -> Result<seq<real>>, nCompanies: nat, nConstraints: nat, nSystems: nat)
    returns (solutions: seq<seq<real>>)
    requires SolverSized(solve, nCompanies, nConstraints)
    ensures solutions == ViableSolutions(solve, nCompanies, nConstraints, nSystems)
  {
    solutions := [];
    var index := 0;
    while index < nSystems
      invariant 0 <= index <= nSystems
      invariant solutions == ViableSolutions(solve, nCompanies, nConstraints, index)
    {
      var active := Activity(index, nConstraints);
      match solve(active) {
        case Ok(x) =>
          if !(exists c :: 0 <= c < nConstraints && !active[c] && x[nCompanies + c] < TOLERANCE) {
            solutions := solutions + [x];
          }
        case Err(_) =>
      }
      index := index + 1;
    }
  }

  /** Nothing is collected exactly when no system has a viable solution. */
  lemma NoViableSolution(solve: seq<bool> -> Result<seq<real>>, nCompanies: nat, nConstraints: nat, upto: nat)
    requires SolverSized(solve, nCompanies, nConstraints)
    ensures |ViableSolutions(solve, nCompanies, nConstraints, upto)| == 0 <==>
      forall i :: 0 <= i < upto ==> !ViableAt(solve, nCompanies, nConstraints, i)
  {
    var solutions := ViableSolutions(solve, nCompanies, nConstraints, upto);
    forall i | 0 <= i < upto && ViableAt(solve, nCompanies, nConstraints, i) ensures |solutions| > 0 {
      ViableSolutionsCharacterized(solve, nCompanies, nConstraints, upto, solve(Activity(i, nConstraints)).value);
    }
    if |solutions| > 0 {
      ViableSolutionsCharacterized(solve, nCompanies, nConstraints, upto, solutions[0]);
    }
  }

  /** A best collected solution comes from some system, and no system's
      viable solution scores higher. */
  lemma BestIsBestOfAll(candidates: seq<ModelCompany.Company>, solve: seq<bool> -> Result<seq<real>>,
                        nConstraints: nat, upto: nat, best: nat)
    requires ModelPortfolio.PricedCompanies(candidates)
    requires SolverSized(solve, |candidates|, nConstraints)
    requires var s := ViableSolutions(solve, |candidates|, nConstraints, upto);
      && best < |s|
      && (forall x :: x in s ==> |x| == |candidates| + nConstraints)
      && forall j :: 0 <= j < |s| ==> Score(candidates, s[j]) <= Score(candidates, s[best])
    ensures var x := ViableSolutions(solve, |candidates|, nConstraints, upto)[best];
      exists i :: 0 <= i < upto && SolutionOf(ModelPortfolio.Portfolio(WithFractions(candidates, x)), candidates, solve, nConstraints, i)
    ensures var x := ViableSolutions(solve, |candidates|, nConstraints, upto)[best];
      forall i :: 0 <= i < upto && ViableAt(solve, |candidates|, nConstraints, i) ==>
        Score(candidates, solve(Activity(i, nConstraints)).value) <= Score(candidates, x)
  {
    var s := ViableSolutions(solve, |candidates|, nConstraints, upto);
    var x := s[best];
    ViableSolutionsCharacterized(solve, |candidates|, nConstraints, upto, x);
    var k :| 0 <= k < upto && ViableAt(solve, |candidates|, nConstraints, k) &&
             solve(Activity(k, nConstraints)).value == x;
    assert SolutionOf(ModelPortfolio.Portfolio(WithFractions(candidates, x)), candidates, solve, nConstraints, k);
    forall i | 0 <= i < upto && ViableAt(solve, |candidates|, nConstraints, i)
      ensures Score(candidates, solve(Activity(i, nConstraints)).value) <= Score(candidates, x)
    {
      var y := solve(Activity(i, nConstraints)).value;
      ViableSolutionsCharacterized(solve, |candidates|, nConstraints, upto, y);
      var j :| 0 <= j < |s| && s[j] == y;
    }
  }
}
