/** The first revision of a company (src/company.rs): the constructor
    checks the scenarios and panics instead of reporting validation
    results. The scenarios form a `HashSet` keyed by thesis; here they are
    the sequence of its elements, whose order does not affect the sum the
    checks take. */
module LegacyCompany {

  import opened Common
  import opened Sequences
  import LegacyScenario

  /** Tolerance of the probability sum (`PROBABILITY_TOLERANCE`). */
  const PROBABILITY_TOLERANCE: real := 0.0000000001

  datatype Company = Company(
    name: string,
    ticker: string,
    description: string,
    marketCap: real,
    scenarios: seq<LegacyScenario.Scenario>)

  /** Why `Company::new` panics. */
  datatype Panic =
    | NoScenarios(name: string, ticker: string)
    | ProbabilitiesDoNotSumToOne(sum: real)

  /** `PartialEq`: two companies are equal when their tickers are, so that a
      dually listed share counts once whatever its market cap. */
  predicate Equal(a: Company, b: Company)
  {
    a.ticker == b.ticker
  }

  /** `Hash`: only the ticker is fed to the hasher. */
  function HashKey(c: Company): string
  {
    c.ticker
  }

  /** Equality ignores everything but the ticker, and equal companies hash
      alike. */
  lemma EqualityByTicker(a: Company, b: Company)
    ensures Equal(a, b) <==> HashKey(a) == HashKey(b)
    ensures Equal(a, b) <==> Equal(a.(name := b.name, marketCap := b.marketCap, scenarios := []), b)
  {
  }

  /** The probabilities of the scenarios, in order. */
  function Probabilities(scenarios: seq<LegacyScenario.Scenario>): (p: seq<real>)
    ensures |p| == |scenarios| && forall i :: 0 <= i < |p| ==> p[i] == scenarios[i].probability
  {
    seq(|scenarios|, i requires 0 <= i < |scenarios| => scenarios[i].probability)
  }

  /** The total probability of the scenarios. */
  function ProbabilitySum(c: Company): real
  {
    Sum(Probabilities(c.scenarios))
  }

  /** The total probability is 1 within the tolerance. */
  predicate SumsToOne(c: Company)
  {
    1.0 - PROBABILITY_TOLERANCE <= ProbabilitySum(c) <= 1.0 + PROBABILITY_TOLERANCE
  }

  /** `validate_at_least_one_scenario`. */
  function CheckAtLeastOneScenario(c: Company): (r: Option<Panic>)
    ensures r.None? <==> |c.scenarios| > 0
    ensures r.Some? ==> r.value == NoScenarios(c.name, c.ticker)
  {
    if |c.scenarios| == 0 then Some(NoScenarios(c.name, c.ticker)) else None
  }

  /** `validate_probabilities_sum_up_to_one` as written: it panics when the
      sum lies strictly within the tolerance of 1, the opposite of what its
      documentation says. */
  function CheckProbabilitiesAsWritten(c: Company): (r: Option<Panic>)
    ensures r.Some? <==> 1.0 - PROBABILITY_TOLERANCE < ProbabilitySum(c) < 1.0 + PROBABILITY_TOLERANCE
    ensures r.Some? ==> r.value == ProbabilitiesDoNotSumToOne(ProbabilitySum(c))
  {
    var sum := ProbabilitySum(c);
    if Abs(sum - 1.0) < PROBABILITY_TOLERANCE then Some(ProbabilitiesDoNotSumToOne(sum)) else None
  }

  /** The check as documented: it panics when the sum is further than the
      tolerance from 1. */
  function CheckProbabilities(c: Company): (r: Option<Panic>)
    ensures r.None? <==> SumsToOne(c)
    ensures r.Some? ==> r.value == ProbabilitiesDoNotSumToOne(ProbabilitySum(c))
  {
    var sum := ProbabilitySum(c);
    if Abs(sum - 1.0) > PROBABILITY_TOLERANCE then Some(ProbabilitiesDoNotSumToOne(sum)) else None
  }

  /** The company built from the arguments, with the first check that fires
      turned into a panic. */
  function Checked(c: Company, first: Option<Panic>, second: Option<Panic>): (r: Outcome<Company, Panic>)
    ensures first.Some? ==> r == Panics(first.value)
    ensures first.None? && second.Some? ==> r == Panics(second.value)
    ensures first.None? && second.None? ==> r == Returns(c)
  {
    if first.Some? then Panics(first.value)
    else if second.Some? then Panics(second.value)
    else Returns(c)
  }

  /** `Company::new` as written: no scenarios panics first; then a company
      whose probabilities do sum to 1 panics, and one whose do not is
      returned. */
  function NewAsWritten(name: string, ticker: string, description: string, marketCap: real,
                        scenarios: seq<LegacyScenario.Scenario>): (r: Outcome<Company, Panic>)
    ensures |scenarios| == 0 ==> r == Panics(NoScenarios(name, ticker))
    ensures r.Returns? <==> (|scenarios| > 0 &&
      !(1.0 - PROBABILITY_TOLERANCE < Sum(Probabilities(scenarios)) < 1.0 + PROBABILITY_TOLERANCE))
    ensures r.Returns? ==> r.value == Company(name, ticker, description, marketCap, scenarios)
  {
    var c := Company(name, ticker, description, marketCap, scenarios);
    Checked(c, CheckAtLeastOneScenario(c), CheckProbabilitiesAsWritten(c))
  }

  /** `Company::new` with the sum check as documented: a company is built
      exactly when it has a scenario and its probabilities sum to 1 within
      the tolerance; no scenarios is reported before the sum. */
  function New(name: string, ticker: string, description: string, marketCap: real,
               scenarios: seq<LegacyScenario.Scenario>): (r: Outcome<Company, Panic>)
    ensures |scenarios| == 0 ==> r == Panics(NoScenarios(name, ticker))
    ensures r.Returns? <==> (|scenarios| > 0 &&
      1.0 - PROBABILITY_TOLERANCE <= Sum(Probabilities(scenarios)) <= 1.0 + PROBABILITY_TOLERANCE)
    ensures r.Returns? ==> r.value == Company(name, ticker, description, marketCap, scenarios)
    ensures |scenarios| > 0 && r.Panics? ==> r.reason == ProbabilitiesDoNotSumToOne(Sum(Probabilities(scenarios)))
  {
    var c := Company(name, ticker, description, marketCap, scenarios);
    Checked(c, CheckAtLeastOneScenario(c), CheckProbabilities(c))
  }

  /** A company whose single scenario is certain: its probabilities sum to
      exactly 1. */
  function CertainCompany(): Company
  {
    Company("Certain", "CRT", "", 1000000.0, [LegacyScenario.Scenario("Sure thing", 2000000.0, 1.0)])
  }

  /** The sum check as written rejects the one input it should accept most
      readily, a single certain scenario, while the documented check builds
      the company. */
  lemma CertainScenarioRejected()
    ensures NewAsWritten("Certain", "CRT", "", 1000000.0, CertainCompany().scenarios)
      == Panics(ProbabilitiesDoNotSumToOne(1.0))
    ensures New("Certain", "CRT", "", 1000000.0, CertainCompany().scenarios) == Returns(CertainCompany())
  {
    assert Probabilities(CertainCompany().scenarios) == [1.0];
    assert Sum([1.0]) == 1.0 + Sum([]);
  }

  /** More generally, the two checks disagree on every company with
      scenarios except those whose sum lies exactly at the tolerance from
      1: the written one accepts precisely the companies the documented one
      rejects. */
  lemma {:induction false} AsWrittenInvertsCheck(name: string, ticker: string, description: string, marketCap: real,
                                                  scenarios: seq<LegacyScenario.Scenario>)
    requires |scenarios| > 0
    requires Abs(Sum(Probabilities(scenarios)) - 1.0) != PROBABILITY_TOLERANCE
    ensures NewAsWritten(name, ticker, description, marketCap, scenarios).Returns? <==>
      New(name, ticker, description, marketCap, scenarios).Panics?
  {
  }

  /** Reordering the scenarios (another iteration order of the set) does not
      change whether the company is built. */
  lemma {:induction false} NewIndependentOfOrder(name: string, ticker: string, description: string, marketCap: real,
                                                  a: seq<LegacyScenario.Scenario>, b: seq<LegacyScenario.Scenario>)
    requires multiset(a) == multiset(b)
    ensures New(name, ticker, description, marketCap, a).Returns? <==>
      New(name, ticker, description, marketCap, b).Returns?
  {
    ProbabilitiesPermutation(a, b);
  }

  /** Permuted scenarios have the same total probability. */
  lemma {:induction false} ProbabilitiesPermutation(a: seq<LegacyScenario.Scenario>, b: seq<LegacyScenario.Scenario>)
    requires multiset(a) == multiset(b)
    ensures Sum(Probabilities(a)) == Sum(Probabilities(b))
    decreases |a|
  {
    if |a| == 0 {
      assert |b| == |multiset(b)| == 0;
    } else {
      var j := MatchFirst(a, b);
      var front, back := Probabilities(b[..j]), Probabilities(b[j + 1..]);
      ProbabilitiesPermutation(a[1..], RemoveAt(b, j));
      assert Probabilities(a)[1..] == Probabilities(a[1..]);
      assert Probabilities(b) == front + [b[j].probability] + back;
      assert Probabilities(RemoveAt(b, j)) == front + back;
      SumAppend(front + [b[j].probability], back);
      SumAppend(front, [b[j].probability]);
      SumAppend(front, back);
      assert Sum([b[j].probability]) == b[j].probability + Sum([]);
    }
  }
}
