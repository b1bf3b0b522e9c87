/** Scenario analysis of a portfolio (src/analysis.rs): every joint outcome
    of the companies' scenarios, the expected return, and the worst outcome.
    A portfolio is a map from companies (hashed and compared by ticker) to
    the fractions of capital allocated to them; here it is the sequence of
    its entries in the map's iteration order, which is arbitrary. */
module Analysis {

  import Common
  import opened Sequences
  import opened Strings
  import opened MixedRadix
  import ModelScenario
  import ModelCompany
  import ModelPortfolio

  /** One entry of the portfolio map: a company and its fraction. */
  type Holding = ModelPortfolio.PortfolioCompany

  /** One joint outcome: the portfolio return and its probability. */
  datatype Outcome = Outcome(portfolioReturn: real, probability: real)

  /** More joint outcomes than this are refused. */
  const MAX_OUTCOMES: nat := 50000

  /** Why the analysis panics. */
  datatype Panic =
    | TooManyOutcomes(nOutcomes: nat)
    | NoOutcomes

  /** Every company has a positive market cap, which the returns divide by. */
  predicate Priced(h: seq<Holding>)
  {
    forall x :: x in h ==> x.company.marketCap > 0.0
  }

  /** The keys of a map are distinct; companies are keyed by ticker. */
  predicate DistinctTickers(h: seq<Holding>)
  {
    forall i, j :: 0 <= i < j < |h| ==> h[i].company.ticker != h[j].company.ticker
  }

  // ---------------------------------------------------------------------
  // Sorting the entries by ticker
  // ---------------------------------------------------------------------

  predicate SortedByTicker(h: seq<Holding>)
  {
    forall i, j :: 0 <= i < j < |h| ==> LessEq(h[i].company.ticker, h[j].company.ticker)
  }

  /** Inserts `x` before the first entry whose ticker is not smaller. */
  function InsertByTicker(x: Holding, s: seq<Holding>): seq<Holding>
  {
    if |s| == 0 then [x]
    else if LessEq(x.company.ticker, s[0].company.ticker) then [x] + s
    else [s[0]] + InsertByTicker(x, s[1..])
  }

  lemma {:induction false} InsertByTickerMultiset(x: Holding, s: seq<Holding>)
    ensures multiset(InsertByTicker(x, s)) == multiset(s) + multiset{x}
  {
    if |s| > 0 {
      assert s == [s[0]] + s[1..];
      if !LessEq(x.company.ticker, s[0].company.ticker) {
        InsertByTickerMultiset(x, s[1..]);
      }
    }
  }

  lemma {:induction false} InsertByTickerSorted(x: Holding, s: seq<Holding>)
    requires SortedByTicker(s)
    ensures SortedByTicker(InsertByTicker(x, s))
  {
    if |s| > 0 && !LessEq(x.company.ticker, s[0].company.ticker) {
      var rest := InsertByTicker(x, s[1..]);
      InsertByTickerSorted(x, s[1..]);
      LessEqTotal(x.company.ticker, s[0].company.ticker);
      InsertedAbove(x, s);
      PrependSorted(s[0], rest);
    } else if |s| > 0 {
      forall j | 0 <= j < |s| ensures LessEq(x.company.ticker, s[j].company.ticker) {
        if j > 0 {
          LessEqTransitive(x.company.ticker, s[0].company.ticker, s[j].company.ticker);
        }
      }
    }
  }

  /** Inserting behind the first entry keeps every entry at or above its
      ticker. */
  lemma InsertedAbove(x: Holding, s: seq<Holding>)
    requires SortedByTicker(s) && |s| > 0 && LessEq(s[0].company.ticker, x.company.ticker)
    ensures forall k :: 0 <= k < |InsertByTicker(x, s[1..])| ==>
      LessEq(s[0].company.ticker, InsertByTicker(x, s[1..])[k].company.ticker)
  {
    var rest := InsertByTicker(x, s[1..]);
    InsertByTickerMultiset(x, s[1..]);
    forall k | 0 <= k < |rest| ensures LessEq(s[0].company.ticker, rest[k].company.ticker) {
      assert rest[k] in multiset(rest);
      if rest[k] != x {
        assert rest[k] in multiset(s[1..]);
        var m :| 0 <= m < |s[1..]| && s[1..][m] == rest[k];
        assert s[1..][m] == s[m + 1];
      }
    }
  }

  /** An entry at or below every entry of a sorted list can go in front. */
  lemma PrependSorted(y: Holding, rest: seq<Holding>)
    requires SortedByTicker(rest)
    requires forall k :: 0 <= k < |rest| ==> LessEq(y.company.ticker, rest[k].company.ticker)
    ensures SortedByTicker([y] + rest)
  {
    var h := [y] + rest;
    forall i, j | 0 <= i < j < |h| ensures LessEq(h[i].company.ticker, h[j].company.ticker) {
      assert h[j] == rest[j - 1];
      if i > 0 { assert h[i] == rest[i - 1]; }
    }
  }

  /** `sorted_by` ticker: a reordering of the entries with ascending
      tickers. Entries go in front of those with an equal ticker that came
      after them, so the sort is stable. */
  function SortByTicker(h: seq<Holding>): (r: seq<Holding>)
    ensures SortedByTicker(r)
    ensures multiset(r) == multiset(h)
  {
    if |h| == 0 then []
    else
      var tail := SortByTicker(h[1..]);
      InsertFirst(h, tail);
      InsertByTicker(h[0], tail)
  }

  /** Inserting the first entry into the sorted rest sorts the whole. */
  lemma InsertFirst(h: seq<Holding>, tail: seq<Holding>)
    requires |h| > 0 && SortedByTicker(tail) && multiset(tail) == multiset(h[1..])
    ensures SortedByTicker(InsertByTicker(h[0], tail))
    ensures multiset(InsertByTicker(h[0], tail)) == multiset(h)
  {
    InsertByTickerSorted(h[0], tail);
    InsertByTickerMultiset(h[0], tail);
    assert h == [h[0]] + h[1..];
  }

  /** Reordering entries keeps their tickers distinct. */
  lemma {:induction false} DistinctTickersPermutation(a: seq<Holding>, b: seq<Holding>)
    requires multiset(a) == multiset(b) && DistinctTickers(a)
    ensures DistinctTickers(b)
  {
    if |a| == 0 {
      assert |b| == |multiset(b)| == 0;
    } else {
      var j := MatchFirst(a, b);
      var b' := RemoveAt(b, j);
      DistinctTickersPermutation(a[1..], b');
      forall k | 0 <= k < |b| && k != j ensures b[k].company.ticker != b[j].company.ticker {
        var k' := if k < j then k else k - 1;
        assert b'[k'] == b[k];
        assert b[k] in multiset(a[1..]);
        var m :| 0 <= m < |a[1..]| && a[1..][m] == b[k];
        assert a[m + 1] == b[k];
      }
      forall i, k | 0 <= i < k < |b| ensures b[i].company.ticker != b[k].company.ticker {
        if i != j && k != j {
          var i' := if i < j then i else i - 1;
          var k' := if k < j then k else k - 1;
          assert b'[i'] == b[i] && b'[k'] == b[k];
        }
      }
    }
  }

  lemma LessEqReflexive(a: string)
    ensures LessEq(a, a)
  {
    LessEqTotal(a, a);
  }

  /** Two ascending orders of the same entries with distinct tickers start
      with the same entry. */
  lemma SortedByTickerSameFirst(a: seq<Holding>, b: seq<Holding>)
    requires SortedByTicker(a) && SortedByTicker(b) && DistinctTickers(a)
    requires multiset(a) == multiset(b) && |a| > 0
    ensures |b| > 0 && a[0] == b[0]
  {
    assert |b| == |multiset(b)| == |multiset(a)| == |a|;
    assert a[0] in multiset(b) && b[0] in multiset(a);
    var m :| 0 <= m < |b| && b[m] == a[0];
    var k :| 0 <= k < |a| && a[k] == b[0];
    LessEqReflexive(a[0].company.ticker);
    LessEqReflexive(b[0].company.ticker);
    assert LessEq(b[0].company.ticker, a[0].company.ticker);
    assert LessEq(a[0].company.ticker, b[0].company.ticker);
    LessEqAntisymmetric(a[0].company.ticker, b[0].company.ticker);
    assert k == 0;
  }

  /** Entries with distinct tickers have exactly one ascending order. */
  lemma {:induction false} SortedByTickerUnique(a: seq<Holding>, b: seq<Holding>)
    requires SortedByTicker(a) && SortedByTicker(b) && DistinctTickers(a)
    requires multiset(a) == multiset(b)
    ensures a == b
  {
    if |a| == 0 {
      assert |b| == |multiset(b)| == 0;
    } else {
      SortedByTickerSameFirst(a, b);
      TailsPermutation(a, b);
      assert SortedByTicker(a[1..]) && SortedByTicker(b[1..]) && DistinctTickers(a[1..]);
      SortedByTickerUnique(a[1..], b[1..]);
      assert a == [a[0]] + a[1..] && b == [b[0]] + b[1..];
    }
  }

  /** Sorting makes the enumeration reproducible: any two iteration orders
      of the same map sort to the same sequence. */
  lemma SortIndependentOfOrder(a: seq<Holding>, b: seq<Holding>)
    requires multiset(a) == multiset(b) && DistinctTickers(a)
    ensures SortByTicker(a) == SortByTicker(b)
  {
    DistinctTickersPermutation(a, SortByTicker(a));
    SortedByTickerUnique(SortByTicker(a), SortByTicker(b));
  }

  // ---------------------------------------------------------------------
  // Counting the outcomes
  // ---------------------------------------------------------------------

  /** The number of scenarios of each company. */
  function ScenarioCounts(h: seq<Holding>): (r: seq<nat>)
    ensures |r| == |h| && forall i :: 0 <= i < |h| ==> r[i] == |h[i].company.scenarios|
  {
    seq(|h|, i requires 0 <= i < |h| => |h[i].company.scenarios|)
  }

  /** `n_outcomes`: 0 for an empty portfolio, otherwise the product of the
      scenario counts. */
  function NumberOfOutcomes(h: seq<Holding>): nat
  {
    if |h| == 0 then 0 else Prod(ScenarioCounts(h))
  }

  /** `n_outcomes` as the source holds it, in a `usize`: the product of the
      counts wraps modulo `2^64` in a release build. Below `2^64` it is the
      number of outcomes; above, it is smaller. */
  function UsizeOutcomes(h: seq<Holding>): (r: nat)
    ensures r < Common.USIZE_MODULUS && r <= NumberOfOutcomes(h)
    ensures NumberOfOutcomes(h) < Common.USIZE_MODULUS ==> r == NumberOfOutcomes(h)
  {
    NumberOfOutcomes(h) % Common.USIZE_MODULUS
  }

  /** Sixty-four companies with two scenarios each have `2^64` outcomes,
      which the `usize` product wraps to 0: the cap of `MAX_OUTCOMES` does
      not fire and no outcome is enumerated. */
  lemma SixtyFourCoinFlipsWrap(h: seq<Holding>)
    requires |h| == 64 && forall i :: 0 <= i < |h| ==> |h[i].company.scenarios| == 2
    ensures NumberOfOutcomes(h) == Common.USIZE_MODULUS
    ensures UsizeOutcomes(h) == 0 <= MAX_OUTCOMES
  {
    NumberOfOutcomesCoinFlips(h);
    Common.Pow2SixtyFour();
  }

  /** There are no outcomes exactly when the portfolio is empty or some
      company has no scenario. */
  lemma NumberOfOutcomesZero(h: seq<Holding>)
    ensures NumberOfOutcomes(h) == 0 <==>
      |h| == 0 || exists i :: 0 <= i < |h| && |h[i].company.scenarios| == 0
  {
    ProdZero(ScenarioCounts(h));
  }

  /** With two scenarios per company, `n` companies have `2^n` outcomes. */
  lemma NumberOfOutcomesCoinFlips(h: seq<Holding>)
    requires |h| > 0 && forall i :: 0 <= i < |h| ==> |h[i].company.scenarios| == 2
    ensures NumberOfOutcomes(h) == Common.Pow2(|h|)
  {
    assert ScenarioCounts(h) == Binary(|h|);
    assert Binary(|h|)[..|h|] == Binary(|h|);
    ProdBinary(|h|, |h|);
  }

  /** Sixteen coin flips are 65536 outcomes, more than the analysis takes. */
  lemma SixteenCoinFlipsTooMany(h: seq<Holding>)
    requires |h| == 16 && forall i :: 0 <= i < |h| ==> |h[i].company.scenarios| == 2
    ensures NumberOfOutcomes(h) == 65536 > MAX_OUTCOMES
  {
    NumberOfOutcomesCoinFlips(h);
    Common.Pow2Limits();
  }

  /** The product of the scenario counts does not depend on the order of
      the entries. */
  lemma {:induction false} CountsProductPermutation(a: seq<Holding>, b: seq<Holding>)
    requires multiset(a) == multiset(b)
    ensures Prod(ScenarioCounts(a)) == Prod(ScenarioCounts(b))
  {
    if |a| == 0 {
      assert |b| == |multiset(b)| == 0;
    } else {
      var j := MatchFirst(a, b);
      var b' := RemoveAt(b, j);
      CountsProductPermutation(a[1..], b');
      var l := |b[j].company.scenarios|;
      var x, y := ScenarioCounts(b[..j]), ScenarioCounts(b[j + 1..]);
      assert ScenarioCounts(a) == [l] + ScenarioCounts(a[1..]);
      assert ScenarioCounts(b') == x + y;
      assert ScenarioCounts(b) == x + ([l] + y);
      ProdAppend(x, y);
      ProdAppend(x, [l] + y);
      assert ([l] + y)[1..] == y;
      var px, py := Prod(x), Prod(y);
      assert Prod(ScenarioCounts(b)) == px * (l * py);
      assert Prod(ScenarioCounts(a)) == l * (px * py);
      MultiplyInAnyOrder(l, px, py);
    }
  }

  lemma MultiplyInAnyOrder(l: nat, px: nat, py: nat)
    ensures l * (px * py) == px * (l * py)
  {
  }

  /** Reordering the entries keeps the number of outcomes. */
  lemma NumberOfOutcomesPermutation(a: seq<Holding>, b: seq<Holding>)
    requires multiset(a) == multiset(b)
    ensures NumberOfOutcomes(a) == NumberOfOutcomes(b)
  {
    assert |a| == |multiset(a)| == |multiset(b)| == |b|;
    CountsProductPermutation(a, b);
  }

  // ---------------------------------------------------------------------
  // One outcome
  // ---------------------------------------------------------------------

  /** What one company contributes to a portfolio return when scenario `s`
      plays out: its fraction times the scenario's probability-weighted
      return. */
  function Contribution(x: Holding, s: ModelScenario.Scenario): real
    requires x.company.marketCap > 0.0
  {
    x.fraction * s.probability * (s.intrinsicValue - x.company.marketCap) / x.company.marketCap
  }

  lemma ContributionIsWeighted(x: Holding, s: ModelScenario.Scenario)
    requires x.company.marketCap > 0.0
    ensures Contribution(x, s) == x.fraction * ModelScenario.ProbabilityWeightedReturn(s, x.company.marketCap)
  {
    var mc := x.company.marketCap;
    var w := ModelScenario.ProbabilityWeightedReturn(s, mc);
    assert mc * w == s.probability * (s.intrinsicValue - mc);
    assert Contribution(x, s) * mc == x.fraction * (s.probability * (s.intrinsicValue - mc));
    assert (x.fraction * w) * mc == x.fraction * (mc * w);
  }

  /** The outcome in which company `i` goes through its scenario `d[i]`:
      returns are added up and probabilities multiplied, company by company
      in order. */
  function OutcomeAt(h: seq<Holding>, d: seq<nat>): Outcome
    requires Priced(h) && Valid(d, ScenarioCounts(h))
    decreases |h|
  {
    if |h| == 0 then Outcome(0.0, 1.0)
    else
      var n := |h| - 1;
      assert h[n] in h;
      var o := OutcomeAt(h[..n], d[..n]);
      var s := h[n].company.scenarios[d[n]];
      Outcome(o.portfolioReturn + Contribution(h[n], s), o.probability * s.probability)
  }

  /** The outcome numbered `k` in the enumeration of `h`. */
  function OutcomeNumber(h: seq<Holding>, k: nat): Outcome
    requires Priced(h) && PositiveRadices(ScenarioCounts(h)) && k < Prod(ScenarioCounts(h))
  {
    DigitsValid(k, ScenarioCounts(h));
    OutcomeAt(h, Digits(k, ScenarioCounts(h)))
  }

  /** `outcomes` is the enumeration of `h`: one outcome per scenario
      combination, the first company's scenario changing fastest. */
  predicate Enumerates(h: seq<Holding>, outcomes: seq<Outcome>)
    requires Priced(h)
  {
    |outcomes| == NumberOfOutcomes(h) && EnumeratesFirst(h, outcomes)
  }

  /** `outcomes` are the first outcomes of the enumeration of `h`. */
  predicate EnumeratesFirst(h: seq<Holding>, outcomes: seq<Outcome>)
    requires Priced(h)
  {
    forall k :: 0 <= k < |outcomes| ==>
      PositiveRadices(ScenarioCounts(h)) && k < Prod(ScenarioCounts(h)) &&
      outcomes[k] == OutcomeNumber(h, k)
  }

  /** Every combination of scenarios appears in the enumeration, at exactly
      one position. */
  lemma EnumerationComplete(h: seq<Holding>, outcomes: seq<Outcome>, d: seq<nat>)
    requires Priced(h) && Enumerates(h, outcomes) && |h| > 0
    requires Valid(d, ScenarioCounts(h))
    ensures PositiveRadices(ScenarioCounts(h))
    ensures Value(d, ScenarioCounts(h)) < |outcomes|
    ensures outcomes[Value(d, ScenarioCounts(h))] == OutcomeAt(h, d)
    ensures forall k :: 0 <= k < |outcomes| && Digits(k, ScenarioCounts(h)) == d ==>
      k == Value(d, ScenarioCounts(h))
  {
    var r := ScenarioCounts(h);
    assert PositiveRadices(r) by {
      forall i | 0 <= i < |r| ensures r[i] > 0 {
        assert d[i] < r[i];
      }
    }
    DigitsBijective(r);
    forall k | 0 <= k < |outcomes| && Digits(k, r) == d ensures k == Value(d, r) {
      ValueOfDigits(k, r);
    }
  }

  // ---------------------------------------------------------------------
  // The enumeration
  // ---------------------------------------------------------------------

  lemma PrefixValid(h: seq<Holding>, d: seq<nat>, i: nat)
    requires Priced(h) && Valid(d, ScenarioCounts(h)) && i <= |h|
    ensures Priced(h[..i]) && Valid(d[..i], ScenarioCounts(h[..i]))
  {
    assert forall x :: x in h[..i] ==> x in h;
  }

  /** Folding in one more company extends the outcome of the prefix. */
  lemma OutcomeAtExtend(h: seq<Holding>, d: seq<nat>, i: nat)
    requires Priced(h) && Valid(d, ScenarioCounts(h)) && i < |h|
    ensures h[i].company.marketCap > 0.0 && d[i] < |h[i].company.scenarios|
    ensures Priced(h[..i]) && Valid(d[..i], ScenarioCounts(h[..i]))
    ensures Priced(h[..i + 1]) && Valid(d[..i + 1], ScenarioCounts(h[..i + 1]))
    ensures OutcomeAt(h[..i + 1], d[..i + 1]) ==
      var o, s := OutcomeAt(h[..i], d[..i]), h[i].company.scenarios[d[i]];
      Outcome(o.portfolioReturn + Contribution(h[i], s), o.probability * s.probability)
  {
    assert h[i] in h;
    PrefixValid(h, d, i);
    PrefixValid(h, d, i + 1);
    assert h[..i + 1][..i] == h[..i] && d[..i + 1][..i] == d[..i];
  }

  /** The loop that builds one outcome: start from return 0 and probability
      1 and fold in each company's chosen scenario. */
  method ComputeOutcome(h: seq<Holding>, d: seq<nat>) returns (o: Outcome)
    requires Priced(h) && Valid(d, ScenarioCounts(h))
    ensures o == OutcomeAt(h, d)
  {
    o := Outcome(0.0, 1.0);
    PrefixValid(h, d, 0);
    var i := 0;
    while i < |h|
      invariant 0 <= i <= |h|
      invariant Priced(h[..i]) && Valid(d[..i], ScenarioCounts(h[..i]))
      invariant o == OutcomeAt(h[..i], d[..i])
    {
      OutcomeAtExtend(h, d, i);
      var s := h[i].company.scenarios[d[i]];
      o := Outcome(o.portfolioReturn + Contribution(h[i], s), o.probability * s.probability);
      i := i + 1;
    }
    assert h[..|h|] == h && d[..|d|] == d;
  }

  /** Incrementing skips the leading digits that are at their maximum. */
  lemma {:induction false} IncrementSkipsMaxima(d: seq<nat>, r: seq<nat>, i: nat)
    requires |d| == |r| && i <= |d|
    requires forall k :: 0 <= k < i ==> d[k] + 1 == r[k]
    ensures Increment(d, r) == seq(i, k => 0) + Increment(d[i..], r[i..])
  {
    if i > 0 {
      IncrementSkipsMaxima(d[1..], r[1..], i - 1);
      assert d[1..][i - 1..] == d[i..] && r[1..][i - 1..] == r[i..];
      assert [0] + seq(i - 1, k => 0) == seq(i, k => 0);
    }
  }

  /** Incrementing resets the leading maxima and raises the first digit
      that is not at its maximum. */
  lemma IncrementAt(d: seq<nat>, r: seq<nat>, i: nat)
    requires |d| == |r| && i < |d|
    requires forall k :: 0 <= k < i ==> d[k] + 1 == r[k]
    requires d[i] + 1 != r[i]
    ensures Increment(d, r) == seq(i, k => 0) + [d[i] + 1] + d[i + 1..]
  {
    IncrementSkipsMaxima(d, r, i);
    IncrementHead(d[i..], r[i..]);
    assert d[i..][1..] == d[i + 1..];
    AppendAssociative(seq(i, k => 0), [d[i] + 1], d[i + 1..]);
  }

  /** A first digit below its maximum is raised and nothing else changes. */
  lemma IncrementHead(e: seq<nat>, s: seq<nat>)
    requires |e| == |s| > 0 && e[0] + 1 != s[0]
    ensures Increment(e, s) == [e[0] + 1] + e[1..]
  {
  }

  lemma AppendAssociative(a: seq<nat>, b: seq<nat>, c: seq<nat>)
    ensures a + (b + c) == a + b + c
  {
  }

  /** Incrementing the largest digits wraps every one of them to 0. */
  lemma IncrementAllMaxima(d: seq<nat>, r: seq<nat>)
    requires |d| == |r|
    requires forall k :: 0 <= k < |d| ==> d[k] + 1 == r[k]
    ensures Increment(d, r) == seq(|d|, k => 0)
  {
    IncrementSkipsMaxima(d, r, |d|);
    assert seq(|d|, k => 0) + [] == seq(|d|, k => 0);
  }

  /** The loop that advances the scenario indices: indices at their last
      scenario wrap to 0 and the first one that can grow grows by 1. */
  method AdvanceIndices(d: seq<nat>, r: seq<nat>) returns (e: seq<nat>)
    requires |d| == |r|
    ensures e == Increment(d, r)
  {
    e := d;
    var i := 0;
    while i < |e|
      invariant 0 <= i <= |e| == |d|
      invariant forall k :: 0 <= k < i ==> e[k] == 0 && d[k] + 1 == r[k]
      invariant forall k :: i <= k < |e| ==> e[k] == d[k]
    {
      if e[i] + 1 == r[i] {
        e := e[i := 0];
        i := i + 1;
      } else {
        e := e[i := e[i] + 1];
        IncrementAt(d, r, i);
        ghost var target := seq(i, k => 0) + [d[i] + 1] + d[i + 1..];
        assert forall k :: 0 <= k < |e| ==> e[k] == target[k];
        return;
      }
    }
    IncrementAllMaxima(d, r);
  }

  /** The `while` loop of `all_outcomes`: starting from all scenario
      indices at 0, compute an outcome and advance the indices until `n`
      outcomes are collected. With `n` below the number of outcomes (a
      wrapped count) these are the first `n` of them. */
  method Enumerate(h: seq<Holding>, n: nat) returns (outcomes: seq<Outcome>)
    requires Priced(h) && n <= NumberOfOutcomes(h)
    ensures |outcomes| == n && EnumeratesFirst(h, outcomes)
  {
    var counts := ScenarioCounts(h);
    if n > 0 {
      ProdZero(counts);
      DigitsOfZero(counts);
    }
    outcomes := [];
    var indices: seq<nat> := seq(|h|, i => 0);
    while |outcomes| != n
      invariant |outcomes| <= n
      invariant n > 0 ==> |h| > 0 && PositiveRadices(counts) && n <= Prod(counts)
      invariant |outcomes| < n ==> indices == Digits(|outcomes|, counts)
      invariant forall k :: 0 <= k < |outcomes| ==>
        PositiveRadices(counts) && k < Prod(counts) && outcomes[k] == OutcomeNumber(h, k)
      decreases n - |outcomes|
    {
      DigitsValid(|outcomes|, counts);
      var outcome := ComputeOutcome(h, indices);
      ExtendNumbered(h, outcomes, outcome);
      outcomes := outcomes + [outcome];
      var next := AdvanceIndices(indices, counts);
      if |outcomes| < n {
        IncrementDigits(|outcomes| - 1, counts);
      }
      indices := next;
    }
  }

  /** Appending the outcome of the next digits keeps the outcomes numbered. */
  lemma ExtendNumbered(h: seq<Holding>, outcomes: seq<Outcome>, o: Outcome)
    requires Priced(h) && PositiveRadices(ScenarioCounts(h)) && |outcomes| < Prod(ScenarioCounts(h))
    requires forall k :: 0 <= k < |outcomes| ==> outcomes[k] == OutcomeNumber(h, k)
    requires Valid(Digits(|outcomes|, ScenarioCounts(h)), ScenarioCounts(h))
    requires o == OutcomeAt(h, Digits(|outcomes|, ScenarioCounts(h)))
    ensures forall k :: 0 <= k < |outcomes| + 1 ==> (outcomes + [o])[k] == OutcomeNumber(h, k)
  {
  }

  /** `all_outcomes`: refuses more than `MAX_OUTCOMES` outcomes, and
      otherwise enumerates the outcomes of the entries sorted by ticker.
      The count is the `usize` one, so a number of outcomes of `2^64` or
      more is reduced modulo `2^64` first; only then is it compared with the
      cap and used as the length of the enumeration. */
  method AllOutcomes(h: seq<Holding>) returns (r: Common.Outcome<seq<Outcome>, Panic>)
    requires Priced(h)
    ensures r.Panics? <==> UsizeOutcomes(h) > MAX_OUTCOMES
    ensures r.Panics? ==> r.reason == TooManyOutcomes(UsizeOutcomes(h))
    ensures Priced(SortByTicker(h))
    ensures r.Returns? ==> |r.value| == UsizeOutcomes(h) && EnumeratesFirst(SortByTicker(h), r.value)
    ensures r.Returns? && NumberOfOutcomes(h) < Common.USIZE_MODULUS ==> Enumerates(SortByTicker(h), r.value)
  {
    var sorted := SortByTicker(h);
    assert forall x :: x in sorted ==> x in multiset(h);
    var n := UsizeOutcomes(h);
    if n > MAX_OUTCOMES {
      return Common.Panics(TooManyOutcomes(n));
    }
    NumberOfOutcomesPermutation(h, sorted);
    var outcomes := Enumerate(sorted, n);
    return Common.Returns(outcomes);
  }

  // ---------------------------------------------------------------------
  // Expected return
  // ---------------------------------------------------------------------

  /** What one entry contributes over the given scenarios. */
  function ScenarioContributions(x: Holding, scenarios: seq<ModelScenario.Scenario>): real
    requires x.company.marketCap > 0.0
  {
    if |scenarios| == 0 then 0.0
    else Contribution(x, scenarios[0]) + ScenarioContributions(x, scenarios[1..])
  }

  /** `expected_return`: the sum over all entries and all their scenarios of
      the fraction times the probability-weighted return. */
  function ExpectedReturn(h: seq<Holding>): real
    requires Priced(h)
  {
    if |h| == 0 then 0.0
    else
      assert h[0] in h;
      ScenarioContributions(h[0], h[0].company.scenarios) + ExpectedReturn(h[1..])
  }

  lemma {:induction false} ScenarioContributionsWeighted(x: Holding, c: ModelCompany.Company)
    requires x.company.marketCap > 0.0 && c.marketCap == x.company.marketCap
    ensures ScenarioContributions(x, c.scenarios) == x.fraction * ModelCompany.ExpectedReturn(c)
    decreases |c.scenarios|
  {
    if |c.scenarios| > 0 {
      var rest := c.(scenarios := c.scenarios[1..]);
      ScenarioContributionsWeighted(x, rest);
      assert ModelCompany.WeightedReturns(c)[1..] == ModelCompany.WeightedReturns(rest);
      ContributionIsWeighted(x, c.scenarios[0]);
    }
  }

  /** An entry contributes its fraction times its company's expected return. */
  lemma HoldingContribution(x: Holding)
    requires x.company.marketCap > 0.0
    ensures ScenarioContributions(x, x.company.scenarios) == x.fraction * ModelCompany.ExpectedReturn(x.company)
  {
    ScenarioContributionsWeighted(x, x.company);
  }

  lemma {:induction false} ExpectedReturnAppend(a: seq<Holding>, b: seq<Holding>)
    requires Priced(a) && Priced(b)
    ensures Priced(a + b)
    ensures ExpectedReturn(a + b) == ExpectedReturn(a) + ExpectedReturn(b)
  {
    if |a| == 0 {
      assert a + b == b;
    } else {
      assert (a + b)[1..] == a[1..] + b;
      assert forall x :: x in a[1..] ==> x in a;
      ExpectedReturnAppend(a[1..], b);
    }
  }

  lemma PricedParts(b: seq<Holding>, j: nat)
    requires Priced(b) && j < |b|
    ensures b[j] in b
    ensures Priced(b[..j]) && Priced(b[j + 1..]) && Priced([b[j]] + b[j + 1..])
  {
    assert forall x :: x in b[..j] ==> x in b;
    assert forall x :: x in [b[j]] + b[j + 1..] ==> x in b;
  }

  /** Taking one entry out of the sum. */
  lemma ExpectedReturnRemove(b: seq<Holding>, j: nat)
    requires Priced(b) && j < |b|
    ensures b[j] in b && Priced(RemoveAt(b, j))
    ensures ExpectedReturn(b) ==
      ScenarioContributions(b[j], b[j].company.scenarios) + ExpectedReturn(RemoveAt(b, j))
  {
    PricedParts(b, j);
    var x, y := b[..j], b[j + 1..];
    var z := [b[j]] + y;
    SplitAt(b, j);
    ExpectedReturnAppend(x, y);
    ExpectedReturnAppend(x, z);
    ExpectedReturnFirst(z, y);
  }

  /** The first entry's contributions come first in the sum. */
  lemma ExpectedReturnFirst(z: seq<Holding>, rest: seq<Holding>)
    requires Priced(z) && |z| > 0 && z[1..] == rest
    ensures z[0] in z && Priced(rest)
    ensures ExpectedReturn(z) == ScenarioContributions(z[0], z[0].company.scenarios) + ExpectedReturn(rest)
  {
    assert forall x :: x in rest ==> x in z;
  }

  /** The expected return does not depend on the map's iteration order. */
  lemma {:induction false} ExpectedReturnPermutation(a: seq<Holding>, b: seq<Holding>)
    requires Priced(a) && multiset(a) == multiset(b)
    ensures Priced(b)
    ensures ExpectedReturn(a) == ExpectedReturn(b)
  {
    assert forall x :: x in b ==> x in multiset(a);
    if |a| == 0 {
      assert |b| == |multiset(b)| == 0;
    } else {
      var j := MatchFirst(a, b);
      assert forall x :: x in a[1..] ==> x in a;
      ExpectedReturnRemove(b, j);
      ExpectedReturnPermutation(a[1..], RemoveAt(b, j));
    }
  }

  // ---------------------------------------------------------------------
  // Worst case
  // ---------------------------------------------------------------------

  /** `worst_case_outcome`: the position of the first outcome with the
      smallest return (`min_by_key` keeps the earliest of equal keys); an
      empty list panics at `unwrap`. */
  function WorstCaseOutcome(outcomes: seq<Outcome>): (r: Common.Outcome<nat, Panic>)
    ensures r.Panics? <==> |outcomes| == 0
    ensures r.Panics? ==> r.reason == NoOutcomes
    ensures r.Returns? ==> r.value < |outcomes|
    ensures r.Returns? ==> forall k :: 0 <= k < |outcomes| ==>
      outcomes[r.value].portfolioReturn <= outcomes[k].portfolioReturn
    ensures r.Returns? ==> forall k :: 0 <= k < r.value ==>
      outcomes[k].portfolioReturn > outcomes[r.value].portfolioReturn
  {
    if |outcomes| == 0 then Common.Panics(NoOutcomes)
    else if |outcomes| == 1 then Common.Returns(0)
    else
      var n := |outcomes| - 1;
      var m := WorstCaseOutcome(outcomes[..n]).value;
      if outcomes[n].portfolioReturn < outcomes[m].portfolioReturn then Common.Returns(n)
      else Common.Returns(m)
  }
}
