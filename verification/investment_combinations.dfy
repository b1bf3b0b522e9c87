/** The exploration script: the outcome space of a handful of discrete
    bets. Each asset has a list of possible percentage returns; a combination
    picks one return per asset (the Cartesian product), and combinations that
    differ only in which asset produced which return are the same outcome,
    detected by sorting each combination into a canonical key. The script
    prints the number of combinations and the number of distinct keys; here
    both are returned. */
module InvestmentCombinations {

  import opened Sequences

  /** `outcomes_for_each_stock`: 5 stocks, each with 3 possible returns. */
  const OUTCOMES_FOR_EACH_STOCK: seq<seq<int>> := [
    [-50, 0, 100],
    [-50, 0, 100],
    [-100, 0, 200],
    [-50, 0, 100],
    [-50, 0, 100]
  ]

  /** `n_years_to_invest`: investing until our 80s. */
  const N_YEARS_TO_INVEST: nat := 50

  /** `n_rebalancings_per_year`. */
  const N_REBALANCINGS_PER_YEAR: nat := 2

  // ---------------------------------------------------------------------
  // Cartesian product (`itertools.product`)
  // ---------------------------------------------------------------------

  /** Every combination of `tails`, each with `x` in front. */
  function Prepend(x: int, tails: seq<seq<int>>): (r: seq<seq<int>>)
    ensures |r| == |tails|
    ensures forall i :: 0 <= i < |r| ==> r[i] == [x] + tails[i]
  {
    seq(|tails|, i requires 0 <= i < |tails| => [x] + tails[i])
  }

  /** For each choice in order, all tails with that choice in front: the first
      position varies slowest, as in `itertools.product`. */
  function ProductWith(choices: seq<int>, tails: seq<seq<int>>): seq<seq<int>>
  {
    if |choices| == 0 then [] else Prepend(choices[0], tails) + ProductWith(choices[1..], tails)
  }

  /** `list(itertools.product(*assets))`, tuples written as sequences. */
  function Product(assets: seq<seq<int>>): seq<seq<int>>
  {
    if |assets| == 0 then [[]] else ProductWith(assets[0], Product(assets[1..]))
  }

  /** The product of the lengths of the asset lists. */
  function ProductOfLengths(assets: seq<seq<int>>): nat
  {
    if |assets| == 0 then 1 else |assets[0]| * ProductOfLengths(assets[1..])
  }

  /** `c` is one pick per asset: position `i` holds a return of asset `i`. */
  predicate IsCombination(c: seq<int>, assets: seq<seq<int>>)
  {
    |c| == |assets| && forall i :: 0 <= i < |c| ==> c[i] in assets[i]
  }

  lemma {:induction false} ProductWithLength(choices: seq<int>, tails: seq<seq<int>>)
    ensures |ProductWith(choices, tails)| == |choices| * |tails|
  {
    if |choices| > 0 {
      ProductWithLength(choices[1..], tails);
    }
  }

  /** The product has one entry per way of picking, duplicates included: its
      length is the product of the list lengths. */
  lemma {:induction false} ProductLength(assets: seq<seq<int>>)
    ensures |Product(assets)| == ProductOfLengths(assets)
  {
    if |assets| > 0 {
      ProductLength(assets[1..]);
      ProductWithLength(assets[0], Product(assets[1..]));
    }
  }

  lemma {:induction false} ProductWithMembership(choices: seq<int>, tails: seq<seq<int>>, c: seq<int>)
    ensures c in ProductWith(choices, tails) <==> |c| > 0 && c[0] in choices && c[1..] in tails
  {
    if |choices| > 0 {
      ProductWithMembership(choices[1..], tails, c);
      if c in Prepend(choices[0], tails) {
        var i :| 0 <= i < |tails| && Prepend(choices[0], tails)[i] == c;
        assert c[1..] == tails[i];
      }
      if |c| > 0 && c[0] == choices[0] && c[1..] in tails {
        var i :| 0 <= i < |tails| && tails[i] == c[1..];
        assert Prepend(choices[0], tails)[i] == c;
      }
    }
  }

  /** The product holds exactly the combinations: every entry has one return
      per asset with position `i` drawn from list `i`, and every such pick is
      an entry. */
  lemma {:induction false} ProductMembership(assets: seq<seq<int>>, c: seq<int>)
    ensures c in Product(assets) <==> IsCombination(c, assets)
  {
    if |assets| == 0 {
      assert c in Product(assets) <==> c == [];
    } else {
      ProductWithMembership(assets[0], Product(assets[1..]), c);
      if |c| > 0 {
        ProductMembership(assets[1..], c[1..]);
        if IsCombination(c[1..], assets[1..]) && c[0] in assets[0] {
          forall i | 0 <= i < |c| ensures c[i] in assets[i] {
            if i > 0 { assert c[i] == c[1..][i - 1]; }
          }
        }
        if IsCombination(c, assets) {
          forall i | 0 <= i < |c| - 1 ensures c[1..][i] in assets[1..][i] {
            assert c[1..][i] == c[i + 1];
          }
        }
      }
    }
  }

  // ---------------------------------------------------------------------
  // Canonical key (`tuple(sorted(p))`)
  // ---------------------------------------------------------------------

  predicate IsSorted(s: seq<int>)
  {
    forall i, j :: 0 <= i < j < |s| ==> s[i] <= s[j]
  }

  /** Inserts `x` into a sorted sequence before the first larger element. */
  function Insert(x: int, s: seq<int>): seq<int>
  {
    if |s| == 0 then [x]
    else if x <= s[0] then [x] + s
    else [s[0]] + Insert(x, s[1..])
  }

  lemma {:induction false} InsertMultiset(x: int, s: seq<int>)
    ensures multiset(Insert(x, s)) == multiset(s) + multiset{x}
  {
    if |s| > 0 {
      assert s == [s[0]] + s[1..];
      if x > s[0] {
        InsertMultiset(x, s[1..]);
      }
    }
  }

  lemma {:induction false} InsertSorted(x: int, s: seq<int>)
    requires IsSorted(s)
    ensures IsSorted(Insert(x, s))
  {
    if |s| > 0 && x > s[0] {
      var rest := Insert(x, s[1..]);
      InsertSorted(x, s[1..]);
      InsertMultiset(x, s[1..]);
      forall k | 0 <= k < |rest| ensures s[0] <= rest[k] {
        assert rest[k] in multiset(rest);
        if rest[k] != x {
          assert rest[k] in multiset(s[1..]);
          var m :| 0 <= m < |s[1..]| && s[1..][m] == rest[k];
          assert s[1..][m] == s[m + 1];
        }
      }
    }
  }

  /** `sorted(p)`: the canonical key of a combination, a sorted permutation
      of it. */
  function Sort(s: seq<int>): (r: seq<int>)
    ensures IsSorted(r)
    ensures multiset(r) == multiset(s)
  {
    if |s| == 0 then []
    else
      var tail := Sort(s[1..]);
      InsertSorted(s[0], tail);
      InsertMultiset(s[0], tail);
      assert s == [s[0]] + s[1..];
      Insert(s[0], tail)
  }

  /** Two sorted reorderings of each other start with the same, smallest,
      element. */
  lemma SortedSameFirst(a: seq<int>, b: seq<int>)
    requires IsSorted(a) && IsSorted(b) && multiset(a) == multiset(b) && |a| > 0
    ensures |b| > 0 && a[0] == b[0]
  {
    assert |b| == |multiset(b)| == |multiset(a)| == |a|;
    assert a[0] in multiset(b);
    var m :| 0 <= m < |b| && b[m] == a[0];
    assert b[0] in multiset(a);
    var k :| 0 <= k < |a| && a[k] == b[0];
    assert b[0] <= b[m] && a[0] <= a[k];
  }

  /** A sorted sequence is determined by its multiset of elements. */
  lemma {:induction false} SortedUnique(a: seq<int>, b: seq<int>)
    requires IsSorted(a) && IsSorted(b) && multiset(a) == multiset(b)
    ensures a == b
  {
    if |a| > 0 {
      SortedSameFirst(a, b);
      TailsPermutation(a, b);
      assert IsSorted(a[1..]) && IsSorted(b[1..]);
      SortedUnique(a[1..], b[1..]);
      assert a == [a[0]] + a[1..] && b == [b[0]] + b[1..];
    } else {
      assert |b| == |multiset(b)| == 0;
    }
  }

  /** Two combinations get the same key iff they are permutations of each
      other (hold the same returns with the same multiplicities). */
  lemma SameKeyIffPermutation(a: seq<int>, b: seq<int>)
    ensures Sort(a) == Sort(b) <==> multiset(a) == multiset(b)
  {
    if multiset(a) == multiset(b) {
      SortedUnique(Sort(a), Sort(b));
    }
  }

  // ---------------------------------------------------------------------
  // The two counts
  // ---------------------------------------------------------------------

  /** The set of canonical keys of a list of combinations. */
  function KeySet(combinations: seq<seq<int>>): set<seq<int>>
  {
    if |combinations| == 0 then {}
    else {Sort(combinations[0])} + KeySet(combinations[1..])
  }

  /** The distinct canonical keys of all combinations. */
  function Keys(assets: seq<seq<int>>): set<seq<int>>
  {
    KeySet(Product(assets))
  }

  /** `print_unique_outcomes`: (number of combinations, number of distinct
      outcomes), returned instead of printed. */
  function UniqueOutcomes(assets: seq<seq<int>>): (counts: (nat, nat))
  {
    (|Product(assets)|, |Keys(assets)|)
  }

  /** A key set holds exactly the keys of the listed combinations, and has
      at most one key per combination. */
  lemma {:induction false} KeySetMembership(combinations: seq<seq<int>>, k: seq<int>)
    ensures k in KeySet(combinations) <==> exists c :: c in combinations && Sort(c) == k
  {
    if |combinations| > 0 {
      KeySetMembership(combinations[1..], k);
      if k in KeySet(combinations[1..]) {
        var c :| c in combinations[1..] && Sort(c) == k;
        assert c in combinations;
      }
      if exists c :: c in combinations && Sort(c) == k {
        var c :| c in combinations && Sort(c) == k;
        if c != combinations[0] {
          var i :| 0 <= i < |combinations| && combinations[i] == c;
          assert c == combinations[1..][i - 1];
        }
      }
    }
  }

  lemma {:induction false} KeySetCardinality(combinations: seq<seq<int>>)
    ensures |KeySet(combinations)| <= |combinations|
  {
    if |combinations| > 0 {
      KeySetCardinality(combinations[1..]);
    }
  }

  /** Each key is a sorted permutation of some combination, and each
      combination's sorted permutation is a key. */
  lemma KeysCharacterized(assets: seq<seq<int>>, k: seq<int>)
    ensures k in Keys(assets) <==>
      IsSorted(k) && exists c :: IsCombination(c, assets) && multiset(c) == multiset(k)
  {
    KeySetMembership(Product(assets), k);
    if k in Keys(assets) {
      var c :| c in Product(assets) && Sort(c) == k;
      ProductMembership(assets, c);
    }
    if IsSorted(k) && exists c :: IsCombination(c, assets) && multiset(c) == multiset(k) {
      var c :| IsCombination(c, assets) && multiset(c) == multiset(k);
      ProductMembership(assets, c);
      SortedUnique(Sort(c), k);
    }
  }

  /** There are never more distinct outcomes than combinations. */
  lemma UniqueAtMostCombinations(assets: seq<seq<int>>)
    ensures UniqueOutcomes(assets).1 <= UniqueOutcomes(assets).0
  {
    KeySetCardinality(Product(assets));
  }

  /** With no assets the product holds just the empty tuple: one combination
      and one outcome. */
  lemma NoAssets()
    ensures UniqueOutcomes([]) == (1, 1)
  {
    assert Product([]) == [[]];
    assert Keys([]) == {Sort([])} + KeySet([]);
  }

  /** An asset without outcomes leaves nothing to combine: both counts are 0. */
  lemma AssetWithoutOutcomes(assets: seq<seq<int>>, i: nat)
    requires i < |assets| && assets[i] == []
    ensures UniqueOutcomes(assets) == (0, 0)
  {
    if |Product(assets)| > 0 {
      var c := Product(assets)[0];
      ProductMembership(assets, c);
    }
    assert Keys(assets) == KeySet([]);
  }

  // ---------------------------------------------------------------------
  // Reordering the assets
  // ---------------------------------------------------------------------

  lemma {:induction false} ProductOfLengthsAppend(a: seq<seq<int>>, b: seq<seq<int>>)
    ensures ProductOfLengths(a + b) == ProductOfLengths(a) * ProductOfLengths(b)
  {
    if |a| > 0 {
      assert (a + b)[1..] == a[1..] + b;
      ProductOfLengthsAppend(a[1..], b);
    } else {
      assert a + b == b;
    }
  }

  /** The product of lengths depends only on the multiset of asset lists. */
  lemma {:induction false} ProductOfLengthsPermutation(a: seq<seq<int>>, b: seq<seq<int>>)
    requires multiset(a) == multiset(b)
    ensures ProductOfLengths(a) == ProductOfLengths(b)
  {
    if |a| == 0 {
      assert |b| == |multiset(b)| == 0;
    } else {
      var j := MatchFirst(a, b);
      var b' := RemoveAt(b, j);
      ProductOfLengthsPermutation(a[1..], b');
      assert b == b[..j] + ([b[j]] + b[j + 1..]);
      ProductOfLengthsAppend(b[..j], [b[j]] + b[j + 1..]);
      assert ([b[j]] + b[j + 1..])[1..] == b[j + 1..];
      ProductOfLengthsAppend(b[..j], b[j + 1..]);
      var x, y, l := ProductOfLengths(b[..j]), ProductOfLengths(b[j + 1..]), |b[j]|;
      assert ProductOfLengths(b) == x * (l * y);
      assert ProductOfLengths(a) == l * (x * y);
    }
  }

  /** A combination for `a` can be rearranged into a combination for any
      reordering `b` of the same asset lists, keeping its multiset of returns. */
  lemma {:induction false} Rearrange(a: seq<seq<int>>, b: seq<seq<int>>, c: seq<int>)
      returns (d: seq<int>)
    requires multiset(a) == multiset(b) && IsCombination(c, a)
    ensures IsCombination(d, b) && multiset(d) == multiset(c)
  {
    if |a| == 0 {
      assert |b| == |multiset(b)| == 0;
      d := [];
    } else {
      var j := MatchFirst(a, b);
      var b' := RemoveAt(b, j);
      assert b == b[..j] + [b[j]] + b[j + 1..];
      assert IsCombination(c[1..], a[1..]) by {
        forall i | 0 <= i < |c| - 1 ensures c[1..][i] in a[1..][i] {
          assert c[1..][i] == c[i + 1];
        }
      }
      var d' := Rearrange(a[1..], b', c[1..]);
      d := d'[..j] + [c[0]] + d'[j..];
      forall i | 0 <= i < |d| ensures d[i] in b[i] {
        if i < j {
          assert d[i] == d'[i] && b'[i] == b[i];
        } else if i > j {
          assert d[i] == d'[i - 1] && b'[i - 1] == b[i];
        }
      }
      assert d'[..j] + d'[j..] == d';
      assert c == [c[0]] + c[1..];
    }
  }

  lemma KeysSubset(a: seq<seq<int>>, b: seq<seq<int>>)
    requires multiset(a) == multiset(b)
    ensures Keys(a) <= Keys(b)
  {
    forall k | k in Keys(a) ensures k in Keys(b) {
      KeysCharacterized(a, k);
      var c :| IsCombination(c, a) && multiset(c) == multiset(k);
      var d := Rearrange(a, b, c);
      KeysCharacterized(b, k);
    }
  }

  /** Reordering the asset lists changes neither count. */
  lemma ReorderingInvariant(a: seq<seq<int>>, b: seq<seq<int>>)
    requires multiset(a) == multiset(b)
    ensures UniqueOutcomes(a) == UniqueOutcomes(b)
  {
    ProductLength(a);
    ProductLength(b);
    ProductOfLengthsPermutation(a, b);
    KeysSubset(a, b);
    KeysSubset(b, a);
    assert Keys(a) == Keys(b);
  }

  // ---------------------------------------------------------------------
  // The hard-coded configuration and the lifetime estimate
  // ---------------------------------------------------------------------

  /** Five stocks with three outcomes each give 3^5 = 243 combinations. */
  lemma HardCodedCombinations()
    ensures UniqueOutcomes(OUTCOMES_FOR_EACH_STOCK).0 == 243
  {
    ProductLength(OUTCOMES_FOR_EACH_STOCK);
  }

  /** `print_total_number_of_bets`: one allocation per rebalancing over the
      investing lifetime, returned instead of printed. */
  function TotalNumberOfBets(nYearsToInvest: nat, nRebalancingsPerYear: nat): nat
  {
    nYearsToInvest * nRebalancingsPerYear
  }

  /** 50 years with 2 rebalancings a year make 100 allocations. */
  lemma HardCodedLifetime()
    ensures TotalNumberOfBets(N_YEARS_TO_INVEST, N_REBALANCINGS_PER_YEAR) == 100
  {
  }
}
