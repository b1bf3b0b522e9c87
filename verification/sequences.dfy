/** Arithmetic over sequences of reals (Rust's `.sum()` and nalgebra dot
    products), and distinctness of sequence elements (what a `HashSet` built
    from a `Vec` measures). */
module Sequences {

  /** `xs.iter().sum()` over reals; with exact arithmetic the summation order
      does not matter. */
  function Sum(xs: seq<real>): real
  {
    if |xs| == 0 then 0.0 else xs[0] + Sum(xs[1..])
  }

  lemma {:induction false} SumAppend(a: seq<real>, b: seq<real>)
    ensures Sum(a + b) == Sum(a) + Sum(b)
  {
    if |a| == 0 {
      assert a + b == b;
    } else {
      assert (a + b)[1..] == a[1..] + b;
      SumAppend(a[1..], b);
    }
  }

  /** The dot product of two vectors of equal length. */
  function Dot(u: seq<real>, v: seq<real>): real
    requires |u| == |v|
  {
    if |u| == 0 then 0.0 else u[0] * v[0] + Dot(u[1..], v[1..])
  }

  /** A vector of length `n` holding `value` at `index` and zero elsewhere
      (`DVector::zeros(n)` followed by one assignment). */
  function UnitVector(n: nat, index: nat, value: real): (r: seq<real>)
    requires index < n
    ensures |r| == n
    ensures r[index] == value
    ensures forall j :: 0 <= j < n && j != index ==> r[j] == 0.0
  {
    seq(n, j => if j == index then value else 0.0)
  }

  /** Dotting with a unit vector picks out one scaled component. */
  lemma {:induction false} DotUnitVector(n: nat, index: nat, value: real, v: seq<real>)
    requires index < n == |v|
    ensures Dot(UnitVector(n, index, value), v) == value * v[index]
  {
    DotSparse(UnitVector(n, index, value), v, index);
  }

  lemma {:induction false} DotSparse(u: seq<real>, v: seq<real>, index: nat)
    requires |u| == |v| && index < |u|
    requires forall j :: 0 <= j < |u| && j != index ==> u[j] == 0.0
    ensures Dot(u, v) == u[index] * v[index]
  {
    if index == 0 {
      DotZero(u[1..], v[1..]);
    } else {
      DotSparse(u[1..], v[1..], index - 1);
    }
  }

  lemma {:induction false} DotZero(u: seq<real>, v: seq<real>)
    requires |u| == |v|
    requires forall j :: 0 <= j < |u| ==> u[j] == 0.0
    ensures Dot(u, v) == 0.0
  {
    if |u| > 0 {
      DotZero(u[1..], v[1..]);
    }
  }

  /** A vector of `n` ones (`DVector::from_element(n, 1.0)`). */
  function Ones(n: nat): (r: seq<real>)
    ensures |r| == n
    ensures forall j :: 0 <= j < n ==> r[j] == 1.0
  {
    seq(n, j => 1.0)
  }

  /** Dotting with the all-ones vector sums the components. */
  lemma {:induction false} DotOnes(v: seq<real>)
    ensures Dot(Ones(|v|), v) == Sum(v)
  {
    if |v| > 0 {
      assert Ones(|v|)[1..] == Ones(|v| - 1);
      DotOnes(v[1..]);
    }
  }

  /** The vector with every entry negated. */
  function Negate(u: seq<real>): (r: seq<real>)
    ensures |r| == |u| && forall j :: 0 <= j < |u| ==> r[j] == -u[j]
  {
    seq(|u|, j requires 0 <= j < |u| => -u[j])
  }

  /** Negating one factor negates the dot product. */
  lemma {:induction false} DotNegate(u: seq<real>, v: seq<real>)
    requires |u| == |v|
    ensures Dot(Negate(u), v) == -Dot(u, v)
  {
    if |u| > 0 {
      assert Negate(u)[1..] == Negate(u[1..]);
      DotNegate(u[1..], v[1..]);
    }
  }

  /** No element occurs twice. */
  predicate NoDuplicates<T(==)>(s: seq<T>)
  {
    forall i, j :: 0 <= i < j < |s| ==> s[i] != s[j]
  }

  /** The set of elements of a sequence: the `HashSet` collected from it. */
  function Elements<T>(s: seq<T>): set<T>
  {
    set x | x in s
  }

  /** Collecting a sequence into a set loses elements exactly when the
      sequence has a duplicate: the source's uniqueness checks compare these
      two sizes. */
  lemma {:induction false} ElementsCardinality<T>(s: seq<T>)
    ensures |Elements(s)| <= |s|
    ensures |Elements(s)| == |s| <==> NoDuplicates(s)
  {
    if |s| > 0 {
      var t := s[1..];
      ElementsCardinality(t);
      assert Elements(s) == {s[0]} + Elements(t);
      if s[0] in t {
        assert Elements(s) == Elements(t);
        var k :| 0 <= k < |t| && t[k] == s[0];
        assert s[0] == s[k + 1];
      } else {
        assert |Elements(s)| == |Elements(t)| + 1;
        if NoDuplicates(t) {
          forall i, j | 0 <= i < j < |s| ensures s[i] != s[j] {
            if i > 0 {
              assert s[i] == t[i - 1] && s[j] == t[j - 1];
            } else {
              assert s[j] == t[j - 1];
            }
          }
        }
        if NoDuplicates(s) {
          forall i, j | 0 <= i < j < |t| ensures t[i] != t[j] {
            assert t[i] == s[i + 1] && t[j] == s[j + 1];
          }
        }
      }
    }
  }

  /** Removes position `j`. */
  function RemoveAt<T>(s: seq<T>, j: nat): (r: seq<T>)
    requires j < |s|
    ensures |r| == |s| - 1
  {
    s[..j] + s[j + 1..]
  }

  /** The first of `a` sits at some position `j` of its reordering `b`, and
      the rest of `a` is a reordering of `b` without position `j`. */
  /** A sequence is its part before `j`, the element at `j`, and the part
      after; without the element it is the two parts. */
  lemma SplitAt<T>(s: seq<T>, j: nat)
    requires j < |s|
    ensures s == s[..j] + ([s[j]] + s[j + 1..])
    ensures RemoveAt(s, j) == s[..j] + s[j + 1..]
  {
    assert s[j..] == [s[j]] + s[j + 1..];
    assert s == s[..j] + s[j..];
  }

  lemma MatchFirst<T>(a: seq<T>, b: seq<T>) returns (j: nat)
    requires multiset(a) == multiset(b) && |a| > 0
    ensures j < |b| && b[j] == a[0]
    ensures multiset(a[1..]) == multiset(RemoveAt(b, j))
  {
    assert a[0] in multiset(b);
    j :| 0 <= j < |b| && b[j] == a[0];
    assert b == b[..j] + [b[j]] + b[j + 1..];
    assert a == [a[0]] + a[1..];
    assert multiset(b) == multiset(b[..j]) + multiset{b[j]} + multiset(b[j + 1..]);
    assert multiset(a[1..]) == multiset(a) - multiset{a[0]};
  }

  /** Two reorderings of each other that start alike are reorderings after
      their first element too. */
  lemma TailsPermutation<T>(a: seq<T>, b: seq<T>)
    requires multiset(a) == multiset(b) && |a| > 0 && |b| > 0 && a[0] == b[0]
    ensures multiset(a[1..]) == multiset(b[1..])
  {
    assert a == [a[0]] + a[1..];
    assert b == [b[0]] + b[1..];
    assert multiset(a[1..]) == multiset(a) - multiset{a[0]};
    assert multiset(b[1..]) == multiset(b) - multiset{b[0]};
  }
}
