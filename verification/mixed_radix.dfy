/** Little-endian mixed-radix numbers: a tuple of digits `d` over radices
    `r` stands for `d[0] + r[0] * (d[1] + r[1] * (...))`. The scenario
    enumeration in the analysis walks such tuples with an odometer, and the
    allocator reads constraint activity from the binary digits of an index
    (all radices 2). */
module MixedRadix {

  import Common

  /** Every radix is at least 1. */
  predicate PositiveRadices(r: seq<nat>)
  {
    forall i :: 0 <= i < |r| ==> r[i] > 0
  }

  /** The number of distinct digit tuples over `r`. */
  function Prod(r: seq<nat>): nat
  {
    if |r| == 0 then 1 else r[0] * Prod(r[1..])
  }

  /** `d` is a digit tuple over `r`: one digit per radix, each below it. */
  predicate Valid(d: seq<nat>, r: seq<nat>)
  {
    |d| == |r| && forall i :: 0 <= i < |d| ==> d[i] < r[i]
  }

  /** The number a digit tuple stands for. */
  function Value(d: seq<nat>, r: seq<nat>): nat
    requires |d| == |r|
  {
    if |d| == 0 then 0 else d[0] + r[0] * Value(d[1..], r[1..])
  }

  /** The digit tuple of `k`, least significant digit first. */
  function Digits(k: nat, r: seq<nat>): (d: seq<nat>)
    requires PositiveRadices(r)
    ensures |d| == |r|
    decreases |r|
  {
    if |r| == 0 then [] else [k % r[0]] + Digits(k / r[0], r[1..])
  }

  /** One odometer step: leading digits at their maximum wrap to 0 and the
      first digit below its maximum is incremented. When every digit is at
      its maximum, all of them wrap. */
  function Increment(d: seq<nat>, r: seq<nat>): (e: seq<nat>)
    requires |d| == |r|
    ensures |e| == |d|
  {
    if |d| == 0 then []
    else if d[0] + 1 == r[0] then [0] + Increment(d[1..], r[1..])
    else [d[0] + 1] + d[1..]
  }

  /** `n / d` and `n % d` are the unique quotient and remainder. */
  lemma DivModUnique(n: int, d: int, q: int, m: int)
    requires d > 0 && 0 <= m < d && n == q * d + m
    ensures n / d == q && n % d == m
  {
    var e := q - n / d;
    assert e * d == n % d - m;
  }

  lemma DivBelow(k: nat, a: nat, b: nat)
    requires a > 0 && k < a * b
    ensures k / a < b
  {
  }

  lemma {:induction false} ProdAppend(a: seq<nat>, b: seq<nat>)
    ensures Prod(a + b) == Prod(a) * Prod(b)
  {
    if |a| > 0 {
      assert (a + b)[1..] == a[1..] + b;
      ProdAppend(a[1..], b);
    } else {
      assert a + b == b;
    }
  }

  lemma {:induction false} ProdPositive(r: seq<nat>)
    requires PositiveRadices(r)
    ensures Prod(r) > 0
  {
    if |r| > 0 {
      ProdPositive(r[1..]);
    }
  }

  /** The product is 0 exactly when some radix is 0. */
  lemma {:induction false} ProdZero(r: seq<nat>)
    ensures Prod(r) == 0 <==> !PositiveRadices(r)
  {
    if |r| > 0 {
      ProdZero(r[1..]);
      if r[0] > 0 && Prod(r[1..]) > 0 {
        assert r[0] * Prod(r[1..]) > 0;
      }
    }
  }

  /** Every number below the product has a valid digit tuple. */
  lemma {:induction false} DigitsValid(k: nat, r: seq<nat>)
    requires PositiveRadices(r) && k < Prod(r)
    ensures Valid(Digits(k, r), r)
    decreases |r|
  {
    if |r| > 0 {
      DivBelow(k, r[0], Prod(r[1..]));
      DigitsValid(k / r[0], r[1..]);
    }
  }

  /** Every valid digit tuple stands for a number below the product. */
  lemma {:induction false} ValueBelowProd(d: seq<nat>, r: seq<nat>)
    requires Valid(d, r)
    ensures Value(d, r) < Prod(r)
  {
    if |d| > 0 {
      ValueBelowProd(d[1..], r[1..]);
      DigitBelow(d[0], r[0], Value(d[1..], r[1..]), Prod(r[1..]));
    }
  }

  /** One more digit below its radix keeps a value below the product. */
  lemma DigitBelow(digit: nat, radix: nat, v: nat, p: nat)
    requires digit < radix && v < p
    ensures digit + radix * v < radix * p
  {
    assert radix * v <= radix * (p - 1);
  }

  /** Reading the digits of `k` back gives `k`. */
  lemma {:induction false} ValueOfDigits(k: nat, r: seq<nat>)
    requires PositiveRadices(r) && k < Prod(r)
    ensures Value(Digits(k, r), r) == k
    decreases |r|
  {
    if |r| > 0 {
      DivBelow(k, r[0], Prod(r[1..]));
      ValueOfDigits(k / r[0], r[1..]);
      assert Digits(k, r)[1..] == Digits(k / r[0], r[1..]);
    }
  }

  /** Taking the digits of a valid tuple's value gives the tuple back. */
  lemma {:induction false} DigitsOfValue(d: seq<nat>, r: seq<nat>)
    requires PositiveRadices(r) && Valid(d, r)
    ensures Digits(Value(d, r), r) == d
  {
    if |d| > 0 {
      var v := Value(d[1..], r[1..]);
      DivModUnique(Value(d, r), r[0], v, d[0]);
      DigitsOfValue(d[1..], r[1..]);
      assert d == [d[0]] + d[1..];
    }
  }

  /** `Digits` is a bijection from the numbers below the product onto the
      valid digit tuples: distinct numbers have distinct tuples, and every
      valid tuple is the tuple of exactly one such number. */
  lemma DigitsBijective(r: seq<nat>)
    requires PositiveRadices(r)
    ensures forall j, k :: 0 <= j < k < Prod(r) ==> Digits(j, r) != Digits(k, r)
    ensures forall d :: Valid(d, r) ==> Value(d, r) < Prod(r) && Digits(Value(d, r), r) == d
  {
    forall j, k | 0 <= j < k < Prod(r) ensures Digits(j, r) != Digits(k, r) {
      ValueOfDigits(j, r);
      ValueOfDigits(k, r);
    }
    forall d | Valid(d, r) ensures Value(d, r) < Prod(r) && Digits(Value(d, r), r) == d {
      ValueBelowProd(d, r);
      DigitsOfValue(d, r);
    }
  }

  /** The odometer starts with every digit at 0. */
  lemma {:induction false} DigitsOfZero(r: seq<nat>)
    requires PositiveRadices(r)
    ensures Digits(0, r) == seq(|r|, i => 0)
    decreases |r|
  {
    if |r| > 0 {
      DigitsOfZero(r[1..]);
      assert [0] + seq(|r| - 1, i => 0) == seq(|r|, i => 0);
    }
  }

  /** An odometer step moves from the digits of `k` to the digits of `k + 1`. */
  lemma {:induction false} IncrementDigits(k: nat, r: seq<nat>)
    requires PositiveRadices(r) && k + 1 < Prod(r)
    ensures Increment(Digits(k, r), r) == Digits(k + 1, r)
    decreases |r|
  {
    if |r| > 0 {
      var q := k / r[0];
      var m := k % r[0];
      var d := Digits(k, r);
      assert d[0] == m && d[1..] == Digits(q, r[1..]);
      if m + 1 == r[0] {
        DivModUnique(k + 1, r[0], q + 1, 0);
        DivBelow(k + 1, r[0], Prod(r[1..]));
        IncrementDigits(q, r[1..]);
      } else {
        DivModUnique(k + 1, r[0], q, m + 1);
      }
    }
  }

  /** From the last tuple, an odometer step wraps every digit to 0. */
  lemma {:induction false} IncrementWraps(r: seq<nat>)
    requires PositiveRadices(r)
    ensures Prod(r) > 0
    ensures Increment(Digits(Prod(r) - 1, r), r) == seq(|r|, i => 0)
  {
    ProdPositive(r);
    if |r| > 0 {
      var p := Prod(r[1..]);
      ProdPositive(r[1..]);
      DivModUnique(Prod(r) - 1, r[0], p - 1, r[0] - 1);
      IncrementWraps(r[1..]);
      assert [0] + seq(|r| - 1, i => 0) == seq(|r|, i => 0);
    }
  }

  lemma DivDiv(k: nat, a: nat, b: nat)
    requires a > 0 && b > 0
    ensures k / a / b == k / (a * b)
  {
    var q := k / a / b;
    var m1 := k % a;
    var m2 := (k / a) % b;
    assert k / a == q * b + m2;
    assert k == (q * b + m2) * a + m1;
    assert k == q * (a * b) + (m2 * a + m1);
    assert m2 * a <= (b - 1) * a;
    DivModUnique(k, a * b, q, m2 * a + m1);
  }

  /** Digit `c` of `k` is `k` divided by the product of the lower radices,
      taken modulo radix `c`. */
  lemma {:induction false} DigitAt(k: nat, r: seq<nat>, c: nat)
    requires PositiveRadices(r) && c < |r|
    ensures Prod(r[..c]) > 0
    ensures Digits(k, r)[c] == (k / Prod(r[..c])) % r[c]
    decreases |r|
  {
    if c == 0 {
      assert r[..0] == [];
    } else {
      DigitAt(k / r[0], r[1..], c - 1);
      assert r[..c][1..] == r[1..][..c - 1];
      ProdPositive(r[1..][..c - 1]);
      DivDiv(k, r[0], Prod(r[1..][..c - 1]));
    }
  }

  /** `n` radices of 2: the binary digits of a machine word. */
  function Binary(n: nat): (r: seq<nat>)
    ensures |r| == n && PositiveRadices(r)
  {
    seq(n, i => 2)
  }

  lemma {:induction false} ProdBinary(n: nat, c: nat)
    requires c <= n
    ensures Prod(Binary(n)[..c]) == Common.Pow2(c)
  {
    if c > 0 {
      assert Binary(n)[..c][1..] == Binary(n - 1)[..c - 1];
      ProdBinary(n - 1, c - 1);
    }
  }
}
