/** Shared vocabulary of the model: optional values, operations that may
    panic, and the floating-point tolerance used throughout the allocator. */
module Common {

  /** Rust's `Option<T>`. */
  datatype Option<+T> = None | Some(value: T)

  /** The result of a Rust operation that either returns a value or panics.
      A panic aborts the program; `reason` names the check that fired. */
  datatype Outcome<+T, +P> = Returns(value: T) | Panics(reason: P)

  /** An error returned (not panicked) by the allocator, identified by its
      stable error code. The human-readable message is not modelled. */
  datatype Error = Error(code: string)

  /** Rust's `Result<T, Error>`. */
  datatype Result<+T> = Ok(value: T) | Err(error: Error)

  /** Tolerance for comparing floats (`company::TOLERANCE`, 1e-10). */
  const TOLERANCE: real := 0.0000000001

  /** The number of values of a 64-bit `usize`. Arithmetic on `usize`
      wraps modulo this number in a release build, where overflow checks
      are off. */
  const USIZE_MODULUS: nat := 0x1_0000_0000_0000_0000

  /** The absolute value. */
  function Abs(x: real): (a: real)
    ensures a >= 0.0 && (a == x || a == -x)
  {
    if x < 0.0 then -x else x
  }

  /** 2 to the power `n`. */
  function Pow2(n: nat): (r: nat)
    ensures r >= 1
  {
    if n == 0 then 1 else 2 * Pow2(n - 1)
  }

  /** Powers of two are strictly increasing, so comparing `2^m` with `2^n`
      is the same as comparing `m` with `n`. */
  lemma {:induction false} Pow2StrictlyMonotonic(m: nat, n: nat)
    ensures Pow2(m) < Pow2(n) <==> m < n
  {
    if m == 0 || n == 0 {
      if n > 0 { Pow2Above(n); }
      if m > 0 { Pow2Above(m); }
    } else {
      Pow2StrictlyMonotonic(m - 1, n - 1);
    }
  }

  lemma {:induction false} Pow2Above(n: nat)
    requires n > 0
    ensures Pow2(n) >= 2
  {
    if n > 1 { Pow2Above(n - 1); }
  }

  /** The two powers of two the allocator's limits are written with. */
  lemma Pow2Limits()
    ensures Pow2(16) == 65536 && Pow2(22) == 4194304
  {
    assert Pow2(4) == 16;
    assert Pow2(8) == 256;
    assert Pow2(12) == 4096;
    assert Pow2(16) == 65536;
    assert Pow2(20) == 1048576;
  }

  /** Exponents add. */
  lemma {:induction false} Pow2Add(m: nat, n: nat)
    ensures Pow2(m + n) == Pow2(m) * Pow2(n)
  {
    if m > 0 {
      Pow2Add(m - 1, n);
      assert Pow2(m + n) == 2 * (Pow2(m - 1) * Pow2(n));
    }
  }

  /** `2^n` as a `usize`: exact below 64 bits, and wrapped to 0 from 64 bits
      on. */
  lemma Pow2Usize(n: nat)
    ensures n < 64 ==> Pow2(n) < USIZE_MODULUS
    ensures n >= 64 ==> Pow2(n) % USIZE_MODULUS == 0
  {
    Pow2SixtyFour();
    if n < 64 {
      Pow2StrictlyMonotonic(n, 64);
    } else {
      Pow2Add(64, n - 64);
      MultipleOfModulus(Pow2(n - 64));
    }
  }

  lemma Pow2SixtyFour()
    ensures Pow2(64) == USIZE_MODULUS
  {
    Pow2Limits();
    Pow2Add(16, 16);
    assert Pow2(32) == 4294967296;
    Pow2Add(32, 32);
  }

  lemma MultipleOfModulus(k: nat)
    ensures (USIZE_MODULUS * k) % USIZE_MODULUS == 0
  {
  }
}
