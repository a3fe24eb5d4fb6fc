/**
 Rust's signed 32-bit integer operators, as used by the coordinate conversions.

 Dafny's `int` is unbounded and its `/` and `%` are Euclidean. Rust's `i32`
 is bounded, its `>>` on a signed value is an arithmetic (sign-filling) shift
 and its `%` truncates toward zero, so the remainder takes the sign of the
 dividend. This module writes each of those out explicitly so that the
 conversions built on them compute what the Rust code computes.
 */
module RustInt {

  const I32Min: int := -0x8000_0000
  const I32Max: int := 0x7fff_ffff

  /** True when `x` is representable as an `i32`. */
  predicate InI32(x: int) {
    I32Min <= x <= I32Max
  }

  function Abs(x: int): nat {
    if x < 0 then -x else x
  }

  function Pow2(n: nat): (p: nat)
    ensures p >= 1
  {
    if n == 0 then 1 else 2 * Pow2(n - 1)
  }

  /**
   `x >> n` on an `i32`: an arithmetic shift, which drops the low `n` bits and
   fills with the sign bit, i.e. halves `n` times rounding toward minus
   infinity. Rust rejects a shift amount of 32 or more on an `i32`.
   The result keeps the sign of `x` and is never further from zero, so a
   shift never leaves the `i32` range.
   */
  function Shr(x: int, n: nat): (r: int)
    requires n < 32
    ensures x >= 0 ==> 0 <= r <= x
    ensures x < 0 ==> x <= r < 0
    decreases n
  {
    if n == 0 then x else Shr(x / 2, n - 1)
  }

  /**
   `a % b` on an `i32`: the remainder of the division truncated toward zero.
   Rust panics on a zero divisor and on `i32::MIN % -1`.
   */
  function RustRem(a: int, b: int): (r: int)
    requires InI32(a) && InI32(b) && b != 0
    requires !(a == I32Min && b == -1)
    ensures Abs(r) < Abs(b)
    ensures a >= 0 ==> r >= 0
    ensures a < 0 ==> r <= 0
    ensures (a - r) % Abs(b) == 0
    ensures InI32(r)
  {
    var m := Abs(a) % Abs(b);
    MultipleOfDivisor(Abs(a), Abs(b));
    if a < 0 then -m else m
  }

  /** Taking away the remainder leaves a multiple of the divisor. */
  lemma MultipleOfDivisor(x: int, d: int)
    requires d > 0
    ensures (x - x % d) % d == 0
    ensures (-x + x % d) % d == 0
  {
    var q := x / d;
    assert x - x % d == d * q;
    DivModUnique(d * q, d, q, 0);
    assert -x + x % d == d * -q;
    DivModUnique(d * -q, d, -q, 0);
  }

  /** If `x == d * q + r` with `0 <= r < d`, then `q` and `r` are Dafny's quotient and remainder. */
  lemma DivModUnique(x: int, d: int, q: int, r: int)
    requires d > 0 && 0 <= r < d && x == d * q + r
    ensures x / d == q && x % d == r
  {
    var q', r' := x / d, x % d;
    assert d * (q - q') == r' - r;
    if q' < q {
      MulAtLeast(d, q - q');
    } else if q' > q {
      MulAtLeast(d, q' - q);
    }
  }

  lemma MulAtLeast(d: int, k: int)
    requires d > 0 && k >= 1
    ensures d * k >= d
  {
    assert d * k == d + d * (k - 1);
  }

  /** `x >> n` brackets `x` between two consecutive multiples of `2^n`: the shift rounds toward minus infinity. */
  lemma {:induction false} ShrBrackets(x: int, n: nat)
    requires n < 32
    ensures Pow2(n) * Shr(x, n) <= x < Pow2(n) * Shr(x, n) + Pow2(n)
    decreases n
  {
    if n > 0 {
      var h, r := x / 2, Shr(x / 2, n - 1);
      ShrBrackets(h, n - 1);
      var m := Pow2(n - 1) * r;
      DoubleProduct(Pow2(n - 1), r);
      assert Pow2(n) * r == 2 * m;
      assert m <= h < m + Pow2(n - 1);
      assert x == 2 * h + x % 2 && 0 <= x % 2 < 2;
    }
  }

  lemma DoubleProduct(p: int, r: int)
    ensures (2 * p) * r == 2 * (p * r)
  {
  }

  /** The arithmetic shift is floor division by `2^n`, which is what Dafny's `/` computes for a positive divisor. */
  lemma ShrIsFloorDiv(x: int, n: nat)
    requires n < 32
    ensures Shr(x, n) == x / Pow2(n)
    ensures Pow2(n) * Shr(x, n) <= x < Pow2(n) * Shr(x, n) + Pow2(n)
  {
    ShrBrackets(x, n);
    DivModUnique(x, Pow2(n), Shr(x, n), x - Pow2(n) * Shr(x, n));
  }

  /** Shifting by `a` and then by `b` is shifting by `a + b`. */
  lemma {:induction false} ShrShr(x: int, a: nat, b: nat)
    requires a + b < 32
    ensures Shr(Shr(x, a), b) == Shr(x, a + b)
    decreases a
  {
    if a > 0 {
      ShrShr(x / 2, a - 1, b);
    }
  }

  /**
   For a positive divisor, the truncating remainder agrees with the floor
   (Euclidean) remainder on a non-negative dividend, is zero on a negative
   multiple of the divisor, and lies exactly one divisor below the floor
   remainder on every other negative dividend.
   */
  lemma RustRemVersusFloorMod(a: int, b: int)
    requires InI32(a) && InI32(b) && b > 0
    ensures a >= 0 ==> RustRem(a, b) == a % b
    ensures a < 0 && a % b == 0 ==> RustRem(a, b) == 0
    ensures a < 0 && a % b != 0 ==> RustRem(a, b) == a % b - b
  {
    var r := RustRem(a, b);
    if a >= 0 {
      DivModUnique(a, b, (a - r) / b, r);
    } else {
      var k := (a - r) / b;
      assert a - r == b * k;
      if r == 0 {
        DivModUnique(a, b, k, 0);
      } else {
        assert a == b * (k - 1) + (r + b);
        DivModUnique(a, b, k - 1, r + b);
      }
    }
  }
}
