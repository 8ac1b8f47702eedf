/** Numeric conventions of the C# code, stated over unbounded `int` and exact
    `real`: 32-bit integer wrap-around, float `%` and rounding up. */
module Numerics {

  const Int32Min: int := -0x8000_0000
  const Int32Max: int := 0x7FFF_FFFF
  const Int32Span: int := 0x1_0000_0000

  /** True when the real has no fractional part. */
  predicate IsIntegral(x: real) {
    x == x.Floor as real
  }

  /** The remainder of the floored quotient, `a - m * floor(a / m)`. For a
      non-negative dividend and a positive divisor, which is how the chunk code
      uses it, this is the value of C#'s float `%`. */
  function FMod(a: real, m: real): (r: real)
    requires m != 0.0
    ensures 0.0 < m ==> 0.0 <= r < m
  {
    var t := (a / m).Floor;
    QuotientBounds(a, m, t);
    a - m * t as real
  }

  /** C#'s float `%`: the remainder of the quotient truncated toward zero, so
      it takes the sign of the dividend, is smaller than the divisor in
      magnitude and differs from the dividend by a whole multiple of the
      divisor. It is the floored remainder by `|m|` of `|a|`, with the sign
      of `a`. */
  function Rem(a: real, m: real): (r: real)
    requires m != 0.0
    ensures 0.0 <= a ==> 0.0 <= r < Abs(m)
    ensures a < 0.0 ==> -Abs(m) < r <= 0.0
    ensures IsIntegral((a - r) / m)
    ensures 0.0 <= a && 0.0 < m ==> r == FMod(a, m)
  {
    var n := Abs(m);
    if 0.0 <= a then
      FModWhole(a, n);
      WholeAcrossSign(a - FMod(a, n), m);
      FMod(a, n)
    else
      FModWhole(-a, n);
      NegateIntegral((-a - FMod(-a, n)) / n);
      NegQuotient(-a - FMod(-a, n), n);
      WholeAcrossSign(a - -FMod(-a, n), m);
      -FMod(-a, n)
  }

  function Abs(x: real): (y: real)
    ensures 0.0 <= y && (y == x || y == -x)
  {
    if x < 0.0 then -x else x
  }

  /** The remainder differs from the dividend by a whole multiple of the divisor. */
  lemma FModWhole(a: real, m: real)
    requires m != 0.0
    ensures IsIntegral((a - FMod(a, m)) / m)
  {
    var t := (a / m).Floor;
    WholeQuotient(a, m, t);
    assert FMod(a, m) == a - m * t as real;
  }

  /** What is removed from the dividend is a whole multiple of the divisor. */
  lemma WholeQuotient(a: real, m: real, t: int)
    requires m != 0.0
    ensures IsIntegral((a - (a - m * t as real)) / m)
  {
    var k := t as real;
    assert a - (a - m * k) == m * k;
    assert (m * k) / m == k;
    var x := (a - (a - m * k)) / m;
    assert x == k;
    assert x.Floor == t;
    assert x.Floor as real == x;
    assert x == (a - (a - m * t as real)) / m;
    assert IsIntegral(x);
  }

  /** `Mathf.CeilToInt`: the least integer not below `x`. */
  function CeilToInt(x: real): (n: int)
    ensures n as real - 1.0 < x <= n as real
  {
    -((-x).Floor)
  }

  /** The value a C# `int` holds after an unchecked computation whose exact
      result is `x`. */
  function Wrap32(x: int): (r: int)
    ensures Int32Min <= r <= Int32Max
    ensures (x - r) % Int32Span == 0
    ensures Int32Min <= x <= Int32Max ==> r == x
  {
    (x - Int32Min) % Int32Span + Int32Min
  }

  /** Multiplying the floor bounds of `a / m` by a positive `m`. */
  lemma QuotientBounds(a: real, m: real, t: int)
    requires m != 0.0 && t == (a / m).Floor
    ensures (a / m) * m == a
    ensures 0.0 < m ==> m * t as real <= a < m * t as real + m
  {
    var q := a / m;
    assert q * m == a;
    assert (t as real) * m == m * t as real;
    if 0.0 < m {
      ScaleBounds(t as real, q, t as real + 1.0, m, a);
    }
  }

  lemma ScaleBounds(lo: real, q: real, hi: real, m: real, a: real)
    requires lo <= q < hi && 0.0 < m && q * m == a
    ensures lo * m <= a < hi * m
  {
    MulMonotone(lo, q, m);
    MulStrict(q, hi, m);
  }

  lemma MulMonotone(x: real, y: real, m: real)
    requires x <= y && 0.0 < m
    ensures x * m <= y * m
  {
  }

  lemma MulStrict(x: real, y: real, m: real)
    requires x < y && 0.0 < m
    ensures x * m < y * m
  {
  }

  /** Float division of two integers, floored, is integer division. */
  lemma {:induction false} FloorOfRatio(a: int, b: int)
    requires 0 <= a && 0 < b
    ensures (a as real / b as real).Floor == a / b
  {
    var q, r := a / b, a % b;
    assert a == b * q + r && 0 <= r < b;
    assert (b * q) as real == b as real * q as real;
    assert (q as real) * b as real <= a as real;
    assert a as real < (q as real + 1.0) * b as real;
    QuotientWithin(q as real, a as real, q as real + 1.0, b as real);
    FloorUnique(a as real / b as real, q);
  }

  /** Dividing bounds of the form `lo * b <= a < hi * b` by a positive `b`. */
  lemma QuotientWithin(lo: real, a: real, hi: real, b: real)
    requires 0.0 < b && lo * b <= a < hi * b
    ensures lo <= a / b < hi
  {
    var x := a / b;
    assert x * b == a;
    if x < lo {
      MulStrict(x, lo, b);
    }
    if hi <= x {
      MulMonotone(hi, x, b);
    }
  }

  lemma FloorUnique(x: real, k: int)
    requires k as real <= x < k as real + 1.0
    ensures x.Floor == k
  {
  }

  lemma DivMul(a: real, m: real)
    requires m != 0.0
    ensures (a / m) * m == a
  {
  }

  lemma NonZeroProduct(x: real, y: real)
    requires x != 0.0 && y != 0.0
    ensures x * y != 0.0
  {
  }

  lemma IntegralFMod(a: int, n: int)
    requires n != 0
    ensures IsIntegral(FMod(a as real, n as real))
  {
    var t := (a as real / n as real).Floor;
    assert FMod(a as real, n as real) == (a - n * t) as real;
  }

  lemma NegateIntegral(x: real)
    requires IsIntegral(x)
    ensures IsIntegral(-x)
  {
    assert -x == (-x.Floor) as real;
  }

  /** Negating the dividend negates the quotient. */
  lemma NegQuotient(x: real, n: real)
    requires n != 0.0
    ensures (-x) / n == -(x / n)
  {
  }

  /** A whole quotient by `|m|` is a whole quotient by `m`. */
  lemma WholeAcrossSign(x: real, m: real)
    requires m != 0.0 && IsIntegral(x / Abs(m))
    ensures IsIntegral(x / m)
  {
    if m < 0.0 {
      assert x / m == -(x / Abs(m));
      NegateIntegral(x / Abs(m));
    }
  }

  lemma CastSum(m: int, b: int, r: int)
    requires 0 < m
    ensures (m * b + r) as real == m as real * b as real + r as real
  {
    CastProduct(m, b);
  }

  /** If `q = m*b + (r + f)` with `0 <= r + f < m`, the float remainder of `q`
      by `m` is `r + f`. */
  lemma RemainderOfSplit(q: real, m: real, b: int, r: real, f: real)
    requires 0.0 < m && 0.0 <= r + f < m && q == m * b as real + (r + f)
    ensures FMod(q, m) == r + f
  {
    FloorOfQuotient(q, m, b, r + f);
  }

  /** `i / S.x` as a real is the integer quotient plus a fraction in `[0, 1)`. */
  lemma WholeAndFraction(i: int, sx: int)
    requires 0 <= i && 0 < sx
    ensures var f := (i % sx) as real / sx as real;
      && 0.0 <= f < 1.0
      && i as real / sx as real == (i / sx) as real + f
  {
    var a, r0 := i / sx, i % sx;
    assert i == sx * a + r0;
    CastProduct(sx, a);
    assert i as real == sx as real * a as real + r0 as real;
    FractionBounds(r0 as real, sx as real);
    SplitQuotient(i as real, a as real, r0 as real, sx as real);
  }

  lemma CastProduct(x: int, y: int)
    ensures (x * y) as real == x as real * y as real
  {
  }

  lemma FractionBounds(r: real, s: real)
    requires 0.0 <= r < s
    ensures 0.0 <= r / s < 1.0
  {
    QuotientWithin(0.0, r, 1.0, s);
  }

  lemma SplitQuotient(n: real, a: real, r: real, s: real)
    requires s != 0.0 && n == s * a + r
    ensures n / s == a + r / s
  {
  }

  /** If `q = m*b + e` with `0 <= e < m`, then `floor(q / m) = b`. */
  lemma FloorOfQuotient(q: real, m: real, b: int, e: real)
    requires 0.0 < m && 0.0 <= e < m && q == m * b as real + e
    ensures (q / m).Floor == b
  {
    assert (b as real + 1.0) * m == m * b as real + m;
    assert (b as real) * m == m * b as real;
    QuotientWithin(b as real, q, b as real + 1.0, m);
    FloorUnique(q / m, b);
  }

  /** `ru = u*a` and `rv = v*a` keep the order of `u < v` for a positive `a`. */
  lemma ScaleStrict(u: real, v: real, a: real, ru: real, rv: real)
    requires u < v && 0.0 < a && ru == u * a && rv == v * a
    ensures ru < rv
  {
    MulStrict(u, v, a);
  }

  lemma MulMonotoneInt(x: int, y: int, k: int)
    requires x <= y && 0 <= k
    ensures x * k <= y * k
  {
  }
}
