/** Fixed-width integer arithmetic of the contracts: division that truncates toward zero,
    saturating and checked i128 operations, and saturating u64 addition. */
module Arithmetic {

  const I128_MAX: int := 0x7FFF_FFFF_FFFF_FFFF_FFFF_FFFF_FFFF_FFFF
  const I128_MIN: int := -I128_MAX - 1
  const U64_MAX: nat := 0xFFFF_FFFF_FFFF_FFFF
  const U32_MAX: nat := 0xFFFF_FFFF
  const BPS: int := 10_000

  datatype Option<+T> = None | Some(value: T) {
    function GetOr(default: T): T {
      if Some? then value else default
    }
  }

  predicate FitsI128(x: int) {
    I128_MIN <= x <= I128_MAX
  }

  predicate FitsU64(x: int) {
    0 <= x <= U64_MAX
  }

  function Min(a: int, b: int): int {
    if a <= b then a else b
  }

  function Max(a: int, b: int): int {
    if a >= b then a else b
  }

  function Abs(a: int): nat {
    if a >= 0 then a else -a
  }

  /** Rust's `/` on signed integers, for the positive divisors the contracts use. */
  function TruncDiv(a: int, b: int): int
    requires b > 0
  {
    if a >= 0 then a / b else -((-a) / b)
  }

  function Saturate(x: int): int {
    if x > I128_MAX then I128_MAX else if x < I128_MIN then I128_MIN else x
  }

  function SatAdd(a: int, b: int): int {
    Saturate(a + b)
  }

  function SatMul(a: int, b: int): int {
    Saturate(a * b)
  }

  function SatAddU64(a: nat, b: nat): nat {
    if a + b > U64_MAX then U64_MAX else a + b
  }

  function SatSubU64(a: nat, b: nat): nat {
    if a < b then 0 else a - b
  }

  lemma MulMono(a: int, b: int, c: int)
    requires a <= b && c >= 0
    ensures a * c <= b * c
  {
  }

  /** Cancelling a positive factor. */
  lemma CancelMul(x: int, y: int, b: int)
    requires b > 0 && x * b < y * b + b
    ensures x <= y
  {
    if x > y {
      MulMono(y + 1, x, b);
    }
  }

  /** Truncation never leaves the hull: a sum between lo*b and hi*b divides to a quotient in [lo, hi]. */
  lemma TruncDivHull(a: int, b: int, lo: int, hi: int)
    requires b > 0
    requires lo * b <= a <= hi * b
    ensures lo <= TruncDiv(a, b) <= hi
  {
    var q := (if a >= 0 then a else -a) / b;
    assert q * b <= (if a >= 0 then a else -a) < q * b + b;
    if a >= 0 {
      CancelMul(q, hi, b);
      CancelMul(lo, q, b);
    } else {
      assert (-q) * b == -(q * b);
      CancelMul(-q, hi, b);
      CancelMul(lo, -q, b);
    }
  }

  /** Truncation is toward zero: what is left over has the sign of the dividend and is smaller than the divisor. */
  lemma TruncDivExactly(a: int, b: int, q: int)
    requires b > 0
    ensures q == TruncDiv(a, b) <==> if a >= 0 then 0 <= a - q * b < b else -b < a - q * b <= 0
  {
    var t := TruncDiv(a, b);
    var m := if a >= 0 then a else -a;
    assert m / b * b <= m < m / b * b + b;
    assert (-(m / b)) * b == -(m / b * b);
    if a >= 0 && 0 <= a - q * b < b {
      CancelMul(q, t, b);
      CancelMul(t, q, b);
    }
    if a < 0 && -b < a - q * b <= 0 {
      CancelMul(q, t, b);
      CancelMul(t, q, b);
    }
  }

  /** Saturating sums and products are exact within i128 and stop at its nearer end. */
  lemma SaturatesExactly(a: int, b: int)
    ensures SatAdd(a, b) == if a + b >= 0x7FFF_FFFF_FFFF_FFFF_FFFF_FFFF_FFFF_FFFF then 0x7FFF_FFFF_FFFF_FFFF_FFFF_FFFF_FFFF_FFFF
                            else if a + b <= -0x8000_0000_0000_0000_0000_0000_0000_0000 then -0x8000_0000_0000_0000_0000_0000_0000_0000
                            else a + b
    ensures SatMul(a, b) == if a * b >= 0x7FFF_FFFF_FFFF_FFFF_FFFF_FFFF_FFFF_FFFF then 0x7FFF_FFFF_FFFF_FFFF_FFFF_FFFF_FFFF_FFFF
                            else if a * b <= -0x8000_0000_0000_0000_0000_0000_0000_0000 then -0x8000_0000_0000_0000_0000_0000_0000_0000
                            else a * b
  {
  }

  lemma DivMono(a: int, c: int, b: int)
    requires b > 0 && 0 <= a <= c
    ensures 0 <= a / b <= c / b
  {
    assert (a / b) * b <= a && c < (c / b) * b + b;
    CancelMul(a / b, c / b, b);
  }

  lemma TruncDivMono(a: int, c: int, b: int)
    requires b > 0 && a <= c
    ensures TruncDiv(a, b) <= TruncDiv(c, b)
  {
    if a >= 0 {
      DivMono(a, c, b);
    } else if c < 0 {
      DivMono(-c, -a, b);
    } else {
      DivMono(0, -a, b);
      DivMono(0, c, b);
    }
  }

  /** The threshold test a quotient is compared with: floor(a / b) >= k exactly when a >= k * b. */
  lemma QuotientAtLeast(a: int, b: int, k: int)
    requires b > 0 && a >= 0
    ensures TruncDiv(a, b) >= k <==> a >= k * b
  {
    var q := a / b;
    assert q * b <= a < q * b + b;
    if q >= k {
      MulMono(k, q, b);
    } else {
      MulMono(q + 1, k, b);
    }
  }
}
