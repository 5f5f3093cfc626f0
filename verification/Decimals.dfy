/** Exact decimals with division rounded at 16 places, as the decimal library
    the gateway links against computes them. */
module Decimals {
  import opened Division

  /** The number units * 10^-scale. */
  datatype Decimal = Decimal(units: int, scale: nat)

  const DIVISION_PLACES: nat := 16

  function Pow10(n: nat): (p: int)
    ensures p > 0
  {
    if n == 0 then 1 else 10 * Pow10(n - 1)
  }

  function Abs(n: int): nat { if n < 0 then -n else n }

  /** `magnitude` with the sign of the quotient of `n` and `d`. */
  function Signed(n: int, d: int, magnitude: int): int {
    if (n < 0) == (d < 0) then magnitude else -magnitude
  }

  /** Quotient truncated toward zero. */
  function Quot(n: int, d: int): int
    requires d != 0
  {
    Signed(n, d, Abs(n) / Abs(d))
  }

  /** Quotient of naturals rounded half up. */
  function RoundUp(n: nat, d: nat): nat
    requires d > 0
  {
    n / d + if 2 * (n % d) < d then 0 else 1
  }

  /** Quotient rounded half away from zero. */
  function RoundDiv(n: int, d: int): int
    requires d != 0
  {
    Signed(n, d, RoundUp(Abs(n), Abs(d)))
  }

  function FromInt(n: int): Decimal { Decimal(n, 0) }

  function Mul(a: Decimal, b: Decimal): Decimal {
    Decimal(a.units * b.units, a.scale + b.scale)
  }

  function Rescale(a: Decimal, scale: nat): Decimal
    requires a.scale <= scale
  {
    Decimal(a.units * Pow10(scale - a.scale), scale)
  }

  function Add(a: Decimal, b: Decimal): Decimal {
    var scale := if a.scale < b.scale then b.scale else a.scale;
    Decimal(Rescale(a, scale).units + Rescale(b, scale).units, scale)
  }

  function Div(a: Decimal, b: Decimal): Decimal
    requires b.units != 0
  {
    var d := b.units * Pow10(a.scale);
    assert d != 0 by { NonZeroProduct(b.units, Pow10(a.scale)); }
    Decimal(RoundDiv(a.units * Pow10(DIVISION_PLACES + b.scale), d), DIVISION_PLACES)
  }

  function IntPart(a: Decimal): int {
    Quot(a.units, Pow10(a.scale))
  }

  lemma NonZeroProduct(a: int, b: int)
    requires a != 0 && b != 0
    ensures a * b != 0
  {
  }

  lemma {:induction false} Pow10Add(a: nat, b: nat)
    ensures Pow10(a + b) == Pow10(a) * Pow10(b)
  {
    if a > 0 {
      Pow10Add(a - 1, b);
    }
  }

  lemma RoundUpOf(n: nat, q: nat, d: nat, r: nat)
    requires n == q * d + r && r < d
    ensures RoundUp(n, d) == q + if 2 * r < d then 0 else 1
  {
    DivModOf(n, q, d, r);
  }

  lemma ScaleSplit(q: nat, d: nat, r: nat, k: nat)
    requires r < d && k > 0
    ensures (q * d + r) * k == q * (d * k) + r * k
    ensures 0 <= r * k < d * k
    ensures 2 * (r * k) < d * k <==> 2 * r < d
  {
    MulMono(0, r, k);
    MulMono(r + 1, d, k);
    Times3(q, d, k);
    if 2 * r < d {
      MulMono(2 * r + 1, d, k);
    } else {
      MulMono(d, 2 * r, k);
    }
  }

  /** Scaling both sides of a rounded quotient changes nothing. */
  lemma RoundUpCancel(n: nat, d: nat, k: nat)
    requires d > 0 && k > 0
    ensures n * k >= 0 && d * k > 0
    ensures RoundUp(n * k, d * k) == RoundUp(n, d)
  {
    var q, r := n / d, n % d;
    MulMono(0, n, k);
    ScaleSplit(q, d, r, k);
    RoundUpOf(n * k, q, d * k, r * k);
  }

  lemma AbsProduct(a: int, k: nat)
    requires k > 0
    ensures Abs(a * k) == Abs(a) * k
    ensures a * k < 0 <==> a < 0
    ensures a * k != 0 <==> a != 0
  {
    if a > 0 {
      MulMono(1, a, k);
    } else if a < 0 {
      MulMono(a, -1, k);
      assert -(a * k) == (-a) * k;
    }
  }

  lemma RoundDivCancel(n: int, d: int, k: nat)
    requires d != 0 && k > 0
    ensures d * k != 0
    ensures RoundDiv(n * k, d * k) == RoundDiv(n, d)
  {
    AbsProduct(n, k);
    AbsProduct(d, k);
    RoundUpCancel(Abs(n), Abs(d), k);
  }

  lemma RoundDivExact(n: int, k: nat)
    requires k > 0
    ensures RoundDiv(n * k, k) == n
  {
    RoundDivCancel(n, 1, k);
  }

  lemma QuotSigned(n: int, d: int, x: nat, k: nat)
    requires k > 0
    ensures Quot(Signed(n, d, x), k) == Signed(n, d, x / k)
  {
    if x == 0 {
      DivModOf(0, 0, k, 0);
    }
  }

  /** The rounding step at the heart of the token conversion. A proper fraction
      r/p, rounded to a multiple of 1/k, reaches 1 exactly when r is within half
      of 1/k below p. */
  lemma RoundingReachesOne(r: nat, p: nat, k: nat, f: nat, m: nat)
    requires r < p && k > 0 && r * k == f * p + m && m < p
    ensures f < k
    ensures f == k - 1 && 2 * m >= p <==> 2 * ((p - r) * k) <= p
  {
    assert (p - r) * k == p * k - r * k;
    MulMono(r + 1, p, k);
    if f >= k {
      MulMono(k, f, p);
      assert false;
    }
    if f < k - 1 {
      MulMono(f, k - 2, p);
      assert (k - 2) * p == p * k - 2 * p;
    } else {
      assert (k - 1) * p == p * k - p;
    }
  }

  /** n * k split by p, from the splits of n and of the remainder times k. */
  lemma SplitOfProduct(n: nat, q: nat, p: nat, r: nat, k: nat, f: nat, m: nat)
    requires n == q * p + r && r * k == f * p + m
    ensures q * k >= 0 && n * k == (q * k + f) * p + m
  {
    MulMono(0, q, k);
    Times3(q, p, k);
    assert n * k == (q * p) * k + r * k;
  }

  lemma WholeAndPart(q: nat, k: nat, x: nat)
    requires k > 0 && x <= k
    ensures (q * k + x) / k == q + if x == k then 1 else 0
  {
    if x < k {
      DivModOf(q * k + x, q, k, x);
    } else {
      DivModOf(q * k + x, q + 1, k, 0);
    }
  }

  lemma RoundThenTruncateOf(n: nat, q: nat, p: nat, r: nat, k: nat, f: nat, m: nat)
    requires k > 0 && r < p && m < p && n == q * p + r && r * k == f * p + m
    ensures n * k >= 0
    ensures RoundUp(n * k, p) / k == q + if 2 * ((p - r) * k) <= p then 1 else 0
  {
    RoundingReachesOne(r, p, k, f, m);
    SplitOfProduct(n, q, p, r, k, f, m);
    RoundUpOf(n * k, q * k + f, p, m);
    WholeAndPart(q, k, f + if 2 * m < p then 0 else 1);
  }

  /** Dividing, rounding to multiples of 1/k and truncating gives the exact
      quotient unless the remainder is within half of 1/k of a whole. */
  lemma RoundThenTruncate(n: nat, p: nat, k: nat)
    requires p > 0 && k > 0
    ensures n * k >= 0
    ensures RoundUp(n * k, p) / k == n / p + if 2 * ((p - n % p) * k) <= p then 1 else 0
  {
    var r := n % p;
    MulMono(0, r, k);
    var product := r * k;
    DivMod(n, p);
    DivMod(product, p);
    RoundThenTruncateOf(n, n / p, p, r, k, product / p, product % p);
  }
}
