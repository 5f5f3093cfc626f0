/** Products and integer quotients. */
module Division {

  lemma MulMono(a: int, b: int, c: nat)
    requires a <= b
    ensures a * c <= b * c
  {
  }

  lemma Times3(a: int, b: int, c: int)
    ensures (a * b) * c == a * (b * c) == (a * c) * b
  {
  }

  lemma DivMod(n: int, d: int)
    requires d > 0
    ensures n == (n / d) * d + n % d
    ensures n >= 0 ==> n / d >= 0
  {
  }

  /** Division by `d` is the only quotient-remainder split of `n`. */
  lemma DivModOf(n: int, q: int, d: int, r: int)
    requires n == q * d + r && 0 <= r < d
    ensures n / d == q && n % d == r
  {
    var e := n / d;
    assert n == e * d + n % d;
    assert (q - e) * d == n % d - r;
    if q > e {
      MulMono(1, q - e, d);
      assert false;
    }
    if q < e {
      MulMono(q - e, -1, d);
      assert false;
    }
  }
}
