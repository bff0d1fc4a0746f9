/** Floor division facts used by the bucket, bar and label arithmetic. */
module Division {
  lemma {:induction false} ProductGrows(a: int, b: int, d: int)
    requires a <= b && 0 <= d
    ensures a * d <= b * d
  {
    assert (b - a) * d >= 0;
    assert (b - a) * d == b * d - a * d;
  }

  lemma {:induction false} QuotientBetween(n: int, d: int, q: int)
    requires 1 <= d && q * d <= n < (q + 1) * d
    ensures n / d == q
  {
    var k := n / d;
    assert n == k * d + n % d;
    if k < q {
      ProductGrows(k + 1, q, d);
    }
    if q < k {
      ProductGrows(q + 1, k, d);
    }
  }

  /** Adding one divisor adds one to the quotient. */
  lemma {:induction false} QuotientShift(n: int, d: int)
    requires 1 <= d
    ensures (n + d) / d == n / d + 1
  {
    var q := n / d;
    assert n == q * d + n % d;
    assert (q + 1) * d == q * d + d && (q + 2) * d == q * d + 2 * d;
    QuotientBetween(n + d, d, q + 1);
  }

  lemma {:induction false} QuotientBelow(n: int, d: int, q: int)
    requires 1 <= d && n < (q + 1) * d
    ensures n / d <= q
  {
    var k := n / d;
    assert n == k * d + n % d;
    if q < k {
      ProductGrows(q + 1, k, d);
    }
  }

  lemma {:induction false} QuotientAbove(n: int, d: int, q: int)
    requires 1 <= d && q * d <= n
    ensures q <= n / d
  {
    var k := n / d;
    assert n == k * d + n % d;
    if k < q {
      ProductGrows(k + 1, q, d);
    }
  }

  lemma {:induction false} QuotientTimesDivisor(n: int, d: int)
    requires 1 <= d
    ensures n / d * d <= n < (n / d + 1) * d
  {
    assert n == n / d * d + n % d;
    assert (n / d + 1) * d == n / d * d + d;
  }
}
