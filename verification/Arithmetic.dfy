/** Products and quotients of integers: the few nonlinear facts everything else rests on. */
module Arithmetic {

  lemma ProductGrows(a: int, b: int, c: int)
    requires a <= b && 0 <= c
    ensures a * c <= b * c
  {
    assert b * c == a * c + (b - a) * c;
  }

  /** Quotients are ordered as the products they bound. */
  lemma QuotientLe(p: nat, n: nat, d: int)
    requires d > 0 && p * d <= n
    ensures p <= n / d
  {
    var q := n / d;
    assert n == q * d + n % d;
    assert (q + 1) * d == q * d + d;
    if q < p { ProductGrows(q + 1, p, d); }
  }

  lemma QuotientLt(n: nat, p: nat, d: int)
    requires d > 0 && n < p * d
    ensures n / d < p
  {
    var q := n / d;
    assert n == q * d + n % d;
    if p <= q { ProductGrows(p, q, d); }
  }

  lemma QuotientGrows(a: nat, b: nat, d: int)
    requires a <= b && d > 0
    ensures a / d <= b / d
  {
    assert a == (a / d) * d + a % d;
    QuotientLe(a / d, b, d);
  }

  lemma QuotientExactly(p: nat, d: int, c: nat)
    requires d > 0
    ensures p / d == c <==> c * d <= p < (c + 1) * d
  {
    var q := p / d;
    assert p == q * d + p % d;
    if c < q { ProductGrows(c + 1, q, d); }
    if q < c { ProductGrows(q + 1, c, d); }
  }

  lemma QuotientSum(a: nat, b: nat, d: int)
    requires d > 0
    ensures a / d + b / d <= (a + b) / d <= a / d + b / d + 1
  {
    var qa, qb := a / d, b / d;
    assert a == qa * d + a % d && b == qb * d + b % d;
    assert (qa + qb) * d == qa * d + qb * d;
    assert (qa + qb + 2) * d == (qa + qb) * d + 2 * d;
    QuotientLe(qa + qb, a + b, d);
    QuotientLt(a + b, qa + qb + 2, d);
  }

  lemma DivModUnique(q: nat, r: nat, d: nat)
    requires r < d
    ensures (q * d + r) / d == q && (q * d + r) % d == r
  {
    var p := q * d + r;
    assert (q + 1) * d == q * d + d;
    QuotientExactly(p, d, q);
    assert p == (p / d) * d + p % d;
  }
}
