/** Facts about products, quotients and remainders. */
module Arithmetic {

  lemma MulStep(a: int, b: int, p: nat)
    requires a < b
    ensures a * p + p <= b * p
  {
    assert (b - a - 1) * p >= 0;
  }

  lemma DivIs(off: int, q: int, p: nat)
    requires p > 0 && off >= 0
    ensures q * p <= off < q * p + p <==> q == off / p
  {
    var d := off / p;
    assert d * p <= off < d * p + p;
    if q < d {
      MulStep(q, d, p);
    } else if d < q {
      MulStep(d, q, p);
    }
  }

  lemma QuotientIs(m: nat, q: nat, n: nat, j: nat)
    requires q < n
    ensures j == m * n + q <==> j / n == m && j % n == q
  {
    DivIs(m * n + q, m, n);
  }

  lemma NextRemainder(x: nat, d: nat, r: nat, n: nat)
    requires r < n && x == d * n + r
    ensures (x + 1) % n == (r + 1) % n
  {
    if r + 1 < n {
      QuotientIs(d, r + 1, n, x + 1);
    } else {
      assert (d + 1) * n == x + 1;
      QuotientIs(d + 1, 0, n, x + 1);
    }
  }

  lemma NextRow(i: nat, cqs: nat)
    ensures (i + 1) * cqs == i * cqs + cqs
  {
  }
}
