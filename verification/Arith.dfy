/** Integer division facts that the solver does not find by itself. */
module Arith {

  ghost function Power(b: nat, e: nat): nat {
    if e == 0 then 1 else b * Power(b, e - 1)
  }

  lemma {:induction false} PowerPositive(b: nat, e: nat)
    requires b > 0
    ensures Power(b, e) > 0
  {
    if e > 0 {
      PowerPositive(b, e - 1);
    }
  }

  lemma MulAtLeast(m: nat, k: int)
    requires k >= 1
    ensures m * k >= m
  {
  }

  /** Quotient and remainder are determined by the division equation. */
  lemma DivModUnique(x: nat, m: nat, q: nat, r: nat)
    requires m > 0 && r < m && x == m * q + r
    ensures x / m == q && x % m == r
  {
    var q', r' := x / m, x % m;
    assert m * (q - q') == r' - r && m * (q' - q) == r - r';
    if q > q' {
      MulAtLeast(m, q - q');
    } else if q < q' {
      MulAtLeast(m, q' - q);
    }
  }

  lemma MulAssociates(a: int, b: int, c: int)
    ensures a * (b * c) == (a * b) * c
  {
  }

  lemma MulDistributes(a: int, b: int, c: int)
    ensures a * (b + c) == a * b + a * c
  {
  }

  /** Splitting off the lowest digit in base `b` splits the residue. */
  lemma ModByProduct(h: nat, b: nat, m: nat)
    requires b > 0 && m > 0
    ensures b * m > 0
    ensures h % (b * m) == b * (h / b % m) + h % b
    ensures h % (b * m) / b == h / b % m && h % (b * m) % b == h % b
    ensures h / (b * m) == h / b / m
  {
    var q, d := h / b, h % b;
    var t, r := q / m, q % m;
    var p, low := b * m, b * r + d;
    MulDistributes(b, m * t, r);
    MulAssociates(b, m, t);
    MulDistributes(b, r, m - r);
    MulAtLeast(b, m - r);
    assert h == p * t + low && 0 <= b * r && low < p;
    DivModUnique(h, p, t, low);
    DivModUnique(low, b, r, d);
  }
}
