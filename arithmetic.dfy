/** Facts about multiplication, division and remainder on integers that the
    solver does not find unaided. Division here is Dafny's, which rounds down
    for a positive divisor. */
module Arithmetic {

  lemma MulLe(a: int, b: int, x: int)
    requires a <= b && 0 <= x
    ensures x * a <= x * b
  {
  }

  lemma MulLeNeg(a: int, b: int, x: int)
    requires a <= b && x <= 0
    ensures x * b <= x * a
  {
    MulLe(a, b, -x);
  }

  lemma DivMonotone(a: int, b: int, d: int)
    requires a <= b && d > 0
    ensures a / d <= b / d
  {
    var qa, qb := a / d, b / d;
    if qa > qb {
      MulLe(qb + 1, qa, d);
      assert false;
    }
  }

  /** Quotient and remainder are determined by a == m * q + r with 0 <= r < m. */
  lemma DivModUnique(a: int, m: int, q: int, r: int)
    requires m > 0 && 0 <= r < m && a == m * q + r
    ensures a / m == q && a % m == r
  {
    var q' := a / m;
    if q' < q {
      MulLe(q' + 1, q, m);
      assert false;
    } else if q < q' {
      MulLe(q + 1, q', m);
      assert false;
    }
  }

  lemma MulDivCancel(x: int, d: int)
    requires d > 0
    ensures x * d / d == x
  {
    DivModUnique(x * d, d, x, 0);
  }

  lemma ModSmall(i: int, m: int)
    requires 0 <= i < m
    ensures i % m == i && i / m == 0
  {
    DivModUnique(i, m, 0, i);
  }

  lemma ModShift(i: int, m: int)
    requires m > 0
    ensures (i - m) % m == i % m
  {
    DivModUnique(i - m, m, i / m - 1, i % m);
  }
}
