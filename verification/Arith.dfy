/** Multiples and grids: the little integer arithmetic that bucketing needs. */
module Arith {

  lemma {:induction false} MulMono(a: int, b: int, d: int)
    requires a <= b && d > 0
    ensures a * d <= b * d
  {
  }

  lemma {:induction false} MulStrict(a: int, b: int, d: int)
    requires a * d < b * d && d > 0
    ensures a < b
  {
    if a >= b {
      MulMono(b, a, d);
    }
  }

  /** A multiple, as quotient and divisor. */
  lemma {:induction false} Quotient(x: int, d: int)
    requires d > 0
    ensures x == (x / d) * d + x % d && 0 <= x % d < d
  {
  }

  lemma {:induction false} QuotientUnique(x: int, q: int, r: int, d: int)
    requires d > 0 && x == q * d + r && 0 <= r < d
    ensures x / d == q && x % d == r
  {
    Quotient(x, d);
    var p := x / d;
    if p < q {
      MulMono(p + 1, q, d);
    } else if q < p {
      MulMono(q + 1, p, d);
    }
  }

  lemma {:induction false} MultipleOf(q: int, d: int)
    requires d > 0
    ensures (q * d) % d == 0 && (q * d) / d == q
  {
    QuotientUnique(q * d, q, 0, d);
  }

  lemma {:induction false} MultipleSum(x: int, y: int, d: int)
    requires d > 0 && x % d == 0 && y % d == 0
    ensures (x + y) % d == 0 && (x - y) % d == 0
  {
    Quotient(x, d);
    Quotient(y, d);
    assert x + y == (x / d + y / d) * d;
    assert x - y == (x / d - y / d) * d;
    MultipleOf(x / d + y / d, d);
    MultipleOf(x / d - y / d, d);
  }

  lemma {:induction false} MultipleTrans(x: int, m: int, d: int)
    requires d > 0 && m > 0 && x % m == 0 && m % d == 0
    ensures x % d == 0
  {
    Quotient(x, m);
    Quotient(m, d);
    var q, r := x / m, m / d;
    assert x == (q * r) * d by {
      assert x == q * m && m == r * d;
      assert q * (r * d) == (q * r) * d;
    }
    MultipleOf(q * r, d);
  }

  /** Two different multiples are at least one step apart. */
  lemma {:induction false} GridGap(x: int, y: int, d: int)
    requires d > 0 && x % d == 0 && y % d == 0 && x < y
    ensures x + d <= y
  {
    MultipleSum(y, x, d);
    Quotient(y - x, d);
    var q := (y - x) / d;
    if q < 1 {
      MulMono(q, 0, d);
    } else {
      MulMono(1, q, d);
    }
  }

  /** The largest grid point at or below `x`. */
  lemma {:induction false} FloorGrid(x: int, d: int)
    requires d > 0
    ensures ((x / d) * d) % d == 0 && (x / d) * d <= x < (x / d) * d + d
  {
    Quotient(x, d);
    MultipleOf(x / d, d);
  }

  /** Only one grid point has `x` in its step. */
  lemma {:induction false} FloorGridUnique(x: int, g: int, d: int)
    requires d > 0 && g % d == 0 && g <= x < g + d
    ensures (x / d) * d == g
  {
    Quotient(g, d);
    QuotientUnique(x, g / d, x - g, d);
  }

  lemma {:induction false} DivideMultiple(x: int, m: int, d: int)
    requires d > 0 && m > 0 && x % m == 0 && m % d == 0
    ensures x / d == (x / m) * (m / d)
  {
    Quotient(x, m);
    Quotient(m, d);
    var q, r := x / m, m / d;
    assert x == (q * r) * d by {
      assert x == q * m && m == r * d;
      assert q * (r * d) == (q * r) * d;
    }
    MultipleOf(q * r, d);
  }
}
