/** Products and quotients of reals: the small facts that nonlinear proofs lean on. */
module RealArith {

  lemma {:induction false} ProductZero(a: real, b: real)
    requires a * b == 0.0 && b > 0.0
    ensures a == 0.0
  {
  }

  lemma {:induction false} ProductSign(a: real, b: real)
    requires a >= 0.0 && b >= 0.0
    ensures a * b >= 0.0
  {
  }

  lemma {:induction false} ProductNegative(a: real, b: real)
    requires a < 0.0 && b > 0.0
    ensures a * b < 0.0
  {
  }

  /** Scaling by a positive factor keeps the sign. */
  lemma {:induction false} ProductSigns(x: real, k: real)
    requires k > 0.0
    ensures (x * k < 0.0 <==> x < 0.0) && (x * k == 0.0 <==> x == 0.0)
  {
    if x < 0.0 {
      ProductNegative(x, k);
    }
  }

  /** And so does dividing by one. */
  lemma {:induction false} QuotientSigns(x: real, k: real)
    requires k > 0.0
    ensures (x / k < 0.0 <==> x < 0.0) && (x / k == 0.0 <==> x == 0.0)
  {
    var q := x / k;
    assert q * k == x;
    ProductSigns(q, k);
  }

  lemma {:induction false} ProductGrows(a: real, b: real, k: real)
    requires a <= b && k >= 0.0
    ensures k * a <= k * b
  {
  }

  lemma {:induction false} ProductStrict(a: real, b: real, k: real)
    requires a < b && k > 0.0
    ensures a * k < b * k
  {
    assert b * k - a * k == (b - a) * k;
  }

  /** Of two equal positive products, the one with the larger factor has the smaller other factor. */
  lemma {:induction false} SmallerFactor(a: real, b: real, low: real, high: real, product: real)
    requires 0.0 < low < high && a * low == product && b * high == product && product > 0.0
    ensures a > b
  {
    if a <= b {
      if a <= 0.0 {
        ProductGrows(a, 0.0, low);
        assert false;
      }
      ProductStrict(low, high, a);
      ProductGrows(a, b, high);
      assert false;
    }
  }

  /** A quotient exceeds one exactly when the whole exceeds the part it is measured in. */
  lemma {:induction false} QuotientExact(x: real, y: real)
    requires y > 0.0
    ensures x / y * y == x && (x / y > 1.0 <==> x > y)
  {
    var q := x / y;
    assert q * y == x;
    if q > 1.0 {
      ProductStrict(1.0, q, y);
    } else {
      ProductGrows(q, 1.0, y);
    }
  }
}
