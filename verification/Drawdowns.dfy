/** How far a value has fallen from a peak. */
module Drawdowns {
  import opened RealArith

  function Fall(peak: real, equity: real): real
    requires peak != 0.0
  {
    (peak - equity) / peak
  }

  lemma {:induction false} FallIsRest(peak: real, equity: real)
    requires peak > 0.0
    ensures Fall(peak, equity) == 1.0 - equity / peak
  {
    var fall, rest := Fall(peak, equity), equity / peak;
    assert fall * peak == peak - equity && rest * peak == equity;
    assert (fall + rest - 1.0) * peak == 0.0;
    ProductZero(fall + rest - 1.0, peak);
  }

  /** No fall ends above its peak, and it passes the whole of it exactly when it ends below zero. */
  lemma {:induction false} FallRange(peak: real, equity: real)
    requires peak > 0.0 && equity <= peak
    ensures Fall(peak, equity) >= 0.0 && (Fall(peak, equity) <= 1.0 <==> equity >= 0.0)
  {
    FallIsRest(peak, equity);
    QuotientExact(equity, peak);
    QuotientSigns(equity, peak);
  }

  /** From a higher peak, a fall to the same non-negative value is deeper. */
  lemma {:induction false} FallGrows(low: real, high: real, equity: real)
    requires 0.0 < low <= high && equity >= 0.0
    ensures Fall(low, equity) <= Fall(high, equity)
  {
    FallIsRest(low, equity);
    FallIsRest(high, equity);
    if equity == 0.0 {
      QuotientSigns(equity, low);
      QuotientSigns(equity, high);
    } else if low < high {
      var a, b := equity / low, equity / high;
      assert a * low == equity && b * high == equity;
      SmallerFactor(a, b, low, high, equity);
    }
  }

  /** And to the same value below zero it is shallower. */
  lemma {:induction false} FallShrinks(low: real, high: real, equity: real)
    requires 0.0 < low < high && equity < 0.0
    ensures Fall(low, equity) > Fall(high, equity)
  {
    var a, b := equity / low, equity / high;
    assert a * low == equity && b * high == equity;
    FallIsRest(low, equity);
    FallIsRest(high, equity);
    SmallerFactor(-a, -b, low, high, -equity);
  }
}
