/** Bars of high, low and close: true ranges, directional movement, and the average directional index. */
module IndicatorsBars {
  import opened Domain
  import opened Indicators
  import opened RealArith

  datatype Bar = Bar(high: real, low: real, close: real)

  /** Three lists of one length, read side by side. */
  function Bars(high: seq<real>, low: seq<real>, close: seq<real>): seq<Bar>
    requires |high| == |low| == |close|
  {
    seq(|high|, i requires 0 <= i < |high| => Bar(high[i], low[i], close[i]))
  }

  // ----- running lists --------------------------------------------------------------------------

  function TrueRange(b: seq<Bar>): real
    requires b != []
  {
    var x := b[|b| - 1];
    if |b| == 1 then x.high - x.low
    else Max(Max(x.high - x.low, Abs(x.high - b[|b| - 2].close)), Abs(x.low - b[|b| - 2].close))
  }

  function PlusMove(b: seq<Bar>): real
    requires b != []
  {
    if |b| == 1 then 0.0
    else
      var up, down := b[|b| - 1].high - b[|b| - 2].high, b[|b| - 2].low - b[|b| - 1].low;
      if up > down && up > 0.0 then up else 0.0
  }

  function MinusMove(b: seq<Bar>): real
    requires b != []
  {
    if |b| == 1 then 0.0
    else
      var up, down := b[|b| - 1].high - b[|b| - 2].high, b[|b| - 2].low - b[|b| - 1].low;
      if down > up && down > 0.0 then down else 0.0
  }

  function TrueRanges(b: seq<Bar>): seq<real> {
    if b == [] then [] else TrueRanges(b[..|b| - 1]) + [TrueRange(b)]
  }

  function PlusMoves(b: seq<Bar>): seq<real> {
    if b == [] then [] else PlusMoves(b[..|b| - 1]) + [PlusMove(b)]
  }

  function MinusMoves(b: seq<Bar>): seq<real> {
    if b == [] then [] else MinusMoves(b[..|b| - 1]) + [MinusMove(b)]
  }

  lemma {:induction false} ListsLength(b: seq<Bar>)
    ensures |TrueRanges(b)| == |PlusMoves(b)| == |MinusMoves(b)| == |b|
  {
    hide TrueRange, PlusMove, MinusMove;
    if b != [] {
      ListsLength(b[..|b| - 1]);
    }
  }

  lemma {:induction false} ListsPrefix(b: seq<Bar>, n: nat)
    requires n <= |b|
    ensures |TrueRanges(b)| == |PlusMoves(b)| == |MinusMoves(b)| == |b|
    ensures TrueRanges(b[..n]) == TrueRanges(b)[..n]
    ensures PlusMoves(b[..n]) == PlusMoves(b)[..n] && MinusMoves(b[..n]) == MinusMoves(b)[..n]
    decreases |b|
  {
    hide TrueRange, PlusMove, MinusMove;
    ListsLength(b);
    if n < |b| {
      assert b[..|b| - 1][..n] == b[..n];
      ListsPrefix(b[..|b| - 1], n);
    } else {
      assert b[..n] == b;
    }
  }

  method ComputeTrueRanges(b: seq<Bar>) returns (ranges: seq<real>)
    ensures ranges == TrueRanges(b)
  {
    ranges := [];
    for i := 0 to |b|
      invariant ranges == TrueRanges(b[..i])
    {
      assert b[..i + 1][..i] == b[..i];
      ranges := ranges +
        [if i == 0 then b[0].high - b[0].low
         else Max(Max(b[i].high - b[i].low, Abs(b[i].high - b[i - 1].close)), Abs(b[i].low - b[i - 1].close))];
    }
    assert b[..|b|] == b;
  }

  method ComputeMoves(b: seq<Bar>) returns (plus: seq<real>, minus: seq<real>)
    ensures plus == PlusMoves(b) && minus == MinusMoves(b)
  {
    plus, minus := [], [];
    for i := 0 to |b|
      invariant plus == PlusMoves(b[..i]) && minus == MinusMoves(b[..i])
    {
      assert b[..i + 1][..i] == b[..i];
      if i == 0 {
        plus, minus := plus + [0.0], minus + [0.0];
      } else {
        var up, down := b[i].high - b[i - 1].high, b[i - 1].low - b[i].low;
        plus := plus + [if up > down && up > 0.0 then up else 0.0];
        minus := minus + [if down > up && down > 0.0 then down else 0.0];
      }
    }
    assert b[..|b|] == b;
  }

  // ----- directional movement -------------------------------------------------------------------

  function Percent(part: real, whole: real): real {
    if whole != 0.0 then 100.0 * part / whole else 0.0
  }

  function Dx(range: real, plus: real, minus: real): real {
    var pdi, mdi := Percent(plus, range), Percent(minus, range);
    Percent(Abs(pdi - mdi), pdi + mdi)
  }

  function Averaged(s: seq<real>, period: nat): Option<real>
    requires period > 0
  {
    Smoothed(s, period, WilderWeight(period))
  }

  /** The directional index, bar by bar, from the end of the first warm-up on. */
  function DxTail(b: seq<Bar>, period: nat): seq<real>
    requires period > 0
  {
    if |b| < period then []
    else
      ListsLength(b);
      SmoothedSome(TrueRanges(b), period, WilderWeight(period));
      SmoothedSome(PlusMoves(b), period, WilderWeight(period));
      SmoothedSome(MinusMoves(b), period, WilderWeight(period));
      DxTail(b[..|b| - 1], period) +
      [Dx(Averaged(TrueRanges(b), period).value, Averaged(PlusMoves(b), period).value, Averaged(MinusMoves(b), period).value)]
  }

  lemma {:induction false} DxTailLength(b: seq<Bar>, period: nat)
    requires period > 0
    ensures |DxTail(b, period)| == MaxInt(0, |b| - period + 1)
  {
    hide Dx, Averaged;
    if |b| >= period {
      DxTailLength(b[..|b| - 1], period);
    }
  }

  lemma {:induction false} DxTailPrefix(b: seq<Bar>, period: nat, n: nat)
    requires period > 0 && n <= |b|
    ensures |DxTail(b, period)| == MaxInt(0, |b| - period + 1)
    ensures DxTail(b[..n], period) == DxTail(b, period)[..MaxInt(0, n - period + 1)]
    decreases |b|
  {
    hide Dx, Averaged;
    DxTailLength(b, period);
    if n < |b| {
      assert b[..|b| - 1][..n] == b[..n];
      DxTailPrefix(b[..|b| - 1], period, n);
    } else {
      assert b[..n] == b;
    }
  }

  /** What the computation returns. */
  function AdxOutput(b: seq<Bar>, period: nat): Line
    requires period > 0
  {
    seq(period - 1, i => None) + WilderLine(DxTail(b, period), period)
  }

  /** The average directional index of the bars so far. */
  function AdxAt(b: seq<Bar>, period: nat): Option<real>
    requires period > 0
  {
    Averaged(DxTail(b, period), period)
  }

  method Adx(high: seq<real>, low: seq<real>, close: seq<real>, period: int) returns (r: Result<Line, Error>)
    ensures period <= 0 ==> r == Failure(BadPeriod)
    ensures period > 0 && !(|high| == |low| == |close|) ==> r == Failure(UnequalLengths)
    ensures period > 0 && |high| == |low| == |close| ==> r == Success(AdxOutput(Bars(high, low, close), period))
  {
    hide Smoothed, Dx, TrueRanges, PlusMoves, MinusMoves, Causal, WilderWeight;
    if period <= 0 {
      return Failure(BadPeriod);
    }
    if |high| != |low| || |high| != |close| {
      return Failure(UnequalLengths);
    }
    var b := Bars(high, low, close);
    var ranges := ComputeTrueRanges(b);
    var plus, minus := ComputeMoves(b);
    ListsLength(b);
    var range := Smooth(ranges, period, WilderWeight(period));
    var plusLine := Smooth(plus, period, WilderWeight(period));
    var minusLine := Smooth(minus, period, WilderWeight(period));
    CausalExact((p: seq<real>) => Smoothed(p, period, WilderWeight(period)), ranges);
    CausalExact((p: seq<real>) => Smoothed(p, period, WilderWeight(period)), plus);
    CausalExact((p: seq<real>) => Smoothed(p, period, WilderWeight(period)), minus);
    var dx: seq<real> := [];
    if |b| >= period {
      NoDx(b, period);
      for index := period - 1 to |b|
        invariant dx == DxTail(b[..index], period)
      {
        hide DxTail;
        ListsPrefix(b, index + 1);
        SmoothedSome(ranges[..index + 1], period, WilderWeight(period));
        SmoothedSome(plus[..index + 1], period, WilderWeight(period));
        SmoothedSome(minus[..index + 1], period, WilderWeight(period));
        DxNext(b, period, index);
        dx := dx + [Dx(range[index].value, plusLine[index].value, minusLine[index].value)];
      }
      assert b[..|b|] == b;
    }
    var tail := Smooth(dx, period, WilderWeight(period));
    return Success(seq(period - 1, i => None) + tail);
  }

  lemma {:induction false} NoDx(b: seq<Bar>, period: nat)
    requires 0 < period <= |b|
    ensures DxTail(b[..period - 1], period) == []
  {
  }

  lemma {:induction false} DxNext(b: seq<Bar>, period: nat, n: nat)
    requires period > 0 && period - 1 <= n < |b|
    ensures var t, p, m := Averaged(TrueRanges(b[..n + 1]), period), Averaged(PlusMoves(b[..n + 1]), period), Averaged(MinusMoves(b[..n + 1]), period);
            t.Some? && p.Some? && m.Some? &&
            DxTail(b[..n + 1], period) == DxTail(b[..n], period) + [Dx(t.value, p.value, m.value)]
  {
    hide Dx, Smoothed, TrueRanges, PlusMoves, MinusMoves;
    var z := b[..n + 1];
    assert z[..n] == b[..n];
    ListsLength(z);
    SmoothedSome(TrueRanges(z), period, WilderWeight(period));
    SmoothedSome(PlusMoves(z), period, WilderWeight(period));
    SmoothedSome(MinusMoves(z), period, WilderWeight(period));
  }

  /**
   * The output is as long as the input, and at every index a function of the bars so far, exactly when there are at
   * least `period - 1` bars; with fewer it is longer than the input.
   */
  lemma {:induction false} AdxCausalExactly(b: seq<Bar>, period: nat)
    requires period > 0
    ensures |AdxOutput(b, period)| == |b| <==> |b| >= period - 1
    ensures |b| < period - 1 ==> |AdxOutput(b, period)| == period - 1
    ensures |b| >= period - 1 ==> AdxOutput(b, period) == Causal((p: seq<Bar>) => AdxAt(p, period), b)
  {
    hide DxTail, Causal, Smoothed, WilderWeight;
    var tail := DxTail(b, period);
    DxTailLength(b, period);
    CausalExact((p: seq<real>) => Smoothed(p, period, WilderWeight(period)), tail);
    CausalExact((p: seq<Bar>) => AdxAt(p, period), b);
    if |b| >= period - 1 {
      forall n | 0 <= n < |b| ensures AdxOutput(b, period)[n] == AdxAt(b[..n + 1], period) {
        DxTailPrefix(b, period, n + 1);
        if n < period - 1 {
          SmoothedSome([], period, WilderWeight(period));
        }
      }
    }
  }

  /** Movement is never negative; a true range is not either, but for the first bar's own high below its low. */
  lemma {:induction false} ListsNotNegative(b: seq<Bar>)
    requires b != [] ==> b[0].high >= b[0].low
    ensures |TrueRanges(b)| == |PlusMoves(b)| == |MinusMoves(b)| == |b|
    ensures forall i :: 0 <= i < |b| ==> TrueRanges(b)[i] >= 0.0 && PlusMoves(b)[i] >= 0.0 && MinusMoves(b)[i] >= 0.0
  {
    ListsLength(b);
    if b != [] {
      ListsNotNegative(b[..|b| - 1]);
    }
  }

  lemma {:induction false} PercentNotNegative(part: real, whole: real)
    requires part >= 0.0 && whole >= 0.0
    ensures Percent(part, whole) >= 0.0
    ensures part <= whole ==> Percent(part, whole) <= 100.0
  {
    if whole > 0.0 {
      var p := Percent(part, whole);
      assert p * whole == 100.0 * part;
      if p < 0.0 {
        ProductStrict(p, 0.0, whole);
        assert false;
      }
      if p > 100.0 {
        ProductStrict(100.0, p, whole);
      }
    }
  }

  lemma {:induction false} DxInRange(range: real, plus: real, minus: real)
    requires range >= 0.0 && plus >= 0.0 && minus >= 0.0
    ensures 0.0 <= Dx(range, plus, minus) <= 100.0
  {
    hide Percent;
    PercentNotNegative(plus, range);
    PercentNotNegative(minus, range);
    var pdi, mdi := Percent(plus, range), Percent(minus, range);
    PercentNotNegative(Abs(pdi - mdi), pdi + mdi);
  }

  lemma {:induction false} AveragesNotNegative(b: seq<Bar>, period: nat)
    requires 0 < period <= |b| && b[0].high >= b[0].low
    ensures var t, p, m := Averaged(TrueRanges(b), period), Averaged(PlusMoves(b), period), Averaged(MinusMoves(b), period);
            t.Some? && p.Some? && m.Some? && t.value >= 0.0 && p.value >= 0.0 && m.value >= 0.0
  {
    hide Smoothed, TrueRanges, PlusMoves, MinusMoves, WilderWeight;
    ListsNotNegative(b);
    var w := WilderWeight(period);
    WilderAlpha(period);
    SmoothedSome(TrueRanges(b), period, w);
    SmoothedSome(PlusMoves(b), period, w);
    SmoothedSome(MinusMoves(b), period, w);
    NotBelow(TrueRanges(b), period, w);
    NotBelow(PlusMoves(b), period, w);
    NotBelow(MinusMoves(b), period, w);
  }

  lemma {:induction false} DxTailInRange(b: seq<Bar>, period: nat)
    requires period > 0 && (b != [] ==> b[0].high >= b[0].low)
    ensures Within(DxTail(b, period), 0.0, 100.0)
  {
    if |b| >= period {
      hide Dx, Averaged, TrueRanges, PlusMoves, MinusMoves;
      DxTailInRange(b[..|b| - 1], period);
      AveragesNotNegative(b, period);
      DxInRange(Averaged(TrueRanges(b), period).value, Averaged(PlusMoves(b), period).value, Averaged(MinusMoves(b), period).value);
    }
  }

  /** The index lies between 0 and 100 as soon as the first bar's high is not below its low. */
  lemma {:induction false} AdxInRange(b: seq<Bar>, period: nat)
    requires period > 0 && (b != [] ==> b[0].high >= b[0].low)
    ensures AdxAt(b, period).Some? ==> 0.0 <= AdxAt(b, period).value <= 100.0
  {
    hide DxTail, Smoothed, WilderWeight;
    WilderAlpha(period);
    DxTailInRange(b, period);
    SmoothedWithin(DxTail(b, period), period, WilderWeight(period), 0.0, 100.0);
  }

  /** Three bars, the first with its high below its low, which nothing refuses. */
  function UpsideDown(): seq<Bar> {
    [Bar(0.0, 10.0, 0.5), Bar(1.0, 0.0, 0.5), Bar(1.0, 0.0, 0.5)]
  }

  lemma {:induction false} DxOfNegativeRange(range: real, minus: real)
    requires range < 0.0 && minus > 0.0
    ensures Dx(range, 0.0, minus) == -100.0
  {
    var mdi := Percent(minus, range);
    assert mdi * range == 100.0 * minus;
    if mdi >= 0.0 {
      ProductSign(mdi, -range);
      assert false;
    }
    assert Percent(0.0, range) == 0.0;
    PercentOpposite(mdi);
  }

  lemma {:induction false} PercentOpposite(m: real)
    requires m < 0.0
    ensures Percent(-m, m) == -100.0
  {
    var x := 100.0 * -m;
    var d := x / m;
    assert d * m == x;
    assert (d + 100.0) * m == 0.0;
    assert Percent(-m, m) == d;
  }

  lemma {:induction false} UpsideDownLists()
    ensures TrueRanges(UpsideDown()) == [-10.0, 1.0, 1.0] && TrueRanges(UpsideDown()[..2]) == [-10.0, 1.0]
    ensures PlusMoves(UpsideDown()) == [0.0, 0.0, 0.0] && PlusMoves(UpsideDown()[..2]) == [0.0, 0.0]
    ensures MinusMoves(UpsideDown()) == [0.0, 10.0, 0.0] && MinusMoves(UpsideDown()[..2]) == [0.0, 10.0]
  {
    var b := UpsideDown();
    var two, one := b[..2], b[..1];
    assert two[..1] == one && one[..0] == [];
    assert TrueRanges(one) == [-10.0] && PlusMoves(one) == [0.0] && MinusMoves(one) == [0.0];
  }

  lemma {:induction false} TwoThenThree(x: real, y: real, z: real)
    ensures Averaged([x, y], 2) == Some((x + y) / 2.0)
    ensures Averaged([x, y, z], 2) == Some((z + (x + y) / 2.0) / 2.0)
  {
    assert [x, y][..1] == [x] && [x][..0] == [] && [x, y, z][..2] == [x, y];
    assert Sum([x]) == x && Sum([x, y]) == x + y;
  }

  /** Without the condition on the first bar the index can be anything but an index: here it is -100. */
  lemma {:induction false} AdxBelowZero()
    ensures AdxAt(UpsideDown(), 2) == Some(-100.0)
  {
    hide Dx, Smoothed, TrueRanges, PlusMoves, MinusMoves;
    var b := UpsideDown();
    UpsideDownLists();
    TwoThenThree(-10.0, 1.0, 1.0);
    TwoThenThree(0.0, 0.0, 0.0);
    TwoThenThree(0.0, 10.0, 0.0);
    assert b[..2][..1] == b[..1];
    DxOfNegativeRange(-4.5, 5.0);
    DxOfNegativeRange(-1.75, 2.5);
    assert DxTail(b[..1], 2) == [];
    assert DxTail(b[..2], 2) == [-100.0];
    assert DxTail(b, 2) == [-100.0, -100.0];
    TwoThenThree(-100.0, -100.0, 0.0);
  }

  // ----- for which first bars the index is one --------------------------------------------------

  ghost predicate InRange(b: seq<Bar>, period: nat)
    requires period > 0
  {
    AdxAt(b, period).Some? ==> 0.0 <= AdxAt(b, period).value <= 100.0
  }

  function Zeros(n: nat): seq<real> {
    seq(n, i => 0.0)
  }

  /** How far the second bar reaches above the first close: not at all, unless that would move both ways equally. */
  function Lift(x: Bar): real {
    if x.high + x.low == 2.0 * x.close then (x.low - x.high) / 2.0 else 0.0
  }

  /** A first bar, a bar at its close, and `n` bars on which nothing moves. */
  function Upset(x: Bar, n: nat): seq<Bar> {
    [x, Bar(x.close + Lift(x), x.close, x.close)] + seq(n, i => Bar(x.close, x.close, x.close))
  }

  lemma {:induction false} UpsetFront(x: Bar, n: nat)
    requires x.high < x.low && n > 0
    ensures |Upset(x, n)| == n + 2 && Upset(x, n)[..n + 1] == Upset(x, n - 1)
    ensures Upset(x, n)[n + 1] == Bar(x.close, x.close, x.close)
    ensures Upset(x, n)[n].low == Upset(x, n)[n].close == x.close <= Upset(x, n)[n].high
  {
  }

  lemma {:induction false} ZerosFront(a: real, b: real, n: nat)
    requires n > 0
    ensures [a, b] + Zeros(n) == [a, b] + Zeros(n - 1) + [0.0]
    ensures ([a, b] + Zeros(n))[..n + 1] == [a, b] + Zeros(n - 1)
  {
  }

  lemma {:induction false} UpsetStart(x: Bar)
    requires x.high < x.low
    ensures TrueRanges(Upset(x, 0)) == [x.high - x.low, Lift(x)] && x.high - x.low + Lift(x) < 0.0
    ensures PlusMoves(Upset(x, 0)) == [0.0, PlusMove(Upset(x, 0))] && MinusMoves(Upset(x, 0)) == [0.0, MinusMove(Upset(x, 0))]
    ensures || (PlusMove(Upset(x, 0)) > 0.0 && MinusMove(Upset(x, 0)) == 0.0)
            || (PlusMove(Upset(x, 0)) == 0.0 && MinusMove(Upset(x, 0)) > 0.0)
  {
    var b := Upset(x, 0);
    assert b == [x, Bar(x.close + Lift(x), x.close, x.close)];
    var one := b[..1];
    assert one == [x] && one[..0] == [];
    assert TrueRanges(one) == [x.high - x.low] && PlusMoves(one) == [0.0] && MinusMoves(one) == [0.0];
  }

  lemma {:induction false} UpsetLists(x: Bar, n: nat)
    requires x.high < x.low
    ensures TrueRanges(Upset(x, n)) == [x.high - x.low, Lift(x)] + Zeros(n)
    ensures PlusMoves(Upset(x, n)) == [0.0, PlusMove(Upset(x, 0))] + Zeros(n)
    ensures MinusMoves(Upset(x, n)) == [0.0, MinusMove(Upset(x, 0))] + Zeros(n)
  {
    if n == 0 {
      UpsetStart(x);
    } else {
      UpsetLists(x, n - 1);
      UpsetFront(x, n);
      StillBar(x, n);
      ZerosFront(x.high - x.low, Lift(x), n);
      ZerosFront(0.0, PlusMove(Upset(x, 0)), n);
      ZerosFront(0.0, MinusMove(Upset(x, 0)), n);
      hide Upset, TrueRange, PlusMove, MinusMove;
    }
  }

  lemma {:induction false} StillBar(x: Bar, n: nat)
    requires x.high < x.low && n > 0
    ensures TrueRange(Upset(x, n)) == 0.0 && PlusMove(Upset(x, n)) == 0.0 && MinusMove(Upset(x, n)) == 0.0
  {
    UpsetFront(x, n);
    hide Upset;
  }

  lemma {:induction false} SumOfTwo(a: real, b: real, n: nat)
    ensures Sum([a, b] + Zeros(n)) == a + b
  {
    if n == 0 {
      assert [a, b] + Zeros(0) == [a, b] && [a, b][..1] == [a] && [a][..0] == [];
      assert Sum([a]) == a;
    } else {
      ZerosFront(a, b, n);
      SumOfTwo(a, b, n - 1);
    }
  }

  /** Two values and then nothing: the average keeps the sign of their sum. */
  lemma {:induction false} AverageSign(a: real, b: real, n: nat, period: nat)
    requires 2 <= period <= n + 2
    ensures var v := Averaged([a, b] + Zeros(n), period);
            v.Some? && (v.value < 0.0 <==> a + b < 0.0) && (v.value == 0.0 <==> a + b == 0.0)
  {
    hide Sum;
    if n + 2 == period {
      SumOfTwo(a, b, n);
      QuotientSigns(a + b, period as real);
    } else {
      AverageSign(a, b, n - 1, period);
      ZerosFront(a, b, n);
      var before := Averaged([a, b] + Zeros(n - 1), period).value;
      assert Averaged([a, b] + Zeros(n), period) == Some(Blend(before, 0.0, WilderWeight(period)));
      BlendWithNothing(before, period);
    }
  }

  lemma {:induction false} BlendWithNothing(before: real, period: nat)
    requires period >= 2
    ensures var v := Blend(before, 0.0, WilderWeight(period)); (v < 0.0 <==> before < 0.0) && (v == 0.0 <==> before == 0.0)
  {
    var w := WilderWeight(period);
    assert w * period as real == 1.0;
    assert w < 1.0;
    ProductSigns(before, 1.0 - w);
    assert Blend(before, 0.0, w) == before * (1.0 - w);
  }

  /** Over a negative range, movement one way only gives -100. */
  lemma {:induction false} DxOneWay(range: real, plus: real, minus: real)
    requires range < 0.0 && ((plus > 0.0 && minus == 0.0) || (plus == 0.0 && minus > 0.0))
    ensures Dx(range, plus, minus) == -100.0
  {
    if plus == 0.0 {
      DxOfNegativeRange(range, minus);
    } else {
      DxOfNegativeRange(range, plus);
      var mdi := Percent(plus, range);
      assert Percent(0.0, range) == 0.0;
      assert Abs(mdi - 0.0) == Abs(0.0 - mdi) && mdi + 0.0 == 0.0 + mdi;
    }
  }

  lemma {:induction false} UpsetLength(x: Bar, n: nat)
    ensures |Upset(x, n)| == n + 2
  {
  }

  lemma {:induction false} UpsetDx(x: Bar, n: nat, period: nat)
    requires x.high < x.low && 2 <= period <= n + 2
    ensures var b := Upset(x, n);
            var t, p, m := Averaged(TrueRanges(b), period), Averaged(PlusMoves(b), period), Averaged(MinusMoves(b), period);
            t.Some? && p.Some? && m.Some? && Dx(t.value, p.value, m.value) == -100.0
  {
    hide Dx, Averaged, TrueRanges, PlusMoves, MinusMoves, PlusMove, MinusMove, Upset, Zeros, Lift;
    UpsetLength(x, 0);
    UpsetStart(x);
    UpsetLists(x, n);
    AverageSign(x.high - x.low, Lift(x), n, period);
    AverageSign(0.0, PlusMove(Upset(x, 0)), n, period);
    AverageSign(0.0, MinusMove(Upset(x, 0)), n, period);
    var b := Upset(x, n);
    DxOneWay(Averaged(TrueRanges(b), period).value, Averaged(PlusMoves(b), period).value, Averaged(MinusMoves(b), period).value);
  }

  lemma {:induction false} TailNext(b: seq<Bar>, period: nat)
    requires period > 0
    ensures |b| < period ==> DxTail(b, period) == []
    ensures |b| >= period ==>
              var t, p, m := Averaged(TrueRanges(b), period), Averaged(PlusMoves(b), period), Averaged(MinusMoves(b), period);
              t.Some? && p.Some? && m.Some? && DxTail(b, period) == DxTail(b[..|b| - 1], period) + [Dx(t.value, p.value, m.value)]
  {
    hide Dx, Smoothed, TrueRanges, PlusMoves, MinusMoves, WilderWeight;
    if |b| >= period {
      ListsLength(b);
      SmoothedSome(TrueRanges(b), period, WilderWeight(period));
      SmoothedSome(PlusMoves(b), period, WilderWeight(period));
      SmoothedSome(MinusMoves(b), period, WilderWeight(period));
    }
  }

  lemma {:induction false} UpsetTail(x: Bar, n: nat, period: nat)
    requires x.high < x.low && period >= 2
    ensures Within(DxTail(Upset(x, n), period), -100.0, -100.0)
  {
    hide Dx, Averaged, TrueRanges, PlusMoves, MinusMoves, DxTail, Upset;
    var b := Upset(x, n);
    UpsetLength(x, n);
    TailNext(b, period);
    if n + 2 >= period {
      UpsetDx(x, n, period);
      if n > 0 {
        UpsetFront(x, n);
        UpsetTail(x, n - 1, period);
      } else {
        TailNext(b[..1], period);
      }
    }
  }

  lemma {:induction false} UpsetOutOfRange(x: Bar, period: nat)
    requires x.high < x.low && period >= 2
    ensures AdxAt(Upset(x, 2 * period - 3), period) == Some(-100.0)
  {
    hide DxTail, Smoothed, WilderWeight;
    var b := Upset(x, 2 * period - 3);
    UpsetTail(x, 2 * period - 3, period);
    DxTailLength(b, period);
    WilderAlpha(period);
    SmoothedSome(DxTail(b, period), period, WilderWeight(period));
    SmoothedWithin(DxTail(b, period), period, WilderWeight(period), -100.0, -100.0);
  }

  lemma {:induction false} AverageOfOne(s: seq<real>)
    requires s != []
    ensures Averaged(s, 1) == Some(s[|s| - 1])
  {
    if |s| == 1 {
      assert s[..0] == [] && Sum(s) == s[0];
      assert Mean(s, 1) == s[0];
    } else {
      AverageOfOne(s[..|s| - 1]);
    }
  }

  lemma {:induction false} DxOfOne(b: seq<Bar>)
    ensures Within(DxTail(b, 1), 0.0, 100.0)
  {
    if b != [] {
      hide Dx, Averaged;
      DxOfOne(b[..|b| - 1]);
      ListsLength(b);
      AverageOfOne(TrueRanges(b));
      AverageOfOne(PlusMoves(b));
      AverageOfOne(MinusMoves(b));
      LastInRange(b);
    }
  }

  lemma {:induction false} LastInRange(b: seq<Bar>)
    requires b != []
    ensures 0.0 <= Dx(TrueRange(b), PlusMove(b), MinusMove(b)) <= 100.0
  {
    if |b| == 1 {
      assert Dx(TrueRange(b), 0.0, 0.0) == 0.0;
    } else {
      hide Dx;
      DxInRange(TrueRange(b), PlusMove(b), MinusMove(b));
    }
  }

  lemma {:induction false} AdxOfOneInRange(b: seq<Bar>)
    ensures InRange(b, 1)
  {
    hide DxTail, Smoothed, WilderWeight;
    WilderAlpha(1);
    DxOfOne(b);
    SmoothedWithin(DxTail(b, 1), 1, WilderWeight(1), 0.0, 100.0);
  }

  /**
   * The index of a series stays in [0, 100], however the series goes on, if and only if the period is one or the first
   * bar's high is not below its low.
   */
  lemma {:induction false} AdxInRangeExactly(x: Bar, period: nat)
    requires period > 0
    ensures (forall rest: seq<Bar> :: InRange([x] + rest, period)) <==> period == 1 || x.high >= x.low
  {
    hide AdxAt;
    if x.high >= x.low {
      forall rest: seq<Bar> ensures InRange([x] + rest, period) {
        AdxInRange([x] + rest, period);
      }
    } else if period == 1 {
      forall rest: seq<Bar> ensures InRange([x] + rest, period) {
        AdxOfOneInRange([x] + rest);
      }
    } else {
      var b := Upset(x, 2 * period - 3);
      UpsetOutOfRange(x, period);
      assert b == [x] + b[1..];
      assert !InRange([x] + b[1..], period);
    }
  }
}
