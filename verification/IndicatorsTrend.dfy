/** The supertrend: two bands that trail the price, and the side it is on. */
module IndicatorsTrend {
  import opened Domain
  import opened Indicators
  import opened IndicatorsBars

  datatype Trend = Trend(upper: real, lower: real, rising: bool)
  {
    function Value(): real {
      if rising then lower else upper
    }
  }

  /** One bar on: each band moves only towards the price, or when the last close was beyond it; then the direction. */
  function TrendStep(t: Trend, lastClose: real, close: real, basicUpper: real, basicLower: real): Trend {
    var upper := if basicUpper < t.upper || lastClose > t.upper then basicUpper else t.upper;
    var lower := if basicLower > t.lower || lastClose < t.lower then basicLower else t.lower;
    Trend(upper, lower, if !t.rising && close > upper then true else if t.rising && close < lower then false else t.rising)
  }

  function Midpoint(x: Bar): real {
    (x.high + x.low) / 2.0
  }

  function BandWidth(multiplier: real, averageRange: real): real {
    multiplier * averageRange
  }

  function TrendAt(b: seq<Bar>, period: nat, multiplier: real): Option<Trend>
    requires period > 0
  {
    if |b| < period then None
    else
      ListsLength(b);
      SmoothedSome(TrueRanges(b), period, WilderWeight(period));
      var x, width := b[|b| - 1], BandWidth(multiplier, Averaged(TrueRanges(b), period).value);
      if |b| == period then Some(Trend(Midpoint(x) + width, Midpoint(x) - width, true))
      else
        match TrendAt(b[..|b| - 1], period, multiplier)
        case None => None
        case Some(t) => Some(TrendStep(t, b[|b| - 2].close, x.close, Midpoint(x) + width, Midpoint(x) - width))
  }

  predicate SoundBars(b: seq<Bar>) {
    forall i :: 0 <= i < |b| ==> b[i].low <= b[i].high
  }

  function ValueAt(b: seq<Bar>, period: nat, multiplier: real): Option<real>
    requires period > 0
  {
    match TrendAt(b, period, multiplier)
    case None => None
    case Some(t) => Some(t.Value())
  }

  function DirectionAt(b: seq<Bar>, period: nat, multiplier: real): Option<int>
    requires period > 0
  {
    match TrendAt(b, period, multiplier)
    case None => None
    case Some(t) => Some(if t.rising then 1 else -1)
  }

  /** The loop, its bands and direction in place. */
  method Follow(b: seq<Bar>, period: nat, multiplier: real) returns (values: Line, directions: seq<Option<int>>)
    requires period > 0
    ensures values == Causal((p: seq<Bar>) => ValueAt(p, period, multiplier), b)
    ensures directions == Causal((p: seq<Bar>) => DirectionAt(p, period, multiplier), b)
  {
    hide Causal, Smoothed, TrueRanges, TrendAt, TrendStep, WilderWeight, BandWidth, Midpoint;
    var ranges := ComputeTrueRanges(b);
    ListsLength(b);
    var atr := Smooth(ranges, period, WilderWeight(period));
    CausalExact((p: seq<real>) => Smoothed(p, period, WilderWeight(period)), ranges);
    values, directions := [], [];
    var t := Trend(0.0, 0.0, true);
    NothingYet(b, (p: seq<Bar>) => ValueAt(p, period, multiplier));
    NothingYet(b, (p: seq<Bar>) => DirectionAt(p, period, multiplier));
    for index := 0 to |b|
      invariant values == Causal((p: seq<Bar>) => ValueAt(p, period, multiplier), b[..index])
      invariant directions == Causal((p: seq<Bar>) => DirectionAt(p, period, multiplier), b[..index])
      invariant index >= period ==> TrendAt(b[..index], period, multiplier) == Some(t)
    {
      CausalNext((p: seq<Bar>) => ValueAt(p, period, multiplier), b, index);
      CausalNext((p: seq<Bar>) => DirectionAt(p, period, multiplier), b, index);
      TrendNext(b, period, multiplier, index);
      if index < period - 1 {
        values, directions := values + [None], directions + [None];
        continue;
      }
      ListsPrefix(b, index + 1);
      SmoothedSome(ranges[..index + 1], period, WilderWeight(period));
      var width := BandWidth(multiplier, atr[index].value);
      var basicUpper, basicLower := Midpoint(b[index]) + width, Midpoint(b[index]) - width;
      if index == period - 1 {
        t := Trend(basicUpper, basicLower, true);
      } else {
        t := TrendStep(t, b[index - 1].close, b[index].close, basicUpper, basicLower);
      }
      values := values + [Some(t.Value())];
      directions := directions + [Some(if t.rising then 1 else -1)];
    }
    assert b[..|b|] == b;
  }

  method Supertrend(high: seq<real>, low: seq<real>, close: seq<real>, period: int, multiplier: real)
    returns (r: Result<(Line, seq<Option<int>>), Error>)
    ensures multiplier <= 0.0 ==> r == Failure(BadMultiplier)
    ensures multiplier > 0.0 && !(|high| == |low| == |close|) ==> r == Failure(UnequalLengths)
    ensures multiplier > 0.0 && |high| == |low| == |close| ==>
              if period <= 0 then r == Failure(BadPeriod)
              else if !SoundBars(Bars(high, low, close)) then r == Failure(LowAboveHigh)
              else
                r == Success((Causal((p: seq<Bar>) => ValueAt(p, period, multiplier), Bars(high, low, close)),
                              Causal((p: seq<Bar>) => DirectionAt(p, period, multiplier), Bars(high, low, close))))
  {
    hide Causal, TrendAt, SoundBars;
    if multiplier <= 0.0 {
      return Failure(BadMultiplier);
    }
    if |high| != |low| || |high| != |close| {
      return Failure(UnequalLengths);
    }
    var b := Bars(high, low, close);
    if period <= 0 {
      return Failure(BadPeriod);
    }
    if !SoundBars(b) {
      return Failure(LowAboveHigh);
    }
    var values, directions := Follow(b, period, multiplier);
    return Success((values, directions));
  }

  lemma {:induction false} TrendNext(b: seq<Bar>, period: nat, multiplier: real, n: nat)
    requires period > 0 && n < |b|
    ensures n < period - 1 ==> TrendAt(b[..n + 1], period, multiplier).None?
    ensures n >= period - 1 ==> Averaged(TrueRanges(b[..n + 1]), period).Some?
    ensures n == period - 1 ==>
              var width := BandWidth(multiplier, Averaged(TrueRanges(b[..n + 1]), period).value);
              TrendAt(b[..n + 1], period, multiplier) == Some(Trend(Midpoint(b[n]) + width, Midpoint(b[n]) - width, true))
    ensures n >= period && TrendAt(b[..n], period, multiplier).Some? ==>
              var width := BandWidth(multiplier, Averaged(TrueRanges(b[..n + 1]), period).value);
              TrendAt(b[..n + 1], period, multiplier) ==
              Some(TrendStep(TrendAt(b[..n], period, multiplier).value, b[n - 1].close, b[n].close, Midpoint(b[n]) + width, Midpoint(b[n]) - width))
  {
    hide Smoothed, TrueRanges, TrendStep, WilderWeight, BandWidth, Midpoint;
    var z := b[..n + 1];
    assert z[..n] == b[..n];
    ListsLength(z);
    SmoothedSome(TrueRanges(z), period, WilderWeight(period));
  }

  /** The bands of one bar on their own. */
  function Basic(b: seq<Bar>, period: nat, multiplier: real): (real, real)
    requires 0 < period <= |b|
  {
    ListsLength(b);
    SmoothedSome(TrueRanges(b), period, WilderWeight(period));
    var middle, width := Midpoint(b[|b| - 1]), BandWidth(multiplier, Averaged(TrueRanges(b), period).value);
    (middle + width, middle - width)
  }

  /** From the end of the warm-up on there is a trend, which starts rising and then moves bar by bar. */
  lemma {:induction false} TrendMoves(b: seq<Bar>, period: nat, multiplier: real)
    requires 0 < period <= |b|
    ensures TrendAt(b, period, multiplier).Some?
    ensures var basic := Basic(b, period, multiplier);
            if |b| == period then TrendAt(b, period, multiplier).value == Trend(basic.0, basic.1, true)
            else
              var before := TrendAt(b[..|b| - 1], period, multiplier);
              before.Some? &&
              TrendAt(b, period, multiplier).value == TrendStep(before.value, b[|b| - 2].close, b[|b| - 1].close, basic.0, basic.1)
  {
    hide Smoothed, TrueRanges, TrendStep, WilderWeight, BandWidth, Midpoint;
    if |b| > period {
      TrendMoves(b[..|b| - 1], period, multiplier);
    }
  }

  /**
   * The bands trail: each only tightens unless the last close was beyond it, the direction turns exactly when the close
   * crosses the band it was following, and while it holds the line never loosens.
   */
  lemma {:induction false} TrendTrails(b: seq<Bar>, period: nat, multiplier: real)
    requires 0 < period < |b|
    ensures TrendAt(b[..|b| - 1], period, multiplier).Some? && TrendAt(b, period, multiplier).Some?
    ensures var t, z := TrendAt(b[..|b| - 1], period, multiplier).value, TrendAt(b, period, multiplier).value;
            var lastClose, close := b[|b| - 2].close, b[|b| - 1].close;
            && (lastClose <= t.upper ==> z.upper <= t.upper) && (lastClose >= t.lower ==> z.lower >= t.lower)
            && (z.rising != t.rising <==> if t.rising then close < z.lower else close > z.upper)
            && (z.rising && t.rising && lastClose >= t.Value() ==> z.Value() >= t.Value())
            && (!z.rising && !t.rising && lastClose <= t.Value() ==> z.Value() <= t.Value())
  {
    hide TrendAt, Basic;
    TrendMoves(b, period, multiplier);
  }

  /** The close is on the side of the line that the direction says. */
  predicate OnItsSide(t: Trend, close: real) {
    if t.rising then close >= t.Value() else close <= t.Value()
  }

  /**
   * At every bar, the close is on its side of the line if and only if: on the first bar of the trend, it is not below
   * that bar's own lower band; on a turn, it is not beyond the bar's own far band, nor beyond the carried one unless the
   * last close already was. Between turns it always is.
   */
  lemma {:induction false} OnItsSideExactly(b: seq<Bar>, period: nat, multiplier: real)
    requires 0 < period <= |b|
    ensures TrendAt(b, period, multiplier).Some?
    ensures var z, basic, close := TrendAt(b, period, multiplier).value, Basic(b, period, multiplier), b[|b| - 1].close;
            if |b| == period then OnItsSide(z, close) <==> close >= basic.1
            else
              var before, lastClose := TrendAt(b[..|b| - 1], period, multiplier), b[|b| - 2].close;
              before.Some? &&
              var t := before.value;
              (OnItsSide(z, close) <==>
                if !t.rising && close > z.upper then close >= basic.1 && (close >= t.lower || lastClose < t.lower)
                else if t.rising && close < z.lower then close <= basic.0 && (close <= t.upper || lastClose > t.upper)
                else true)
  {
    hide TrendAt, Basic;
    TrendMoves(b, period, multiplier);
  }

  /** Three bars: a fall through the lower band, and a rise past the upper one that still closes below the new line. */
  function Whipsaw(): seq<Bar> {
    [Bar(10.0, 8.0, 9.0), Bar(9.0, 0.0, 0.0), Bar(102.0, 98.0, 98.0)]
  }

  lemma {:induction false} WhipsawRanges()
    ensures TrueRanges(Whipsaw()[..1]) == [2.0] && TrueRanges(Whipsaw()[..2]) == [2.0, 9.0] && TrueRanges(Whipsaw()) == [2.0, 9.0, 102.0]
  {
    var b := Whipsaw();
    assert b[..2][..1] == b[..1] && b[..1][..0] == [];
  }

  /** On the first bar of the trend the close can be below the line: a bar that closes at its low. */
  lemma {:induction false} FirstBarCanLandBelow()
    ensures SoundBars([Bar(10.0, 8.0, 8.0)])
    ensures TrendAt([Bar(10.0, 8.0, 8.0)], 1, 0.01) == Some(Trend(9.02, 8.98, true)) && !OnItsSide(Trend(9.02, 8.98, true), 8.0)
  {
    hide Smoothed, TrueRanges, WilderWeight;
    var b := [Bar(10.0, 8.0, 8.0)];
    OneRange(b[0]);
    AverageOfOne([2.0]);
  }

  lemma {:induction false} OneRange(x: Bar)
    ensures TrueRanges([x]) == [x.high - x.low]
  {
    assert [x][..0] == [];
  }

  /** Right after a turn the close can be on the wrong side of the line. */
  lemma {:induction false} TurnCanLandBeyond()
    ensures SoundBars(Whipsaw()) && forall i :: 0 <= i < 3 ==> Whipsaw()[i].low <= Whipsaw()[i].close <= Whipsaw()[i].high
    ensures TrendAt(Whipsaw()[..2], 1, 0.01) == Some(Trend(4.59, 8.98, false))
    ensures TrendAt(Whipsaw(), 1, 0.01) == Some(Trend(4.59, 98.98, true))
    ensures !OnItsSide(TrendAt(Whipsaw(), 1, 0.01).value, Whipsaw()[2].close)
  {
    hide Smoothed, TrueRanges, WilderWeight;
    var b := Whipsaw();
    WhipsawRanges();
    AverageOfOne([2.0]);
    AverageOfOne([2.0, 9.0]);
    AverageOfOne([2.0, 9.0, 102.0]);
    assert b[..2][..1] == b[..1];
    assert TrendAt(b[..1], 1, 0.01) == Some(Trend(9.02, 8.98, true));
  }
}
