/** Indicators over one series of prices: running forms against direct ones, and nothing from the future. */
module Indicators {
  import opened Domain
  import opened RealArith

  type Line = seq<Option<real>>

  datatype Error = BadPeriod | UnequalLengths | FastNotFaster | BadMultiplier | LowAboveHigh

  // ----- causal series --------------------------------------------------------------------------

  /** The series whose value at each index is `at` of the inputs up to that index. */
  function Causal<S, T>(at: seq<S> -> T, s: seq<S>): seq<T> {
    if s == [] then [] else Causal(at, s[..|s| - 1]) + [at(s)]
  }

  lemma {:induction false} CausalExact<S, T>(at: seq<S> -> T, s: seq<S>)
    ensures |Causal(at, s)| == |s|
    ensures forall i :: 0 <= i < |s| ==> Causal(at, s)[i] == at(s[..i + 1])
  {
    if s != [] {
      var front := s[..|s| - 1];
      CausalExact(at, front);
      forall i | 0 <= i < |front| ensures Causal(at, s)[i] == at(s[..i + 1]) {
        assert front[..i + 1] == s[..i + 1];
      }
      assert s[..|s|] == s;
    }
  }

  /** Output on a prefix is the prefix of the output. */
  lemma {:induction false} CausalPrefix<S, T>(at: seq<S> -> T, s: seq<S>, k: nat)
    requires k <= |s|
    ensures |Causal(at, s)| == |s|
    ensures Causal(at, s[..k]) == Causal(at, s)[..k]
  {
    CausalExact(at, s);
    CausalExact(at, s[..k]);
    forall i | 0 <= i < k ensures Causal(at, s[..k])[i] == Causal(at, s)[i] {
      assert s[..k][..i + 1] == s[..i + 1];
    }
  }

  lemma {:induction false} CausalNext<S, T>(at: seq<S> -> T, s: seq<S>, n: nat)
    requires n < |s|
    ensures Causal(at, s[..n + 1]) == Causal(at, s[..n]) + [at(s[..n + 1])]
  {
    assert s[..n + 1][..n] == s[..n];
  }

  // ----- simple moving average ------------------------------------------------------------------

  function Mean(s: seq<real>, period: nat): real
    requires period > 0
  {
    Sum(s) / period as real
  }

  /** The mean of the last `period` values. */
  function SmaAt(s: seq<real>, period: nat): Option<real>
    requires period > 0
  {
    if |s| < period then None else Some(Mean(s[|s| - period..], period))
  }

  function SmaLine(s: seq<real>, period: nat): Line
    requires period > 0
  {
    Causal((p: seq<real>) => SmaAt(p, period), s)
  }

  lemma {:induction false} WindowSlides(s: seq<real>, a: nat, b: nat)
    requires a < b <= |s|
    ensures Sum(s[a..b]) == s[a] + Sum(s[a + 1..b])
  {
    assert s[a..b] == [s[a]] + s[a + 1..b];
    SumConcat([s[a]], s[a + 1..b]);
    assert [s[a]][..0] == [];
    assert Sum([s[a]]) == Sum([s[a]][..0]) + s[a];
  }

  lemma {:induction false} WindowGrows(s: seq<real>, a: nat, b: nat)
    requires a <= b < |s|
    ensures Sum(s[a..b + 1]) == Sum(s[a..b]) + s[b]
  {
    assert s[a..b + 1][..b - a] == s[a..b];
  }

  /** The rolling sum is the sum of the window, so the average is the window's mean at every index. */
  method Sma(source: seq<real>, period: int) returns (r: Result<Line, Error>)
    ensures period <= 0 ==> r == Failure(BadPeriod)
    ensures period > 0 ==> r == Success(SmaLine(source, period))
  {
    hide Sum, Causal;
    if period <= 0 {
      return Failure(BadPeriod);
    }
    var result: Line := [];
    var rolling := 0.0;
    NothingYet(source, (p: seq<real>) => SmaAt(p, period));
    for index := 0 to |source|
      invariant result == SmaLine(source[..index], period)
      invariant rolling == Sum(source[MaxInt(0, index - period)..index])
    {
      rolling := rolling + source[index];
      WindowGrows(source, MaxInt(0, index - period), index);
      if index >= period {
        WindowSlides(source, index - period, index + 1);
        rolling := rolling - source[index - period];
      }
      CausalNext((p: seq<real>) => SmaAt(p, period), source, index);
      assert index >= period - 1 ==> source[..index + 1][index + 1 - period..] == source[MaxInt(0, index + 1 - period)..index + 1];
      result := result + [if index >= period - 1 then Some(rolling / period as real) else None];
    }
    assert source[..|source|] == source;
    return Success(result);
  }

  lemma {:induction false} NothingYet<S, T>(s: seq<S>, at: seq<S> -> T)
    ensures Causal(at, s[..0]) == [] && s[..0] == []
    ensures Sum([]) == 0.0
  {
  }

  // ----- exponential and Wilder smoothing -------------------------------------------------------

  /** A smoothed value: the mean of the first `period`, then each new value blended in with weight `alpha`. */
  function Smoothed(s: seq<real>, period: nat, alpha: real): Option<real>
    requires period > 0
  {
    if |s| < period then None
    else if |s| == period then Some(Mean(s, period))
    else
      match Smoothed(s[..|s| - 1], period, alpha)
      case None => None
      case Some(before) => Some(Blend(before, s[|s| - 1], alpha))
  }

  function Blend(before: real, value: real, alpha: real): real {
    alpha * value + (1.0 - alpha) * before
  }

  /** The weight of a new value in an exponential average. */
  function EmaWeight(period: nat): real
    requires period > 0
  {
    2.0 / (period + 1) as real
  }

  /** The weight of a new value in a Wilder average. */
  function WilderWeight(period: nat): real
    requires period > 0
  {
    1.0 / period as real
  }

  /** Wilder's own way of moving an average on. */
  function Wilder(before: real, value: real, period: nat): real
    requires period > 0
  {
    (before * (period - 1) as real + value) / period as real
  }

  function EmaLine(s: seq<real>, period: nat): Line
    requires period > 0
  {
    Causal((p: seq<real>) => Smoothed(p, period, EmaWeight(period)), s)
  }

  function WilderLine(s: seq<real>, period: nat): Line
    requires period > 0
  {
    Causal((p: seq<real>) => Smoothed(p, period, WilderWeight(period)), s)
  }

  lemma {:induction false} SmoothedSome(s: seq<real>, period: nat, alpha: real)
    requires period > 0
    ensures Smoothed(s, period, alpha).Some? <==> |s| >= period
  {
    hide Blend, Mean;
    if |s| > period {
      SmoothedSome(s[..|s| - 1], period, alpha);
    }
  }

  /** Before the warm-up is over, a smoothed line is empty of values. */
  lemma {:induction false} WarmUp(s: seq<real>, period: nat, alpha: real, n: nat)
    requires period > 0 && n < |s| && n + 1 < period
    ensures Smoothed(s[..n + 1], period, alpha).None?
  {
  }

  /** Wilder's way of moving an average on is a blend. */
  lemma {:induction false} WilderBlend(before: real, value: real, period: nat)
    requires period > 0
    ensures Wilder(before, value, period) == Blend(before, value, WilderWeight(period))
  {
    var p := period as real;
    var a := WilderWeight(period);
    assert a * p == 1.0;
    var left, right := Wilder(before, value, period), Blend(before, value, a);
    assert left * p == before * (p - 1.0) + value;
    assert right * p == (a * p) * value + before * p - (a * p) * before;
    assert (left - right) * p == 0.0;
  }

  method Smooth(source: seq<real>, period: nat, alpha: real) returns (result: Line)
    requires period > 0
    ensures result == Causal((p: seq<real>) => Smoothed(p, period, alpha), source)
  {
    hide Sum, Causal, Blend, Mean, Smoothed;
    var at := (p: seq<real>) => Smoothed(p, period, alpha);
    result := [];
    NothingYet(source, at);
    if |source| < period {
      result := Pad(source, period, alpha);
      return;
    }
    result := Pad(source[..period - 1], period, alpha);
    FirstSmoothed(source, period, alpha);
    var current := Mean(source[..period], period);
    CausalNext(at, source, period - 1);
    result := result + [Some(current)];
    for index := period to |source|
      invariant result == Causal(at, source[..index])
      invariant Smoothed(source[..index], period, alpha) == Some(current)
    {
      NextSmoothed(source, period, alpha, index);
      current := Blend(current, source[index], alpha);
      CausalNext(at, source, index);
      result := result + [Some(current)];
    }
    assert source[..|source|] == source;
  }

  method Pad(source: seq<real>, period: nat, alpha: real) returns (result: Line)
    requires period > 0 && |source| < period
    ensures result == Causal((p: seq<real>) => Smoothed(p, period, alpha), source)
  {
    hide Causal;
    var at := (p: seq<real>) => Smoothed(p, period, alpha);
    result := [];
    NothingYet(source, at);
    for index := 0 to |source|
      invariant result == Causal(at, source[..index])
    {
      CausalNext(at, source, index);
      WarmUp(source, period, alpha, index);
      result := result + [None];
    }
    assert source[..|source|] == source;
  }

  lemma {:induction false} FirstSmoothed(s: seq<real>, period: nat, alpha: real)
    requires period > 0 && |s| >= period
    ensures Smoothed(s[..period], period, alpha) == Some(Mean(s[..period], period))
  {
  }

  lemma {:induction false} NextSmoothed(s: seq<real>, period: nat, alpha: real, n: nat)
    requires period > 0 && period <= n < |s| && Smoothed(s[..n], period, alpha).Some?
    ensures Smoothed(s[..n + 1], period, alpha) == Some(Blend(Smoothed(s[..n], period, alpha).value, s[n], alpha))
  {
    hide Blend, Mean;
    assert s[..n + 1][..n] == s[..n];
  }

  method Ema(source: seq<real>, period: int) returns (r: Result<Line, Error>)
    ensures period <= 0 ==> r == Failure(BadPeriod)
    ensures period > 0 ==> r == Success(EmaLine(source, period))
  {
    if period <= 0 {
      return Failure(BadPeriod);
    }
    var line := Smooth(source, period, EmaWeight(period));
    return Success(line);
  }

  // ----- smoothing stays within its inputs ------------------------------------------------------

  ghost predicate Within(s: seq<real>, low: real, high: real) {
    forall i :: 0 <= i < |s| ==> low <= s[i] <= high
  }

  lemma {:induction false} SumWithin(s: seq<real>, low: real, high: real)
    requires Within(s, low, high)
    ensures low * |s| as real <= Sum(s) <= high * |s| as real
  {
    if s != [] {
      var n := |s| - 1;
      SumWithin(s[..n], low, high);
      TimesNext(low, n);
      TimesNext(high, n);
    }
  }

  lemma {:induction false} TimesNext(x: real, n: nat)
    ensures x * (n + 1) as real == x * n as real + x
  {
  }

  lemma {:induction false} MeanWithin(s: seq<real>, low: real, high: real)
    requires Within(s, low, high) && s != []
    ensures low <= Mean(s, |s|) <= high
  {
    SumWithin(s, low, high);
    var n := |s| as real;
    var mean := Mean(s, |s|);
    assert mean * n == Sum(s);
    hide Sum, Within, Mean;
    if mean < low {
      ProductStrict(mean, low, n);
    }
    if mean > high {
      ProductStrict(high, mean, n);
    }
  }

  lemma {:induction false} BlendWithin(before: real, value: real, alpha: real, low: real, high: real)
    requires low <= before <= high && low <= value <= high && 0.0 <= alpha <= 1.0
    ensures low <= Blend(before, value, alpha) <= high
  {
    BlendOrder(before, value, low, low, alpha);
    BlendOrder(high, high, before, value, alpha);
    BlendSame(low, alpha);
    BlendSame(high, alpha);
  }

  lemma {:induction false} BlendSame(x: real, alpha: real)
    ensures Blend(x, x, alpha) == x
  {
  }

  lemma {:induction false} BlendOrder(before: real, value: real, before': real, value': real, alpha: real)
    requires before' <= before && value' <= value && 0.0 <= alpha <= 1.0
    ensures Blend(before', value', alpha) <= Blend(before, value, alpha)
  {
    ProductSign(alpha, value - value');
    ProductSign(1.0 - alpha, before - before');
    assert Blend(before, value, alpha) - Blend(before', value', alpha) ==
           alpha * (value - value') + (1.0 - alpha) * (before - before');
  }

  /** A smoothed value never leaves the range of the values it has seen. */
  lemma {:induction false} SmoothedWithin(s: seq<real>, period: nat, alpha: real, low: real, high: real)
    requires period > 0 && Within(s, low, high) && 0.0 <= alpha <= 1.0
    ensures Smoothed(s, period, alpha).Some? ==> low <= Smoothed(s, period, alpha).value <= high
  {
    if |s| == period {
      MeanWithin(s, low, high);
    } else if |s| > period {
      hide Blend, Mean;
      var front := s[..|s| - 1];
      SmoothedWithin(front, period, alpha, low, high);
      SmoothedSome(front, period, alpha);
      BlendWithin(Smoothed(front, period, alpha).value, s[|s| - 1], alpha, low, high);
    }
  }

  // ----- relative strength ----------------------------------------------------------------------

  function Changes(s: seq<real>): seq<real> {
    if |s| <= 1 then [] else Changes(s[..|s| - 1]) + [s[|s| - 1] - s[|s| - 2]]
  }

  function Gains(s: seq<real>): seq<real> {
    if s == [] then [] else Gains(s[..|s| - 1]) + [Max(s[|s| - 1], 0.0)]
  }

  function Losses(s: seq<real>): seq<real> {
    if s == [] then [] else Losses(s[..|s| - 1]) + [Max(-s[|s| - 1], 0.0)]
  }

  function Score(gain: real, loss: real): real
    requires gain >= 0.0 && loss >= 0.0
  {
    if loss == 0.0 then (if gain != 0.0 then 100.0 else 50.0)
    else
      RatioNotNegative(gain, loss);
      100.0 - 100.0 / (1.0 + gain / loss)
  }

  lemma {:induction false} RatioNotNegative(gain: real, loss: real)
    requires gain >= 0.0 && loss > 0.0
    ensures gain / loss >= 0.0
  {
    var ratio := gain / loss;
    assert ratio * loss == gain;
    if ratio < 0.0 {
      ProductStrict(ratio, 0.0, loss);
      assert false;
    }
  }

  function GainAt(s: seq<real>, period: nat): (r: Option<real>)
    requires period > 0
    ensures r.Some? ==> r.value >= 0.0
  {
    WilderAlpha(period);
    GainsExact(Changes(s));
    NotBelow(Gains(Changes(s)), period, WilderWeight(period));
    Smoothed(Gains(Changes(s)), period, WilderWeight(period))
  }

  function LossAt(s: seq<real>, period: nat): (r: Option<real>)
    requires period > 0
    ensures r.Some? ==> r.value >= 0.0
  {
    WilderAlpha(period);
    GainsExact(Changes(s));
    NotBelow(Losses(Changes(s)), period, WilderWeight(period));
    Smoothed(Losses(Changes(s)), period, WilderWeight(period))
  }

  /** Wilder's averages of the gains and losses so far, as a score. */
  function RsiAt(s: seq<real>, period: nat): Option<real>
    requires period > 0
  {
    var gain, loss := GainAt(s, period), LossAt(s, period);
    if gain.None? || loss.None? then None else Some(Score(gain.value, loss.value))
  }

  function RsiLine(s: seq<real>, period: nat): Line
    requires period > 0
  {
    Causal((p: seq<real>) => RsiAt(p, period), s)
  }

  lemma {:induction false} ChangesLength(s: seq<real>)
    ensures |Changes(s)| == if s == [] then 0 else |s| - 1
  {
    if |s| > 1 {
      ChangesLength(s[..|s| - 1]);
    }
  }

  lemma {:induction false} GainsExact(s: seq<real>)
    ensures |Gains(s)| == |s| == |Losses(s)|
    ensures forall i :: 0 <= i < |s| ==> Gains(s)[i] >= 0.0 && Losses(s)[i] >= 0.0
  {
    if s != [] {
      GainsExact(s[..|s| - 1]);
    }
  }

  lemma {:induction false} NotBelow(s: seq<real>, period: nat, alpha: real)
    requires period > 0 && 0.0 <= alpha <= 1.0 && forall i :: 0 <= i < |s| ==> s[i] >= 0.0
    ensures Smoothed(s, period, alpha).Some? ==> Smoothed(s, period, alpha).value >= 0.0
  {
    var high := Highest(s);
    HighestBounds(s);
    SmoothedWithin(s, period, alpha, 0.0, high);
  }

  function Highest(s: seq<real>): real {
    if s == [] then 0.0 else Max(Highest(s[..|s| - 1]), s[|s| - 1])
  }

  lemma {:induction false} HighestBounds(s: seq<real>)
    ensures forall i :: 0 <= i < |s| ==> s[i] <= Highest(s)
  {
    if s != [] {
      HighestBounds(s[..|s| - 1]);
      assert forall i :: 0 <= i < |s| - 1 ==> s[..|s| - 1][i] == s[i];
    }
  }

  /** The score is the gains' share of all movement, in percent. */
  lemma {:induction false} ScoreExact(gain: real, loss: real)
    requires gain >= 0.0 && loss >= 0.0
    ensures gain + loss > 0.0 ==> Score(gain, loss) * (gain + loss) == 100.0 * gain
    ensures gain == loss == 0.0 ==> Score(gain, loss) == 50.0
    ensures 0.0 <= Score(gain, loss) <= 100.0
  {
    if loss > 0.0 {
      var ratio := gain / loss;
      RatioNotNegative(gain, loss);
      assert ratio * loss == gain;
      var share := 100.0 / (1.0 + ratio);
      assert share * (1.0 + ratio) == 100.0;
      ShareOfLoss(share, ratio, gain, loss);
      var total := gain + loss;
      if share < 0.0 {
        ProductStrict(share, 0.0, total);
        assert false;
      }
      if share > 100.0 {
        ProductStrict(100.0, share, total);
        assert false;
      }
    }
  }

  lemma {:induction false} ShareOfLoss(share: real, ratio: real, gain: real, loss: real)
    requires share * (1.0 + ratio) == 100.0 && ratio * loss == gain
    ensures share * (gain + loss) == 100.0 * loss
    ensures (100.0 - share) * (gain + loss) == 100.0 * gain
  {
    assert gain + loss == (1.0 + ratio) * loss;
    assert share * ((1.0 + ratio) * loss) == (share * (1.0 + ratio)) * loss;
    assert (100.0 - share) * (gain + loss) == 100.0 * (gain + loss) - share * (gain + loss);
  }

  lemma {:induction false} WilderAlpha(period: nat)
    requires period > 0
    ensures 0.0 <= WilderWeight(period) <= 1.0
  {
    var a := WilderWeight(period);
    assert a * period as real == 1.0;
  }

  lemma {:induction false} RsiAvailable(s: seq<real>, period: nat)
    requires period > 0
    ensures GainAt(s, period).Some? <==> |s| > period
    ensures LossAt(s, period).Some? <==> |s| > period
  {
    hide Smoothed, Gains, Losses, Changes;
    var alpha := WilderWeight(period);
    ChangesLength(s);
    GainsExact(Changes(s));
    SmoothedSome(Gains(Changes(s)), period, alpha);
    SmoothedSome(Losses(Changes(s)), period, alpha);
  }

  /** Relative strength always lies between 0 and 100, and starts after `period` changes. */
  lemma {:induction false} RsiInRange(s: seq<real>, period: nat)
    requires period > 0
    ensures RsiAt(s, period).Some? <==> |s| > period
    ensures RsiAt(s, period).Some? ==> 0.0 <= RsiAt(s, period).value <= 100.0
  {
    hide Score, GainAt, LossAt;
    RsiAvailable(s, period);
    if RsiAt(s, period).Some? {
      ScoreExact(GainAt(s, period).value, LossAt(s, period).value);
    }
  }

  method ComputeChanges(s: seq<real>) returns (changes: seq<real>)
    ensures changes == Changes(s)
  {
    changes := [];
    if |s| == 0 {
      return;
    }
    for i := 1 to |s|
      invariant changes == Changes(s[..i])
    {
      assert s[..i + 1][..i] == s[..i];
      changes := changes + [s[i] - s[i - 1]];
    }
    assert s[..|s|] == s;
  }

  lemma {:induction false} ChangesPrefix(s: seq<real>, n: nat)
    requires 1 <= n <= |s|
    ensures |Changes(s)| == |s| - 1 && Changes(s[..n]) == Changes(s)[..n - 1]
    decreases |s|
  {
    ChangesLength(s);
    if n < |s| {
      assert s[..|s| - 1][..n] == s[..n];
      ChangesPrefix(s[..|s| - 1], n);
    } else {
      assert s[..n] == s;
    }
  }

  lemma {:induction false} ChangesNext(s: seq<real>, n: nat)
    requires 1 <= n < |s|
    ensures Changes(s[..n + 1]) == Changes(s[..n]) + [s[n] - s[n - 1]]
  {
    assert s[..n + 1][..n] == s[..n];
  }

  lemma {:induction false} GainsAppend(s: seq<real>, x: real)
    ensures Gains(s + [x]) == Gains(s) + [Max(x, 0.0)] && Losses(s + [x]) == Losses(s) + [Max(-x, 0.0)]
  {
    assert (s + [x])[..|s|] == s;
  }

  lemma {:induction false} SmoothedAppend(s: seq<real>, x: real, period: nat, alpha: real)
    requires period > 0 && Smoothed(s, period, alpha).Some?
    ensures Smoothed(s + [x], period, alpha) == Some(Blend(Smoothed(s, period, alpha).value, x, alpha))
  {
    hide Blend, Mean;
    SmoothedSome(s, period, alpha);
    assert (s + [x])[..|s|] == s;
  }

  /** One more price: both averages move as Wilder moves them. */
  lemma {:induction false} RsiStep(s: seq<real>, period: nat, n: nat)
    requires period > 0 && period < n < |s|
    ensures GainAt(s[..n], period).Some? && LossAt(s[..n], period).Some?
    ensures var change := s[n] - s[n - 1];
            && GainAt(s[..n + 1], period) == Some(Wilder(GainAt(s[..n], period).value, Max(change, 0.0), period))
            && LossAt(s[..n + 1], period) == Some(Wilder(LossAt(s[..n], period).value, Max(-change, 0.0), period))
  {
    hide Smoothed, Gains, Losses, Changes, Blend, Max, Wilder, WilderWeight;
    var alpha, change := WilderWeight(period), s[n] - s[n - 1];
    RsiAvailable(s[..n], period);
    ChangesNext(s, n);
    GainsAppend(Changes(s[..n]), change);
    SmoothedAppend(Gains(Changes(s[..n])), Max(change, 0.0), period, alpha);
    SmoothedAppend(Losses(Changes(s[..n])), Max(-change, 0.0), period, alpha);
    WilderBlend(GainAt(s[..n], period).value, Max(change, 0.0), period);
    WilderBlend(LossAt(s[..n], period).value, Max(-change, 0.0), period);
  }

  lemma {:induction false} RsiStart(s: seq<real>, period: nat)
    requires 0 < period < |s|
    ensures |Changes(s)| == |s| - 1
    ensures GainAt(s[..period + 1], period) == Some(Mean(Gains(Changes(s)[..period]), period))
    ensures LossAt(s[..period + 1], period) == Some(Mean(Losses(Changes(s)[..period]), period))
  {
    hide Gains, Losses, Changes, Mean;
    ChangesPrefix(s, period + 1);
    GainsExact(Changes(s)[..period]);
  }

  method PadRsi(s: seq<real>, period: nat, n: nat) returns (result: Line)
    requires period > 0 && n <= |s| && n <= period
    ensures result == RsiLine(s[..n], period)
  {
    hide Causal, RsiAt;
    result := [];
    NothingYet(s, (p: seq<real>) => RsiAt(p, period));
    for index := 0 to n
      invariant result == RsiLine(s[..index], period)
    {
      CausalNext((p: seq<real>) => RsiAt(p, period), s, index);
      RsiInRange(s[..index + 1], period);
      result := result + [None];
    }
  }

  /** The running averages give, at every index, the score of the prices so far. */
  method Rsi(source: seq<real>, period: int) returns (r: Result<Line, Error>)
    ensures period <= 0 ==> r == Failure(BadPeriod)
    ensures period > 0 ==> r == Success(RsiLine(source, period))
  {
    hide Causal, GainAt, LossAt, Mean, Gains, Losses, Changes, Score, RsiAt, Wilder, Max;
    if period <= 0 {
      return Failure(BadPeriod);
    }
    assert source[..|source|] == source;
    if |source| <= period {
      var empty := PadRsi(source, period, |source|);
      return Success(empty);
    }
    var changes := ComputeChanges(source);
    RsiStart(source, period);
    var gain, loss := Mean(Gains(changes[..period]), period), Mean(Losses(changes[..period]), period);
    var result := PadRsi(source, period, period);
    RsiFrom(source[..period + 1], period, gain, loss);
    CausalNext((p: seq<real>) => RsiAt(p, period), source, period);
    result := result + [Some(Score(gain, loss))];
    for index := period + 1 to |source|
      invariant result == RsiLine(source[..index], period)
      invariant gain >= 0.0 && loss >= 0.0
      invariant GainAt(source[..index], period) == Some(gain) && LossAt(source[..index], period) == Some(loss)
    {
      RsiStep(source, period, index);
      ChangeIs(source, index);
      var change := changes[index - 1];
      gain := Wilder(gain, Max(change, 0.0), period);
      loss := Wilder(loss, Max(-change, 0.0), period);
      RsiFrom(source[..index + 1], period, gain, loss);
      CausalNext((p: seq<real>) => RsiAt(p, period), source, index);
      result := result + [Some(Score(gain, loss))];
    }
    return Success(result);
  }

  lemma {:induction false} RsiFrom(s: seq<real>, period: nat, gain: real, loss: real)
    requires period > 0 && GainAt(s, period) == Some(gain) && LossAt(s, period) == Some(loss)
    ensures gain >= 0.0 && loss >= 0.0 && RsiAt(s, period) == Some(Score(gain, loss))
  {
    hide GainAt, LossAt, Score;
  }

  lemma {:induction false} ChangeIs(s: seq<real>, n: nat)
    requires 1 <= n < |s|
    ensures |Changes(s)| == |s| - 1 && Changes(s)[n - 1] == s[n] - s[n - 1]
  {
    hide Changes;
    ChangesPrefix(s, n + 1);
    ChangesNext(s, n);
    ChangesLength(s[..n]);
    assert Changes(s[..n + 1])[n - 1] == s[n] - s[n - 1];
  }

  // ----- moving-average convergence -------------------------------------------------------------

  datatype Macd = Macd(line: Line, signal: Line, histogram: Line)

  function Difference(a: Option<real>, b: Option<real>): Option<real> {
    if a.None? || b.None? then None else Some(a.value - b.value)
  }

  /** The difference of the two averages, from the slow one's warm-up on. */
  function MacdTail(s: seq<real>, fast: nat, slow: nat): seq<real>
    requires 0 < fast < slow
  {
    if |s| < slow then []
    else
      SmoothedSome(s, fast, EmaWeight(fast));
      SmoothedSome(s, slow, EmaWeight(slow));
      MacdTail(s[..|s| - 1], fast, slow) +
      [Smoothed(s, fast, EmaWeight(fast)).value - Smoothed(s, slow, EmaWeight(slow)).value]
  }

  function MacdAt(s: seq<real>, fast: nat, slow: nat): Option<real>
    requires 0 < fast < slow
  {
    Difference(Smoothed(s, fast, EmaWeight(fast)), Smoothed(s, slow, EmaWeight(slow)))
  }

  /** The smoothed difference, counting from where it is first defined. */
  function SignalAt(s: seq<real>, fast: nat, slow: nat, signal: nat): Option<real>
    requires 0 < fast < slow && signal > 0
  {
    Smoothed(MacdTail(s, fast, slow), signal, EmaWeight(signal))
  }

  function HistogramAt(s: seq<real>, fast: nat, slow: nat, signal: nat): Option<real>
    requires 0 < fast < slow && signal > 0
  {
    Difference(MacdAt(s, fast, slow), SignalAt(s, fast, slow, signal))
  }

  method Subtract(a: Line, b: Line) returns (r: Line)
    requires |a| == |b|
    ensures |r| == |a| && forall i :: 0 <= i < |a| ==> r[i] == Difference(a[i], b[i])
  {
    r := [];
    for i := 0 to |a|
      invariant |r| == i && forall j :: 0 <= j < i ==> r[j] == Difference(a[j], b[j])
    {
      r := r + [Difference(a[i], b[i])];
    }
  }

  method Defined(line: Line) returns (values: seq<real>)
    ensures values == Values(line)
  {
    values := [];
    for i := 0 to |line|
      invariant values == Values(line[..i])
    {
      assert line[..i + 1][..i] == line[..i];
      if line[i].Some? {
        values := values + [line[i].value];
      }
    }
    assert line[..|line|] == line;
  }

  function Values(line: Line): seq<real> {
    if line == [] then []
    else Values(line[..|line| - 1]) + (if line[|line| - 1].Some? then [line[|line| - 1].value] else [])
  }

  /** The defined part of the line is the tail of differences. */
  lemma {:induction false} ValuesOfLine(s: seq<real>, fast: nat, slow: nat, line: Line)
    requires 0 < fast < slow && line == Causal((p: seq<real>) => MacdAt(p, fast, slow), s)
    ensures Values(line) == MacdTail(s, fast, slow)
    ensures |MacdTail(s, fast, slow)| == MaxInt(0, |s| - slow + 1)
  {
    hide Smoothed;
    if s != [] {
      ValuesOfLine(s[..|s| - 1], fast, slow, line[..|line| - 1]);
      SmoothedSome(s, fast, EmaWeight(fast));
      SmoothedSome(s, slow, EmaWeight(slow));
    }
  }

  lemma {:induction false} TailPrefix(s: seq<real>, fast: nat, slow: nat, n: nat)
    requires 0 < fast < slow && n <= |s|
    ensures |MacdTail(s, fast, slow)| == MaxInt(0, |s| - slow + 1)
    ensures MacdTail(s[..n], fast, slow) == MacdTail(s, fast, slow)[..MaxInt(0, n - slow + 1)]
    decreases |s|
  {
    hide Smoothed;
    ValuesOfLine(s, fast, slow, Causal((p: seq<real>) => MacdAt(p, fast, slow), s));
    if n < |s| {
      assert s[..|s| - 1][..n] == s[..n];
      TailPrefix(s[..|s| - 1], fast, slow, n);
    } else {
      assert s[..n] == s;
    }
  }

  /** All three lines are, at every index, functions of the prices so far. */
  method ComputeMacd(source: seq<real>, fast: int, slow: int, signal: int) returns (r: Result<Macd, Error>)
    ensures fast >= slow ==> r == Failure(FastNotFaster)
    ensures fast < slow && (fast <= 0 || signal <= 0) ==> r == Failure(BadPeriod)
    ensures 0 < fast < slow && signal > 0 ==>
              r == Success(Macd(Causal((p: seq<real>) => MacdAt(p, fast, slow), source),
                                Causal((p: seq<real>) => SignalAt(p, fast, slow, signal), source),
                                Causal((p: seq<real>) => HistogramAt(p, fast, slow, signal), source)))
  {
    hide Causal, Smoothed, MacdTail, Values;
    if fast >= slow {
      return Failure(FastNotFaster);
    }
    var fastLine := Ema(source, fast);
    if fastLine.Failure? {
      return Failure(fastLine.error);
    }
    var slowLine := Ema(source, slow);
    CausalExact((p: seq<real>) => Smoothed(p, fast, EmaWeight(fast)), source);
    CausalExact((p: seq<real>) => Smoothed(p, slow, EmaWeight(slow)), source);
    var line := Subtract(fastLine.value, slowLine.value);
    CausalExact((p: seq<real>) => MacdAt(p, fast, slow), source);
    assert line == Causal((p: seq<real>) => MacdAt(p, fast, slow), source);
    var available := Defined(line);
    ValuesOfLine(source, fast, slow, line);
    var tail := Ema(available, signal);
    if tail.Failure? {
      return Failure(tail.error);
    }
    var offset := |line| - |available|;
    CausalExact((p: seq<real>) => Smoothed(p, signal, EmaWeight(signal)), available);
    var signalLine: Line := seq(offset, i => None) + tail.value;
    SignalAligned(source, fast, slow, signal, available, signalLine);
    var histogram := Subtract(line, signalLine);
    CausalExact((p: seq<real>) => SignalAt(p, fast, slow, signal), source);
    CausalExact((p: seq<real>) => HistogramAt(p, fast, slow, signal), source);
    assert histogram == Causal((p: seq<real>) => HistogramAt(p, fast, slow, signal), source);
    return Success(Macd(line, signalLine, histogram));
  }

  lemma {:induction false} SignalAligned(s: seq<real>, fast: nat, slow: nat, signal: nat, tail: seq<real>, line: Line)
    requires 0 < fast < slow && signal > 0 && tail == MacdTail(s, fast, slow) && |tail| == MaxInt(0, |s| - slow + 1)
    requires |line| == |s|
    requires forall i :: 0 <= i < |s| - |tail| ==> line[i] == None
    requires forall n :: |s| - |tail| <= n < |s| ==>
               line[n] == Smoothed(tail[..n - (|s| - |tail|) + 1], signal, EmaWeight(signal))
    ensures line == Causal((p: seq<real>) => SignalAt(p, fast, slow, signal), s)
  {
    hide Causal, Smoothed, MacdTail;
    CausalExact((p: seq<real>) => SignalAt(p, fast, slow, signal), s);
    forall n | 0 <= n < |s| ensures line[n] == SignalAt(s[..n + 1], fast, slow, signal) {
      TailPrefix(s, fast, slow, n + 1);
      if n < slow - 1 {
        SmoothedSome([], signal, EmaWeight(signal));
        assert tail[..0] == [];
      }
    }
  }
}
