/** The figures a backtest is summed up in. */
module BacktestMetrics {
  import opened Domain
  import opened Backtest
  import opened Drawdowns
  import opened RealArith
  import BacktestLaws
  import BacktestPolicy
  import MonteCarlo

  datatype Metrics = Metrics(
    netProfit: real, totalReturn: real, winRate: real, averageWin: real, averageLoss: real, expectancy: real,
    profitFactor: Option<real>, maximumDrawdown: real, sharpe: Option<real>, turnover: real, count: nat,
    consecutiveWins: nat, consecutiveLosses: nat)

  // ----- what the trades hold -------------------------------------------------------------------

  function Nets(trades: seq<Trade>): seq<real> {
    seq(|trades|, i requires 0 <= i < |trades| => trades[i].net)
  }

  function Winners(nets: seq<real>): seq<real> {
    if nets == [] then []
    else Winners(nets[..|nets| - 1]) + (if nets[|nets| - 1] > 0.0 then [nets[|nets| - 1]] else [])
  }

  function Losers(nets: seq<real>): seq<real> {
    if nets == [] then []
    else Losers(nets[..|nets| - 1]) + (if nets[|nets| - 1] < 0.0 then [nets[|nets| - 1]] else [])
  }

  function Turnover(trades: seq<Trade>): real {
    if trades == [] then 0.0
    else
      var t := trades[|trades| - 1];
      Turnover(trades[..|trades| - 1]) + (t.entryPrice + t.exitPrice) * t.quantity
  }

  /** The total over the number, and nothing of nothing. */
  function Average(total: real, count: nat): real {
    if count > 0 then total / count as real else 0.0
  }

  function Highest(points: seq<Point>): real {
    if points == [] then 0.0
    else if |points| == 1 then points[0].value
    else Max(Highest(points[..|points| - 1]), points[|points| - 1].value)
  }

  /** The largest of the values, or zero of none. */
  ghost predicate IsHighest(x: real, points: seq<Point>) {
    if points == [] then x == 0.0
    else (forall i :: 0 <= i < |points| ==> points[i].value <= x) && (exists i :: 0 <= i < |points| && points[i].value == x)
  }

  lemma {:induction false} HighestExact(points: seq<Point>)
    ensures IsHighest(Highest(points), points)
  {
    var n := |points| - 1;
    if points == [] {
    } else if n == 0 {
      assert points[0].value == Highest(points);
    } else {
      HighestExact(points[..n]);
      assert forall i :: 0 <= i < n ==> points[..n][i] == points[i];
      var i :| 0 <= i < n && points[..n][i].value == Highest(points[..n]);
      assert points[i].value == Highest(points) || points[n].value == Highest(points);
    }
  }

  lemma {:induction false} AverageExact(total: real, count: nat)
    ensures count > 0 || total == 0.0 ==> Average(total, count) * count as real == total
  {
  }

  lemma {:induction false} NetsTotal(trades: seq<Trade>)
    ensures Sum(Nets(trades)) == BacktestLaws.NetTotal(trades)
  {
    if trades != [] {
      var n := |trades| - 1;
      assert Nets(trades)[..n] == Nets(trades[..n]);
      NetsTotal(trades[..n]);
    }
  }

  lemma {:induction false} SumOfNothing()
    ensures Sum([]) == 0.0
  {
  }

  /** Every result is won, lost, or nothing. */
  lemma {:induction false} WonAndLost(nets: seq<real>)
    ensures Sum(Winners(nets)) + Sum(Losers(nets)) == Sum(nets)
    ensures Sum(Winners(nets)) >= 0.0 && Sum(Losers(nets)) <= 0.0
    ensures Losers(nets) != [] <==> Sum(Losers(nets)) < 0.0
    ensures |Winners(nets)| + |Losers(nets)| <= |nets|
  {
    hide Winners, Losers, Sum;
    SumOfNothing();
    if nets == [] {
      NothingWon();
    } else {
      var front, last := nets[..|nets| - 1], nets[|nets| - 1];
      assert nets == front + [last];
      WonAndLost(front);
      WinnersNext(nets);
      SumAppend(front, last);
      if last > 0.0 {
        SumAppend(Winners(front), last);
      } else if last < 0.0 {
        SumAppend(Losers(front), last);
      }
    }
  }

  lemma {:induction false} NothingWon()
    ensures Winners([]) == [] && Losers([]) == []
  {
  }

  lemma {:induction false} WinnersNext(nets: seq<real>)
    requires nets != []
    ensures var front, last := nets[..|nets| - 1], nets[|nets| - 1];
            && Winners(nets) == (if last > 0.0 then Winners(front) + [last] else Winners(front))
            && Losers(nets) == (if last < 0.0 then Losers(front) + [last] else Losers(front))
  {
  }

  // ----- the Sharpe ratio -----------------------------------------------------------------------

  /** The square root and the number of sessions in a year, as the ratio uses them. */
  datatype Scale = Scale(root: real -> real, annualization: real)

  function Root(scale: Scale, x: real): real {
    scale.root(x)
  }

  ghost predicate ScaleValid(scale: Scale) {
    scale.annualization > 0.0 && forall x :: x > 0.0 ==> Root(scale, x) > 0.0
  }

  /** The return from each point to the next, where there was something to return on. */
  function PointReturns(curve: seq<Point>): seq<real> {
    if |curve| < 2 then []
    else
      var before, after := curve[|curve| - 2].value, curve[|curve| - 1].value;
      PointReturns(curve[..|curve| - 1]) + (if before != 0.0 then [after / before - 1.0] else [])
  }

  method CollectReturns(curve: seq<Point>) returns (returns_: seq<real>)
    ensures returns_ == PointReturns(curve)
  {
    returns_ := [];
    if curve == [] {
      return;
    }
    for i := 1 to |curve|
      invariant returns_ == PointReturns(curve[..i])
    {
      assert curve[..i + 1][..i] == curve[..i];
      if curve[i - 1].value != 0.0 {
        returns_ := returns_ + [curve[i].value / curve[i - 1].value - 1.0];
      }
    }
    assert curve[..|curve|] == curve;
  }

  function Square(x: real): real {
    x * x
  }

  /** The squared distances from a centre, together. */
  function Spread(s: seq<real>, centre: real): real {
    if s == [] then 0.0 else Spread(s[..|s| - 1], centre) + Square(s[|s| - 1] - centre)
  }

  lemma {:induction false} SquareExact(x: real)
    ensures Square(x) >= 0.0 && (Square(x) == 0.0 <==> x == 0.0)
  {
    if x < 0.0 {
      ProductSigns(-x, -x);
      assert Square(x) == (-x) * (-x);
    } else if x > 0.0 {
      ProductSigns(x, x);
    }
  }

  ghost predicate AllEqual(s: seq<real>, x: real) {
    forall i :: 0 <= i < |s| ==> s[i] == x
  }

  lemma {:induction false} SpreadExact(s: seq<real>, centre: real)
    ensures Spread(s, centre) >= 0.0 && (Spread(s, centre) == 0.0 <==> AllEqual(s, centre))
  {
    hide Square;
    if s != [] {
      SpreadExact(s[..|s| - 1], centre);
      SquareExact(s[|s| - 1] - centre);
      assert forall i :: 0 <= i < |s| - 1 ==> s[..|s| - 1][i] == s[i];
    }
  }

  lemma {:induction false} SumOfEqual(s: seq<real>, x: real)
    requires AllEqual(s, x)
    ensures Sum(s) == x * |s| as real
  {
    if s != [] {
      SumOfEqual(s[..|s| - 1], x);
    }
  }

  function Mean(s: seq<real>): real
    requires s != []
  {
    Sum(s) / |s| as real
  }

  function Variance(s: seq<real>): real
    requires |s| > 1
  {
    Spread(s, Mean(s)) / (|s| - 1) as real
  }

  /** Values vary exactly when two of them differ. */
  lemma {:induction false} VarianceExact(s: seq<real>)
    requires |s| > 1
    ensures Variance(s) >= 0.0
    ensures Variance(s) > 0.0 <==> exists i, j :: 0 <= i < j < |s| && s[i] != s[j]
  {
    hide Spread, Sum, AllEqual;
    SpreadExact(s, Mean(s));
    QuotientSigns(Spread(s, Mean(s)), (|s| - 1) as real);
    SpreadOverMean(s);
  }

  lemma {:induction false} SpreadOverMean(s: seq<real>)
    requires |s| > 1
    ensures AllEqual(s, Mean(s)) <==> !exists i, j :: 0 <= i < j < |s| && s[i] != s[j]
  {
    hide Sum;
    if !exists i, j :: 0 <= i < j < |s| && s[i] != s[j] {
      assert AllEqual(s, s[0]);
      SumOfEqual(s, s[0]);
      QuotientOf(s[0], |s| as real);
    }
  }

  lemma {:induction false} QuotientOf(x: real, y: real)
    requires y > 0.0
    ensures x * y / y == x
  {
  }

  /** The mean over the spread, a year's worth of it; nothing when the returns do not vary. */
  function Sharpe(scale: Scale, rs: seq<real>): Option<real>
    requires ScaleValid(scale)
  {
    if |rs| > 1 && Variance(rs) > 0.0 then Some(Mean(rs) / Root(scale, Variance(rs)) * Root(scale, scale.annualization)) else None
  }

  /** There is a ratio exactly when two returns differ, and it has the sign of what the returns add up to. */
  lemma {:induction false} SharpeExact(scale: Scale, rs: seq<real>)
    requires ScaleValid(scale)
    ensures Sharpe(scale, rs).Some? <==> exists i, j :: 0 <= i < j < |rs| && rs[i] != rs[j]
    ensures Sharpe(scale, rs).Some? ==>
              (Sharpe(scale, rs).value < 0.0 <==> Sum(rs) < 0.0) && (Sharpe(scale, rs).value == 0.0 <==> Sum(rs) == 0.0)
  {
    hide Sum, Variance;
    if |rs| > 1 {
      VarianceExact(rs);
      if Variance(rs) > 0.0 {
        QuotientSigns(Sum(rs), |rs| as real);
        QuotientSigns(Mean(rs), Root(scale, Variance(rs)));
        ProductSigns(Mean(rs) / Root(scale, Variance(rs)), Root(scale, scale.annualization));
      }
    }
  }

  // ----- the figures ----------------------------------------------------------------------------

  /** A ratio exists exactly when two returns differ, and has the sign of what they add up to. */
  ghost predicate SharpeTells(sharpe: Option<real>, scale: Scale, rs: seq<real>) {
    && (sharpe.Some? <==> exists i, j :: 0 <= i < j < |rs| && rs[i] != rs[j])
    && (sharpe.Some? ==> (sharpe.value < 0.0 <==> Sum(rs) < 0.0) && (sharpe.value == 0.0 <==> Sum(rs) == 0.0))
    && (sharpe.Some? ==>
          |rs| > 1 && Root(scale, Variance(rs)) != 0.0
          && sharpe.value == Mean(rs) / Root(scale, Variance(rs)) * Root(scale, scale.annualization))
  }

  /** The figures, each in its relation to the run: averages times counts are totals, and the streaks are the longest. */
  ghost predicate Measures(m: Metrics, scale: Scale, initial: real, curve: seq<Point>, drawdowns: seq<Point>, trades: seq<Trade>) {
    var won, lost := Winners(Nets(trades)), Losers(Nets(trades));
    && (m.netProfit == (if curve == [] then initial else curve[|curve| - 1].value) - initial)
    && m.totalReturn * initial == m.netProfit
    && m.count == |trades| && m.winRate * m.count as real == |won| as real
    && m.averageWin * |won| as real == Sum(won)
    && m.averageLoss * |lost| as real == Sum(lost)
    && m.expectancy * m.count as real == BacktestLaws.NetTotal(trades)
    && (m.profitFactor.Some? <==> lost != [])
    && (m.profitFactor.Some? ==> m.profitFactor.value * -Sum(lost) == Sum(won))
    && (m.profitFactor.Some? ==> (m.profitFactor.value > 1.0 <==> BacktestLaws.NetTotal(trades) > 0.0))
    && IsHighest(m.maximumDrawdown, drawdowns) && m.maximumDrawdown == Highest(drawdowns)
    && SharpeTells(m.sharpe, scale, PointReturns(curve))
    && m.turnover == Turnover(trades)
    && m.consecutiveWins == BacktestPolicy.Longest(Nets(trades), true)
    && m.consecutiveLosses == BacktestPolicy.Longest(Nets(trades), false)
  }

  method ComputeMetrics(scale: Scale, initial: real, curve: seq<Point>, drawdowns: seq<Point>, trades: seq<Trade>) returns (m: Metrics)
    requires initial > 0.0 && ScaleValid(scale)
    ensures Measures(m, scale, initial, curve, drawdowns, trades)
  {
    hide Winners, Losers, Sum, BacktestLaws.NetTotal, BacktestPolicy.Longest, Highest, Turnover, Nets, IsHighest, SharpeTells, ScaleValid;
    HighestExact(drawdowns);
    var rs := CollectReturns(curve);
    SharpeHolds(scale, rs);
    var final := if curve != [] then curve[|curve| - 1].value else initial;
    var nets := Nets(trades);
    var wins, losses := Winners(nets), Losers(nets);
    SumOfNothing();
    NetsTotal(trades);
    NetsLength(trades);
    WonAndLost(nets);
    var net := Sum(nets);
    AverageExact(|wins| as real, |trades|);
    AverageExact(Sum(wins), |wins|);
    AverageExact(Sum(losses), |losses|);
    AverageExact(net, |trades|);
    var grossWins, grossLosses := Sum(wins), Abs(Sum(losses));
    var factor := if grossLosses != 0.0 then Some(grossWins / grossLosses) else None;
    if grossLosses != 0.0 {
      QuotientExact(grossWins, grossLosses);
    }
    QuotientExact(final - initial, initial);
    ReturnExact(final, initial);
    var consecutiveWins, consecutiveLosses := BacktestPolicy.CountStreaks(nets);
    return Metrics(final - initial, final / initial - 1.0, Average(|wins| as real, |trades|), Average(grossWins, |wins|),
                   Average(Sum(losses), |losses|), Average(net, |trades|), factor, Highest(drawdowns), Sharpe(scale, rs),
                   Turnover(trades), |trades|, consecutiveWins, consecutiveLosses);
  }

  lemma {:induction false} SharpeHolds(scale: Scale, rs: seq<real>)
    requires ScaleValid(scale)
    ensures SharpeTells(Sharpe(scale, rs), scale, rs)
  {
    hide Sum, Variance, Mean;
    SharpeExact(scale, rs);
  }

  lemma {:induction false} NetsLength(trades: seq<Trade>)
    ensures |Nets(trades)| == |trades| && (trades == [] ==> Sum(Nets(trades)) == 0.0)
  {
  }

  lemma {:induction false} ReturnExact(final: real, initial: real)
    requires initial > 0.0
    ensures (final / initial - 1.0) * initial == final - initial
  {
    var q := final / initial;
    assert q * initial == final;
  }

  // ----- the drawdown of a run ------------------------------------------------------------------

  /** The equity path a run draws, from its capital on. */
  function EquityPath(initial: real, curve: seq<Point>): seq<real> {
    [initial] + seq(|curve|, i requires 0 <= i < |curve| => curve[i].value)
  }

  lemma {:induction false} PathNext(initial: real, front: seq<Point>, p: Point)
    ensures EquityPath(initial, front + [p]) == EquityPath(initial, front) + [p.value]
    ensures EquityPath(initial, front + [p])[..|front| + 1] == EquityPath(initial, front)
  {
  }

  lemma {:induction false} PathStart(initial: real)
    requires initial > 0.0
    ensures EquityPath(initial, []) == [initial] && MonteCarlo.Peak([initial]) == initial
    ensures MonteCarlo.MaximumDrawdown([initial]) == 0.0
  {
    assert [initial][..0] == [];
  }

  /** One more point, for the one pass over a path and for the list of drawdowns. */
  lemma {:induction false} DrawdownNext(path: seq<real>, x: real, points: seq<Point>, p: Point)
    requires path != [] && MonteCarlo.Peak(path) > 0.0 && Highest(points) == MonteCarlo.MaximumDrawdown(path)
    requires p.value == Drawdown(Max(MonteCarlo.Peak(path), x), x)
    ensures MonteCarlo.Peak(path + [x]) == Max(MonteCarlo.Peak(path), x)
    ensures Highest(points + [p]) == MonteCarlo.MaximumDrawdown(path + [x]) || points == []
    ensures points == [] && MonteCarlo.MaximumDrawdown(path) == 0.0 ==> Highest(points + [p]) == MonteCarlo.MaximumDrawdown(path + [x])
  {
    hide Fall;
    assert (path + [x])[..|path|] == path && (points + [p])[..|points|] == points;
    FallRange(MonteCarlo.Peak(path + [x]), x);
  }

  /**
   * The maximum drawdown reported for a run, before any close forced by the end of the data, is the one-pass figure
   * over its equity path, and its peak is that path's peak.
   */
  lemma {:induction false} DrawdownOfRun(setup: Setup, c: seq<Candle>, n: nat)
    requires n <= |c| && setup.config.initialCapital > 0.0
    ensures var s := Run(setup, c, n);
            && |s.curve| == |s.drawdowns| == n
            && s.peak == MonteCarlo.Peak(EquityPath(setup.config.initialCapital, s.curve)) > 0.0
            && Highest(s.drawdowns) == MonteCarlo.MaximumDrawdown(EquityPath(setup.config.initialCapital, s.curve))
  {
    hide Consume, Intrabar, Ask, Drawdown, Unrealized, MonteCarlo.Peak, MonteCarlo.MaximumDrawdown, Highest, EquityPath;
    CurveLength(setup, c, n);
    PathStart(setup.config.initialCapital);
    if n == 0 {
      HighestOfNothing();
    } else {
      var s, z := Run(setup, c, n - 1), Run(setup, c, n);
      DrawdownOfRun(setup, c, n - 1);
      StepKeepsCurve(setup, s, c, n - 1);
      var path := EquityPath(setup.config.initialCapital, s.curve);
      var p, d := z.curve[n - 1], z.drawdowns[n - 1];
      assert z.curve == s.curve + [p] && z.drawdowns == s.drawdowns + [d];
      PathNext(setup.config.initialCapital, s.curve, p);
      PathNotEmpty(setup.config.initialCapital, s.curve);
      DrawdownNext(path, p.value, s.drawdowns, d);
      if n == 1 {
        assert s.curve == [] && s.drawdowns == [];
      }
    }
  }

  lemma {:induction false} PathNotEmpty(initial: real, curve: seq<Point>)
    ensures EquityPath(initial, curve) != []
  {
  }

  lemma {:induction false} HighestOfNothing()
    ensures Highest([]) == 0.0
  {
  }

  /** The figures of a whole run, against what the run did. */
  ghost predicate MeasuresRun(m: Metrics, setup: Setup, c: seq<Candle>) {
    var z, initial := Complete(setup, c), setup.config.initialCapital;
    && m.count == |z.trades|
    && m.netProfit == BacktestLaws.NetTotal(z.trades) == m.expectancy * m.count as real
    && m.netProfit == z.equity - initial == m.totalReturn * initial
    && m.maximumDrawdown >= 0.0
    && (Run(setup, c, |c|).position.None? ==> m.maximumDrawdown == MonteCarlo.MaximumDrawdown(EquityPath(initial, z.curve)))
    && (c != [] ==> FinalDrawdown(m.maximumDrawdown, setup, c))
  }

  /**
   * However the run ends, its drawdown is the larger of the one-pass figure up to the point before the last and of the
   * fall to the final equity from the highest of the capital, all marks, a replaced one included, and that equity.
   */
  ghost predicate FinalDrawdown(x: real, setup: Setup, c: seq<Candle>)
    requires c != []
  {
    var s, z, initial := Run(setup, c, |c|), Complete(setup, c), setup.config.initialCapital;
    var peak := Max(MonteCarlo.Peak(EquityPath(initial, s.curve)), z.equity);
    && |s.curve| == |c| && peak > 0.0
    && x == Max(MonteCarlo.MaximumDrawdown(EquityPath(initial, s.curve[..|c| - 1])), Fall(peak, z.equity))
  }

  lemma {:induction false} DrawdownOfWhole(setup: Setup, c: seq<Candle>)
    requires setup.config.initialCapital > 0.0 && c != []
    ensures FinalDrawdown(Highest(Complete(setup, c).drawdowns), setup, c)
  {
    hide Complete, Run, Fall, EquityPath, MonteCarlo.Peak, MonteCarlo.MaximumDrawdown, Highest, Drawdown;
    var n := |c| - 1;
    var s, z := Run(setup, c, |c|), Complete(setup, c);
    BacktestLaws.FinalPeakIsHighest(setup, c);
    DrawdownOfRun(setup, c, |c|);
    DrawdownOfRun(setup, c, n);
    FrontOfRun(setup, c, n);
    FallRange(z.peak, z.equity);
    assert z.drawdowns == z.drawdowns[..n] + [z.drawdowns[n]];
    HighestAppend(z.drawdowns[..n], z.drawdowns[n]);
    DrawdownIsFall(z.peak, z.equity);
    MonteCarlo.PassExact(EquityPath(setup.config.initialCapital, s.curve[..n]));
    if n == 0 {
      HighestOfNothing();
      assert z.drawdowns[..n] == [];
    }
  }

  lemma {:induction false} DrawdownIsFall(peak: real, equity: real)
    requires peak > 0.0
    ensures Drawdown(peak, equity) == Fall(peak, equity)
  {
  }

  lemma {:induction false} FrontOfRun(setup: Setup, c: seq<Candle>, n: nat)
    requires n < |c|
    ensures |Run(setup, c, n + 1).curve| == |Run(setup, c, n + 1).drawdowns| == n + 1
    ensures Run(setup, c, n + 1).curve[..n] == Run(setup, c, n).curve
    ensures Run(setup, c, n + 1).drawdowns[..n] == Run(setup, c, n).drawdowns
  {
    hide Consume, Intrabar, Ask, Drawdown, Unrealized;
    CurveLength(setup, c, n);
    CurveLength(setup, c, n + 1);
    StepKeepsCurve(setup, Run(setup, c, n), c, n);
  }

  lemma {:induction false} HighestAppend(points: seq<Point>, p: Point)
    ensures Highest(points + [p]) == if points == [] then p.value else Max(Highest(points), p.value)
  {
    assert (points + [p])[..|points|] == points;
  }

  lemma {:induction false} RunMeasured(m: Metrics, scale: Scale, setup: Setup, c: seq<Candle>)
    requires setup.config.initialCapital > 0.0
    requires var z := Complete(setup, c); Measures(m, scale, setup.config.initialCapital, z.curve, z.drawdowns, z.trades)
    ensures MeasuresRun(m, setup, c)
  {
    hide Complete, Run, BacktestLaws.NetTotal, MonteCarlo.MaximumDrawdown, EquityPath, Highest, MonteCarlo.Peak, Nets, Winners, Losers,
         BacktestPolicy.Longest, Turnover, IsHighest, SharpeTells, FinalDrawdown;
    var z := Complete(setup, c);
    BacktestLaws.FinalEquityAccounted(setup, c);
    NothingForced(setup, c);
    DrawdownOfRun(setup, c, |c|);
    MonteCarlo.PassExact(EquityPath(setup.config.initialCapital, z.curve));
    if c != [] {
      DrawdownOfWhole(setup, c);
      WholeNotNegative(setup, c, m.maximumDrawdown);
    }
  }

  lemma {:induction false} WholeNotNegative(setup: Setup, c: seq<Candle>, x: real)
    requires c != [] && FinalDrawdown(x, setup, c)
    ensures x >= 0.0
  {
    hide Complete, Run, Fall, EquityPath, MonteCarlo.Peak, MonteCarlo.MaximumDrawdown;
    MonteCarlo.PassExact(EquityPath(setup.config.initialCapital, Run(setup, c, |c|).curve[..|c| - 1]));
  }

  /**
   * A backtest and its figures. The net profit is what all trades made; the drawdown is never below zero and, for a run
   * that ends without a position, the one-pass figure of its path.
   */
  method RunAndMeasure(c: seq<Candle>, setup: Setup, scale: Scale) returns (r: Result<(State, Metrics), Error>)
    requires setup.config.initialCapital > 0.0 && ScaleValid(scale)
    ensures match r
            case Failure(error) => Complaint(c) == Some(error)
            case Success((z, m)) =>
              && Complaint(c).None? && z == Complete(setup, c)
              && Measures(m, scale, setup.config.initialCapital, z.curve, z.drawdowns, z.trades) && MeasuresRun(m, setup, c)
  {
    hide Complaint, Complete, Measures, MeasuresRun, ScaleValid;
    var result := RunBacktest(c, setup);
    if result.Failure? {
      return Failure(result.error);
    }
    var z := result.value;
    var m := ComputeMetrics(scale, setup.config.initialCapital, z.curve, z.drawdowns, z.trades);
    RunMeasured(m, scale, setup, c);
    return Success((z, m));
  }

  lemma {:induction false} NothingForced(setup: Setup, c: seq<Candle>)
    ensures Run(setup, c, |c|).position.None? ==> Complete(setup, c) == Run(setup, c, |c|)
    ensures c == [] ==> Complete(setup, c).equity == setup.config.initialCapital && Run(setup, c, |c|).position.None?
  {
    hide Next;
  }
}
