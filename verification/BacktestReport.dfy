/** Reports over a finished backtest: returns by period, and results by direction. */
module BacktestReport {
  import opened Backtest
  import BacktestLaws

  // ----- returns by period ----------------------------------------------------------------------

  /** A period's label and the last equity seen in it; periods stand in the order they first appear. */
  datatype Close = Close(period: int, equity: real)

  datatype Return = Return(period: int, fraction: real)

  function Put(closes: seq<Close>, period: int, equity: real): seq<Close> {
    if closes == [] then [Close(period, equity)]
    else if closes[|closes| - 1].period == period then closes[|closes| - 1 := Close(period, equity)]
    else Put(closes[..|closes| - 1], period, equity) + [closes[|closes| - 1]]
  }

  function Label(labels: int -> int, at: int): int {
    labels(at)
  }

  function Closes(curve: seq<Point>, labels: int -> int): seq<Close> {
    if curve == [] then []
    else
      var p := curve[|curve| - 1];
      var before := Closes(curve[..|curve| - 1], labels);
      if exists i :: 0 <= i < |before| && before[i].period == Label(labels, p.at) then Put(before, Label(labels, p.at), p.value)
      else before + [Close(Label(labels, p.at), p.value)]
  }

  function Fraction(before: real, after: real): real {
    if before != 0.0 then after / before - 1.0 else 0.0
  }

  function Returns(closes: seq<Close>, initial: real): seq<Return> {
    if closes == [] then []
    else
      var n := |closes| - 1;
      Returns(closes[..n], initial) +
      [Return(closes[n].period, Fraction(if n == 0 then initial else closes[n - 1].equity, closes[n].equity))]
  }

  method PeriodReturns(curve: seq<Point>, initial: real, labels: int -> int) returns (returns_: seq<Return>)
    ensures returns_ == Returns(Closes(curve, labels), initial)
  {
    hide Put, Fraction, Label;
    var closes: seq<Close> := [];
    for i := 0 to |curve|
      invariant closes == Closes(curve[..i], labels)
    {
      assert curve[..i + 1][..i] == curve[..i];
      var period := Label(labels, curve[i].at);
      if exists j :: 0 <= j < |closes| && closes[j].period == period {
        closes := Put(closes, period, curve[i].value);
      } else {
        closes := closes + [Close(period, curve[i].value)];
      }
    }
    assert curve[..|curve|] == curve;
    var previous := initial;
    returns_ := [];
    for n := 0 to |closes|
      invariant returns_ == Returns(closes[..n], initial)
      invariant previous == if n == 0 then initial else closes[n - 1].equity
    {
      assert closes[..n + 1][..n] == closes[..n];
      returns_ := returns_ + [Return(closes[n].period, Fraction(previous, closes[n].equity))];
      previous := closes[n].equity;
    }
    assert closes[..|closes|] == closes;
  }

  /** Growth over all the periods together. */
  function Compounded(rs: seq<Return>): real {
    if rs == [] then 1.0 else Compounded(rs[..|rs| - 1]) * (1.0 + rs[|rs| - 1].fraction)
  }

  /** Capital grown by a factor. */
  ghost predicate GrowsTo(before: real, growth: real, after: real) {
    before * growth == after
  }

  lemma {:induction false} FractionExact(before: real, after: real)
    requires before != 0.0
    ensures GrowsTo(before, 1.0 + Fraction(before, after), after)
  {
    var ratio := after / before;
    assert ratio * before == after;
    assert 1.0 + Fraction(before, after) == ratio;
  }

  /** One more period. */
  lemma {:induction false} CompoundNext(initial: real, rs: seq<Return>, r: Return, before: real, after: real)
    requires GrowsTo(initial, Compounded(rs), before) && GrowsTo(before, 1.0 + r.fraction, after)
    ensures GrowsTo(initial, Compounded(rs + [r]), after)
  {
    assert (rs + [r])[..|rs|] == rs;
    var growth, step := Compounded(rs), 1.0 + r.fraction;
    assert initial * (growth * step) == (initial * growth) * step;
  }

  lemma {:induction false} NothingCompounded(initial: real)
    ensures Returns([], initial) == [] && GrowsTo(initial, Compounded([]), initial)
  {
  }

  lemma {:induction false} ReturnsNext(closes: seq<Close>, initial: real)
    requires closes != []
    ensures var n := |closes| - 1;
            Returns(closes, initial) ==
            Returns(closes[..n], initial) +
            [Return(closes[n].period, Fraction(if n == 0 then initial else closes[n - 1].equity, closes[n].equity))]
  {
    hide Fraction;
  }

  lemma {:induction false} CompoundedUpToZero(closes: seq<Close>, initial: real)
    requires initial != 0.0 && (forall i :: 0 <= i < |closes| - 1 ==> closes[i].equity != 0.0)
    ensures |Returns(closes, initial)| == |closes|
    ensures GrowsTo(initial, Compounded(Returns(closes, initial)), if closes == [] then initial else closes[|closes| - 1].equity)
  {
    hide Fraction, Compounded, Returns, GrowsTo;
    if closes == [] {
      NothingCompounded(initial);
    } else {
      var n := |closes| - 1;
      var before := if n == 0 then initial else closes[n - 1].equity;
      CompoundedUpToZero(closes[..n], initial);
      ReturnsNext(closes, initial);
      FractionExact(before, closes[n].equity);
      CompoundNext(initial, Returns(closes[..n], initial), Return(closes[n].period, Fraction(before, closes[n].equity)),
                   before, closes[n].equity);
    }
  }

  /** Once a period closed at zero nothing grows back. */
  lemma {:induction false} ZeroStays(closes: seq<Close>, initial: real, i: nat)
    requires initial != 0.0 && i < |closes| && closes[i].equity == 0.0
    requires forall j :: 0 <= j < i ==> closes[j].equity != 0.0
    ensures Compounded(Returns(closes, initial)) == 0.0
  {
    hide Fraction, Compounded, Returns, GrowsTo;
    var n := |closes| - 1;
    ReturnsNext(closes, initial);
    var r := Return(closes[n].period, Fraction(if n == 0 then initial else closes[n - 1].equity, closes[n].equity));
    CompoundedAppend(Returns(closes[..n], initial), r);
    if i < n {
      ZeroStays(closes[..n], initial, i);
    } else {
      TotalLoss(if n == 0 then initial else closes[n - 1].equity);
    }
  }

  lemma {:induction false} CompoundedAppend(rs: seq<Return>, r: Return)
    ensures Compounded(rs + [r]) == Compounded(rs) * (1.0 + r.fraction)
    ensures Compounded(rs) == 0.0 || 1.0 + r.fraction == 0.0 ==> Compounded(rs + [r]) == 0.0
  {
    assert (rs + [r])[..|rs|] == rs;
  }

  lemma {:induction false} TotalLoss(before: real)
    requires before != 0.0
    ensures 1.0 + Fraction(before, 0.0) == 0.0
  {
  }

  lemma {:induction false} FirstZero(closes: seq<Close>, n: nat)
    requires n < |closes| && closes[n].equity == 0.0
    ensures exists i: nat :: i <= n && closes[i].equity == 0.0 && forall j :: 0 <= j < i ==> closes[j].equity != 0.0
  {
    if exists j: nat :: j < n && closes[j].equity == 0.0 {
      var j: nat :| j < n && closes[j].equity == 0.0;
      FirstZero(closes, j);
    }
  }

  lemma {:induction false} ZeroGrowth(initial: real, growth: real, after: real)
    requires growth == 0.0
    ensures GrowsTo(initial, growth, after) <==> after == 0.0
  {
  }

  /** The returns compound to exactly the last close if and only if no earlier period closed at zero, or the last did too. */
  lemma {:induction false} ReturnsCompound(closes: seq<Close>, initial: real)
    requires initial != 0.0
    ensures GrowsTo(initial, Compounded(Returns(closes, initial)), if closes == [] then initial else closes[|closes| - 1].equity)
       <==> (forall i :: 0 <= i < |closes| - 1 ==> closes[i].equity != 0.0) || closes[|closes| - 1].equity == 0.0
  {
    hide Fraction, Compounded, Returns, GrowsTo;
    if forall i :: 0 <= i < |closes| - 1 ==> closes[i].equity != 0.0 {
      CompoundedUpToZero(closes, initial);
    } else {
      var n: nat :| n < |closes| - 1 && closes[n].equity == 0.0;
      FirstZero(closes, n);
      var i: nat :| i <= n && closes[i].equity == 0.0 && forall j :: 0 <= j < i ==> closes[j].equity != 0.0;
      ZeroStays(closes, initial, i);
      ZeroGrowth(initial, Compounded(Returns(closes, initial)), closes[|closes| - 1].equity);
    }
  }

  /** The last period closes at the last point of the curve, when equal labels are neighbours. */
  lemma {:induction false} LastCloseIsLastPoint(curve: seq<Point>, labels: int -> int)
    requires curve != []
    requires forall i, j, k :: 0 <= i < j < k < |curve| && Label(labels, curve[i].at) == Label(labels, curve[k].at) ==>
               Label(labels, curve[j].at) == Label(labels, curve[i].at)
    ensures var closes := Closes(curve, labels);
            closes != [] && closes[|closes| - 1] == Close(Label(labels, curve[|curve| - 1].at), curve[|curve| - 1].value)
  {
    hide Label;
    var n := |curve| - 1;
    if n > 0 {
      var front := curve[..n];
      LastCloseIsLastPoint(front, labels);
      var before := Closes(front, labels);
      var period := Label(labels, curve[n].at);
      if exists i :: 0 <= i < |before| && before[i].period == period {
        PeriodsSeen(front, labels, period);
        var j :| 0 <= j < n && Label(labels, front[j].at) == period;
        assert j < n - 1 ==> Label(labels, curve[n - 1].at) == Label(labels, curve[j].at);
        assert before[|before| - 1].period == period;
      }
    } else {
      assert curve[..0] == [];
      assert Closes(curve[..0], labels) == [];
    }
  }

  lemma {:induction false} PutPeriods(closes: seq<Close>, period: int, equity: real, other: int)
    requires exists i :: 0 <= i < |Put(closes, period, equity)| && Put(closes, period, equity)[i].period == other
    ensures other == period || exists i :: 0 <= i < |closes| && closes[i].period == other
  {
    var after := Put(closes, period, equity);
    var i :| 0 <= i < |after| && after[i].period == other;
    if closes != [] && closes[|closes| - 1].period != period {
      var front := closes[..|closes| - 1];
      if i < |after| - 1 {
        assert Put(front, period, equity)[i].period == other;
        PutPeriods(front, period, equity, other);
        if other != period {
          var j :| 0 <= j < |front| && front[j].period == other;
          assert closes[j].period == other;
        }
      } else {
        assert closes[|closes| - 1].period == other;
      }
    } else if closes != [] && i < |closes| - 1 {
      assert closes[i].period == other;
    }
  }

  /** A period with a close is the period of some point. */
  lemma {:induction false} PeriodsSeen(curve: seq<Point>, labels: int -> int, period: int)
    requires exists i :: 0 <= i < |Closes(curve, labels)| && Closes(curve, labels)[i].period == period
    ensures exists j :: 0 <= j < |curve| && Label(labels, curve[j].at) == period
  {
    hide Label, Put;
    var closes := Closes(curve, labels);
    var i :| 0 <= i < |closes| && closes[i].period == period;
    var n := |curve| - 1;
    var front := curve[..n];
    if period == Label(labels, curve[n].at) {
      assert Label(labels, curve[n].at) == period;
    } else {
      var before := Closes(front, labels);
      if exists k :: 0 <= k < |before| && before[k].period == Label(labels, curve[n].at) {
        PutPeriods(before, Label(labels, curve[n].at), curve[n].value, period);
      } else {
        assert before[i].period == period;
      }
      PeriodsSeen(front, labels, period);
      var j :| 0 <= j < |front| && Label(labels, front[j].at) == period;
      assert Label(labels, curve[j].at) == period;
    }
  }

  // ----- results by direction -------------------------------------------------------------------

  datatype Performance = Performance(direction: Action, count: nat, net: real, winRate: real)

  function Of(trades: seq<Trade>, direction: Action): seq<Trade> {
    if trades == [] then []
    else Of(trades[..|trades| - 1], direction) + (if trades[|trades| - 1].direction == direction then [trades[|trades| - 1]] else [])
  }

  function Wins(trades: seq<Trade>): nat {
    if trades == [] then 0 else Wins(trades[..|trades| - 1]) + (if trades[|trades| - 1].net > 0.0 then 1 else 0)
  }

  ghost function Indexes<T>(s: seq<T>, chosen: T -> bool): set<nat> {
    set i: nat | i < |s| && chosen(s[i])
  }

  function Going(direction: Action): Trade -> bool {
    (t: Trade) => t.direction == direction
  }

  function Winning(direction: Action): Trade -> bool {
    (t: Trade) => t.direction == direction && t.net > 0.0
  }

  /** Which trades went this way, and which of them won. */
  ghost function Taken(trades: seq<Trade>, direction: Action): set<nat> {
    Indexes(trades, Going(direction))
  }

  ghost function Won(trades: seq<Trade>, direction: Action): set<nat> {
    Indexes(trades, Winning(direction))
  }

  /** The net result with every trade of the other direction counted as nothing. */
  ghost function NetWhere(trades: seq<Trade>, direction: Action): real {
    if trades == [] then 0.0
    else
      var t := trades[|trades| - 1];
      NetWhere(trades[..|trades| - 1], direction) + (if t.direction == direction then t.net else 0.0)
  }

  /** An entry tells the number, the net result and the share of winners of exactly the trades of its direction. */
  ghost predicate Tells(p: Performance, trades: seq<Trade>) {
    && p.count == |Taken(trades, p.direction)| > 0
    && p.net == NetWhere(trades, p.direction)
    && p.winRate * p.count as real == |Won(trades, p.direction)| as real
  }

  ghost predicate Traded(trades: seq<Trade>, direction: Action) {
    exists i :: 0 <= i < |trades| && trades[i].direction == direction
  }

  ghost predicate Reported(output: seq<Performance>, direction: Action) {
    exists k :: 0 <= k < |output| && output[k].direction == direction
  }

  /** A direction has an entry exactly when some trade went that way; long comes before short. */
  method DirectionPerformance(trades: seq<Trade>) returns (output: seq<Performance>)
    ensures forall k :: 0 <= k < |output| ==> Tells(output[k], trades)
    ensures Reported(output, Long) <==> Traded(trades, Long)
    ensures Reported(output, Short) <==> Traded(trades, Short)
    ensures forall k :: 0 <= k < |output| ==> output[k].direction in {Long, Short}
    ensures forall j, k :: 0 <= j < k < |output| ==> output[j].direction == Long && output[k].direction == Short
  {
    hide Tells, Of, Wins, Traded, BacktestLaws.NetTotal;
    output := [];
    var directions := [Long, Short];
    for n := 0 to 2
      invariant |output| <= n
      invariant forall k :: 0 <= k < |output| ==> Tells(output[k], trades)
      invariant Reported(output, Long) <==> n > 0 && Traded(trades, Long)
      invariant Reported(output, Short) <==> n > 1 && Traded(trades, Short)
      invariant forall k :: 0 <= k < |output| ==> output[k].direction in {Long, Short}
      invariant |output| == 2 ==> output[0].direction == Long && output[1].direction == Short
      invariant n == 1 && |output| == 1 ==> output[0].direction == Long
    {
      var mine := Of(trades, directions[n]);
      OfExact(trades, directions[n]);
      if |mine| > 0 {
        var p := Performance(directions[n], |mine|, BacktestLaws.NetTotal(mine), Wins(mine) as real / |mine| as real);
        SummaryTells(trades, p);
        ReportedAppend(output, p);
        output := output + [p];
      }
    }
  }

  lemma {:induction false} ReportedAppend(output: seq<Performance>, p: Performance)
    ensures forall direction :: Reported(output + [p], direction) <==> Reported(output, direction) || p.direction == direction
  {
    forall direction ensures Reported(output + [p], direction) <==> Reported(output, direction) || p.direction == direction {
      var after := output + [p];
      assert after[|output|] == p && forall k :: 0 <= k < |output| ==> after[k] == output[k];
    }
  }

  lemma {:induction false} SummaryTells(trades: seq<Trade>, p: Performance)
    requires var mine := Of(trades, p.direction);
             |mine| > 0 && p == Performance(p.direction, |mine|, BacktestLaws.NetTotal(mine), Wins(mine) as real / |mine| as real)
    ensures Tells(p, trades)
  {
    hide Of, Wins, BacktestLaws.NetTotal, Taken, Won, NetWhere;
    OfExact(trades, p.direction);
  }

  lemma {:induction false} IndexIn<T>(s: seq<T>, chosen: T -> bool, i: nat)
    ensures i in Indexes(s, chosen) <==> i < |s| && chosen(s[i])
  {
  }

  lemma {:induction false} IndexesAppend<T>(front: seq<T>, t: T, chosen: T -> bool)
    ensures |Indexes(front + [t], chosen)| == |Indexes(front, chosen)| + (if chosen(t) then 1 else 0)
  {
    hide Indexes;
    var n, all := |front|, front + [t];
    var before, after := Indexes(front, chosen), Indexes(all, chosen);
    var here: set<nat> := {n};
    IndexIn(front, chosen, n);
    IndexIn(all, chosen, n);
    forall i: nat ensures i in after <==> i in before || (i == n && chosen(t)) {
      IndexIn(front, chosen, i);
      IndexIn(all, chosen, i);
    }
    if chosen(t) {
      assert after == before + here;
    } else {
      assert after == before;
    }
  }

  lemma {:induction false} TakenAppend(front: seq<Trade>, t: Trade, direction: Action)
    ensures |Taken(front + [t], direction)| == |Taken(front, direction)| + (if t.direction == direction then 1 else 0)
    ensures |Won(front + [t], direction)| == |Won(front, direction)| + (if t.direction == direction && t.net > 0.0 then 1 else 0)
  {
    hide Indexes;
    IndexesAppend(front, t, Going(direction));
    IndexesAppend(front, t, Winning(direction));
  }

  lemma {:induction false} TradedAppend(front: seq<Trade>, t: Trade, direction: Action)
    ensures Traded(front + [t], direction) <==> Traded(front, direction) || t.direction == direction
  {
    var all := front + [t];
    assert all[|front|] == t && forall i :: 0 <= i < |front| ==> all[i] == front[i];
  }

  lemma {:induction false} OfAppend(front: seq<Trade>, t: Trade, direction: Action)
    ensures Of(front + [t], direction) == Of(front, direction) + (if t.direction == direction then [t] else [])
    ensures NetWhere(front + [t], direction) == NetWhere(front, direction) + (if t.direction == direction then t.net else 0.0)
  {
    assert (front + [t])[..|front|] == front;
  }

  lemma {:induction false} NothingTraded(direction: Action)
    ensures Of([], direction) == [] && Wins([]) == 0 && BacktestLaws.NetTotal([]) == 0.0 && NetWhere([], direction) == 0.0
    ensures Taken([], direction) == {} && Won([], direction) == {} && !Traded([], direction)
  {
  }

  /** The filtered list, by number, winners and net result, is what the trades of one direction are. */
  lemma {:induction false} OfExact(trades: seq<Trade>, direction: Action)
    ensures |Of(trades, direction)| == |Taken(trades, direction)|
    ensures Wins(Of(trades, direction)) == |Won(trades, direction)|
    ensures BacktestLaws.NetTotal(Of(trades, direction)) == NetWhere(trades, direction)
    ensures Of(trades, direction) != [] <==> Traded(trades, direction)
  {
    hide Of, Wins, BacktestLaws.NetTotal, Taken, Won, NetWhere, Traded;
    if trades == [] {
      NothingTraded(direction);
    } else {
      var front, t := trades[..|trades| - 1], trades[|trades| - 1];
      assert trades == front + [t];
      OfExact(front, direction);
      OfAppend(front, t, direction);
      TakenAppend(front, t, direction);
      TradedAppend(front, t, direction);
      TotalsAppend(Of(front, direction), t);
      assert Of(front, direction) + [] == Of(front, direction);
    }
  }

  lemma {:induction false} TotalsAppend(mine: seq<Trade>, t: Trade)
    ensures BacktestLaws.NetTotal(mine + [t]) == BacktestLaws.NetTotal(mine) + t.net
    ensures Wins(mine + [t]) == Wins(mine) + (if t.net > 0.0 then 1 else 0)
  {
    assert (mine + [t])[..|mine|] == mine;
  }

  /** Both directions together account for every trade, every rupee and every win of the run. */
  lemma {:induction false} DirectionsAddUp(trades: seq<Trade>)
    requires forall i :: 0 <= i < |trades| ==> trades[i].direction in {Long, Short}
    ensures |Taken(trades, Long)| + |Taken(trades, Short)| == |trades|
    ensures NetWhere(trades, Long) + NetWhere(trades, Short) == BacktestLaws.NetTotal(trades)
    ensures |Won(trades, Long)| + |Won(trades, Short)| == Wins(trades)
  {
    hide Of, Wins, BacktestLaws.NetTotal, Taken, Won, NetWhere;
    if trades == [] {
      NothingTraded(Long);
      NothingTraded(Short);
    } else {
      var front, t := trades[..|trades| - 1], trades[|trades| - 1];
      assert trades == front + [t];
      DirectionsAddUp(front);
      TotalsAppend(front, t);
      OfAppend(front, t, Long);
      OfAppend(front, t, Short);
      TakenAppend(front, t, Long);
      TakenAppend(front, t, Short);
    }
  }
}
