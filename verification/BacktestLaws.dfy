/** What every backtest run keeps: no look-ahead, exact accounting, ordered trades. */
module BacktestLaws {
  import opened Domain
  import opened Backtest

  // ----- the four parts of a step, each by what it changes ---------------------------------------

  /** At most one trade was closed, at this candle, and the equity moved by its net result. */
  ghost predicate TradeStep(s: State, t: State, x: Candle) {
    && t.peak == s.peak && t.curve == s.curve && t.drawdowns == s.drawdowns
    && (|| (t.trades == s.trades && t.equity == s.equity)
        || (exists trade :: ClosesWith(s, t, x, trade)))
  }

  ghost predicate ClosesWith(s: State, t: State, x: Candle, trade: Trade) {
    && s.position.Some? && t.position.None?
    && t.trades == s.trades + [trade] && t.equity == s.equity + trade.net
    && trade.enteredAt == s.position.value.enteredAt && trade.exitedAt == x.timestamp
    && FromPosition(trade, s.position.value)
  }

  /** A trade carries its position's terms. */
  ghost predicate FromPosition(t: Trade, p: Position) {
    && t.direction == p.direction && t.quantity == p.quantity && t.signalAt == p.signalAt && t.enteredAt == p.enteredAt
    && t.entryPrice == p.entryPrice && t.stop == p.stop && t.target == p.target
  }

  /** The position was opened at this candle on this decision, if its risk was approved. */
  ghost predicate Opens(setup: Setup, s: State, d: Decision, x: Candle, p: Position) {
    && d.action in {Long, Short} && d.stop.Some? && d.targets != []
    && p.decision == d && p.direction == d.action && p.signalAt == d.timestamp && p.enteredAt == x.timestamp
    && p.entryPrice == Slipped(x.open, d.action, setup.config.slippageBps)
    && p.stop == d.stop.value && p.target == d.targets[0]
    && Evaluated(setup, d, s.equity, p.entryPrice).approved && p.quantity == Evaluated(setup, d, s.equity, p.entryPrice).quantity
  }

  lemma {:induction false} ConsumeFacts(setup: Setup, s: State, x: Candle)
    ensures var t := Consume(setup, s, x);
            && t.pending.None?
            && TradeStep(s, t, x)
            && s.rejected <= t.rejected
            && (t.position != s.position && s.position.Some? ==> t.position.None?)
            && (t.position != s.position && s.position.None? ==>
                  s.pending.Some? && t.position.Some? && Opens(setup, s, s.pending.value, x, t.position.value))
            && (s.position.None? ==> t.trades == s.trades)
  {
    hide Slipped, Evaluated, Cost, Gain;
    var t := Consume(setup, s, x);
    if s.pending.Some? && s.position.Some? && s.pending.value.action == ExitPosition {
      assert ClosesWith(s, t, x, Close(setup, s.position.value, x.timestamp, x.open, Signal));
    }
  }

  lemma {:induction false} IntrabarFacts(setup: Setup, s: State, x: Candle)
    ensures var t := Intrabar(setup, s, x);
            && t.pending == s.pending && t.rejected == s.rejected
            && TradeStep(s, t, x)
            && (t.position == s.position || t.position.None?)
            && (s.position.None? ==> t.trades == s.trades)
            && (t.position.Some? ==> t.trades == s.trades)
  {
    hide Slipped, Evaluated, Cost, Gain, IntrabarExit;
    var t := Intrabar(setup, s, x);
    if s.position.Some? && IntrabarExit(s.position.value, x).Some? {
      var exit := IntrabarExit(s.position.value, x).value;
      assert ClosesWith(s, t, x, Close(setup, s.position.value, x.timestamp, exit.0, exit.1));
    }
  }

  /** The state of step `i` between its parts. */
  function Consumed(setup: Setup, c: seq<Candle>, i: nat): State
    requires i < |c|
  {
    Consume(setup, Run(setup, c, i), c[i])
  }

  function Left(setup: Setup, c: seq<Candle>, i: nat): State
    requires i < |c|
  {
    Intrabar(setup, Consumed(setup, c, i), c[i])
  }

  lemma {:induction false} StepFacts(setup: Setup, c: seq<Candle>, i: nat)
    requires i < |c|
    ensures var t, z := Left(setup, c, i), Run(setup, c, i + 1);
            && z.equity == t.equity && z.position == t.position && z.trades == t.trades && z.rejected == t.rejected
            && z.pending == (if Actionable(t.position, Decided(setup, c[..i + 1])) then Some(Decided(setup, c[..i + 1])) else t.pending)
            && z.peak == Max(t.peak, t.equity + Unrealized(t.position, c[i].close))
            && z.curve == t.curve + [Point(c[i].timestamp, t.equity + Unrealized(t.position, c[i].close))]
            && z.drawdowns == t.drawdowns + [Point(c[i].timestamp, Drawdown(z.peak, t.equity + Unrealized(t.position, c[i].close)))]
  {
    hide Consume, Intrabar, Unrealized, Drawdown, Actionable, Decided;
  }

  // ----- causality ------------------------------------------------------------------------------

  /** The first `n` candles decide the first `n` steps. */
  lemma {:induction false} RunOnPrefix(setup: Setup, c: seq<Candle>, k: nat, n: nat)
    requires n <= k <= |c|
    ensures Run(setup, c[..k], n) == Run(setup, c, n)
  {
    hide Next;
    if n > 0 {
      RunOnPrefix(setup, c, k, n - 1);
      NextOnPrefix(setup, Run(setup, c, n - 1), c, k, n - 1);
    }
  }

  lemma {:induction false} NextOnPrefix(setup: Setup, s: State, c: seq<Candle>, k: nat, i: nat)
    requires i < k <= |c|
    ensures Next(setup, s, c[..k], i) == Next(setup, s, c, i)
  {
    hide Consume, Intrabar, Ask, Marked;
    assert c[..k][..i + 1] == c[..i + 1] && c[..k][i] == c[i];
  }

  /** Later candles only append. */
  ghost predicate Grows(a: State, z: State) {
    a.trades <= z.trades && a.rejected <= z.rejected && a.curve <= z.curve && a.drawdowns <= z.drawdowns
  }

  lemma {:induction false} RunGrows(setup: Setup, c: seq<Candle>, n: nat, m: nat)
    requires n <= m <= |c|
    ensures Grows(Run(setup, c, n), Run(setup, c, m))
    decreases m
  {
    hide Run, Consume, Intrabar, Unrealized, Drawdown, Actionable, Decided, Opens, ClosesWith;
    if n < m {
      RunGrows(setup, c, n, m - 1);
      ConsumeFacts(setup, Run(setup, c, m - 1), c[m - 1]);
      IntrabarFacts(setup, Consumed(setup, c, m - 1), c[m - 1]);
      StepFacts(setup, c, m - 1);
      TradesGrow(Run(setup, c, m - 1), Consumed(setup, c, m - 1), c[m - 1]);
      TradesGrow(Consumed(setup, c, m - 1), Left(setup, c, m - 1), c[m - 1]);
    }
  }

  lemma {:induction false} TradesGrow(s: State, t: State, x: Candle)
    requires TradeStep(s, t, x)
    ensures s.trades <= t.trades
  {
    if t.trades != s.trades {
      var trade :| ClosesWith(s, t, x, trade);
    }
  }

  /** The trades of a finished run, without a close forced by the end of the data. */
  function Unforced(setup: Setup, c: seq<Candle>): seq<Trade> {
    Run(setup, c, |c|).trades
  }

  lemma {:induction false} FinishFacts(setup: Setup, c: seq<Candle>)
    ensures var s, z := Run(setup, c, |c|), Complete(setup, c);
            && |z.curve| == |c| == |z.drawdowns| && z.rejected == s.rejected && z.position.None?
            && (forall i :: 0 <= i < |c| - 1 ==> z.curve[i] == s.curve[i] && z.drawdowns[i] == s.drawdowns[i])
            && (s.position.None? ==> z == s)
            && (s.position.Some? ==>
                  && |c| > 0 && |z.trades| == |s.trades| + 1 && z.trades[..|s.trades|] == s.trades
                  && z.trades[|s.trades|].reason == EndOfData && z.trades[|s.trades|].exitedAt == c[|c| - 1].timestamp
                  && z.equity == s.equity + z.trades[|s.trades|].net
                  && z.curve[|c| - 1] == Point(c[|c| - 1].timestamp, z.equity))
  {
    hide Next, Slipped, Cost, Gain, Drawdown;
    CurveLength(setup, c, |c|);
  }

  /**
   * No look-ahead: the run on the first `k` candles and the run on all of them agree on every rejection so far, on
   * every trade so far but one forced by the end of the data, and on all equity and drawdown points but the last.
   */
  lemma {:induction false} BacktestCausal(setup: Setup, c: seq<Candle>, k: nat)
    requires 0 < k <= |c|
    ensures var part, whole := Complete(setup, c[..k]), Complete(setup, c);
            && part.rejected <= whole.rejected
            && Unforced(setup, c[..k]) <= whole.trades
            && |part.curve| == |part.drawdowns| == k && |whole.curve| == |whole.drawdowns| == |c|
            && (forall i :: 0 <= i < k - 1 ==> part.curve[i] == whole.curve[i] && part.drawdowns[i] == whole.drawdowns[i])
            && (part.trades == Unforced(setup, c[..k])
                || (|part.trades| > 0 && part.trades[..|part.trades| - 1] == Unforced(setup, c[..k])
                    && part.trades[|part.trades| - 1].reason == EndOfData))
  {
    hide Run, Complete;
    FinishFacts(setup, c[..k]);
    FinishFacts(setup, c);
    RunOnPrefix(setup, c, k, k);
    RunGrows(setup, c, k, |c|);
    CurveLength(setup, c, k);
    CurveLength(setup, c, |c|);
  }

  // ----- what is pending ------------------------------------------------------------------------

  /**
   * What waits for the next open is the last close's decision, if it was an exit with a position open or an entry
   * without one, and nothing else.
   */
  lemma {:induction false} PendingExact(setup: Setup, c: seq<Candle>, n: nat)
    requires n <= |c|
    ensures var s := Run(setup, c, n);
            && s.pending == (if n > 0 && Actionable(s.position, Decided(setup, c[..n])) then Some(Decided(setup, c[..n])) else None)
            && (s.pending.Some? ==>
                  && (s.pending.value.action == ExitPosition <==> s.position.Some?)
                  && s.pending.value.action in {ExitPosition, Long, Short})
  {
    hide Run, Consume, Intrabar, Unrealized, Drawdown, Decided, TradeStep, Opens;
    if n > 0 {
      ConsumeFacts(setup, Run(setup, c, n - 1), c[n - 1]);
      IntrabarFacts(setup, Consumed(setup, c, n - 1), c[n - 1]);
      StepFacts(setup, c, n - 1);
    } else {
      NothingPending(setup, c);
    }
  }

  lemma {:induction false} NothingPending(setup: Setup, c: seq<Candle>)
    ensures Run(setup, c, 0) == Start(setup)
  {
  }

  // ----- accounting -----------------------------------------------------------------------------

  function NetTotal(trades: seq<Trade>): real {
    if trades == [] then 0.0 else NetTotal(trades[..|trades| - 1]) + trades[|trades| - 1].net
  }

  lemma {:induction false} NetAppend(trades: seq<Trade>, t: Trade)
    ensures NetTotal(trades + [t]) == NetTotal(trades) + t.net
  {
    assert (trades + [t])[..|trades|] == trades;
  }

  lemma {:induction false} NetStep(s: State, t: State, x: Candle)
    requires TradeStep(s, t, x)
    ensures t.equity - NetTotal(t.trades) == s.equity - NetTotal(s.trades)
  {
    hide NetTotal;
    if !(t.trades == s.trades && t.equity == s.equity) {
      var trade :| ClosesWith(s, t, x, trade);
      NetAppend(s.trades, trade);
    }
  }

  /** Equity is always the capital plus the net of the closed trades; the last point adds what the open one stands to make. */
  lemma {:induction false} EquityAccounted(setup: Setup, c: seq<Candle>, n: nat)
    requires n <= |c|
    ensures var s := Run(setup, c, n);
            && s.equity == setup.config.initialCapital + NetTotal(s.trades)
            && |s.curve| == n
            && (n > 0 ==> s.curve[n - 1] == Point(c[n - 1].timestamp, s.equity + Unrealized(s.position, c[n - 1].close)))
  {
    hide Run, Consume, Intrabar, Unrealized, Drawdown, Decided, TradeStep, Opens, NetTotal, Actionable;
    CurveLength(setup, c, n);
    if n > 0 {
      EquityAccounted(setup, c, n - 1);
      ConsumeFacts(setup, Run(setup, c, n - 1), c[n - 1]);
      IntrabarFacts(setup, Consumed(setup, c, n - 1), c[n - 1]);
      NetStep(Run(setup, c, n - 1), Consumed(setup, c, n - 1), c[n - 1]);
      NetStep(Consumed(setup, c, n - 1), Left(setup, c, n - 1), c[n - 1]);
      StepFacts(setup, c, n - 1);
    } else {
      NothingPending(setup, c);
      NothingNet();
    }
  }

  lemma {:induction false} NothingNet()
    ensures NetTotal([]) == 0.0
  {
  }

  /** The books of a finished run: final equity is the capital plus every trade's net result, and the last point. */
  lemma {:induction false} FinalEquityAccounted(setup: Setup, c: seq<Candle>)
    ensures var z := Complete(setup, c);
            && z.equity == setup.config.initialCapital + NetTotal(z.trades)
            && |z.curve| == |c|
            && (c != [] ==> z.curve[|c| - 1] == Point(c[|c| - 1].timestamp, z.equity))
  {
    hide Run, Complete, NetTotal, Gain;
    EquityAccounted(setup, c, |c|);
    FinishFacts(setup, c);
    var s, z := Run(setup, c, |c|), Complete(setup, c);
    if s.position.Some? {
      assert z.trades == s.trades + [z.trades[|s.trades|]];
      NetAppend(s.trades, z.trades[|s.trades|]);
    }
  }

  // ----- the order of trades --------------------------------------------------------------------

  /** Each trade exits no earlier than it enters, and enters strictly after the one before it exited. */
  ghost predicate TradesOrdered(trades: seq<Trade>) {
    && (forall i :: 0 <= i < |trades| ==> trades[i].enteredAt <= trades[i].exitedAt)
    && (forall i :: 0 < i < |trades| ==> trades[i - 1].exitedAt < trades[i].enteredAt)
  }

  function LastExit(trades: seq<Trade>, otherwise: int): int {
    if trades == [] then otherwise else trades[|trades| - 1].exitedAt
  }

  /** All that is known at instant `now`, an open position having been entered after the last exit. */
  ghost predicate OrderedUpTo(s: State, now: int) {
    && TradesOrdered(s.trades)
    && LastExit(s.trades, now) <= now
    && (s.position.Some? ==> s.position.value.enteredAt <= now && (s.trades != [] ==> LastExit(s.trades, now) < s.position.value.enteredAt))
  }

  lemma {:induction false} OrderedTradeStep(s: State, t: State, x: Candle)
    requires OrderedUpTo(s, x.timestamp) && TradeStep(s, t, x)
    requires t.trades == s.trades ==> t.position == s.position
    ensures OrderedUpTo(t, x.timestamp)
  {
    if t.trades != s.trades {
      var trade :| ClosesWith(s, t, x, trade);
    }
  }

  lemma {:induction false} OrderedLater(s: State, now: int, later: int)
    requires OrderedUpTo(s, now) && now <= later
    ensures OrderedUpTo(s, later)
  {
  }

  lemma {:induction false} RunOrdered(setup: Setup, c: seq<Candle>, n: nat)
    requires 0 < n <= |c| && (forall i, j :: 0 <= i < j < |c| ==> c[i].timestamp < c[j].timestamp)
    ensures OrderedUpTo(Run(setup, c, n), c[n - 1].timestamp)
    ensures Run(setup, c, n).trades != [] ==> LastExit(Run(setup, c, n).trades, 0) <= c[n - 1].timestamp
  {
    hide Run, Consume, Intrabar, Unrealized, Drawdown, Decided, Actionable, TradeStep, TradesOrdered;
    var s, x := Run(setup, c, n - 1), c[n - 1];
    ConsumeFacts(setup, s, x);
    IntrabarFacts(setup, Consumed(setup, c, n - 1), x);
    StepFacts(setup, c, n - 1);
    if n > 1 {
      RunOrdered(setup, c, n - 1);
      OrderedLater(s, c[n - 2].timestamp, x.timestamp);
    } else {
      NothingPending(setup, c);
      NothingOrdered();
    }
    ConsumeOrdered(setup, s, x);
    IntrabarOrdered(setup, Consumed(setup, c, n - 1), x);
  }

  lemma {:induction false} NothingOrdered()
    ensures TradesOrdered([])
  {
  }

  lemma {:induction false} ConsumeOrdered(setup: Setup, s: State, x: Candle)
    requires OrderedUpTo(s, x.timestamp) && (s.trades != [] ==> LastExit(s.trades, x.timestamp) < x.timestamp)
    ensures OrderedUpTo(Consume(setup, s, x), x.timestamp)
  {
    hide Consume, TradesOrdered, TradeStep;
    ConsumeFacts(setup, s, x);
    var t := Consume(setup, s, x);
    if s.position.Some? && t.position.None? {
      ClosesExactly(setup, s, x);
      OrderedTradeStep(s, t, x);
    } else if s.position == t.position {
      KeptTrades(setup, s, x);
    }
  }

  lemma {:induction false} ClosesExactly(setup: Setup, s: State, x: Candle)
    ensures s.position.Some? && Consume(setup, s, x).position.None? ==> Consume(setup, s, x).trades != s.trades
  {
    hide Close, Slipped, Evaluated;
  }

  lemma {:induction false} KeptTrades(setup: Setup, s: State, x: Candle)
    ensures Consume(setup, s, x).position == s.position ==> Consume(setup, s, x).trades == s.trades
  {
    hide Close, Slipped, Evaluated;
  }

  lemma {:induction false} IntrabarOrdered(setup: Setup, s: State, x: Candle)
    requires OrderedUpTo(s, x.timestamp)
    ensures OrderedUpTo(Intrabar(setup, s, x), x.timestamp)
  {
    hide TradesOrdered, TradeStep, Close, IntrabarExit, OrderedUpTo;
    IntrabarFacts(setup, s, x);
    if Intrabar(setup, s, x) != s {
      OrderedTradeStep(s, Intrabar(setup, s, x), x);
    }
  }

  /** Every trade of a finished run enters strictly after the previous one has exited. */
  lemma {:induction false} TradesNeverOverlap(setup: Setup, c: seq<Candle>)
    requires forall i, j :: 0 <= i < j < |c| ==> c[i].timestamp < c[j].timestamp
    ensures TradesOrdered(Complete(setup, c).trades)
  {
    hide Run, Next, Close;
    if c == [] {
      NothingPending(setup, c);
    } else {
      RunOrdered(setup, c, |c|);
      var s := Run(setup, c, |c|);
      CurveLength(setup, c, |c|);
      if s.position.Some? {
        ClosedEntry(setup, s.position.value, c[|c| - 1].timestamp, c[|c| - 1].close, EndOfData);
      }
    }
  }

  lemma {:induction false} ClosedEntry(setup: Setup, p: Position, at: int, raw: real, reason: ExitReason)
    ensures var t := Close(setup, p, at, raw, reason);
            FromPosition(t, p) && t.exitedAt == at && t.net == t.gross - t.costs && t.reason == reason
  {
    hide Slipped, Cost, Gain;
  }

  // ----- where trades come from -----------------------------------------------------------------

  /**
   * The terms were fixed at candle `i`: the provider decided on the candles up to `i`, and the entry was made at the
   * open of candle `i + 1`.
   */
  ghost predicate EnteredAfter(setup: Setup, c: seq<Candle>, i: nat, direction: Action, signalAt: int, enteredAt: int, price: real, stop: real, target: real)
    requires i + 1 < |c|
  {
    var d := Decided(setup, c[..i + 1]);
    && d.action == direction && direction in {Long, Short} && d.timestamp == signalAt
    && d.stop == Some(stop) && d.targets != [] && d.targets[0] == target
    && enteredAt == c[i + 1].timestamp && price == Slipped(c[i + 1].open, direction, setup.config.slippageBps)
  }

  ghost predicate PositionFromPast(setup: Setup, c: seq<Candle>, n: nat, p: Position)
    requires n <= |c|
  {
    exists i: nat :: i + 1 < n && EnteredAfter(setup, c, i, p.direction, p.signalAt, p.enteredAt, p.entryPrice, p.stop, p.target)
  }

  ghost predicate TradeFromPast(setup: Setup, c: seq<Candle>, n: nat, t: Trade)
    requires n <= |c|
  {
    exists i: nat :: i + 1 < n && EnteredAfter(setup, c, i, t.direction, t.signalAt, t.enteredAt, t.entryPrice, t.stop, t.target)
  }

  ghost predicate AllFromPast(setup: Setup, c: seq<Candle>, n: nat, s: State)
    requires n <= |c|
  {
    && (s.position.Some? ==> PositionFromPast(setup, c, n, s.position.value))
    && (forall i :: 0 <= i < |s.trades| ==> TradeFromPast(setup, c, n, s.trades[i]))
  }

  lemma {:induction false} PastGrows(setup: Setup, c: seq<Candle>, n: nat, s: State)
    requires n < |c| && AllFromPast(setup, c, n, s)
    ensures AllFromPast(setup, c, n + 1, s)
  {
    hide EnteredAfter;
  }

  lemma {:induction false} PastTradeStep(setup: Setup, c: seq<Candle>, n: nat, s: State, t: State, x: Candle)
    requires n <= |c| && AllFromPast(setup, c, n, s) && TradeStep(s, t, x)
    requires t.position.Some? ==> t.position == s.position
    ensures AllFromPast(setup, c, n, t)
  {
    hide EnteredAfter;
    if t.trades != s.trades {
      var trade :| ClosesWith(s, t, x, trade);
      assert TradeFromPast(setup, c, n, trade);
    }
  }

  lemma {:induction false} RunFromPast(setup: Setup, c: seq<Candle>, n: nat)
    requires n <= |c|
    ensures AllFromPast(setup, c, n, Run(setup, c, n))
  {
    hide Run, Consume, Intrabar, Unrealized, Drawdown, Actionable, TradeStep, TradeFromPast, PositionFromPast, Decided;
    if n == 0 {
      NothingPending(setup, c);
    } else {
      var s, x := Run(setup, c, n - 1), c[n - 1];
      RunFromPast(setup, c, n - 1);
      PastGrows(setup, c, n - 1, s);
      PendingExact(setup, c, n - 1);
      ConsumeFacts(setup, s, x);
      IntrabarFacts(setup, Consumed(setup, c, n - 1), x);
      StepFacts(setup, c, n - 1);
      var t := Consumed(setup, c, n - 1);
      if t.position.Some? && t.position != s.position {
        OpenedFromPast(setup, c, n, s, t.position.value);
      } else {
        PastTradeStep(setup, c, n, s, t, x);
      }
      PastTradeStep(setup, c, n, t, Left(setup, c, n - 1), x);
    }
  }

  lemma {:induction false} OpenedFromPast(setup: Setup, c: seq<Candle>, n: nat, s: State, p: Position)
    requires 1 < n <= |c| && s.pending == Some(Decided(setup, c[..n - 1])) && Opens(setup, s, s.pending.value, c[n - 1], p)
    ensures PositionFromPast(setup, c, n, p)
  {
    hide Decided, Slipped, Evaluated;
    assert EnteredAfter(setup, c, n - 2, p.direction, p.signalAt, p.enteredAt, p.entryPrice, p.stop, p.target);
  }

  /** Every trade of a finished run was decided on a strict past and entered at the next open, on that decision's terms. */
  lemma {:induction false} TradesFromPast(setup: Setup, c: seq<Candle>, i: nat)
    requires i < |Complete(setup, c).trades|
    ensures TradeFromPast(setup, c, |c|, Complete(setup, c).trades[i])
  {
    hide Run, TradeFromPast, PositionFromPast, Close;
    RunFromPast(setup, c, |c|);
    CurveLength(setup, c, |c|);
    var s := Run(setup, c, |c|);
    if s.position.Some? {
      var p := s.position.value;
      if c != [] {
        ClosedEntry(setup, p, c[|c| - 1].timestamp, c[|c| - 1].close, EndOfData);
        SameTerms(setup, c, p, Close(setup, p, c[|c| - 1].timestamp, c[|c| - 1].close, EndOfData));
      }
    }
  }

  lemma {:induction false} SameTerms(setup: Setup, c: seq<Candle>, p: Position, t: Trade)
    requires PositionFromPast(setup, c, |c|, p) && FromPosition(t, p)
    ensures TradeFromPast(setup, c, |c|, t)
  {
    hide EnteredAfter;
  }

  // ----- how trades end -------------------------------------------------------------------------

  /** The trade ended at candle `j` as its reason says. */
  ghost predicate EndedAt(setup: Setup, c: seq<Candle>, j: nat, t: Trade)
    requires j < |c|
  {
    && t.exitedAt == c[j].timestamp
    && match t.reason
       case Signal => Decided(setup, c[..j]).action == ExitPosition && t.exitPrice == ExitPrice(setup, t.direction, c[j].open)
       case EndOfData => j == |c| - 1 && t.exitPrice == ExitPrice(setup, t.direction, c[j].close)
       case _ =>
         var exit := ExitOf(t.direction, t.stop, t.target, c[j]);
         exit.Some? && t.reason == exit.value.1 && t.exitPrice == ExitPrice(setup, t.direction, exit.value.0)
  }

  ghost predicate EndsKnown(setup: Setup, c: seq<Candle>, n: nat, trades: seq<Trade>)
    requires n <= |c|
  {
    forall i :: 0 <= i < |trades| ==> EndKnown(setup, c, n, trades[i])
  }

  ghost predicate EndKnown(setup: Setup, c: seq<Candle>, n: nat, t: Trade)
    requires n <= |c|
  {
    exists j: nat :: j < n && EndedAt(setup, c, j, t)
  }

  lemma {:induction false} EndsGrow(setup: Setup, c: seq<Candle>, n: nat, trades: seq<Trade>)
    requires n < |c| && EndsKnown(setup, c, n, trades)
    ensures EndsKnown(setup, c, n + 1, trades)
  {
    hide EndedAt;
    forall i | 0 <= i < |trades| ensures EndKnown(setup, c, n + 1, trades[i]) {
      assert EndKnown(setup, c, n, trades[i]);
    }
  }

  lemma {:induction false} EndsAppend(setup: Setup, c: seq<Candle>, n: nat, trades: seq<Trade>, t: Trade, j: nat)
    requires n <= |c| && EndsKnown(setup, c, n, trades) && j < n && EndedAt(setup, c, j, t)
    ensures EndsKnown(setup, c, n, trades + [t])
  {
    hide EndedAt;
    assert EndKnown(setup, c, n, t);
    hide EndKnown;
  }

  lemma {:induction false} ConsumeEnds(setup: Setup, s: State, x: Candle)
    ensures var t := Consume(setup, s, x);
            || t.trades == s.trades
            || (s.pending.Some? && s.pending.value.action == ExitPosition && s.position.Some?
                && t.trades == s.trades + [Close(setup, s.position.value, x.timestamp, x.open, Signal)])
  {
    hide Close, Slipped, Evaluated, Cost;
  }

  lemma {:induction false} IntrabarEnds(setup: Setup, s: State, x: Candle)
    ensures var t := Intrabar(setup, s, x);
            || t.trades == s.trades
            || (s.position.Some? && IntrabarExit(s.position.value, x).Some?
                && var exit := IntrabarExit(s.position.value, x).value;
                   t.trades == s.trades + [Close(setup, s.position.value, x.timestamp, exit.0, exit.1)])
    ensures Intrabar(setup, s, x).position.Some? ==> IntrabarExit(Intrabar(setup, s, x).position.value, x).None?
  {
    hide Close, ExitOf;
  }

  lemma {:induction false} CloseTerms(setup: Setup, p: Position, at: int, raw: real, reason: ExitReason)
    ensures var t := Close(setup, p, at, raw, reason);
            && t.direction == p.direction && t.stop == p.stop && t.target == p.target
            && t.exitedAt == at && t.reason == reason && t.exitPrice == ExitPrice(setup, p.direction, raw)
  {
    hide ExitPrice, Cost, Gain;
  }

  lemma {:induction false} ExitReasons(direction: Action, stop: real, target: real, x: Candle)
    ensures ExitOf(direction, stop, target, x).Some? ==> ExitOf(direction, stop, target, x).value.1 in {StopHit, TargetHit}
  {
  }

  lemma {:induction false} RunEnds(setup: Setup, c: seq<Candle>, n: nat)
    requires n <= |c|
    ensures EndsKnown(setup, c, n, Run(setup, c, n).trades)
  {
    hide Run, Consume, Intrabar, Unrealized, Drawdown, Actionable, Close, ExitPrice, ExitOf, EndsKnown, Decided;
    if n == 0 {
      NothingPending(setup, c);
      NothingEnded(setup, c);
    } else {
      var s, x := Run(setup, c, n - 1), c[n - 1];
      RunEnds(setup, c, n - 1);
      EndsGrow(setup, c, n - 1, s.trades);
      PendingExact(setup, c, n - 1);
      StepFacts(setup, c, n - 1);
      ConsumeEnds(setup, s, x);
      var t := Consumed(setup, c, n - 1);
      if t.trades != s.trades {
        CloseTerms(setup, s.position.value, x.timestamp, x.open, Signal);
        EndsAppend(setup, c, n, s.trades, Close(setup, s.position.value, x.timestamp, x.open, Signal), n - 1);
      }
      IntrabarEnds(setup, t, x);
      if Left(setup, c, n - 1).trades != t.trades {
        var p := t.position.value;
        var exit := IntrabarExit(p, x).value;
        ExitReasons(p.direction, p.stop, p.target, x);
        CloseTerms(setup, p, x.timestamp, exit.0, exit.1);
        EndsAppend(setup, c, n, t.trades, Close(setup, p, x.timestamp, exit.0, exit.1), n - 1);
      }
    }
  }

  lemma {:induction false} NothingEnded(setup: Setup, c: seq<Candle>)
    ensures EndsKnown(setup, c, 0, [])
  {
  }

  /**
   * Every trade of a finished run ended as its reason says: on an exit decided at the close before and filled at this open;
   * inside a candle that touched its stop or target; or at the last close.
   */
  lemma {:induction false} TradesEndAsTheySay(setup: Setup, c: seq<Candle>)
    ensures EndsKnown(setup, c, |c|, Complete(setup, c).trades)
  {
    hide Run, Close, ExitPrice, ExitOf, EndsKnown;
    RunEnds(setup, c, |c|);
    CurveLength(setup, c, |c|);
    var s := Run(setup, c, |c|);
    if s.position.Some? && c != [] {
      var x := c[|c| - 1];
      CloseTerms(setup, s.position.value, x.timestamp, x.close, EndOfData);
      EndsAppend(setup, c, |c|, s.trades, Close(setup, s.position.value, x.timestamp, x.close, EndOfData), |c| - 1);
    }
  }

  /** No position outlives a candle that touches its stop or its target. */
  lemma {:induction false} SurvivorsUntouched(setup: Setup, c: seq<Candle>, n: nat)
    requires 0 < n <= |c|
    ensures Run(setup, c, n).position.Some? ==> IntrabarExit(Run(setup, c, n).position.value, c[n - 1]).None?
  {
    hide Run, Consume, Intrabar, ExitOf, Unrealized, Drawdown, Actionable;
    StepFacts(setup, c, n - 1);
    IntrabarEnds(setup, Consumed(setup, c, n - 1), c[n - 1]);
  }

  /** Slippage never helps: either way in or out, the fill is no better than the price. */
  lemma {:induction false} SlippageNeverHelps(setup: Setup, p: Position, at: int, open: real, raw: real, reason: ExitReason)
    requires setup.config.slippageBps >= 0.0 && open >= 0.0 && raw >= 0.0 && p.quantity >= 0.0 && p.direction in {Long, Short}
    requires p.entryPrice == Slipped(open, p.direction, setup.config.slippageBps)
    ensures if p.direction == Long then p.entryPrice >= open else p.entryPrice <= open
    ensures Close(setup, p, at, raw, reason).gross <= Gain(p.direction, open, raw, p.quantity)
  {
    hide Cost;
    var bps := setup.config.slippageBps;
    SlippedAgainst(open, bps);
    SlippedAgainst(raw, bps);
    hide Slipped;
    var exit := Close(setup, p, at, raw, reason).exitPrice;
    if p.direction == Long {
      GainOrder(exit - p.entryPrice, raw - open, p.quantity);
    } else {
      GainOrder(p.entryPrice - exit, open - raw, p.quantity);
    }
  }

  lemma {:induction false} SlippedAgainst(price: real, bps: real)
    requires price >= 0.0 && bps >= 0.0
    ensures Slipped(price, Long, bps) >= price >= Slipped(price, Short, bps)
  {
    var part := bps / 10000.0;
    assert price * (1.0 + part) == price + price * part && price * (1.0 - part) == price - price * part;
    assert price * part >= 0.0;
  }

  lemma {:induction false} GainOrder(a: real, b: real, quantity: real)
    requires a <= b && quantity >= 0.0
    ensures a * quantity * 1.0 <= b * quantity * 1.0
    ensures (-a) * quantity * -1.0 <= (-b) * quantity * -1.0
  {
    assert (b - a) * quantity >= 0.0;
  }

  // ----- exits and drawdowns --------------------------------------------------------------------

  /** An intrabar exit happens at a price the candle traded; a stop beats a target, and never fills better than the stop. */
  lemma {:induction false} ExitInsideCandle(p: Position, x: Candle)
    requires x.Valid() && p.direction in {Long, Short}
    ensures IntrabarExit(p, x).Some? ==> x.low <= IntrabarExit(p, x).value.0 <= x.high
    ensures var stopTouched := if p.direction == Long then x.low <= p.stop else x.high >= p.stop;
            var targetTouched := if p.direction == Long then x.high >= p.target else x.low <= p.target;
            && (IntrabarExit(p, x).Some? <==> stopTouched || targetTouched)
            && (stopTouched ==>
                  && IntrabarExit(p, x).value.1 == StopHit
                  && (if p.direction == Long then IntrabarExit(p, x).value.0 <= p.stop else IntrabarExit(p, x).value.0 >= p.stop))
            && (targetTouched && !stopTouched ==>
                  && IntrabarExit(p, x).value.1 == TargetHit
                  && (if p.direction == Long then IntrabarExit(p, x).value.0 >= p.target else IntrabarExit(p, x).value.0 <= p.target))
  {
  }

  /** The peak is the highest of the capital and all marks so far. */
  lemma {:induction false} PeakIsHighest(setup: Setup, c: seq<Candle>, n: nat)
    requires n <= |c|
    ensures var s := Run(setup, c, n);
            && |s.curve| == n && |s.drawdowns| == n
            && s.peak >= setup.config.initialCapital
            && (forall i :: 0 <= i < n ==> s.curve[i].value <= s.peak)
            && (s.peak == setup.config.initialCapital || exists i :: 0 <= i < n && s.curve[i].value == s.peak)
            && (forall i: nat :: i < n ==> s.drawdowns[i] == Point(c[i].timestamp, Drawdown(Run(setup, c, i + 1).peak, s.curve[i].value)))
  {
    hide Run, Consume, Intrabar, Unrealized, Drawdown, Decided, Opens, Actionable, ClosesWith;
    CurveLength(setup, c, n);
    if n > 0 {
      PeakIsHighest(setup, c, n - 1);
      ConsumeFacts(setup, Run(setup, c, n - 1), c[n - 1]);
      IntrabarFacts(setup, Consumed(setup, c, n - 1), c[n - 1]);
      StepFacts(setup, c, n - 1);
      var s, z := Run(setup, c, n - 1), Run(setup, c, n);
      assert z.curve[n - 1].value == s.peak || z.peak == s.peak || z.curve[n - 1].value == z.peak;
      if i :| 0 <= i < n - 1 && s.curve[i].value == s.peak {
        assert z.curve[i].value == s.peak;
      }
    } else {
      NothingPending(setup, c);
    }
  }

  /**
   * Of a whole run: a close forced by the end of the data replaces the last point and drawdown, and the peak is the
   * highest of the capital, all marks and the final equity.
   */
  lemma {:induction false} FinalPeakIsHighest(setup: Setup, c: seq<Candle>)
    requires c != []
    ensures var s, z := Run(setup, c, |c|), Complete(setup, c);
            && |s.curve| == |z.curve| == |z.drawdowns| == |c|
            && z.peak >= setup.config.initialCapital && z.peak >= z.equity
            && (forall i :: 0 <= i < |c| ==> s.curve[i].value <= z.peak)
            && (z.peak == setup.config.initialCapital || z.peak == z.equity || exists i :: 0 <= i < |c| && s.curve[i].value == z.peak)
            && (forall i: nat :: i < |c| - 1 ==>
                  z.drawdowns[i] == Point(c[i].timestamp, Drawdown(Run(setup, c, i + 1).peak, z.curve[i].value)))
            && z.peak >= s.peak && (z.peak == s.peak || z.peak == z.equity)
            && z.curve[..|c| - 1] == s.curve[..|c| - 1] && z.drawdowns[..|c| - 1] == s.drawdowns[..|c| - 1]
            && z.curve[|c| - 1] == Point(c[|c| - 1].timestamp, z.equity)
            && z.drawdowns[|c| - 1] == Point(c[|c| - 1].timestamp, Drawdown(z.peak, z.equity))
  {
    hide Run, Drawdown, Close, Unrealized, Consume, Intrabar, Ask;
    PeakIsHighest(setup, c, |c|);
    EquityAccounted(setup, c, |c|);
    FinalEquityAccounted(setup, c);
    CurveLength(setup, c, |c|);
  }
}
