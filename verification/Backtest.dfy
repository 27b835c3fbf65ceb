/** The backtester: decisions at a candle's close, executed on the next candle only. */
module Backtest {
  import opened Domain
  import opened Drawdowns

  datatype Action = Long | Short | ExitPosition | Hold | NoTrade

  datatype Decision = Decision(
    action: Action, timestamp: int, stop: Option<real>, targets: seq<real>, riskFraction: real, requiresApproval: bool,
    strategy: int, snapshot: int)

  datatype RiskReason =
    | DecisionNotEntry | InvalidRiskRequest | StopInvalidAtFill | TargetInvalidAtFill | InvalidStopDistance
    | QuantityBelowOne | Approved | OtherReason(code: int)

  datatype RiskResult = RiskResult(approved: bool, quantity: real, reason: RiskReason)

  datatype Config = Config(initialCapital: real, slippageBps: real)

  /** What a run is given: settings, a decision provider, a risk policy and a cost model. */
  datatype Setup = Setup(
    config: Config,
    provider: seq<Candle> -> Decision,
    risk: (Decision, real, real) -> RiskResult,
    cost: (real, Side) -> real)

  datatype ExitReason = StopHit | TargetHit | Signal | EndOfData

  datatype Position = Position(
    decision: Decision, direction: Action, quantity: real, signalAt: int, enteredAt: int, entryPrice: real, stop: real,
    target: real, entryCost: real)

  datatype Trade = Trade(
    direction: Action, quantity: real, signalAt: int, enteredAt: int, exitedAt: int, entryPrice: real, exitPrice: real,
    stop: real, target: real, gross: real, costs: real, net: real, reason: ExitReason, strategy: int, snapshot: int)

  datatype Point = Point(at: int, value: real)

  datatype State = State(
    equity: real, peak: real, position: Option<Position>, pending: Option<Decision>,
    trades: seq<Trade>, rejected: seq<(int, RiskReason)>, curve: seq<Point>, drawdowns: seq<Point>)

  datatype Error = OpenCandle | MixedSeries | NotChronological

  function Decided(setup: Setup, prefix: seq<Candle>): Decision {
    setup.provider(prefix)
  }

  function Evaluated(setup: Setup, d: Decision, equity: real, price: real): RiskResult {
    setup.risk(d, equity, price)
  }

  function Cost(setup: Setup, price: real, quantity: real, side: Side): real {
    setup.cost(price * quantity, side)
  }

  function Slipped(price: real, action: Action, bps: real): real {
    price * (1.0 + (if action == Long then bps / 10000.0 else -bps / 10000.0))
  }

  function Gain(direction: Action, entry: real, exit: real, quantity: real): real {
    (exit - entry) * quantity * (if direction == Long then 1.0 else -1.0)
  }

  /** Leaving a position trades against it. */
  function ExitPrice(setup: Setup, direction: Action, raw: real): real {
    Slipped(raw, if direction == Long then Short else Long, setup.config.slippageBps)
  }

  function Close(setup: Setup, p: Position, at: int, raw: real, reason: ExitReason): Trade {
    var exitPrice := ExitPrice(setup, p.direction, raw);
    var gross := Gain(p.direction, p.entryPrice, exitPrice, p.quantity);
    var costs := p.entryCost + Cost(setup, exitPrice, p.quantity, if p.direction == Long then Sell else Buy);
    Trade(p.direction, p.quantity, p.signalAt, p.enteredAt, at, p.entryPrice, exitPrice, p.stop, p.target,
          gross, costs, gross - costs, reason, p.decision.strategy, p.decision.snapshot)
  }

  /** Where inside a candle a position on these terms leaves the market, if it does; a stop wins a tie. */
  function ExitOf(direction: Action, stop: real, target: real, x: Candle): Option<(real, ExitReason)> {
    if direction == Long then
      if x.low <= stop then Some((Min(x.open, stop), StopHit))
      else if x.high >= target then Some((Max(x.open, target), TargetHit))
      else None
    else
      if x.high >= stop then Some((Max(x.open, stop), StopHit))
      else if x.low <= target then Some((Min(x.open, target), TargetHit))
      else None
  }

  function IntrabarExit(p: Position, x: Candle): Option<(real, ExitReason)> {
    ExitOf(p.direction, p.stop, p.target, x)
  }

  // ----- one candle -----------------------------------------------------------------------------

  function Start(setup: Setup): State {
    State(setup.config.initialCapital, setup.config.initialCapital, None, None, [], [], [], [])
  }

  function Closed(setup: Setup, s: State, p: Position, at: int, raw: real, reason: ExitReason): State {
    var t := Close(setup, p, at, raw, reason);
    s.(trades := s.trades + [t], equity := s.equity + t.net, position := None)
  }

  function Enter(setup: Setup, s: State, d: Decision, x: Candle): State {
    var price := Slipped(x.open, d.action, setup.config.slippageBps);
    var r := Evaluated(setup, d, s.equity, price);
    if r.approved && d.stop.Some? && d.targets != [] then
      s.(position := Some(Position(d, d.action, r.quantity, d.timestamp, x.timestamp, price, d.stop.value, d.targets[0],
                                   Cost(setup, price, r.quantity, if d.action == Long then Buy else Sell))))
    else
      s.(rejected := s.rejected + [(x.timestamp, r.reason)])
  }

  /** The decision taken at the previous close acts at this open, and is spent either way. */
  function Consume(setup: Setup, s: State, x: Candle): State {
    if s.pending.None? then s
    else
      var d := s.pending.value;
      var acted :=
        if s.position.Some? && d.action == ExitPosition then Closed(setup, s, s.position.value, x.timestamp, x.open, Signal)
        else if s.position.None? && d.action in {Long, Short} then Enter(setup, s, d, x)
        else s;
      acted.(pending := None)
  }

  function Intrabar(setup: Setup, s: State, x: Candle): State {
    if s.position.None? then s
    else
      match IntrabarExit(s.position.value, x)
      case None => s
      case Some(exit) => Closed(setup, s, s.position.value, x.timestamp, exit.0, exit.1)
  }

  function Actionable(position: Option<Position>, d: Decision): bool {
    (position.Some? && d.action == ExitPosition) || (position.None? && d.action in {Long, Short})
  }

  function Ask(setup: Setup, s: State, prefix: seq<Candle>): State {
    var d := Decided(setup, prefix);
    if Actionable(s.position, d) then s.(pending := Some(d)) else s
  }

  function Unrealized(position: Option<Position>, close: real): real {
    match position
    case None => 0.0
    case Some(p) => Gain(p.direction, p.entryPrice, close, p.quantity) - p.entryCost
  }

  function Drawdown(peak: real, equity: real): real {
    if peak != 0.0 then Fall(peak, equity) else 0.0
  }

  function Marked(s: State, x: Candle): State {
    var marked := s.equity + Unrealized(s.position, x.close);
    var peak := Max(s.peak, marked);
    s.(peak := peak,
       curve := s.curve + [Point(x.timestamp, marked)],
       drawdowns := s.drawdowns + [Point(x.timestamp, Drawdown(peak, marked))])
  }

  function Next(setup: Setup, s: State, c: seq<Candle>, i: nat): State
    requires i < |c|
  {
    Marked(Ask(setup, Intrabar(setup, Consume(setup, s, c[i]), c[i]), c[..i + 1]), c[i])
  }

  /** The state after the first `n` candles. */
  function Run(setup: Setup, c: seq<Candle>, n: nat): State
    requires n <= |c|
  {
    if n == 0 then Start(setup) else Next(setup, Run(setup, c, n - 1), c, n - 1)
  }

  /** A position still open after the last candle is closed at its close, and the last point is corrected. */
  function Finish(setup: Setup, c: seq<Candle>, s: State): State {
    if s.position.None? || c == [] || s.curve == [] || s.drawdowns == [] then s
    else
      var x := c[|c| - 1];
      var closed := Closed(setup, s, s.position.value, x.timestamp, x.close, EndOfData);
      var peak := Max(s.peak, closed.equity);
      closed.(peak := peak,
              curve := s.curve[|s.curve| - 1 := Point(x.timestamp, closed.equity)],
              drawdowns := s.drawdowns[|s.drawdowns| - 1 := Point(x.timestamp, Drawdown(peak, closed.equity))])
  }

  function Complete(setup: Setup, c: seq<Candle>): State {
    Finish(setup, c, Run(setup, c, |c|))
  }

  predicate Uniform(c: seq<Candle>) {
    forall i :: 0 <= i < |c| ==> c[i].instrument == c[0].instrument && c[i].timeframe == c[0].timeframe
  }

  predicate Chronological(c: seq<Candle>) {
    forall i :: 1 <= i < |c| ==> c[i].timestamp > c[i - 1].timestamp
  }

  function Complaint(c: seq<Candle>): Option<Error> {
    if exists i :: 0 <= i < |c| && !c[i].isClosed then Some(OpenCandle)
    else if !Uniform(c) then Some(MixedSeries)
    else if !Chronological(c) then Some(NotChronological)
    else None
  }

  /** The simulation loop, its running variables in place. */
  method RunBacktest(c: seq<Candle>, setup: Setup) returns (r: Result<State, Error>)
    ensures r == if Complaint(c).Some? then Failure(Complaint(c).value) else Success(Complete(setup, c))
  {
    hide Complaint, Close, Consume, Intrabar, Ask, Unrealized, Drawdown, Actionable, Evaluated, Decided, Slipped, Cost, IntrabarExit;
    if Complaint(c).Some? {
      return Failure(Complaint(c).value);
    }
    var equity, peak := setup.config.initialCapital, setup.config.initialCapital;
    var position: Option<Position>, pending: Option<Decision> := None, None;
    var trades: seq<Trade>, rejected: seq<(int, RiskReason)> := [], [];
    var curve: seq<Point>, drawdowns: seq<Point> := [], [];
    for i := 0 to |c|
      invariant State(equity, peak, position, pending, trades, rejected, curve, drawdowns) == Run(setup, c, i)
    {
      ghost var s := Run(setup, c, i);
      equity, position, pending, trades, rejected := ActOnPending(setup, equity, position, pending, trades, rejected, c[i], s);
      equity, position, trades := LeaveIntrabar(setup, equity, position, trades, c[i], Consume(setup, s, c[i]));
      ghost var left := Intrabar(setup, Consume(setup, s, c[i]), c[i]);
      var decision := Decided(setup, c[..i + 1]);
      if Actionable(position, decision) {
        pending := Some(decision);
      }
      assert Ask(setup, left, c[..i + 1]) == left.(pending := pending) by {
        AskPending(setup, left, c[..i + 1]);
      }
      var marked := equity + Unrealized(position, c[i].close);
      peak := Max(peak, marked);
      curve := curve + [Point(c[i].timestamp, marked)];
      drawdowns := drawdowns + [Point(c[i].timestamp, Drawdown(peak, marked))];
    }
    CurveLength(setup, c, |c|);
    if position.Some? && |c| > 0 {
      var last := c[|c| - 1];
      var trade := Close(setup, position.value, last.timestamp, last.close, EndOfData);
      trades := trades + [trade];
      equity := equity + trade.net;
      curve := curve[|curve| - 1 := Point(last.timestamp, equity)];
      peak := Max(peak, equity);
      drawdowns := drawdowns[|drawdowns| - 1 := Point(last.timestamp, Drawdown(peak, equity))];
      position := None;
    }
    return Success(State(equity, peak, position, pending, trades, rejected, curve, drawdowns));
  }

  lemma {:induction false} AskPending(setup: Setup, s: State, prefix: seq<Candle>)
    ensures Ask(setup, s, prefix) == if Actionable(s.position, Decided(setup, prefix)) then s.(pending := Some(Decided(setup, prefix))) else s
  {
  }

  /** The first half of the loop body. */
  method ActOnPending(setup: Setup, equity0: real, position0: Option<Position>, pending0: Option<Decision>,
                      trades0: seq<Trade>, rejected0: seq<(int, RiskReason)>, x: Candle, ghost s: State)
    returns (equity: real, position: Option<Position>, pending: Option<Decision>, trades: seq<Trade>, rejected: seq<(int, RiskReason)>)
    requires s == State(equity0, s.peak, position0, pending0, trades0, rejected0, s.curve, s.drawdowns)
    ensures Consume(setup, s, x) == State(equity, s.peak, position, pending, trades, rejected, s.curve, s.drawdowns)
  {
    hide Close, Evaluated, Slipped, Cost;
    equity, position, pending, trades, rejected := equity0, position0, pending0, trades0, rejected0;
    if pending.None? {
      return;
    }
    var d := pending.value;
    if position.Some? && d.action == ExitPosition {
      var trade := Close(setup, position.value, x.timestamp, x.open, Signal);
      trades := trades + [trade];
      equity := equity + trade.net;
      position := None;
    } else if position.None? && d.action in {Long, Short} {
      var price := Slipped(x.open, d.action, setup.config.slippageBps);
      var risk := Evaluated(setup, d, equity, price);
      if risk.approved && d.stop.Some? && |d.targets| > 0 {
        var entryCost := Cost(setup, price, risk.quantity, if d.action == Long then Buy else Sell);
        position := Some(Position(d, d.action, risk.quantity, d.timestamp, x.timestamp, price, d.stop.value, d.targets[0], entryCost));
      } else {
        rejected := rejected + [(x.timestamp, risk.reason)];
      }
    }
    pending := None;
  }

  method LeaveIntrabar(setup: Setup, equity0: real, position0: Option<Position>, trades0: seq<Trade>, x: Candle, ghost s: State)
    returns (equity: real, position: Option<Position>, trades: seq<Trade>)
    requires s.equity == equity0 && s.position == position0 && s.trades == trades0
    ensures Intrabar(setup, s, x) == s.(equity := equity, position := position, trades := trades)
  {
    hide Close, IntrabarExit;
    equity, position, trades := equity0, position0, trades0;
    if position.Some? {
      var exit := IntrabarExit(position.value, x);
      if exit.Some? {
        var trade := Close(setup, position.value, x.timestamp, exit.value.0, exit.value.1);
        trades := trades + [trade];
        equity := equity + trade.net;
        position := None;
      }
    }
  }

  lemma {:induction false} CurveLength(setup: Setup, c: seq<Candle>, n: nat)
    requires n <= |c|
    ensures |Run(setup, c, n).curve| == n && |Run(setup, c, n).drawdowns| == n
  {
    hide Consume, Intrabar, Ask, Drawdown, Unrealized;
    if n > 0 {
      CurveLength(setup, c, n - 1);
      StepKeepsCurve(setup, Run(setup, c, n - 1), c, n - 1);
    }
  }

  lemma {:induction false} StepKeepsCurve(setup: Setup, s: State, c: seq<Candle>, i: nat)
    requires i < |c|
    ensures var t := Ask(setup, Intrabar(setup, Consume(setup, s, c[i]), c[i]), c[..i + 1]);
            t.curve == s.curve && t.drawdowns == s.drawdowns && t.peak == s.peak
  {
    hide Close, Evaluated, Decided, Slipped, Cost, IntrabarExit, Actionable;
  }
}
