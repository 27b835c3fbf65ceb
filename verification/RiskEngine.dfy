/** Pre-trade risk: approve, resize or reject one order intent against limits and the portfolio. */
module RiskEngine {
  import opened Domain

  datatype OrderType = Market | Limit | Stop | StopLimit

  datatype Intent = Intent(
    id: int, idempotencyKey: int, account: int, instrument: int, side: Side, orderType: OrderType, quantity: real, isExit: bool)
  {
    predicate Valid() {
      quantity > 0.0
    }
  }

  datatype Limits = Limits(
    riskPerTrade: real,
    dailyLoss: real,
    openPositions: int,
    instrumentExposure: real,
    quoteAge: int,
    spreadBps: real,
    weeklyLoss: real,
    drawdown: real,
    grossExposure: real,
    netExposure: real,
    ordersPerMinute: int,
    consecutiveLosses: int,
    sectorExposure: real,
    strategyAllocation: real,
    slippageBps: real,
    optionsExposure: real,
    portfolioDelta: real,
    portfolioGamma: real)
  {
    predicate Valid() {
      && Fraction(riskPerTrade) && Fraction(dailyLoss) && Fraction(instrumentExposure) && Fraction(weeklyLoss)
      && Fraction(drawdown) && Fraction(grossExposure) && Fraction(netExposure) && Fraction(sectorExposure)
      && Fraction(strategyAllocation)
      && openPositions > 0 && quoteAge > 0 && ordersPerMinute > 0 && consecutiveLosses > 0
      && spreadBps >= 0.0 && slippageBps >= 0.0
      && optionsExposure > 0.0 && portfolioDelta > 0.0 && portfolioGamma > 0.0
    }
  }

  predicate Fraction(x: real) {
    0.0 < x <= 1.0
  }

  /** The portfolio and the market as the evaluation sees them; instants are seconds. */
  datatype Context = Context(
    evaluatedAt: real,
    equity: real,
    dailyPnl: real,
    openPositions: int,
    instrumentExposure: real,
    positionQuantity: real,
    quoteAt: real,
    bid: real,
    ask: real,
    brokerConnected: bool,
    dataQualityOk: bool,
    sessionOpen: bool,
    eventRiskLock: bool,
    killSwitch: bool,
    weeklyPnl: real,
    drawdown: real,
    grossExposure: real,
    netExposure: real,
    ordersLastMinute: int,
    consecutiveLosses: int,
    sectorExposure: real,
    strategyExposure: real,
    expectedSlippageBps: real,
    cooldownUntil: Option<real>,
    reconciliationOk: bool,
    optionsExposure: real,
    proposedOptionsExposure: real,
    portfolioDelta: real,
    proposedDelta: real,
    portfolioGamma: real,
    proposedGamma: real)

  datatype Request = Request(intent: Intent, context: Context, limits: Limits, referencePrice: real, stopPrice: Option<real>)

  datatype Reason =
    | InvalidCapitalOrPrice | InvalidQuote | NoPositionToExit | ExitIncreasesPosition | ExitApproved | ExitResizedToPosition
    | KillSwitch | BrokerDisconnected | ReconciliationUncertain | DataQualityLock | OutsideTradingSession | EventRiskLock
    | StaleQuote | AbnormalSpread | MaximumDailyLoss | MaximumWeeklyLoss | MaximumDrawdown | MaximumOpenPositions
    | MaximumNetExposure | MaximumOrderRate | ConsecutiveLossCircuitBreaker | SlippageThreshold | MaximumOptionsExposure
    | MaximumPortfolioDelta | MaximumPortfolioGamma | RiskCooldown | StopRequired | InvalidStopDistance
    | MaximumGrossExposure | MaximumSectorExposure | MaximumStrategyAllocation | NoExposureCapacity | PositionSizeReduced
    | FullyApproved

  datatype Outcome = Approved | Resized | Rejected

  datatype Decision = Decision(intentId: int, outcome: Outcome, quantity: real, reasons: seq<Reason>)

  function Rejection(r: Request, reasons: seq<Reason>): Decision {
    Decision(r.intent.id, Rejected, 0.0, reasons)
  }

  // ----- the arithmetic of limits ---------------------------------------------------------------

  /** A fraction of the equity. */
  function Share(equity: real, fraction: real): real {
    equity * fraction
  }

  function Notional(quantity: real, price: real): real {
    quantity * price
  }

  /** How many units an amount buys. */
  function Units(amount: real, perUnit: real): real
    requires perUnit > 0.0
  {
    amount / perUnit
  }

  lemma {:induction false} ShareLe(equity: real, a: real, b: real)
    requires equity > 0.0 && a <= b
    ensures Share(equity, a) <= Share(equity, b)
  {
  }

  lemma {:induction false} NotionalLe(a: real, b: real, price: real)
    requires a <= b && price >= 0.0
    ensures Notional(a, price) <= Notional(b, price)
  {
  }

  lemma {:induction false} NotionalLess(a: real, b: real, price: real)
    requires a < b && price > 0.0
    ensures Notional(a, price) < Notional(b, price)
  {
    assert Notional(b, price) - Notional(a, price) == (b - a) * price;
  }

  lemma {:induction false} NotionalZero(price: real)
    ensures Notional(0.0, price) == 0.0
  {
  }

  /** Buying within an amount is spending within it. */
  lemma {:induction false} UnitsExact(x: real, amount: real, perUnit: real)
    requires perUnit > 0.0
    ensures x <= Units(amount, perUnit) <==> Notional(x, perUnit) <= amount
    ensures Notional(Units(amount, perUnit), perUnit) == amount
  {
    var units := amount / perUnit;
    assert units * perUnit == amount;
    if x <= units {
      NotionalLe(x, units, perUnit);
    }
    if x > units {
      NotionalLess(units, x, perUnit);
    }
  }

  lemma {:induction false} UnitsLe(a: real, b: real, perUnit: real)
    requires perUnit > 0.0 && a <= b
    ensures Units(a, perUnit) <= Units(b, perUnit)
  {
    hide Units, Notional;
    UnitsExact(Units(a, perUnit), a, perUnit);
    UnitsExact(Units(a, perUnit), b, perUnit);
  }

  lemma {:induction false} UnitsPositive(amount: real, perUnit: real)
    requires perUnit > 0.0
    ensures Units(amount, perUnit) > 0.0 <==> amount > 0.0
  {
    hide Units, Notional;
    UnitsExact(0.0, amount, perUnit);
    NotionalZero(perUnit);
    UnitsExact(Units(amount, perUnit), 0.0, perUnit);
    if Units(amount, perUnit) <= 0.0 {
      NotionalLe(Units(amount, perUnit), 0.0, perUnit);
    }
    if amount <= 0.0 {
      UnitsLe(amount, 0.0, perUnit);
      UnitsExact(0.0, 0.0, perUnit);
      UnitsExact(Units(0.0, perUnit), 0.0, perUnit);
      UnitsZero(perUnit);
    }
  }

  lemma {:induction false} UnitsZero(perUnit: real)
    requires perUnit > 0.0
    ensures Units(0.0, perUnit) == 0.0
  {
  }

  // ----- the locks ------------------------------------------------------------------------------

  const LOCKS: seq<Reason> := [
    KillSwitch, BrokerDisconnected, ReconciliationUncertain, DataQualityLock, OutsideTradingSession, EventRiskLock,
    StaleQuote, AbnormalSpread, MaximumDailyLoss, MaximumWeeklyLoss, MaximumDrawdown, MaximumOpenPositions,
    MaximumNetExposure, MaximumOrderRate, ConsecutiveLossCircuitBreaker, SlippageThreshold, MaximumOptionsExposure,
    MaximumPortfolioDelta, MaximumPortfolioGamma, RiskCooldown]

  function SpreadBps(c: Context): real
    requires c.bid > 0.0 && c.ask >= c.bid
  {
    (c.ask - c.bid) / ((c.bid + c.ask) / 2.0) * 10000.0
  }

  /** Which lock is on. */
  predicate Locked(lock: Reason, c: Context, l: Limits)
    requires c.bid > 0.0 && c.ask >= c.bid
  {
    match lock
    case KillSwitch => c.killSwitch
    case BrokerDisconnected => !c.brokerConnected
    case ReconciliationUncertain => !c.reconciliationOk
    case DataQualityLock => !c.dataQualityOk
    case OutsideTradingSession => !c.sessionOpen
    case EventRiskLock => c.eventRiskLock
    case StaleQuote => c.evaluatedAt - c.quoteAt < 0.0 || c.evaluatedAt - c.quoteAt > l.quoteAge as real
    case AbnormalSpread => SpreadBps(c) > l.spreadBps
    case MaximumDailyLoss => c.dailyPnl <= -Share(c.equity, l.dailyLoss)
    case MaximumWeeklyLoss => c.weeklyPnl <= -Share(c.equity, l.weeklyLoss)
    case MaximumDrawdown => c.drawdown >= l.drawdown
    case MaximumOpenPositions => c.openPositions >= l.openPositions
    case MaximumNetExposure => Abs(c.netExposure) >= Share(c.equity, l.netExposure)
    case MaximumOrderRate => c.ordersLastMinute >= l.ordersPerMinute
    case ConsecutiveLossCircuitBreaker => c.consecutiveLosses >= l.consecutiveLosses
    case SlippageThreshold => c.expectedSlippageBps > l.slippageBps
    case MaximumOptionsExposure => c.optionsExposure + c.proposedOptionsExposure > l.optionsExposure
    case MaximumPortfolioDelta => Abs(c.portfolioDelta + c.proposedDelta) > l.portfolioDelta
    case MaximumPortfolioGamma => Abs(c.portfolioGamma + c.proposedGamma) > l.portfolioGamma
    case RiskCooldown => c.cooldownUntil.Some? && c.evaluatedAt < c.cooldownUntil.value
    case _ => false
  }

  function LocksOn(locks: seq<Reason>, c: Context, l: Limits): seq<Reason>
    requires c.bid > 0.0 && c.ask >= c.bid
  {
    if locks == [] then []
    else LocksOn(locks[..|locks| - 1], c, l) + (if Locked(locks[|locks| - 1], c, l) then [locks[|locks| - 1]] else [])
  }

  method CollectLocks(c: Context, l: Limits) returns (locks: seq<Reason>)
    requires c.bid > 0.0 && c.ask >= c.bid
    ensures locks == LocksOn(LOCKS, c, l)
  {
    hide Locked;
    locks := [];
    for i := 0 to |LOCKS|
      invariant locks == LocksOn(LOCKS[..i], c, l)
    {
      hide LOCKS;
      assert LOCKS[..i + 1][..i] == LOCKS[..i];
      if Locked(LOCKS[i], c, l) {
        locks := locks + [LOCKS[i]];
      }
    }
    assert LOCKS[..|LOCKS|] == LOCKS;
  }

  lemma {:induction false} LocksOnExact(locks: seq<Reason>, c: Context, l: Limits, x: Reason)
    requires c.bid > 0.0 && c.ask >= c.bid
    ensures x in LocksOn(locks, c, l) <==> x in locks && Locked(x, c, l)
  {
    hide Locked;
    if locks != [] {
      LocksOnExact(locks[..|locks| - 1], c, l, x);
      assert locks == locks[..|locks| - 1] + [locks[|locks| - 1]];
    }
  }

  // ----- the decision ---------------------------------------------------------------------------

  function Signed(side: Side, x: real): real {
    if side == Buy then x else -x
  }

  function Exceeded(r: Request): seq<Reason> {
    var c, l, notional := r.context, r.limits, Notional(r.intent.quantity, r.referencePrice);
    (if c.grossExposure + notional > Share(c.equity, l.grossExposure) then [MaximumGrossExposure] else []) +
    (if c.sectorExposure + notional > Share(c.equity, l.sectorExposure) then [MaximumSectorExposure] else []) +
    (if c.strategyExposure + notional > Share(c.equity, l.strategyAllocation) then [MaximumStrategyAllocation] else []) +
    (if Abs(c.netExposure + Signed(r.intent.side, notional)) > Share(c.equity, l.netExposure) then [MaximumNetExposure] else [])
  }

  function Headroom(r: Request): real {
    Max(0.0, Share(r.context.equity, r.limits.instrumentExposure) - Abs(r.context.instrumentExposure))
  }

  /** The smallest of the request, the risk budget and the instrument's headroom. */
  function Sized(r: Request, stopDistance: real): real
    requires stopDistance > 0.0 && r.referencePrice > 0.0
  {
    var riskQuantity := Units(Share(r.context.equity, r.limits.riskPerTrade), stopDistance);
    Min(r.intent.quantity, Min(riskQuantity, Units(Headroom(r), r.referencePrice)))
  }

  function Exit(r: Request): Decision {
    var available := Abs(r.context.positionQuantity);
    if available <= 0.0 then Rejection(r, [NoPositionToExit])
    else if r.intent.side != (if r.context.positionQuantity > 0.0 then Sell else Buy) then Rejection(r, [ExitIncreasesPosition])
    else
      var quantity := Min(r.intent.quantity, available);
      if quantity == r.intent.quantity then Decision(r.intent.id, Approved, quantity, [ExitApproved])
      else Decision(r.intent.id, Resized, quantity, [ExitResizedToPosition])
  }

  function Entry(r: Request, locks: seq<Reason>): Decision
    requires r.referencePrice > 0.0
  {
    if locks != [] then Rejection(r, locks)
    else if r.stopPrice.None? then Rejection(r, [StopRequired])
    else
      var stopDistance := Abs(r.referencePrice - r.stopPrice.value);
      if stopDistance <= 0.0 then Rejection(r, [InvalidStopDistance])
      else if Exceeded(r) != [] then Rejection(r, Exceeded(r))
      else
        var approved := Sized(r, stopDistance);
        if approved <= 0.0 then Rejection(r, [NoExposureCapacity])
        else if approved < r.intent.quantity then Decision(r.intent.id, Resized, approved, [PositionSizeReduced])
        else Decision(r.intent.id, Approved, approved, [FullyApproved])
  }

  predicate Quoted(r: Request) {
    r.context.equity > 0.0 && r.referencePrice > 0.0 && r.context.bid > 0.0 && r.context.ask >= r.context.bid
  }

  function Decide(r: Request): Decision {
    if r.context.equity <= 0.0 || r.referencePrice <= 0.0 then Rejection(r, [InvalidCapitalOrPrice])
    else if r.context.bid <= 0.0 || r.context.ask < r.context.bid then Rejection(r, [InvalidQuote])
    else if r.intent.isExit then Exit(r)
    else Entry(r, LocksOn(LOCKS, r.context, r.limits))
  }

  /** The evaluation collects the locks in place; everything else it computes. */
  method Evaluate(r: Request) returns (d: Decision)
    ensures d == Decide(r)
  {
    hide Entry, LocksOn, Exit;
    if r.context.equity <= 0.0 || r.referencePrice <= 0.0 {
      return Rejection(r, [InvalidCapitalOrPrice]);
    }
    if r.context.bid <= 0.0 || r.context.ask < r.context.bid {
      return Rejection(r, [InvalidQuote]);
    }
    if r.intent.isExit {
      return Exit(r);
    }
    var locks := CollectLocks(r.context, r.limits);
    d := Entry(r, locks);
  }

  // ----- what an approval guarantees ------------------------------------------------------------

  /** `Sized` is the largest quantity within the request, the risk budget and the instrument's ceiling. */
  lemma {:induction false} SizedExact(r: Request, stopDistance: real, x: real)
    requires stopDistance > 0.0 && r.referencePrice > 0.0
    requires Abs(r.context.instrumentExposure) <= Share(r.context.equity, r.limits.instrumentExposure)
    ensures x <= Sized(r, stopDistance) <==>
              && x <= r.intent.quantity
              && Notional(x, stopDistance) <= Share(r.context.equity, r.limits.riskPerTrade)
              && Abs(r.context.instrumentExposure) + Notional(x, r.referencePrice) <= Share(r.context.equity, r.limits.instrumentExposure)
  {
    hide Abs, Share, Notional, Units;
    UnitsExact(x, Share(r.context.equity, r.limits.riskPerTrade), stopDistance);
    UnitsExact(x, Headroom(r), r.referencePrice);
  }

  lemma {:induction false} SizedNoHeadroom(r: Request, stopDistance: real)
    requires stopDistance > 0.0 && r.referencePrice > 0.0
    requires Abs(r.context.instrumentExposure) > Share(r.context.equity, r.limits.instrumentExposure)
    ensures Sized(r, stopDistance) <= 0.0
  {
    hide Abs, Share, Units;
    UnitsZero(r.referencePrice);
  }

  /** An entry the engine lets through, whole or reduced. */
  predicate Allowed(d: Decision) {
    d.outcome != Rejected
  }

  /** The exposures after the fill, each against its ceiling. */
  ghost predicate WithinCeilings(r: Request, quantity: real) {
    var c, l, added := r.context, r.limits, Notional(quantity, r.referencePrice);
    && r.stopPrice.Some?
    && Notional(quantity, Abs(r.referencePrice - r.stopPrice.value)) <= Share(c.equity, l.riskPerTrade)
    && Abs(c.instrumentExposure) + added <= Share(c.equity, l.instrumentExposure)
    && c.grossExposure + added <= Share(c.equity, l.grossExposure)
    && c.sectorExposure + added <= Share(c.equity, l.sectorExposure)
    && c.strategyExposure + added <= Share(c.equity, l.strategyAllocation)
    && Abs(c.netExposure + Signed(r.intent.side, added)) <= Share(c.equity, l.netExposure)
  }

  lemma {:induction false} BetweenAbs(base: real, part: real, whole: real, ceiling: real)
    requires 0.0 <= part <= whole && Abs(base) <= ceiling
    ensures Abs(base + whole) <= ceiling ==> Abs(base + part) <= ceiling
    ensures Abs(base - whole) <= ceiling ==> Abs(base - part) <= ceiling
  {
  }

  lemma {:induction false} NoLocks(r: Request, lock: Reason)
    requires Quoted(r) && !r.intent.isExit && Allowed(Decide(r)) && lock in LOCKS
    ensures !Locked(lock, r.context, r.limits)
  {
    hide Locked;
    LocksOnExact(LOCKS, r.context, r.limits, lock);
  }

  lemma {:induction false} AllowedEntry(r: Request)
    requires !r.intent.isExit && Allowed(Decide(r))
    ensures Quoted(r) && r.stopPrice.Some? && Abs(r.referencePrice - r.stopPrice.value) > 0.0
    ensures Exceeded(r) == [] && LocksOn(LOCKS, r.context, r.limits) == []
    ensures Decide(r).quantity == Sized(r, Abs(r.referencePrice - r.stopPrice.value)) > 0.0
    ensures Decide(r).quantity <= r.intent.quantity
  {
    hide LocksOn, Exceeded;
  }

  /**
   * Every entry let through keeps its risk at the stop and the instrument, gross, sector, strategy and net
   * exposures within their ceilings; the net one because the whole request was within it at both ends.
   */
  lemma {:induction false} ApprovedWithinCeilings(r: Request)
    requires r.intent.Valid() && !r.intent.isExit && Allowed(Decide(r))
    ensures 0.0 < Decide(r).quantity <= r.intent.quantity && WithinCeilings(r, Decide(r).quantity)
  {
    hide LocksOn, Sized, Share, Notional, Locked, LOCKS;
    AllowedEntry(r);
    var quantity, stopDistance := Decide(r).quantity, Abs(r.referencePrice - r.stopPrice.value);
    NetOpen(r);
    if Abs(r.context.instrumentExposure) > Share(r.context.equity, r.limits.instrumentExposure) {
      SizedNoHeadroom(r, stopDistance);
      assert false;
    }
    SizedExact(r, stopDistance, quantity);
    NotionalLe(quantity, r.intent.quantity, r.referencePrice);
    NotionalZero(r.referencePrice);
    NotionalLe(0.0, quantity, r.referencePrice);
    hide Decide, Entry, Exit;
    BetweenAbs(r.context.netExposure, Notional(quantity, r.referencePrice), Notional(r.intent.quantity, r.referencePrice),
               Share(r.context.equity, r.limits.netExposure));
  }

  lemma {:induction false} NetOpen(r: Request)
    requires Quoted(r) && !r.intent.isExit && Allowed(Decide(r))
    ensures Abs(r.context.netExposure) < Share(r.context.equity, r.limits.netExposure)
  {
    hide Share, Decide, Abs;
    NoLocks(r, MaximumNetExposure);
  }

  /** And the engine never approves less than it could: any more would break the request, the risk budget or the instrument ceiling. */
  lemma {:induction false} ApprovedIsLargest(r: Request, x: real)
    requires r.intent.Valid() && !r.intent.isExit && Allowed(Decide(r)) && x > Decide(r).quantity
    ensures || x > r.intent.quantity
            || Notional(x, Abs(r.referencePrice - r.stopPrice.value)) > Share(r.context.equity, r.limits.riskPerTrade)
            || Abs(r.context.instrumentExposure) + Notional(x, r.referencePrice) > Share(r.context.equity, r.limits.instrumentExposure)
  {
    AllowedEntry(r);
    hide Decide, LocksOn, Sized, Exceeded, Share, Notional;
    var stopDistance := Abs(r.referencePrice - r.stopPrice.value);
    if Abs(r.context.instrumentExposure) > Share(r.context.equity, r.limits.instrumentExposure) {
      SizedNoHeadroom(r, stopDistance);
      assert false;
    }
    SizedExact(r, stopDistance, x);
  }

  /** An entry is let through exactly when nothing is locked, a stop is set, no ceiling is passed and there is headroom. */
  lemma {:induction false} EntryAllowedExactly(r: Request)
    requires Quoted(r) && r.intent.Valid() && !r.intent.isExit && r.limits.Valid()
    ensures Allowed(Decide(r)) <==>
              && (forall lock :: lock in LOCKS ==> !Locked(lock, r.context, r.limits))
              && r.stopPrice.Some? && r.stopPrice.value != r.referencePrice
              && Exceeded(r) == []
              && Abs(r.context.instrumentExposure) < Share(r.context.equity, r.limits.instrumentExposure)
  {
    var on := LocksOn(LOCKS, r.context, r.limits);
    forall lock ensures lock in on <==> lock in LOCKS && Locked(lock, r.context, r.limits) {
      LocksOnExact(LOCKS, r.context, r.limits, lock);
    }
    assert on != [] ==> on[0] in on;
    hide LocksOn, Exceeded, Locked, LOCKS;
    if r.stopPrice.Some? && r.stopPrice.value != r.referencePrice {
      SizedPositive(r, Abs(r.referencePrice - r.stopPrice.value));
    }
  }

  lemma {:induction false} SizedPositive(r: Request, stopDistance: real)
    requires stopDistance > 0.0 && Quoted(r) && r.intent.Valid() && r.limits.Valid()
    ensures Sized(r, stopDistance) > 0.0 <==> Abs(r.context.instrumentExposure) < Share(r.context.equity, r.limits.instrumentExposure)
  {
    hide Abs, Share, Units;
    PositiveShare(r.context.equity, r.limits.riskPerTrade);
    UnitsPositive(Share(r.context.equity, r.limits.riskPerTrade), stopDistance);
    UnitsPositive(Headroom(r), r.referencePrice);
  }

  lemma {:induction false} PositiveShare(a: real, b: real)
    requires a > 0.0 && b > 0.0
    ensures Share(a, b) > 0.0
  {
  }

  // ----- tightening never loosens ---------------------------------------------------------------

  predicate TighterLimits(a: Limits, b: Limits) {
    && b.riskPerTrade <= a.riskPerTrade && b.dailyLoss <= a.dailyLoss && b.openPositions <= a.openPositions
    && b.instrumentExposure <= a.instrumentExposure && b.quoteAge <= a.quoteAge && b.spreadBps <= a.spreadBps
    && b.weeklyLoss <= a.weeklyLoss && b.drawdown <= a.drawdown && b.grossExposure <= a.grossExposure
    && b.netExposure <= a.netExposure && b.ordersPerMinute <= a.ordersPerMinute
    && b.consecutiveLosses <= a.consecutiveLosses && b.sectorExposure <= a.sectorExposure
    && b.strategyAllocation <= a.strategyAllocation && b.slippageBps <= a.slippageBps
    && b.optionsExposure <= a.optionsExposure && b.portfolioDelta <= a.portfolioDelta && b.portfolioGamma <= a.portfolioGamma
  }

  /**
   * `b` asks for the same order on the same terms, with no limit wider, no lock lifted, no more capital, no exposure
   * further from its ceiling, and the same position to exit from. How the locks come on is left open.
   */
  ghost predicate Tighter(a: Request, b: Request) {
    && a.intent == b.intent && a.referencePrice == b.referencePrice && a.stopPrice == b.stopPrice
    && TighterLimits(a.limits, b.limits)
    && (Quoted(b) ==> Quoted(a) && LocksStay(a, b))
    && b.context.equity <= a.context.equity
    && b.context.positionQuantity == a.context.positionQuantity
    && MoreExposed(a, b)
  }

  ghost predicate LocksStay(a: Request, b: Request)
    requires Quoted(a) && Quoted(b)
  {
    forall lock :: lock in LOCKS && Locked(lock, a.context, a.limits) ==> Locked(lock, b.context, b.limits)
  }

  predicate MoreExposed(a: Request, b: Request) {
    && b.context.grossExposure >= a.context.grossExposure && b.context.sectorExposure >= a.context.sectorExposure
    && b.context.strategyExposure >= a.context.strategyExposure
    && Abs(b.context.instrumentExposure) >= Abs(a.context.instrumentExposure)
    && Abs(NetAfter(b)) >= Abs(NetAfter(a))
  }

  /** Where the net exposure would stand after the whole request. */
  function NetAfter(r: Request): real {
    r.context.netExposure + Signed(r.intent.side, Notional(r.intent.quantity, r.referencePrice))
  }

  lemma {:induction false} ShareShrinks(e: real, f: real, l: real, m: real)
    requires 0.0 < f <= e && 0.0 < m <= l
    ensures Share(f, m) <= Share(e, l)
  {
    ShareLe(f, m, l);
    assert e * l - f * l == (e - f) * l;
  }

  lemma {:induction false} ExceededStays(a: Request, b: Request)
    requires Quoted(a) && Quoted(b) && Tighter(a, b) && b.limits.Valid() && Exceeded(b) == []
    ensures Exceeded(a) == []
  {
    hide Abs, Share, Notional, LocksStay;
    var e, f := a.context.equity, b.context.equity;
    ShareShrinks(e, f, a.limits.grossExposure, b.limits.grossExposure);
    ShareShrinks(e, f, a.limits.sectorExposure, b.limits.sectorExposure);
    ShareShrinks(e, f, a.limits.strategyAllocation, b.limits.strategyAllocation);
    ShareShrinks(e, f, a.limits.netExposure, b.limits.netExposure);
  }

  lemma {:induction false} SizedShrinks(a: Request, b: Request, stopDistance: real)
    requires Quoted(a) && Quoted(b) && Tighter(a, b) && b.limits.Valid() && stopDistance > 0.0
    ensures Sized(b, stopDistance) <= Sized(a, stopDistance)
  {
    hide Abs, Share, Units, LocksStay;
    ShareShrinks(a.context.equity, b.context.equity, a.limits.riskPerTrade, b.limits.riskPerTrade);
    ShareShrinks(a.context.equity, b.context.equity, a.limits.instrumentExposure, b.limits.instrumentExposure);
    UnitsLe(Share(b.context.equity, b.limits.riskPerTrade), Share(a.context.equity, a.limits.riskPerTrade), stopDistance);
    UnitsLe(Headroom(b), Headroom(a), a.referencePrice);
  }

  /** Tightening any limit, raising any lock or adding to any exposure never raises the approved quantity. */
  lemma {:induction false} TighterNeverApprovesMore(a: Request, b: Request)
    requires Tighter(a, b) && a.intent.Valid() && b.limits.Valid()
    ensures Decide(b).quantity <= Decide(a).quantity
    ensures a.intent.isExit && Quoted(b) ==> Decide(b) == Decide(a)
  {
    if !a.intent.isExit && Allowed(Decide(b)) {
      AllowedEntry(b);
      ExceededStays(a, b);
      forall lock ensures lock !in LocksOn(LOCKS, a.context, a.limits) {
        LocksOnExact(LOCKS, a.context, a.limits, lock);
        LocksOnExact(LOCKS, b.context, b.limits, lock);
      }
      NothingIn(LocksOn(LOCKS, a.context, a.limits));
      hide LocksOn, Exceeded, Sized, Locked, LocksStay, MoreExposed;
      SizedShrinks(a, b, Abs(a.referencePrice - a.stopPrice.value));
    } else {
      hide LocksOn, Exceeded, Locked, LocksStay, MoreExposed, LOCKS;
      NeverNegative(a);
    }
  }

  lemma {:induction false} NeverNegative(r: Request)
    requires r.intent.Valid()
    ensures Decide(r).quantity >= 0.0 && (!Allowed(Decide(r)) ==> Decide(r).quantity == 0.0)
  {
    hide LocksOn, Exceeded, Sized, LOCKS;
  }

  // ----- worse portfolios and markets raise locks -----------------------------------------------

  /** A quote from the future stays one, and an old quote gets no younger. */
  predicate StalerQuote(a: Context, b: Context) {
    var before, after := a.evaluatedAt - a.quoteAt, b.evaluatedAt - b.quoteAt;
    after < 0.0 || 0.0 <= before <= after
  }

  /** A cooldown stays, with no less of it to go. */
  predicate LongerCooldown(a: Context, b: Context) {
    a.cooldownUntil.Some? ==>
      b.cooldownUntil.Some? && b.cooldownUntil.value - b.evaluatedAt >= a.cooldownUntil.value - a.evaluatedAt
  }

  /** Every figure a lock looks at, no better. */
  predicate WorseContext(a: Context, b: Context)
    requires a.bid > 0.0 && a.ask >= a.bid && b.bid > 0.0 && b.ask >= b.bid
  {
    && (a.killSwitch ==> b.killSwitch) && (b.brokerConnected ==> a.brokerConnected)
    && (b.reconciliationOk ==> a.reconciliationOk) && (b.dataQualityOk ==> a.dataQualityOk)
    && (b.sessionOpen ==> a.sessionOpen) && (a.eventRiskLock ==> b.eventRiskLock)
    && StalerQuote(a, b) && LongerCooldown(a, b) && SpreadBps(b) >= SpreadBps(a)
    && b.dailyPnl <= a.dailyPnl && b.weeklyPnl <= a.weeklyPnl && b.drawdown >= a.drawdown
    && b.openPositions >= a.openPositions && b.ordersLastMinute >= a.ordersLastMinute
    && b.consecutiveLosses >= a.consecutiveLosses && b.expectedSlippageBps >= a.expectedSlippageBps
    && Abs(b.netExposure) >= Abs(a.netExposure)
    && b.optionsExposure + b.proposedOptionsExposure >= a.optionsExposure + a.proposedOptionsExposure
    && Abs(b.portfolioDelta + b.proposedDelta) >= Abs(a.portfolioDelta + a.proposedDelta)
    && Abs(b.portfolioGamma + b.proposedGamma) >= Abs(a.portfolioGamma + a.proposedGamma)
  }

  /** The shares the loss and exposure locks compare with shrink with the capital at fixed limits or with the limits. */
  lemma {:induction false} LockStays(a: Request, b: Request, lock: Reason)
    requires Quoted(a) && Quoted(b) && TighterLimits(a.limits, b.limits) && b.limits.Valid()
    requires b.context.equity <= a.context.equity && WorseContext(a.context, b.context)
    requires Locked(lock, a.context, a.limits)
    ensures Locked(lock, b.context, b.limits)
  {
    hide SpreadBps, Share, Abs;
    var e, f := a.context.equity, b.context.equity;
    ShareShrinks(e, f, a.limits.dailyLoss, b.limits.dailyLoss);
    ShareShrinks(e, f, a.limits.weeklyLoss, b.limits.weeklyLoss);
    ShareShrinks(e, f, a.limits.netExposure, b.limits.netExposure);
  }

  /** So a portfolio or a market that is worse in whatever a lock or a ceiling looks at never gets more approved. */
  lemma {:induction false} WorseNeverApprovesMore(a: Request, b: Request)
    requires a.intent == b.intent && a.referencePrice == b.referencePrice && a.stopPrice == b.stopPrice
    requires TighterLimits(a.limits, b.limits) && b.context.equity <= a.context.equity && MoreExposed(a, b)
    requires b.context.positionQuantity == a.context.positionQuantity
    requires Quoted(b) ==> Quoted(a) && WorseContext(a.context, b.context)
    requires a.intent.Valid() && b.limits.Valid()
    ensures Decide(b).quantity <= Decide(a).quantity
  {
    if Quoted(b) {
      forall lock | lock in LOCKS && Locked(lock, a.context, a.limits) ensures Locked(lock, b.context, b.limits) {
        LockStays(a, b, lock);
      }
    }
    hide Locked, LOCKS, WorseContext, TighterLimits, MoreExposed, Quoted;
    TighterNeverApprovesMore(a, b);
  }

  lemma {:induction false} NothingIn(s: seq<Reason>)
    requires forall x :: x !in s
    ensures s == []
  {
    SomeReason(s);
  }

  lemma {:induction false} SomeReason(s: seq<Reason>)
    ensures s == [] || exists x :: x in s
  {
    if s != [] {
      assert s[0] in s;
    }
  }

  /** An approved exit is on the closing side and no larger than the position. */
  lemma {:induction false} ExitWithinPosition(r: Request)
    requires r.intent.Valid() && r.intent.isExit && Allowed(Decide(r))
    ensures 0.0 < Decide(r).quantity <= Abs(r.context.positionQuantity)
    ensures Decide(r).quantity == Min(r.intent.quantity, Abs(r.context.positionQuantity))
    ensures r.intent.side == (if r.context.positionQuantity > 0.0 then Sell else Buy)
  {
    hide LocksOn, LOCKS;
  }
}
