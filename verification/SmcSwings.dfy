/** Confirmed swings and displacements of the market-structure engine. */
module SmcSwings {
  import opened Domain
  import opened Stream

  datatype Direction = Bullish | Bearish

  datatype Scope = Internal | External

  datatype Config = Config(
    swingLeft: nat,
    swingRight: nat,
    internalLeft: nat,
    internalRight: nat,
    minimumGapPercent: real,
    sweepTolerancePercent: real,
    equalTolerancePercent: real,
    displacementLookback: nat,
    bodyMultiple: real,
    closeLocation: real,
    blockLookback: nat)
  {
    predicate Valid() {
      && swingLeft >= 1 && swingRight >= 1 && internalLeft >= 1 && internalRight >= 1
      && minimumGapPercent >= 0.0 && sweepTolerancePercent >= 0.0 && equalTolerancePercent >= 0.0
      && displacementLookback >= 1 && bodyMultiple > 0.0
      && blockLookback >= 1
      && 0.5 <= closeLocation <= 1.0
    }
  }

  datatype Swing = Swing(
    scope: Scope,
    direction: Direction,
    price: real,
    candleTimestamp: int,
    confirmedAt: int,
    evidence: seq<int>)

  datatype Displacement = Displacement(
    direction: Direction,
    detectedAt: int,
    low: real,
    high: real,
    body: real,
    averagePriorBody: real,
    location: real,
    evidence: seq<int>)

  /** The engine's input check, loop and all: it accepts exactly the series above. */
  method Validate(c: seq<Candle>) returns (accepted: bool)
    requires forall i :: 0 <= i < |c| ==> c[i].Valid()
    ensures accepted <==> Series(c)
  {
    for i := 0 to |c|
      invariant Series(c[..i])
    {
      if !c[i].isClosed
         || c[i].instrument != c[0].instrument
         || c[i].timeframe != c[0].timeframe
         || (i > 0 && c[i].timestamp <= c[i - 1].timestamp)
      {
        return false;
      }
      assert c[..i + 1] == c[..i] + [c[i]];
      assert i > 0 ==> forall j :: 0 <= j < i ==> c[..i][j].timestamp <= c[..i][i - 1].timestamp;
    }
    assert c[..|c|] == c;
    return true;
  }

  function Timestamps(c: seq<Candle>): seq<int> {
    if c == [] then [] else Timestamps(c[..|c| - 1]) + [c[|c| - 1].timestamp]
  }

  function If<T>(condition: bool, x: T): seq<T> {
    if condition then [x] else []
  }

  // ----- swings ---------------------------------------------------------------------------------

  /** The candle at offset `left` is strictly higher than every other candle of its window. */
  predicate StrictHigh(window: seq<Candle>, left: nat)
    requires left < |window|
  {
    forall offset :: 0 <= offset < |window| && offset != left ==> window[left].high > window[offset].high
  }

  predicate StrictLow(window: seq<Candle>, left: nat)
    requires left < |window|
  {
    forall offset :: 0 <= offset < |window| && offset != left ==> window[left].low < window[offset].low
  }

  function HighSwing(window: seq<Candle>, left: nat, scope: Scope): Swing
    requires left < |window|
  {
    Swing(scope, Bearish, window[left].high, window[left].timestamp, window[|window| - 1].ClosedAt(), Timestamps(window))
  }

  function LowSwing(window: seq<Candle>, left: nat, scope: Scope): Swing
    requires left < |window|
  {
    Swing(scope, Bullish, window[left].low, window[left].timestamp, window[|window| - 1].ClosedAt(), Timestamps(window))
  }

  /** The swings a window publishes when its last candle closes: at most one high, then at most one low. */
  function SwingsOf(window: seq<Candle>, left: nat, scope: Scope): seq<Swing>
    requires left < |window|
  {
    If(StrictHigh(window, left), HighSwing(window, left, scope)) + If(StrictLow(window, left), LowSwing(window, left, scope))
  }

  function SwingsAt(c: seq<Candle>, left: nat, right: nat, scope: Scope, at: nat): seq<Swing> {
    if left + right <= at < |c| then SwingsOf(c[at - right - left..at + 1], left, scope) else []
  }

  function SwingEmitter(c: seq<Candle>, left: nat, right: nat, scope: Scope): nat -> seq<Swing> {
    (at: nat) => SwingsAt(c, left, right, scope, at)
  }

  function Swings(c: seq<Candle>, left: nat, right: nat, scope: Scope): seq<Swing> {
    Collect(SwingEmitter(c, left, right, scope), |c|)
  }

  function SwingTime(): Swing -> int {
    (s: Swing) => s.confirmedAt
  }

  /** One pass of the loop: what the last candle of a window confirms. */
  method Confirm(window: seq<Candle>, left: nat, scope: Scope) returns (found: seq<Swing>)
    requires left < |window|
    ensures found == SwingsOf(window, left, scope)
  {
    found := [];
    if StrictHigh(window, left) {
      found := found + [HighSwing(window, left, scope)];
    }
    if StrictLow(window, left) {
      found := found + [LowSwing(window, left, scope)];
    }
  }

  method FindSwings(c: seq<Candle>, left: nat, right: nat, scope: Scope) returns (result: seq<Swing>)
    ensures result == Swings(c, left, right, scope)
  {
    hide SwingsOf;
    result := [];
    ghost var emit := SwingEmitter(c, left, right, scope);
    var width := left + right;
    if |c| <= width {
      CollectNothing(emit, |c|);
      return;
    }
    CollectNothing(emit, width);
    for at := width to |c|
      invariant result == Collect(emit, at)
    {
      var window := c[at - right - left..at + 1];
      var found := Confirm(window, left, scope);
      assert emit(at) == found;
      result := result + found;
    }
  }

  lemma {:induction false} SwingsOfStamped(window: seq<Candle>, left: nat, scope: Scope, s: Swing)
    requires left < |window| && s in SwingsOf(window, left, scope)
    ensures s.confirmedAt == window[|window| - 1].ClosedAt()
  {
  }

  lemma {:induction false} SwingStamped(c: seq<Candle>, left: nat, right: nat, scope: Scope)
    ensures Stamped(SwingEmitter(c, left, right, scope), SwingTime(), c)
  {
    hide SwingsOf;
    forall at: nat, s: Swing | at < |c| && s in SwingEmitter(c, left, right, scope)(at)
      ensures SwingTime()(s) == c[at].ClosedAt()
    {
      SwingsOfStamped(c[at - right - left..at + 1], left, scope, s);
    }
  }

  lemma {:induction false} SwingAgree(c: seq<Candle>, left: nat, right: nat, scope: Scope, k: nat)
    requires k <= |c|
    ensures Agree(SwingEmitter(c[..k], left, right, scope), SwingEmitter(c, left, right, scope), k)
  {
    hide SwingsOf;
    forall at: nat | at < k
      ensures SwingEmitter(c[..k], left, right, scope)(at) == SwingEmitter(c, left, right, scope)(at)
    {
      if left + right <= at {
        assert c[..k][at - right - left..at + 1] == c[at - right - left..at + 1];
      }
    }
  }

  /** Swings never repaint: those of the first `k` candles are exactly those already known at that close. */
  lemma {:induction false} SwingsKnownAt(c: seq<Candle>, left: nat, right: nat, scope: Scope, k: nat)
    requires Series(c) && 0 < k <= |c|
    ensures KnownAt(Swings(c[..k], left, right, scope), Swings(c, left, right, scope), SwingTime(), c[k - 1].ClosedAt())
  {
    SwingStamped(c, left, right, scope);
    SwingAgree(c, left, right, scope, k);
    CollectKnownAt(SwingEmitter(c, left, right, scope), SwingEmitter(c[..k], left, right, scope), SwingTime(), c, k);
  }

  /** The swing that candle `p`, confirmed `right` candles later, deserves. */
  ghost predicate IsSwingAt(c: seq<Candle>, left: nat, right: nat, s: Swing, p: nat) {
    && left <= p && p + right < |c|
    && s.candleTimestamp == c[p].timestamp
    && s.confirmedAt == c[p + right].ClosedAt()
    && s.evidence == Timestamps(c[p - left..p + right + 1])
    && match s.direction
       case Bearish =>
         && s.price == c[p].high
         && (forall j :: p - left <= j <= p + right && j != p ==> c[p].high > c[j].high)
       case Bullish =>
         && s.price == c[p].low
         && (forall j :: p - left <= j <= p + right && j != p ==> c[p].low < c[j].low)
  }

  lemma {:induction false} StrictWindow(c: seq<Candle>, left: nat, right: nat, p: nat)
    requires left <= p && p + right < |c|
    ensures StrictHigh(c[p - left..p + right + 1], left) <==>
            forall j :: p - left <= j <= p + right && j != p ==> c[p].high > c[j].high
    ensures StrictLow(c[p - left..p + right + 1], left) <==>
            forall j :: p - left <= j <= p + right && j != p ==> c[p].low < c[j].low
  {
    var w := c[p - left..p + right + 1];
    assert forall j :: p - left <= j <= p + right ==> c[j] == w[j - (p - left)];
  }

  lemma {:induction false} SwingsAtExact(c: seq<Candle>, left: nat, right: nat, scope: Scope, p: nat, s: Swing)
    requires left <= p && p + right < |c|
    ensures s in SwingsAt(c, left, right, scope, p + right) <==> s.scope == scope && IsSwingAt(c, left, right, s, p)
  {
    StrictWindow(c, left, right, p);
    hide StrictHigh, StrictLow;
    var w := c[p - left..p + right + 1];
    assert w[left] == c[p] && w[|w| - 1] == c[p + right];
  }

  lemma {:induction false} SwingEmitted(c: seq<Candle>, left: nat, right: nat, scope: Scope, at: nat, s: Swing) returns (p: nat)
    requires s in SwingsAt(c, left, right, scope, at)
    ensures s.scope == scope && IsSwingAt(c, left, right, s, p)
  {
    hide SwingsOf, IsSwingAt;
    p := at - right;
    SwingsAtExact(c, left, right, scope, p, s);
  }

  lemma {:induction false} SwingPublished(c: seq<Candle>, left: nat, right: nat, s: Swing, p: nat)
    requires IsSwingAt(c, left, right, s, p)
    ensures p + right < |c| && s in SwingsAt(c, left, right, s.scope, p + right)
  {
    SwingsAtExact(c, left, right, s.scope, p, s);
  }

  /** A swing is published if and only if its candle is the strict extreme of its own window. */
  lemma {:induction false} SwingExact(c: seq<Candle>, left: nat, right: nat, scope: Scope, s: Swing)
    ensures s in Swings(c, left, right, scope) <==> s.scope == scope && exists p: nat :: IsSwingAt(c, left, right, s, p)
  {
    hide SwingsAt, IsSwingAt;
    var emit := SwingEmitter(c, left, right, scope);
    CollectMember(emit, |c|, s);
    if s in Swings(c, left, right, scope) {
      var at: nat :| at < |c| && s in emit(at);
      var p := SwingEmitted(c, left, right, scope, at, s);
    }
    if s.scope == scope && exists p: nat :: IsSwingAt(c, left, right, s, p) {
      var p: nat :| IsSwingAt(c, left, right, s, p);
      SwingPublished(c, left, right, s, p);
      assert s in emit(p + right);
    }
  }

  // ----- displacements --------------------------------------------------------------------------

  function Body(c: Candle): real {
    Abs(c.close - c.open)
  }

  function BodySum(c: seq<Candle>): real {
    if c == [] then 0.0 else BodySum(c[..|c| - 1]) + Body(c[|c| - 1])
  }

  function Mean(total: real, count: nat): real
    requires count > 0
  {
    total / count as real
  }

  /** The displacement, if any, of a candle against the candles just before it. */
  function DisplacementOf(candle: Candle, prior: seq<Candle>, cfg: Config): seq<Displacement>
    requires |prior| > 0
  {
    var average := Mean(BodySum(prior), |prior|);
    var body := Body(candle);
    var range := candle.high - candle.low;
    if average == 0.0 || range == 0.0 || body < average * cfg.bodyMultiple then []
    else
      var location := (candle.close - candle.low) / range;
      var bullish := candle.close > candle.open && location >= cfg.closeLocation;
      var bearish := candle.close < candle.open && location <= 1.0 - cfg.closeLocation;
      if !bullish && !bearish then []
      else [Displacement(if bullish then Bullish else Bearish, candle.ClosedAt(), candle.low, candle.high,
                         body, average, location, Timestamps(prior + [candle]))]
  }

  function DisplacementsAt(c: seq<Candle>, cfg: Config, at: nat): seq<Displacement>
    requires cfg.Valid()
  {
    if cfg.displacementLookback <= at < |c| then DisplacementOf(c[at], c[at - cfg.displacementLookback..at], cfg) else []
  }

  function DisplacementEmitter(c: seq<Candle>, cfg: Config): nat -> seq<Displacement>
    requires cfg.Valid()
  {
    (at: nat) => DisplacementsAt(c, cfg, at)
  }

  function Displacements(c: seq<Candle>, cfg: Config): seq<Displacement>
    requires cfg.Valid()
  {
    Collect(DisplacementEmitter(c, cfg), |c|)
  }

  function DisplacementTime(): Displacement -> int {
    (d: Displacement) => d.detectedAt
  }

  method TotalBody(c: seq<Candle>) returns (total: real)
    ensures total == BodySum(c)
  {
    total := 0.0;
    for j := 0 to |c|
      invariant total == BodySum(c[..j])
    {
      assert c[..j + 1][..j] == c[..j];
      total := total + Body(c[j]);
    }
    assert c[..|c|] == c;
  }

  /** One pass of the loop: the displacement, if any, of a candle. */
  method Measure(candle: Candle, prior: seq<Candle>, cfg: Config) returns (found: seq<Displacement>)
    requires |prior| > 0
    ensures found == DisplacementOf(candle, prior, cfg)
  {
    var total := TotalBody(prior);
    var average := Mean(total, |prior|);
    var body := Body(candle);
    var range := candle.high - candle.low;
    if average == 0.0 || range == 0.0 || body < average * cfg.bodyMultiple {
      return [];
    }
    var location := (candle.close - candle.low) / range;
    var bullish := candle.close > candle.open && location >= cfg.closeLocation;
    var bearish := candle.close < candle.open && location <= 1.0 - cfg.closeLocation;
    if !bullish && !bearish {
      return [];
    }
    var direction := if bullish then Bullish else Bearish;
    return [Displacement(direction, candle.ClosedAt(), candle.low, candle.high,
                         body, average, location, Timestamps(prior + [candle]))];
  }

  method FindDisplacements(c: seq<Candle>, cfg: Config) returns (result: seq<Displacement>)
    requires cfg.Valid()
    ensures result == Displacements(c, cfg)
  {
    hide DisplacementOf;
    result := [];
    ghost var emit := DisplacementEmitter(c, cfg);
    CollectNothing(emit, MinInt(cfg.displacementLookback, |c|));
    var at := cfg.displacementLookback;
    while at < |c|
      invariant cfg.displacementLookback <= at && (at <= |c| || at == cfg.displacementLookback)
      invariant result == Collect(emit, MinInt(at, |c|))
    {
      var found := Measure(c[at], c[at - cfg.displacementLookback..at], cfg);
      result := result + found;
      CollectStep(emit, at);
      at := at + 1;
    }
  }

  lemma {:induction false} DisplacementOfStamped(candle: Candle, prior: seq<Candle>, cfg: Config, d: Displacement)
    requires |prior| > 0 && d in DisplacementOf(candle, prior, cfg)
    ensures d.detectedAt == candle.ClosedAt()
  {
  }

  lemma {:induction false} DisplacementStamped(c: seq<Candle>, cfg: Config)
    requires cfg.Valid()
    ensures Stamped(DisplacementEmitter(c, cfg), DisplacementTime(), c)
  {
    hide DisplacementOf;
    forall at: nat, d: Displacement | at < |c| && d in DisplacementEmitter(c, cfg)(at)
      ensures DisplacementTime()(d) == c[at].ClosedAt()
    {
      DisplacementOfStamped(c[at], c[at - cfg.displacementLookback..at], cfg, d);
    }
  }

  lemma {:induction false} DisplacementAgree(c: seq<Candle>, cfg: Config, k: nat)
    requires cfg.Valid() && k <= |c|
    ensures Agree(DisplacementEmitter(c[..k], cfg), DisplacementEmitter(c, cfg), k)
  {
    hide DisplacementOf;
    forall at: nat | at < k
      ensures DisplacementEmitter(c[..k], cfg)(at) == DisplacementEmitter(c, cfg)(at)
    {
      if cfg.displacementLookback <= at {
        assert c[..k][at - cfg.displacementLookback..at] == c[at - cfg.displacementLookback..at];
      }
    }
  }

  lemma {:induction false} DisplacementsKnownAt(c: seq<Candle>, cfg: Config, k: nat)
    requires Series(c) && cfg.Valid() && 0 < k <= |c|
    ensures KnownAt(Displacements(c[..k], cfg), Displacements(c, cfg), DisplacementTime(), c[k - 1].ClosedAt())
  {
    DisplacementStamped(c, cfg);
    DisplacementAgree(c, cfg, k);
    CollectKnownAt(DisplacementEmitter(c, cfg), DisplacementEmitter(c[..k], cfg), DisplacementTime(), c, k);
  }

  /** The engine's dictionary of displacements by direction and close; a later entry replaces an earlier one. */
  function ByKey(d: seq<Displacement>): map<(Direction, int), Displacement> {
    if d == [] then map[]
    else ByKey(d[..|d| - 1])[(d[|d| - 1].direction, d[|d| - 1].detectedAt) := d[|d| - 1]]
  }

  function Lookup(m: map<(Direction, int), Displacement>, key: (Direction, int)): Option<Displacement> {
    if key in m then Some(m[key]) else None
  }

  /** Later displacements never change what an earlier close looks up. */
  lemma {:induction false} LookupStable(a: seq<Displacement>, d: seq<Displacement>, key: (Direction, int))
    requires a <= d
    requires forall i :: |a| <= i < |d| ==> d[i].detectedAt > key.1
    ensures Lookup(ByKey(a), key) == Lookup(ByKey(d), key)
    decreases |d|
  {
    if |a| < |d| {
      assert a <= d[..|d| - 1];
      LookupStable(a, d[..|d| - 1], key);
    } else {
      assert a == d;
    }
  }

  /** A successful lookup returns one of the displacements, under its own key; a failing one means there is none. */
  lemma {:induction false} LookupExact(d: seq<Displacement>, key: (Direction, int))
    ensures var r := Lookup(ByKey(d), key);
            && (r.Some? ==> r.value in d && (r.value.direction, r.value.detectedAt) == key)
            && (r.None? ==> forall x :: x in d ==> (x.direction, x.detectedAt) != key)
  {
    if d != [] {
      LookupExact(d[..|d| - 1], key);
    }
  }

  method IndexByKey(d: seq<Displacement>) returns (m: map<(Direction, int), Displacement>)
    ensures m == ByKey(d)
  {
    m := map[];
    for i := 0 to |d|
      invariant m == ByKey(d[..i])
    {
      assert d[..i + 1][..i] == d[..i];
      m := m[(d[i].direction, d[i].detectedAt) := d[i]];
    }
    assert d[..|d|] == d;
  }
}
