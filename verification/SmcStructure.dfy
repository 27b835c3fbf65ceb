/** Structure breaks and liquidity sweeps: the loop that carries `trend` and `consumed` over the candles. */
module SmcStructure {
  import opened Domain
  import opened Stream
  import opened SmcSwings

  datatype Kind = BreakOfStructure | ChangeOfCharacter | MarketStructureShift

  datatype Event = Event(
    scope: Scope,
    kind: Kind,
    direction: Direction,
    level: real,
    detectedAt: int,
    swingTimestamp: int,
    evidence: set<int>)

  datatype Sweep = Sweep(
    direction: Direction,
    level: real,
    extreme: real,
    detectedAt: int,
    swingTimestamp: int)

  datatype State = State(
    structure: seq<Event>,
    sweeps: seq<Sweep>,
    trend: Option<Direction>,
    consumed: set<(Direction, int)>)

  const START := State([], [], None, {})

  function Opposite(d: Direction): Direction {
    if d == Bullish then Bearish else Bullish
  }

  function Matching(s: seq<Swing>, d: Direction): seq<Swing> {
    if s == [] then []
    else Matching(s[..|s| - 1], d) + (if s[|s| - 1].direction == d then [s[|s| - 1]] else [])
  }

  /** The candle trades beyond the swing by more than the tolerance and closes back inside. */
  predicate Swept(swing: Swing, candle: Candle, cfg: Config) {
    var tolerance := swing.price * cfg.sweepTolerancePercent / 100.0;
    match swing.direction
    case Bearish => candle.high > swing.price + tolerance && candle.close <= swing.price
    case Bullish => candle.low < swing.price - tolerance && candle.close >= swing.price
  }

  predicate Broken(swing: Swing, candle: Candle) {
    match swing.direction
    case Bearish => candle.close > swing.price
    case Bullish => candle.close < swing.price
  }

  function SweepOf(swing: Swing, candle: Candle): Sweep {
    Sweep(swing.direction, swing.price, if swing.direction == Bearish then candle.high else candle.low,
          candle.ClosedAt(), swing.candleTimestamp)
  }

  function BreakKind(trend: Option<Direction>, breakDirection: Direction): Kind {
    if trend.Some? && trend.value != breakDirection then ChangeOfCharacter else BreakOfStructure
  }

  function BreakOf(swing: Swing, candle: Candle, trend: Option<Direction>, scope: Scope): Event {
    var d := Opposite(swing.direction);
    Event(scope, BreakKind(trend, d), d, swing.price, candle.ClosedAt(), swing.candleTimestamp,
          {swing.candleTimestamp, swing.confirmedAt, candle.timestamp})
  }

  function ShiftOf(swing: Swing, candle: Candle, displacement: Displacement, scope: Scope): Event {
    Event(scope, MarketStructureShift, Opposite(swing.direction), swing.price, candle.ClosedAt(), swing.candleTimestamp,
          {swing.candleTimestamp, swing.confirmedAt} + (set t | t in displacement.evidence))
  }

  /** The events one break publishes: the break itself and, on a displaced reversal, a structure shift. */
  function BreakEvents(
    swing: Swing, candle: Candle, trend: Option<Direction>, displacement: Option<Displacement>, scope: Scope): seq<Event>
  {
    var event := BreakOf(swing, candle, trend, scope);
    if event.kind == ChangeOfCharacter && displacement.Some?
    then [event, ShiftOf(swing, candle, displacement.value, scope)]
    else [event]
  }

  /** The latest available swing on one side, against one candle. */
  function StepSwing(st: State, swing: Swing, candle: Candle, byKey: map<(Direction, int), Displacement>,
                     cfg: Config, scope: Scope): State
  {
    var swept := if Swept(swing, candle, cfg) then st.(sweeps := st.sweeps + [SweepOf(swing, candle)]) else st;
    var key := (swing.direction, swing.candleTimestamp);
    if Broken(swing, candle) && key !in st.consumed then
      var d := Opposite(swing.direction);
      swept.(structure := st.structure
                          + BreakEvents(swing, candle, st.trend, Lookup(byKey, (d, candle.ClosedAt())), scope),
             trend := Some(d),
             consumed := st.consumed + {key})
    else swept
  }

  function StepSide(st: State, d: Direction, available: seq<Swing>, candle: Candle,
                    byKey: map<(Direction, int), Displacement>, cfg: Config, scope: Scope): State
  {
    var matching := Matching(available, d);
    if matching == [] then st else StepSwing(st, matching[|matching| - 1], candle, byKey, cfg, scope)
  }

  /** One candle: the bullish side first, then the bearish side. */
  function StepCandle(st: State, available: seq<Swing>, candle: Candle,
                      byKey: map<(Direction, int), Displacement>, cfg: Config, scope: Scope): State
  {
    StepSide(StepSide(st, Bullish, available, candle, byKey, cfg, scope), Bearish, available, candle, byKey, cfg, scope)
  }

  /** The state after the first `n` candles, given the whole lists of swings and displacements. */
  function Run(c: seq<Candle>, swings: seq<Swing>, byKey: map<(Direction, int), Displacement>,
               cfg: Config, scope: Scope, n: nat): State
    requires n <= |c|
  {
    if n == 0 then START
    else StepCandle(Run(c, swings, byKey, cfg, scope, n - 1), Before(swings, SwingTime(), c[n - 1].ClosedAt()), c[n - 1],
                    byKey, cfg, scope)
  }

  method FilterBefore(s: seq<Swing>, t: int) returns (r: seq<Swing>)
    ensures r == Before(s, SwingTime(), t)
  {
    r := [];
    for i := 0 to |s|
      invariant r == Before(s[..i], SwingTime(), t)
    {
      assert s[..i + 1][..i] == s[..i];
      if s[i].confirmedAt < t {
        r := r + [s[i]];
      }
    }
    assert s[..|s|] == s;
  }

  method FilterDirection(s: seq<Swing>, d: Direction) returns (r: seq<Swing>)
    ensures r == Matching(s, d)
  {
    r := [];
    for i := 0 to |s|
      invariant r == Matching(s[..i], d)
    {
      assert s[..i + 1][..i] == s[..i];
      if s[i].direction == d {
        r := r + [s[i]];
      }
    }
    assert s[..|s|] == s;
  }

  method StructureAndSweeps(c: seq<Candle>, swings: seq<Swing>, displacements: seq<Displacement>, cfg: Config, scope: Scope)
    returns (structure: seq<Event>, sweeps: seq<Sweep>)
    ensures structure == Run(c, swings, ByKey(displacements), cfg, scope, |c|).structure
    ensures sweeps == Run(c, swings, ByKey(displacements), cfg, scope, |c|).sweeps
  {
    hide Swept, Broken, BreakEvents;
    structure, sweeps := [], [];
    var trend: Option<Direction> := None;
    var byKey := IndexByKey(displacements);
    var consumed: set<(Direction, int)> := {};
    for i := 0 to |c|
      invariant State(structure, sweeps, trend, consumed) == Run(c, swings, byKey, cfg, scope, i)
    {
      var candle := c[i];
      var available := FilterBefore(swings, candle.ClosedAt());
      structure, sweeps, trend, consumed :=
        Side(structure, sweeps, trend, consumed, Bullish, available, candle, byKey, cfg, scope);
      structure, sweeps, trend, consumed :=
        Side(structure, sweeps, trend, consumed, Bearish, available, candle, byKey, cfg, scope);
    }
  }

  /** The body of the inner loop, for one side. */
  method Side(structure0: seq<Event>, sweeps0: seq<Sweep>, trend0: Option<Direction>, consumed0: set<(Direction, int)>,
              d: Direction, available: seq<Swing>, candle: Candle, byKey: map<(Direction, int), Displacement>,
              cfg: Config, scope: Scope)
    returns (structure: seq<Event>, sweeps: seq<Sweep>, trend: Option<Direction>, consumed: set<(Direction, int)>)
    ensures State(structure, sweeps, trend, consumed)
            == StepSide(State(structure0, sweeps0, trend0, consumed0), d, available, candle, byKey, cfg, scope)
  {
    hide Swept, Broken;
    structure, sweeps, trend, consumed := structure0, sweeps0, trend0, consumed0;
    var matching := FilterDirection(available, d);
    if matching == [] {
      return;
    }
    var swing := matching[|matching| - 1];
    MatchingDirection(available, d);
    var key := (d, swing.candleTimestamp);
    if Swept(swing, candle, cfg) {
      sweeps := sweeps + [SweepOf(swing, candle)];
    }
    if Broken(swing, candle) && key !in consumed {
      var breakDirection := Opposite(d);
      var event := BreakOf(swing, candle, trend, scope);
      structure := structure + [event];
      var displacement := Lookup(byKey, (breakDirection, candle.ClosedAt()));
      if event.kind == ChangeOfCharacter && displacement.Some? {
        structure := structure + [ShiftOf(swing, candle, displacement.value, scope)];
        assert structure == structure0 + [event, ShiftOf(swing, candle, displacement.value, scope)];
      }
      consumed := consumed + {key};
      trend := Some(breakDirection);
    }
  }

  lemma {:induction false} MatchingDirection(s: seq<Swing>, d: Direction)
    ensures forall i :: 0 <= i < |Matching(s, d)| ==> Matching(s, d)[i].direction == d
  {
    if s != [] {
      MatchingDirection(s[..|s| - 1], d);
    }
  }

  // ----- non-repainting -------------------------------------------------------------------------

  /** The structure state after `n` candles of an analysis of `c`, swings and displacements included. */
  function Analysis(c: seq<Candle>, left: nat, right: nat, cfg: Config, scope: Scope, n: nat): State
    requires cfg.Valid() && n <= |c|
  {
    Run(c, Swings(c, left, right, scope), ByKey(Displacements(c, cfg)), cfg, scope, n)
  }

  /** At candle `i`, an analysis of a prefix and one of the whole see the same swings. */
  lemma {:induction false} SameAvailable(c: seq<Candle>, left: nat, right: nat, scope: Scope, i: nat, k: nat)
    requires Series(c) && i < k <= |c|
    ensures Before(Swings(c[..k], left, right, scope), SwingTime(), c[i].ClosedAt())
            == Before(Swings(c, left, right, scope), SwingTime(), c[i].ClosedAt())
            == Collect(SwingEmitter(c, left, right, scope), i)
  {
    hide SwingsAt;
    var whole, part := SwingEmitter(c, left, right, scope), SwingEmitter(c[..k], left, right, scope);
    SwingStamped(c, left, right, scope);
    SwingStamped(c[..k], left, right, scope);
    SwingAgree(c, left, right, scope, k);
    BeforeCollect(whole, SwingTime(), c, |c|, i);
    BeforeCollect(part, SwingTime(), c[..k], k, i);
    CollectAgree(part, whole, i);
  }

  /** At candle `i`, both analyses look up the same displacement. */
  lemma {:induction false} SameDisplacement(c: seq<Candle>, cfg: Config, i: nat, k: nat, d: Direction)
    requires Series(c) && cfg.Valid() && i < k <= |c|
    ensures Lookup(ByKey(Displacements(c[..k], cfg)), (d, c[i].ClosedAt()))
            == Lookup(ByKey(Displacements(c, cfg)), (d, c[i].ClosedAt()))
  {
    hide DisplacementsAt;
    DisplacementsKnownAt(c, cfg, k);
    LookupStable(Displacements(c[..k], cfg), Displacements(c, cfg), (d, c[i].ClosedAt()));
  }

  lemma {:induction false} SwingCongruence(st: State, swing: Swing, candle: Candle,
                        a: map<(Direction, int), Displacement>, b: map<(Direction, int), Displacement>,
                        cfg: Config, scope: Scope)
    requires Lookup(a, (Opposite(swing.direction), candle.ClosedAt())) == Lookup(b, (Opposite(swing.direction), candle.ClosedAt()))
    ensures StepSwing(st, swing, candle, a, cfg, scope) == StepSwing(st, swing, candle, b, cfg, scope)
  {
    hide Swept, Broken, BreakEvents, Lookup, SweepOf;
  }

  lemma {:induction false} SideCongruence(st: State, d: Direction, available: seq<Swing>, candle: Candle,
                       a: map<(Direction, int), Displacement>, b: map<(Direction, int), Displacement>,
                       cfg: Config, scope: Scope)
    requires Lookup(a, (Opposite(d), candle.ClosedAt())) == Lookup(b, (Opposite(d), candle.ClosedAt()))
    ensures StepSide(st, d, available, candle, a, cfg, scope) == StepSide(st, d, available, candle, b, cfg, scope)
  {
    hide StepSwing, Lookup;
    var m := Matching(available, d);
    MatchingDirection(available, d);
    if m != [] {
      SwingCongruence(st, m[|m| - 1], candle, a, b, cfg, scope);
    }
  }

  /** A step depends on the displacement dictionary only through the two keys of its candle. */
  lemma {:induction false} StepCongruence(st: State, available: seq<Swing>, candle: Candle,
                       a: map<(Direction, int), Displacement>, b: map<(Direction, int), Displacement>,
                       cfg: Config, scope: Scope)
    requires Lookup(a, (Bullish, candle.ClosedAt())) == Lookup(b, (Bullish, candle.ClosedAt()))
    requires Lookup(a, (Bearish, candle.ClosedAt())) == Lookup(b, (Bearish, candle.ClosedAt()))
    ensures StepCandle(st, available, candle, a, cfg, scope) == StepCandle(st, available, candle, b, cfg, scope)
  {
    hide StepSide, Lookup;
    SideCongruence(st, Bullish, available, candle, a, b, cfg, scope);
    SideCongruence(StepSide(st, Bullish, available, candle, a, cfg, scope), Bearish, available, candle, a, b, cfg, scope);
  }

  /** Analysing a prefix passes through exactly the states of analysing the whole. */
  lemma {:induction false} AnalysisPrefix(c: seq<Candle>, left: nat, right: nat, cfg: Config, scope: Scope, n: nat, k: nat)
    requires Series(c) && cfg.Valid() && n <= k <= |c|
    ensures Analysis(c[..k], left, right, cfg, scope, n) == Analysis(c, left, right, cfg, scope, n)
  {
    hide StepCandle, Swings, Displacements, Before, ByKey, Lookup, SwingTime, Collect, SwingEmitter, Series;
    if n > 0 {
      AnalysisPrefix(c, left, right, cfg, scope, n - 1, k);
      SameAvailable(c, left, right, scope, n - 1, k);
      SameDisplacement(c, cfg, n - 1, k, Bullish);
      SameDisplacement(c, cfg, n - 1, k, Bearish);
      StepCongruence(Analysis(c, left, right, cfg, scope, n - 1),
                     Before(Swings(c, left, right, scope), SwingTime(), c[n - 1].ClosedAt()), c[n - 1],
                     ByKey(Displacements(c[..k], cfg)), ByKey(Displacements(c, cfg)), cfg, scope);
    }
  }

  /** A step only appends, and stamps what it appends with its own candle's close. */
  ghost predicate Appends(before: State, after: State, t: int) {
    && before.structure <= after.structure
    && before.sweeps <= after.sweeps
    && (forall i :: |before.structure| <= i < |after.structure| ==> after.structure[i].detectedAt == t)
    && (forall i :: |before.sweeps| <= i < |after.sweeps| ==> after.sweeps[i].detectedAt == t)
  }

  lemma {:induction false} AppendsTrans(a: State, b: State, c: State, t: int)
    requires Appends(a, b, t) && Appends(b, c, t)
    ensures Appends(a, c, t)
  {
  }

  lemma {:induction false} SideAppends(st: State, d: Direction, available: seq<Swing>, candle: Candle,
                    byKey: map<(Direction, int), Displacement>, cfg: Config, scope: Scope)
    ensures Appends(st, StepSide(st, d, available, candle, byKey, cfg, scope), candle.ClosedAt())
  {
    hide Swept, Broken, Lookup, Matching, BreakKind;
  }

  lemma {:induction false} StepAppends(st: State, available: seq<Swing>, candle: Candle, byKey: map<(Direction, int), Displacement>,
                    cfg: Config, scope: Scope)
    ensures Appends(st, StepCandle(st, available, candle, byKey, cfg, scope), candle.ClosedAt())
  {
    hide StepSide, Appends;
    var mid := StepSide(st, Bullish, available, candle, byKey, cfg, scope);
    SideAppends(st, Bullish, available, candle, byKey, cfg, scope);
    SideAppends(mid, Bearish, available, candle, byKey, cfg, scope);
    AppendsTrans(st, mid, StepSide(mid, Bearish, available, candle, byKey, cfg, scope), candle.ClosedAt());
  }

  /** What the second list has beyond the first. */
  function Added<T>(a: seq<T>, b: seq<T>): seq<T> {
    if |a| <= |b| then b[|a|..] else []
  }

  function EventsAt(c: seq<Candle>, left: nat, right: nat, cfg: Config, scope: Scope, i: nat): seq<Event>
    requires cfg.Valid()
  {
    if i < |c|
    then Added(Analysis(c, left, right, cfg, scope, i).structure, Analysis(c, left, right, cfg, scope, i + 1).structure)
    else []
  }

  function SweepsAt(c: seq<Candle>, left: nat, right: nat, cfg: Config, scope: Scope, i: nat): seq<Sweep>
    requires cfg.Valid()
  {
    if i < |c|
    then Added(Analysis(c, left, right, cfg, scope, i).sweeps, Analysis(c, left, right, cfg, scope, i + 1).sweeps)
    else []
  }

  function StructureEmitter(c: seq<Candle>, left: nat, right: nat, cfg: Config, scope: Scope): nat -> seq<Event>
    requires cfg.Valid()
  {
    (i: nat) => EventsAt(c, left, right, cfg, scope, i)
  }

  function SweepEmitter(c: seq<Candle>, left: nat, right: nat, cfg: Config, scope: Scope): nat -> seq<Sweep>
    requires cfg.Valid()
  {
    (i: nat) => SweepsAt(c, left, right, cfg, scope, i)
  }

  function EventTime(): Event -> int {
    (e: Event) => e.detectedAt
  }

  function SweepTime(): Sweep -> int {
    (s: Sweep) => s.detectedAt
  }

  lemma {:induction false} AnalysisAppends(c: seq<Candle>, left: nat, right: nat, cfg: Config, scope: Scope, i: nat)
    requires cfg.Valid() && i < |c|
    ensures Appends(Analysis(c, left, right, cfg, scope, i), Analysis(c, left, right, cfg, scope, i + 1), c[i].ClosedAt())
  {
    hide StepCandle, Swings, Displacements, Appends;
    StepAppends(Analysis(c, left, right, cfg, scope, i),
                Before(Swings(c, left, right, scope), SwingTime(), c[i].ClosedAt()), c[i],
                ByKey(Displacements(c, cfg)), cfg, scope);
  }

  lemma {:induction false} EventsAtExact(c: seq<Candle>, left: nat, right: nat, cfg: Config, scope: Scope, i: nat)
    requires cfg.Valid() && i < |c|
    ensures Analysis(c, left, right, cfg, scope, i).structure + EventsAt(c, left, right, cfg, scope, i)
            == Analysis(c, left, right, cfg, scope, i + 1).structure
    ensures Analysis(c, left, right, cfg, scope, i).sweeps + SweepsAt(c, left, right, cfg, scope, i)
            == Analysis(c, left, right, cfg, scope, i + 1).sweeps
    ensures forall e :: e in EventsAt(c, left, right, cfg, scope, i) ==> e.detectedAt == c[i].ClosedAt()
    ensures forall s :: s in SweepsAt(c, left, right, cfg, scope, i) ==> s.detectedAt == c[i].ClosedAt()
  {
    hide Analysis;
    AnalysisAppends(c, left, right, cfg, scope, i);
  }

  lemma {:induction false} AnalysisStart(c: seq<Candle>, left: nat, right: nat, cfg: Config, scope: Scope)
    requires cfg.Valid()
    ensures Analysis(c, left, right, cfg, scope, 0) == START
  {
    hide Swings, Displacements, ByKey, StepCandle;
  }

  lemma {:induction false} AnalysisCollects(c: seq<Candle>, left: nat, right: nat, cfg: Config, scope: Scope, n: nat)
    requires cfg.Valid() && n <= |c|
    ensures Analysis(c, left, right, cfg, scope, n).structure == Collect(StructureEmitter(c, left, right, cfg, scope), n)
    ensures Analysis(c, left, right, cfg, scope, n).sweeps == Collect(SweepEmitter(c, left, right, cfg, scope), n)
  {
    hide Analysis, EventsAt, SweepsAt;
    if n == 0 {
      AnalysisStart(c, left, right, cfg, scope);
    } else {
      AnalysisCollects(c, left, right, cfg, scope, n - 1);
      EventsAtExact(c, left, right, cfg, scope, n - 1);
    }
  }

  lemma {:induction false} StructureStreams(c: seq<Candle>, left: nat, right: nat, cfg: Config, scope: Scope, k: nat)
    requires Series(c) && cfg.Valid() && k <= |c|
    ensures Stamped(StructureEmitter(c, left, right, cfg, scope), EventTime(), c)
    ensures Stamped(SweepEmitter(c, left, right, cfg, scope), SweepTime(), c)
    ensures Agree(StructureEmitter(c[..k], left, right, cfg, scope), StructureEmitter(c, left, right, cfg, scope), k)
    ensures Agree(SweepEmitter(c[..k], left, right, cfg, scope), SweepEmitter(c, left, right, cfg, scope), k)
  {
    hide Analysis, Added;
    forall i: nat | i < |c|
      ensures forall e :: e in EventsAt(c, left, right, cfg, scope, i) ==> e.detectedAt == c[i].ClosedAt()
      ensures forall s :: s in SweepsAt(c, left, right, cfg, scope, i) ==> s.detectedAt == c[i].ClosedAt()
    {
      EventsAtExact(c, left, right, cfg, scope, i);
    }
    forall i: nat | i < k
      ensures EventsAt(c[..k], left, right, cfg, scope, i) == EventsAt(c, left, right, cfg, scope, i)
      ensures SweepsAt(c[..k], left, right, cfg, scope, i) == SweepsAt(c, left, right, cfg, scope, i)
    {
      AnalysisPrefix(c, left, right, cfg, scope, i, k);
      AnalysisPrefix(c, left, right, cfg, scope, i + 1, k);
    }
  }

  function Structure(c: seq<Candle>, left: nat, right: nat, cfg: Config, scope: Scope): seq<Event>
    requires cfg.Valid()
  {
    Analysis(c, left, right, cfg, scope, |c|).structure
  }

  function Sweeps(c: seq<Candle>, left: nat, right: nat, cfg: Config, scope: Scope): seq<Sweep>
    requires cfg.Valid()
  {
    Analysis(c, left, right, cfg, scope, |c|).sweeps
  }

  /** Structure events and sweeps never repaint, whatever the scope's windows. */
  lemma {:induction false} StructureKnownAt(c: seq<Candle>, left: nat, right: nat, cfg: Config, scope: Scope, k: nat)
    requires Series(c) && cfg.Valid() && 0 < k <= |c|
    ensures KnownAt(Structure(c[..k], left, right, cfg, scope), Structure(c, left, right, cfg, scope), EventTime(), c[k - 1].ClosedAt())
    ensures KnownAt(Sweeps(c[..k], left, right, cfg, scope), Sweeps(c, left, right, cfg, scope), SweepTime(), c[k - 1].ClosedAt())
  {
    hide Analysis, StructureEmitter, SweepEmitter;
    StructureStreams(c, left, right, cfg, scope, k);
    AnalysisCollects(c, left, right, cfg, scope, |c|);
    AnalysisCollects(c[..k], left, right, cfg, scope, k);
    CollectKnownAt(StructureEmitter(c, left, right, cfg, scope), StructureEmitter(c[..k], left, right, cfg, scope), EventTime(), c, k);
    CollectKnownAt(SweepEmitter(c, left, right, cfg, scope), SweepEmitter(c[..k], left, right, cfg, scope), SweepTime(), c, k);
  }
}
