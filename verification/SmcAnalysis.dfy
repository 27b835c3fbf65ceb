/** The whole market-structure analysis, and its promise never to repaint. */
module SmcAnalysis {
  import opened Domain
  import opened Stream
  import opened SmcSwings
  import opened SmcStructure
  import SmcGaps
  import SmcBlocks
  import SmcBlockHistory

  // ----- equal levels ---------------------------------------------------------------------------

  datatype LiquiditySide = BuySide | SellSide

  datatype EqualLevel = EqualLevel(
    side: LiquiditySide,
    lower: real,
    upper: real,
    detectedAt: int,
    firstTimestamp: int,
    secondTimestamp: int)

  function LevelTime(): EqualLevel -> int {
    (l: EqualLevel) => l.detectedAt
  }

  /** The band of two consecutive swings of one side, when they lie within tolerance of each other. */
  function PairLevel(first: Swing, second: Swing, cfg: Config): seq<EqualLevel> {
    var midpoint := (first.price + second.price) / 2.0;
    var tolerance := midpoint * cfg.equalTolerancePercent / 100.0;
    if Abs(first.price - second.price) > tolerance then []
    else [EqualLevel(if first.direction == Bearish then BuySide else SellSide,
                     Min(first.price, second.price), Max(first.price, second.price),
                     MaxInt(first.confirmedAt, second.confirmedAt), first.candleTimestamp, second.candleTimestamp)]
  }

  function LevelsOf(m: seq<Swing>, cfg: Config): seq<EqualLevel> {
    if |m| < 2 then [] else LevelsOf(m[..|m| - 1], cfg) + PairLevel(m[|m| - 2], m[|m| - 1], cfg)
  }

  /** The bullish pairs, then the bearish pairs. */
  function EqualLevels(swings: seq<Swing>, cfg: Config): seq<EqualLevel> {
    LevelsOf(Matching(swings, Bullish), cfg) + LevelsOf(Matching(swings, Bearish), cfg)
  }

  method Pairwise(m: seq<Swing>, cfg: Config) returns (result: seq<EqualLevel>)
    ensures result == LevelsOf(m, cfg)
  {
    hide PairLevel;
    result := [];
    if m == [] {
      return;
    }
    for i := 1 to |m|
      invariant result == LevelsOf(m[..i], cfg)
    {
      assert m[..i + 1][..i] == m[..i];
      result := result + PairLevel(m[i - 1], m[i], cfg);
    }
    assert m[..|m|] == m;
  }

  method FindEqualLevels(swings: seq<Swing>, cfg: Config) returns (result: seq<EqualLevel>)
    ensures result == EqualLevels(swings, cfg)
  {
    hide LevelsOf;
    var bullish := FilterDirection(swings, Bullish);
    result := Pairwise(bullish, cfg);
    var bearish := FilterDirection(swings, Bearish);
    var rest := Pairwise(bearish, cfg);
    result := result + rest;
  }

  lemma {:induction false} MatchingKnownAt(a: seq<Swing>, b: seq<Swing>, d: Direction, asOf: int)
    requires KnownAt(a, b, SwingTime(), asOf)
    ensures KnownAt(Matching(a, d), Matching(b, d), SwingTime(), asOf)
    decreases |b|
  {
    if |a| < |b| {
      assert a <= b[..|b| - 1];
      MatchingKnownAt(a, b[..|b| - 1], d, asOf);
    } else {
      assert a == b;
      if b != [] {
        MatchingKnownAt(a[..|a| - 1], b[..|b| - 1], d, asOf);
      }
    }
  }

  lemma {:induction false} PairStamped(first: Swing, second: Swing, cfg: Config)
    ensures forall i :: 0 <= i < |PairLevel(first, second, cfg)| ==>
              LevelTime()(PairLevel(first, second, cfg)[i]) == MaxInt(first.confirmedAt, second.confirmedAt)
  {
  }

  lemma {:induction false} LevelsNext(m: seq<Swing>, cfg: Config)
    requires m != []
    ensures |m| < 2 ==> LevelsOf(m, cfg) == []
    ensures |m| >= 2 ==> LevelsOf(m, cfg) == LevelsOf(m[..|m| - 1], cfg) + PairLevel(m[|m| - 2], m[|m| - 1], cfg)
  {
    hide PairLevel;
  }

  lemma {:induction false} SwingsCut(a: seq<Swing>, b: seq<Swing>, asOf: int)
    requires KnownAt(a, b, SwingTime(), asOf) && b != []
    ensures |a| < |b| ==> KnownAt(a, b[..|b| - 1], SwingTime(), asOf) && b[|b| - 1].confirmedAt > asOf
    ensures |a| == |b| ==> a == b && KnownAt(b[..|b| - 1], b[..|b| - 1], SwingTime(), asOf)
    ensures |a| == |b| ==> forall i :: 0 <= i < |b| ==> b[i].confirmedAt <= asOf
  {
    var front := b[..|b| - 1];
    assert forall i :: 0 <= i < |b| ==> SwingTime()(b[i]) == b[i].confirmedAt;
    assert forall i :: 0 <= i < |front| ==> front[i] == b[i];
  }

  lemma {:induction false} LevelsKnownAt(a: seq<Swing>, b: seq<Swing>, cfg: Config, asOf: int)
    requires KnownAt(a, b, SwingTime(), asOf)
    ensures KnownAt(LevelsOf(a, cfg), LevelsOf(b, cfg), LevelTime(), asOf)
    decreases |b|
  {
    if b == [] {
      assert a == [] && LevelsOf(b, cfg) == [];
    } else {
      var front := b[..|b| - 1];
      SwingsCut(a, b, asOf);
      assert |a| <= |b|;
      hide KnownAt, LevelsOf, PairLevel, LevelTime;
      LevelsNext(b, cfg);
      if |b| >= 2 {
        PairStamped(b[|b| - 2], b[|b| - 1], cfg);
      }
      if |a| < |b| {
        LevelsKnownAt(a, front, cfg, asOf);
        if |b| >= 2 {
          KnownAtLater(LevelsOf(a, cfg), LevelsOf(front, cfg), PairLevel(b[|b| - 2], b[|b| - 1], cfg), LevelTime(), asOf);
        } else {
          NoLevels(a, b, cfg, asOf);
        }
      } else {
        LevelsKnownAt(front, front, cfg, asOf);
        if |b| >= 2 {
          KnownAtAll(LevelsOf(front, cfg), PairLevel(b[|b| - 2], b[|b| - 1], cfg), LevelTime(), asOf);
        } else {
          NoLevels(a, b, cfg, asOf);
        }
      }
    }
  }

  lemma {:induction false} NoLevels(a: seq<Swing>, b: seq<Swing>, cfg: Config, asOf: int)
    requires |a| <= |b| < 2
    ensures KnownAt(LevelsOf(a, cfg), LevelsOf(b, cfg), LevelTime(), asOf)
  {
  }

  /** Equal levels never repaint, side by side; across the two sides the list is not a prefix, since bullish levels come first. */
  lemma {:induction false} EqualLevelsKnownAt(c: seq<Candle>, cfg: Config, k: nat, d: Direction)
    requires Series(c) && cfg.Valid() && 0 < k <= |c|
    ensures KnownAt(LevelsOf(Matching(Swings(c[..k], cfg.swingLeft, cfg.swingRight, External), d), cfg),
                    LevelsOf(Matching(Swings(c, cfg.swingLeft, cfg.swingRight, External), d), cfg),
                    LevelTime(), c[k - 1].ClosedAt())
  {
    hide Swings, LevelsOf, Matching, KnownAt;
    SwingsKnownAt(c, cfg.swingLeft, cfg.swingRight, External, k);
    var part, whole := Swings(c[..k], cfg.swingLeft, cfg.swingRight, External), Swings(c, cfg.swingLeft, cfg.swingRight, External);
    MatchingKnownAt(part, whole, d, c[k - 1].ClosedAt());
    LevelsKnownAt(Matching(part, d), Matching(whole, d), cfg, c[k - 1].ClosedAt());
  }

  // ----- the analysis ---------------------------------------------------------------------------

  datatype Result = Result(
    swings: seq<Swing>,
    internalSwings: seq<Swing>,
    displacements: seq<Displacement>,
    equalLevels: seq<EqualLevel>,
    gaps: seq<SmcGaps.Gap>,
    inverseGaps: seq<SmcGaps.InverseGap>,
    structure: seq<Event>,
    sweeps: seq<Sweep>,
    internalStructure: seq<Event>,
    blocks: seq<SmcBlocks.Block>)

  function ExternalStructure(c: seq<Candle>, cfg: Config): seq<Event>
    requires cfg.Valid()
  {
    Structure(c, cfg.swingLeft, cfg.swingRight, cfg, External)
  }

  /** Every structure event names a candle of the series, so the block pass never misses its index. */
  lemma {:induction false} StructureIndexed(c: seq<Candle>, cfg: Config)
    requires Series(c) && cfg.Valid()
    ensures SmcBlocks.Indexed(c, ExternalStructure(c, cfg)) && SmcBlocks.IndexSound(c)
    ensures SmcBlockHistory.AllWithin(c, |c|, ExternalStructure(c, cfg))
  {
    hide Analysis, EventsAt, SmcBlocks.CloseIndex;
    var emit := StructureEmitter(c, cfg.swingLeft, cfg.swingRight, cfg, External);
    AnalysisCollects(c, cfg.swingLeft, cfg.swingRight, cfg, External, |c|);
    forall e | e in ExternalStructure(c, cfg)
      ensures SmcBlockHistory.ClosesWithin(c, |c|, e)
    {
      CollectMember(emit, |c|, e);
      var i: nat :| i < |c| && e in emit(i);
      EventsAtExact(c, cfg.swingLeft, cfg.swingRight, cfg, External, i);
    }
    SmcBlockHistory.WithinIndexed(c, |c|, ExternalStructure(c, cfg));
    SmcBlockHistory.IndexIsSound(c);
  }

  function SourceBlocks(c: seq<Candle>, cfg: Config): seq<SmcBlocks.Block>
    requires Series(c) && cfg.Valid()
  {
    StructureIndexed(c, cfg);
    SmcBlocks.RunSources(c, ExternalStructure(c, cfg), ByKey(Displacements(c, cfg)), cfg).blocks
  }

  function Blocks(c: seq<Candle>, cfg: Config): seq<SmcBlocks.Block>
    requires Series(c) && cfg.Valid()
  {
    SmcBlocks.Sorted(SmcBlocks.Contributions(c, SourceBlocks(c, cfg)))
  }

  /** What the analysis of a series is. */
  function Analyzed(c: seq<Candle>, cfg: Config): Result
    requires Series(c) && cfg.Valid()
  {
    Result(Swings(c, cfg.swingLeft, cfg.swingRight, External),
           Swings(c, cfg.internalLeft, cfg.internalRight, Internal),
           Displacements(c, cfg),
           EqualLevels(Swings(c, cfg.swingLeft, cfg.swingRight, External), cfg),
           SmcGaps.AllUpdated(c, SmcGaps.RawGaps(c, cfg)),
           SmcGaps.Inverses(c, SmcGaps.RawGaps(c, cfg)),
           ExternalStructure(c, cfg),
           Sweeps(c, cfg.swingLeft, cfg.swingRight, cfg, External),
           Structure(c, cfg.internalLeft, cfg.internalRight, cfg, Internal),
           Blocks(c, cfg))
  }

  /** The engine's entry point: a snapshot it refuses gives nothing, any other gives its analysis. */
  method Analyze(c: seq<Candle>, cfg: Config) returns (result: Option<Result>)
    requires cfg.Valid() && forall i :: 0 <= i < |c| ==> c[i].Valid()
    ensures result.Some? <==> Series(c)
    ensures result.Some? ==> result.value == Analyzed(c, cfg)
  {
    hide Swings, Displacements, EqualLevels, SmcGaps.RawGaps, SmcGaps.AllUpdated, SmcGaps.Inverses,
         Run, ByKey, SmcBlocks.RunSources, SmcBlocks.Sorted, SmcBlocks.Contributions, Series;
    var accepted := Validate(c);
    if !accepted {
      return None;
    }
    var swings := FindSwings(c, cfg.swingLeft, cfg.swingRight, External);
    var internalSwings := FindSwings(c, cfg.internalLeft, cfg.internalRight, Internal);
    var displacements := FindDisplacements(c, cfg);
    var equalLevels := FindEqualLevels(swings, cfg);
    var raw := SmcGaps.FairValueGaps(c, cfg);
    var gaps, inverseGaps := SmcGaps.GapLifecycle(c, raw);
    var structure, sweeps := StructureAndSweeps(c, swings, displacements, cfg, External);
    var internalStructure, _ := StructureAndSweeps(c, internalSwings, displacements, cfg, Internal);
    assert structure == ExternalStructure(c, cfg);
    StructureIndexed(c, cfg);
    var blocks := SmcBlocks.PriceBlocks(c, structure, displacements, cfg);
    assert blocks == Blocks(c, cfg);
    return Some(Result(swings, internalSwings, displacements, equalLevels, gaps, inverseGaps, structure, sweeps,
                       internalStructure, blocks));
  }

  // ----- never repainting -----------------------------------------------------------------------

  /** The append-only streams: everything the analysis of the first `k` candles shows is exactly what the whole analysis
      had shown by then, in both scopes. */
  lemma {:induction false} NonRepainting(c: seq<Candle>, cfg: Config, k: nat)
    requires Series(c) && cfg.Valid() && 0 < k <= |c|
    ensures Series(c[..k])
    ensures var part, whole, asOf := Analyzed(c[..k], cfg), Analyzed(c, cfg), c[k - 1].ClosedAt();
            && KnownAt(part.swings, whole.swings, SwingTime(), asOf)
            && KnownAt(part.internalSwings, whole.internalSwings, SwingTime(), asOf)
            && KnownAt(part.displacements, whole.displacements, DisplacementTime(), asOf)
            && KnownAt(SmcGaps.RawGaps(c[..k], cfg), SmcGaps.RawGaps(c, cfg), SmcGaps.GapTime(), asOf)
            && KnownAt(part.structure, whole.structure, EventTime(), asOf)
            && KnownAt(part.sweeps, whole.sweeps, SweepTime(), asOf)
            && KnownAt(part.internalStructure, whole.internalStructure, EventTime(), asOf)
  {
    SeriesPrefix(c, k);
    hide Series, Swings, Displacements, EqualLevels, SmcGaps.RawGaps, SmcGaps.AllUpdated, SmcGaps.Inverses,
         Structure, Sweeps, Blocks, KnownAt;
    SwingsKnownAt(c, cfg.swingLeft, cfg.swingRight, External, k);
    SwingsKnownAt(c, cfg.internalLeft, cfg.internalRight, Internal, k);
    DisplacementsKnownAt(c, cfg, k);
    SmcGaps.RawGapsKnownAt(c, cfg, k);
    StructureKnownAt(c, cfg.swingLeft, cfg.swingRight, cfg, External, k);
    StructureKnownAt(c, cfg.internalLeft, cfg.internalRight, cfg, Internal, k);
  }

  /** Source order blocks are append-only too, and every one is an order block. */
  lemma {:induction false} SourceBlocksKnownAt(c: seq<Candle>, cfg: Config, k: nat)
    requires Series(c) && cfg.Valid() && 0 < k <= |c|
    ensures Series(c[..k])
    ensures SourceBlocks(c[..k], cfg) <= SourceBlocks(c, cfg)
    ensures forall b :: b in SourceBlocks(c, cfg) ==> b.kind == SmcBlocks.OrderBlock
    ensures forall i :: |SourceBlocks(c[..k], cfg)| <= i < |SourceBlocks(c, cfg)| ==>
                          SourceBlocks(c, cfg)[i].detectedAt > c[k - 1].ClosedAt()
  {
    SeriesPrefix(c, k);
    hide Structure, Displacements, SmcBlocks.RunSources, SmcBlocks.CloseIndex;
    StructureKnownAt(c, cfg.swingLeft, cfg.swingRight, cfg, External, k);
    StructureIndexed(c, cfg);
    StructureIndexed(c[..k], cfg);
    var part, whole := ExternalStructure(c[..k], cfg), ExternalStructure(c, cfg);
    assert part == whole[..|part|];
    forall e | e in part ensures SmcBlockHistory.ClosesWithin(c, k, e) {
      assert SmcBlockHistory.ClosesWithin(c[..k], k, e);
      var i: nat :| i < k && i < |c[..k]| && e.detectedAt == c[..k][i].ClosedAt();
      assert c[..k][i] == c[i];
    }
    SmcBlockHistory.WithinIndexed(c, k, part);
    SmcBlockHistory.SourcesPrefix(c, cfg, k, part);
    SmcBlockHistory.SourcesGrow(c, whole, |part|, ByKey(Displacements(c, cfg)), cfg);
    AllOrderBlocks(c, whole, ByKey(Displacements(c, cfg)), cfg);
  }

  lemma {:induction false} AllOrderBlocks(c: seq<Candle>, events: seq<Event>, byKey: map<(Direction, int), Displacement>, cfg: Config)
    requires SmcBlocks.Indexed(c, events) && SmcBlocks.IndexSound(c)
    ensures forall b :: b in SmcBlocks.RunSources(c, events, byKey, cfg).blocks ==> b.kind == SmcBlocks.OrderBlock
  {
    if events != [] {
      hide Lookup, SmcBlocks.LastOpposing, SmcBlocks.CloseIndex;
      var front := events[..|events| - 1];
      assert forall x :: x in front ==> x in events;
      AllOrderBlocks(c, front, byKey, cfg);
    }
  }

  /** Mitigation and breaker blocks neither vanish nor appear late. */
  lemma {:induction false} DerivedBlocksKnownAt(c: seq<Candle>, cfg: Config, k: nat, x: SmcBlocks.Block)
    requires Series(c) && cfg.Valid() && 0 < k <= |c| && x.kind != SmcBlocks.OrderBlock
    ensures Series(c[..k])
    ensures x in Blocks(c[..k], cfg) <==> x in Blocks(c, cfg) && x.detectedAt <= c[k - 1].ClosedAt()
  {
    hide SourceBlocks, SmcBlocks.Sorted, SmcBlocks.Contributions;
    SourceBlocksKnownAt(c, cfg, k);
    SmcBlockHistory.PublishedKnownAt(c, k, SourceBlocks(c[..k], cfg), SourceBlocks(c, cfg), x);
  }

  /** An order block once published stays published: later views keep its times and only move its status forward. */
  lemma {:induction false} OrderBlockKept(c: seq<Candle>, cfg: Config, k: nat, x: SmcBlocks.Block)
    requires Series(c) && cfg.Valid() && 0 < k <= |c| && Series(c[..k])
    requires x in Blocks(c[..k], cfg) && x.kind == SmcBlocks.OrderBlock
    ensures exists y :: y in Blocks(c, cfg) && SmcBlockHistory.LaterView(x, y)
  {
    hide SourceBlocks, SmcBlocks.Sorted, SmcBlocks.Contributions;
    SourceBlocksKnownAt(c, cfg, k);
    var y := SmcBlockHistory.PublishedLater(c, k, SourceBlocks(c[..k], cfg), SourceBlocks(c, cfg), x);
  }

  /** And no order block appears after the fact: one detected in time was already there. */
  lemma {:induction false} OrderBlockOnTime(c: seq<Candle>, cfg: Config, k: nat, y: SmcBlocks.Block)
    requires Series(c) && cfg.Valid() && 0 < k <= |c| && Series(c[..k])
    requires y in Blocks(c, cfg) && y.kind == SmcBlocks.OrderBlock && y.detectedAt <= c[k - 1].ClosedAt()
    ensures exists x :: x in Blocks(c[..k], cfg) && SmcBlockHistory.LaterView(x, y)
  {
    hide SourceBlocks, SmcBlocks.Sorted, SmcBlocks.Contributions;
    SourceBlocksKnownAt(c, cfg, k);
    var x := SmcBlockHistory.PublishedEarlier(c, k, SourceBlocks(c[..k], cfg), SourceBlocks(c, cfg), y);
  }
}
