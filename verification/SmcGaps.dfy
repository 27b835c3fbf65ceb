/** Fair-value gaps, their lifecycle, and inverse gaps. */
module SmcGaps {
  import opened Domain
  import opened Stream
  import opened SmcSwings

  datatype Status = Active | Mitigated | Invalidated

  datatype Gap = Gap(
    direction: Direction,
    lower: real,
    upper: real,
    detectedAt: int,
    encroachment: real,
    status: Status,
    mitigatedAt: Option<int>,
    invalidatedAt: Option<int>,
    evidence: seq<int>)

  datatype InverseGap = InverseGap(
    direction: Direction,
    lower: real,
    upper: real,
    sourceDetectedAt: int,
    detectedAt: int,
    encroachment: real,
    evidence: seq<int>)

  // ----- raw gaps -------------------------------------------------------------------------------

  /** One candidate interval of a three-candle window. */
  function GapOf(d: Direction, lower: real, upper: real, window: seq<Candle>, cfg: Config): seq<Gap>
    requires lower > 0.0 && |window| > 0
  {
    if upper <= lower then []
    else
      var midpoint := (lower + upper) / 2.0;
      if (upper - lower) / midpoint * 100.0 < cfg.minimumGapPercent then []
      else [Gap(d, lower, upper, window[|window| - 1].ClosedAt(), midpoint, Active, None, None, Timestamps(window))]
  }

  /** The gaps a three-candle window publishes: the bullish candidate, then the bearish one. */
  function GapsOf(window: seq<Candle>, cfg: Config): seq<Gap>
    requires |window| == 3 && Series(window)
  {
    GapOf(Bullish, window[0].high, window[2].low, window, cfg) + GapOf(Bearish, window[2].high, window[0].low, window, cfg)
  }

  lemma {:induction false} SeriesSlice(c: seq<Candle>, i: nat, j: nat)
    requires Series(c) && i <= j <= |c|
    ensures Series(c[i..j])
  {
  }

  function GapsAt(c: seq<Candle>, cfg: Config, at: nat): seq<Gap>
    requires Series(c)
  {
    if 2 <= at < |c| then
      SeriesSlice(c, at - 2, at + 1);
      GapsOf(c[at - 2..at + 1], cfg)
    else []
  }

  function GapEmitter(c: seq<Candle>, cfg: Config): nat -> seq<Gap>
    requires Series(c)
  {
    (at: nat) => GapsAt(c, cfg, at)
  }

  function RawGaps(c: seq<Candle>, cfg: Config): seq<Gap>
    requires Series(c)
  {
    Collect(GapEmitter(c, cfg), |c|)
  }

  function GapTime(): Gap -> int {
    (g: Gap) => g.detectedAt
  }

  method Candidate(d: Direction, lower: real, upper: real, window: seq<Candle>, cfg: Config) returns (found: seq<Gap>)
    requires lower > 0.0 && |window| > 0
    ensures found == GapOf(d, lower, upper, window, cfg)
  {
    if upper <= lower {
      return [];
    }
    var midpoint := (lower + upper) / 2.0;
    var percent := (upper - lower) / midpoint * 100.0;
    if percent < cfg.minimumGapPercent {
      return [];
    }
    return [Gap(d, lower, upper, window[|window| - 1].ClosedAt(), midpoint, Active, None, None, Timestamps(window))];
  }

  method FairValueGaps(c: seq<Candle>, cfg: Config) returns (result: seq<Gap>)
    requires Series(c)
    ensures result == RawGaps(c, cfg)
  {
    hide GapOf;
    result := [];
    ghost var emit := GapEmitter(c, cfg);
    if |c| <= 2 {
      CollectNothing(emit, |c|);
      return;
    }
    CollectNothing(emit, 2);
    for at := 2 to |c|
      invariant result == Collect(emit, at)
    {
      SeriesSlice(c, at - 2, at + 1);
      var window := c[at - 2..at + 1];
      var bullish := Candidate(Bullish, window[0].high, window[2].low, window, cfg);
      var bearish := Candidate(Bearish, window[2].high, window[0].low, window, cfg);
      assert emit(at) == bullish + bearish;
      result := result + (bullish + bearish);
    }
  }

  /** A raw gap is active, has a positive width, and is stamped with its window's last close. */
  ghost predicate Fresh(g: Gap) {
    g.lower < g.upper && g.status == Active && g.mitigatedAt == None && g.invalidatedAt == None
  }

  lemma {:induction false} GapsOfStamped(window: seq<Candle>, cfg: Config, g: Gap)
    requires |window| == 3 && Series(window) && g in GapsOf(window, cfg)
    ensures g.detectedAt == window[2].ClosedAt() && Fresh(g)
  {
  }

  lemma {:induction false} RawGapStream(c: seq<Candle>, cfg: Config, k: nat)
    requires Series(c) && k <= |c|
    ensures Series(c[..k])
    ensures Stamped(GapEmitter(c, cfg), GapTime(), c)
    ensures Agree(GapEmitter(c[..k], cfg), GapEmitter(c, cfg), k)
  {
    hide GapsOf, Fresh;
    SeriesPrefix(c, k);
    forall at: nat, g: Gap | at < |c| && g in GapEmitter(c, cfg)(at)
      ensures g.detectedAt == c[at].ClosedAt()
    {
      SeriesSlice(c, at - 2, at + 1);
      GapsOfStamped(c[at - 2..at + 1], cfg, g);
    }
    forall at: nat | at < k
      ensures GapEmitter(c[..k], cfg)(at) == GapEmitter(c, cfg)(at)
    {
      if 2 <= at {
        assert c[..k][at - 2..at + 1] == c[at - 2..at + 1];
      }
    }
  }

  /** Raw gaps never repaint. */
  lemma {:induction false} RawGapsKnownAt(c: seq<Candle>, cfg: Config, k: nat)
    requires Series(c) && 0 < k <= |c|
    ensures Series(c[..k])
    ensures KnownAt(RawGaps(c[..k], cfg), RawGaps(c, cfg), GapTime(), c[k - 1].ClosedAt())
  {
    hide GapsAt;
    RawGapStream(c, cfg, k);
    CollectKnownAt(GapEmitter(c, cfg), GapEmitter(c[..k], cfg), GapTime(), c, k);
  }

  lemma {:induction false} RawGapsFresh(c: seq<Candle>, cfg: Config, g: Gap)
    requires Series(c) && g in RawGaps(c, cfg)
    ensures Fresh(g)
  {
    hide GapsOf, Fresh;
    CollectMember(GapEmitter(c, cfg), |c|, g);
    var at: nat :| at < |c| && g in GapEmitter(c, cfg)(at);
    SeriesSlice(c, at - 2, at + 1);
    GapsOfStamped(c[at - 2..at + 1], cfg, g);
  }

  // ----- lifecycle ------------------------------------------------------------------------------

  predicate Touches(g: Gap, x: Candle) {
    match g.direction
    case Bullish => x.low < g.upper
    case Bearish => x.high > g.lower
  }

  predicate Invalidates(g: Gap, x: Candle) {
    match g.direction
    case Bullish => x.low <= g.lower
    case Bearish => x.high >= g.upper
  }

  predicate Inverts(g: Gap, x: Candle) {
    match g.direction
    case Bullish => x.close < g.lower
    case Bearish => x.close > g.upper
  }

  function InverseOf(g: Gap, x: Candle): InverseGap {
    InverseGap(if g.direction == Bullish then Bearish else Bullish, g.lower, g.upper, g.detectedAt, x.ClosedAt(),
               g.encroachment, g.evidence + [x.timestamp])
  }

  /** What the inner loop carries; `done` once it has broken out. */
  datatype Life = Life(mitigatedAt: Option<int>, invalidatedAt: Option<int>, inverse: Option<InverseGap>, done: bool)

  function StepLife(life: Life, g: Gap, x: Candle): Life {
    if life.done || x.ClosedAt() <= g.detectedAt then life
    else
      Life(if Touches(g, x) && life.mitigatedAt.None? then Some(x.ClosedAt()) else life.mitigatedAt,
           if Invalidates(g, x) then Some(x.ClosedAt()) else life.invalidatedAt,
           if Inverts(g, x) then Some(InverseOf(g, x)) else life.inverse,
           Inverts(g, x) || Invalidates(g, x))
  }

  function LifeAfter(c: seq<Candle>, g: Gap, n: nat): Life
    requires n <= |c|
  {
    if n == 0 then Life(None, None, None, false) else StepLife(LifeAfter(c, g, n - 1), g, c[n - 1])
  }

  lemma {:induction false} LifeDone(c: seq<Candle>, g: Gap, n: nat, m: nat)
    requires n <= m <= |c| && LifeAfter(c, g, n).done
    ensures LifeAfter(c, g, m) == LifeAfter(c, g, n)
  {
    if n < m {
      LifeDone(c, g, n, m - 1);
    }
  }

  function StatusOf(life: Life): Status {
    if life.invalidatedAt.Some? then Invalidated else if life.mitigatedAt.Some? then Mitigated else Active
  }

  function Updated(c: seq<Candle>, g: Gap): Gap {
    var life := LifeAfter(c, g, |c|);
    g.(status := StatusOf(life), mitigatedAt := life.mitigatedAt, invalidatedAt := life.invalidatedAt)
  }

  function AllUpdated(c: seq<Candle>, gaps: seq<Gap>): seq<Gap> {
    if gaps == [] then [] else AllUpdated(c, gaps[..|gaps| - 1]) + [Updated(c, gaps[|gaps| - 1])]
  }

  function Inverses(c: seq<Candle>, gaps: seq<Gap>): seq<InverseGap> {
    if gaps == [] then []
    else
      var life := LifeAfter(c, gaps[|gaps| - 1], |c|);
      Inverses(c, gaps[..|gaps| - 1]) + (if life.inverse.Some? then [life.inverse.value] else [])
  }

  method GapLifecycle(c: seq<Candle>, gaps: seq<Gap>) returns (updated: seq<Gap>, inverse: seq<InverseGap>)
    ensures updated == AllUpdated(c, gaps)
    ensures inverse == Inverses(c, gaps)
  {
    updated, inverse := [], [];
    for i := 0 to |gaps|
      invariant updated == AllUpdated(c, gaps[..i])
      invariant inverse == Inverses(c, gaps[..i])
    {
      assert gaps[..i + 1][..i] == gaps[..i];
      var g := gaps[i];
      var mitigatedAt: Option<int> := None;
      var invalidatedAt: Option<int> := None;
      var opposite: Option<InverseGap> := None;
      var j := 0;
      while j < |c|
        invariant 0 <= j <= |c|
        invariant LifeAfter(c, g, j) == Life(mitigatedAt, invalidatedAt, opposite, false)
      {
        var x := c[j];
        if x.ClosedAt() <= g.detectedAt {
          j := j + 1;
          continue;
        }
        if Touches(g, x) && mitigatedAt.None? {
          mitigatedAt := Some(x.ClosedAt());
        }
        if Invalidates(g, x) {
          invalidatedAt := Some(x.ClosedAt());
        }
        if Inverts(g, x) {
          opposite := Some(InverseOf(g, x));
        }
        if Inverts(g, x) || Invalidates(g, x) {
          assert LifeAfter(c, g, j + 1) == Life(mitigatedAt, invalidatedAt, opposite, true);
          LifeDone(c, g, j + 1, |c|);
          break;
        }
        j := j + 1;
      }
      var status := if invalidatedAt.Some? then Invalidated else if mitigatedAt.Some? then Mitigated else Active;
      updated := updated + [g.(status := status, mitigatedAt := mitigatedAt, invalidatedAt := invalidatedAt)];
      if opposite.Some? {
        inverse := inverse + [opposite.value];
      }
    }
    assert gaps[..|gaps|] == gaps;
  }

  // ----- what the lifecycle means ---------------------------------------------------------------

  function TouchHit(g: Gap): Candle -> bool {
    (x: Candle) => x.ClosedAt() > g.detectedAt && Touches(g, x)
  }

  function InvalidHit(g: Gap): Candle -> bool {
    (x: Candle) => x.ClosedAt() > g.detectedAt && Invalidates(g, x)
  }

  /** On a candle that exists, closing through the far side implies trading at it, and that implies touching the gap. */
  lemma {:induction false} CandleOrder(g: Gap, x: Candle)
    requires x.Valid() && g.lower < g.upper
    ensures Inverts(g, x) ==> Invalidates(g, x)
    ensures Invalidates(g, x) ==> Touches(g, x)
  {
  }

  /** An inverse gap exists exactly when the first invalidating candle also closes through, and is that candle's. */
  ghost predicate InverseExact(c: seq<Candle>, g: Gap, n: nat, inverse: Option<InverseGap>)
    requires n <= |c|
  {
    match inverse
    case None => forall i: nat :: i < n && IsFirst(c, InvalidHit(g), i) ==> !Inverts(g, c[i])
    case Some(v) => exists i: nat :: i < n && IsFirst(c, InvalidHit(g), i) && Inverts(g, c[i]) && v == InverseOf(g, c[i])
  }

  lemma {:induction false} InverseStep(c: seq<Candle>, g: Gap, n: nat, invalidatedAt: Option<int>, inverse: Option<InverseGap>)
    requires Series(c) && n < |c| && g.lower < g.upper
    requires FirstHit(c, InvalidHit(g), n, invalidatedAt) && InverseExact(c, g, n, inverse)
    ensures InverseExact(c, g, n + 1,
              if invalidatedAt.None? && c[n].ClosedAt() > g.detectedAt && Inverts(g, c[n]) then Some(InverseOf(g, c[n])) else inverse)
  {
    CandleOrder(g, c[n]);
    if invalidatedAt.None? {
      if InvalidHit(g)(c[n]) {
        assert IsFirst(c, InvalidHit(g), n);
      }
    } else {
      var i: nat :| i < n && IsFirst(c, InvalidHit(g), i);
      assert !IsFirst(c, InvalidHit(g), n);
    }
    if inverse.Some? {
      var i: nat :| i < n && IsFirst(c, InvalidHit(g), i) && Inverts(g, c[i]) && inverse.value == InverseOf(g, c[i]);
      assert invalidatedAt.Some?;
    }
  }

  /** One step, in terms of the hits. */
  lemma {:induction false} StepMeaning(life: Life, g: Gap, x: Candle)
    requires life.done <==> life.invalidatedAt.Some?
    requires life.done ==> life.mitigatedAt.Some?
    requires x.Valid() && g.lower < g.upper
    ensures var after := StepLife(life, g, x);
            && after.mitigatedAt == (if life.mitigatedAt.None? && TouchHit(g)(x) then Some(x.ClosedAt()) else life.mitigatedAt)
            && after.invalidatedAt == (if life.invalidatedAt.None? && InvalidHit(g)(x) then Some(x.ClosedAt()) else life.invalidatedAt)
            && after.inverse == (if life.invalidatedAt.None? && x.ClosedAt() > g.detectedAt && Inverts(g, x)
                                 then Some(InverseOf(g, x)) else life.inverse)
            && (after.done <==> after.invalidatedAt.Some?)
            && (after.done ==> after.mitigatedAt.Some?)
  {
    CandleOrder(g, x);
    hide Touches, Invalidates, Inverts, InverseOf;
  }

  lemma {:induction false} LifeStart(c: seq<Candle>, g: Gap)
    ensures FirstHit(c, TouchHit(g), 0, None) && FirstHit(c, InvalidHit(g), 0, None) && InverseExact(c, g, 0, None)
  {
  }

  /** The lifecycle, said without the loop: first touch, first invalidation, and a close-through at that very candle. */
  lemma {:induction false} LifeExact(c: seq<Candle>, g: Gap, n: nat)
    requires Series(c) && n <= |c| && g.lower < g.upper
    ensures var life := LifeAfter(c, g, n);
            && FirstHit(c, TouchHit(g), n, life.mitigatedAt)
            && FirstHit(c, InvalidHit(g), n, life.invalidatedAt)
            && InverseExact(c, g, n, life.inverse)
            && (life.done <==> life.invalidatedAt.Some?)
            && (life.done ==> life.mitigatedAt.Some?)
  {
    hide StepLife, TouchHit, InvalidHit, Inverts, InverseOf, FirstHit, InverseExact;
    if n == 0 {
      LifeStart(c, g);
    } else {
      LifeExact(c, g, n - 1);
      var life := LifeAfter(c, g, n - 1);
      StepMeaning(life, g, c[n - 1]);
      FirstHitStep(c, TouchHit(g), n - 1, life.mitigatedAt);
      FirstHitStep(c, InvalidHit(g), n - 1, life.invalidatedAt);
      InverseStep(c, g, n - 1, life.invalidatedAt, life.inverse);
    }
  }

  function Rank(s: Status): nat {
    match s
    case Active => 0
    case Mitigated => 1
    case Invalidated => 2
  }

  lemma {:induction false} LifePrefix(c: seq<Candle>, g: Gap, n: nat, k: nat)
    requires n <= k <= |c|
    ensures LifeAfter(c[..k], g, n) == LifeAfter(c, g, n)
  {
    if n > 0 {
      LifePrefix(c, g, n - 1, k);
    }
  }

  lemma {:induction false} UpdatedAt(c: seq<Candle>, gaps: seq<Gap>, i: nat)
    requires i < |gaps|
    ensures |AllUpdated(c, gaps)| == |gaps| && AllUpdated(c, gaps)[i] == Updated(c, gaps[i])
  {
    hide Updated;
    if |gaps| == 1 {
    } else if i < |gaps| - 1 {
      UpdatedAt(c, gaps[..|gaps| - 1], i);
    } else {
      UpdatedAt(c, gaps[..|gaps| - 1], i - 1);
    }
  }

  /** `b` is `a` as seen later: nothing recorded changes, and the status only moves forward. */
  ghost predicate LaterView(a: Gap, b: Gap) {
    && b == a.(status := b.status, mitigatedAt := b.mitigatedAt, invalidatedAt := b.invalidatedAt)
    && (a.mitigatedAt.Some? ==> b.mitigatedAt == a.mitigatedAt)
    && (a.invalidatedAt.Some? ==> b.invalidatedAt == a.invalidatedAt)
    && Rank(a.status) <= Rank(b.status)
    && (b.invalidatedAt.Some? ==> b.mitigatedAt.Some? && b.mitigatedAt.value <= b.invalidatedAt.value)
  }

  lemma {:induction false} FirstHitOrder(c: seq<Candle>, g: Gap, n: nat, mitigated: Option<int>, invalidated: Option<int>)
    requires Series(c) && n <= |c| && g.lower < g.upper
    requires FirstHit(c, TouchHit(g), n, mitigated) && FirstHit(c, InvalidHit(g), n, invalidated)
    ensures invalidated.Some? ==> mitigated.Some? && mitigated.value <= invalidated.value
  {
    if invalidated.Some? {
      var i: nat :| i < n && IsFirst(c, InvalidHit(g), i) && invalidated.value == c[i].ClosedAt();
      CandleOrder(g, c[i]);
      assert TouchHit(g)(c[i]);
    }
  }

  lemma {:induction false} UpdatedLater(c: seq<Candle>, g: Gap, k: nat)
    requires Series(c) && k <= |c| && g.lower < g.upper
    ensures LaterView(Updated(c[..k], g), Updated(c, g))
  {
    hide TouchHit, InvalidHit, FirstHit, InverseExact;
    LifePrefix(c, g, k, k);
    LifeExact(c, g, k);
    LifeExact(c, g, |c|);
    FirstHitStable(c, TouchHit(g), k, |c|, LifeAfter(c, g, k).mitigatedAt, LifeAfter(c, g, |c|).mitigatedAt);
    FirstHitStable(c, InvalidHit(g), k, |c|, LifeAfter(c, g, k).invalidatedAt, LifeAfter(c, g, |c|).invalidatedAt);
    FirstHitOrder(c, g, |c|, LifeAfter(c, g, |c|).mitigatedAt, LifeAfter(c, g, |c|).invalidatedAt);
  }

  /** Gap history is never rewritten: gap by gap, the longer analysis is a later view of the shorter one. */
  lemma {:induction false} GapHistory(c: seq<Candle>, cfg: Config, k: nat, i: nat)
    requires Series(c) && 0 < k <= |c|
    requires Series(c[..k]) && i < |RawGaps(c[..k], cfg)|
    ensures i < |RawGaps(c, cfg)|
    ensures i < |AllUpdated(c[..k], RawGaps(c[..k], cfg))| && i < |AllUpdated(c, RawGaps(c, cfg))|
    ensures LaterView(AllUpdated(c[..k], RawGaps(c[..k], cfg))[i], AllUpdated(c, RawGaps(c, cfg))[i])
  {
    hide RawGaps, Updated, LaterView;
    RawGapsKnownAt(c, cfg, k);
    var part, whole := RawGaps(c[..k], cfg), RawGaps(c, cfg);
    assert part[i] in part && part[i] == whole[i];
    RawGapsFresh(c[..k], cfg, part[i]);
    UpdatedAt(c[..k], part, i);
    UpdatedAt(c, whole, i);
    UpdatedLater(c, part[i], k);
  }

  lemma {:induction false} InverseMember(c: seq<Candle>, gaps: seq<Gap>, v: InverseGap)
    ensures v in Inverses(c, gaps) <==> exists i :: 0 <= i < |gaps| && LifeAfter(c, gaps[i], |c|).inverse == Some(v)
  {
    if gaps != [] {
      hide LifeAfter;
      InverseMember(c, gaps[..|gaps| - 1], v);
    }
  }

  lemma {:induction false} InverseStable(c: seq<Candle>, g: Gap, k: nat, v: InverseGap)
    requires Series(c) && 0 < k <= |c| && g.lower < g.upper
    ensures LifeAfter(c, g, k).inverse == Some(v) <==>
            LifeAfter(c, g, |c|).inverse == Some(v) && v.detectedAt <= c[k - 1].ClosedAt()
  {
    hide Touches, Invalidates, Inverts, LifeAfter, FirstHit, TouchHit;
    LifeExact(c, g, k);
    LifeExact(c, g, |c|);
    var a, b := LifeAfter(c, g, k).inverse, LifeAfter(c, g, |c|).inverse;
    if a == Some(v) {
      var i: nat :| i < k && IsFirst(c, InvalidHit(g), i) && Inverts(g, c[i]) && v == InverseOf(g, c[i]);
      assert c[i].timestamp <= c[k - 1].timestamp;
      if b.Some? {
        var j: nat :| j < |c| && IsFirst(c, InvalidHit(g), j) && Inverts(g, c[j]) && b.value == InverseOf(g, c[j]);
        assert i == j;
      }
    }
    if b == Some(v) && v.detectedAt <= c[k - 1].ClosedAt() {
      var j: nat :| j < |c| && IsFirst(c, InvalidHit(g), j) && Inverts(g, c[j]) && v == InverseOf(g, c[j]);
      assert j < k;
      if a.Some? {
        var i: nat :| i < k && IsFirst(c, InvalidHit(g), i) && Inverts(g, c[i]) && a.value == InverseOf(g, c[i]);
        assert i == j;
      }
    }
  }

  /** Inverse gaps neither vanish nor appear late: a prefix shows exactly those already detected at its last close. */
  lemma {:induction false} InverseGapsKnownAt(c: seq<Candle>, cfg: Config, k: nat, v: InverseGap)
    requires Series(c) && 0 < k <= |c| && Series(c[..k])
    ensures v in Inverses(c[..k], RawGaps(c[..k], cfg)) <==>
            v in Inverses(c, RawGaps(c, cfg)) && v.detectedAt <= c[k - 1].ClosedAt()
  {
    hide RawGaps, LifeAfter;
    RawGapsKnownAt(c, cfg, k);
    var part, whole := RawGaps(c[..k], cfg), RawGaps(c, cfg);
    InverseMember(c[..k], part, v);
    InverseMember(c, whole, v);
    forall i | 0 <= i < |whole|
      ensures i < |part| ==> (LifeAfter(c[..k], part[i], k).inverse == Some(v) <==>
                              LifeAfter(c, whole[i], |c|).inverse == Some(v) && v.detectedAt <= c[k - 1].ClosedAt())
      ensures i >= |part| && LifeAfter(c, whole[i], |c|).inverse == Some(v) ==> v.detectedAt > c[k - 1].ClosedAt()
    {
      assert whole[i] in whole;
      RawGapsFresh(c, cfg, whole[i]);
      if i < |part| {
        assert part[i] == whole[i];
        LifePrefix(c, whole[i], k, k);
        InverseStable(c, whole[i], k, v);
      } else if LifeAfter(c, whole[i], |c|).inverse == Some(v) {
        InverseLater(c, whole[i], v);
      }
    }
  }

  lemma {:induction false} InverseLater(c: seq<Candle>, g: Gap, v: InverseGap)
    requires Series(c) && g.lower < g.upper && LifeAfter(c, g, |c|).inverse == Some(v)
    ensures v.detectedAt > g.detectedAt
  {
    hide Touches, Invalidates, Inverts, FirstHit, TouchHit;
    LifeExact(c, g, |c|);
  }
}
