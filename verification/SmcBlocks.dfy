/** Order blocks, and the mitigation and breaker blocks their lifecycle publishes. */
module SmcBlocks {
  import opened Domain
  import opened Stream
  import opened SmcSwings
  import opened SmcStructure

  datatype BlockKind = OrderBlock | MitigationBlock | BreakerBlock

  datatype BlockStatus = Active | Mitigated | Invalidated

  datatype Block = Block(
    kind: BlockKind,
    direction: Direction,
    lower: real,
    upper: real,
    originTimestamp: int,
    detectedAt: int,
    status: BlockStatus,
    mitigatedAt: Option<int>,
    invalidatedAt: Option<int>,
    evidence: set<int>)

  // ----- source blocks --------------------------------------------------------------------------

  function CloseIndex(c: seq<Candle>): map<int, nat> {
    if c == [] then map[] else CloseIndex(c[..|c| - 1])[c[|c| - 1].ClosedAt() := |c| - 1]
  }

  lemma {:induction false} CloseIndexExact(c: seq<Candle>, n: nat, t: int)
    requires Series(c) && n <= |c|
    ensures t in CloseIndex(c[..n]) <==> exists i: nat :: i < n && c[i].ClosedAt() == t
    ensures t in CloseIndex(c[..n]) ==> CloseIndex(c[..n])[t] < n && c[CloseIndex(c[..n])[t]].ClosedAt() == t
  {
    if n > 0 {
      assert c[..n][..n - 1] == c[..n - 1];
      CloseIndexExact(c, n - 1, t);
    }
  }

  predicate Opposing(d: Direction, x: Candle) {
    match d
    case Bullish => x.close < x.open
    case Bearish => x.close > x.open
  }

  /** The last candle of a window that opposes the break. */
  function LastOpposing(window: seq<Candle>, d: Direction): Option<Candle> {
    if window == [] then None
    else if Opposing(d, window[|window| - 1]) then Some(window[|window| - 1])
    else LastOpposing(window[..|window| - 1], d)
  }

  method FindLastOpposing(window: seq<Candle>, d: Direction) returns (origin: Option<Candle>)
    ensures origin == LastOpposing(window, d)
  {
    assert window[..|window|] == window;
    var i := |window|;
    while i > 0
      invariant 0 <= i <= |window|
      invariant LastOpposing(window, d) == LastOpposing(window[..i], d)
    {
      assert window[..i][..i - 1] == window[..i - 1];
      i := i - 1;
      if Opposing(d, window[i]) {
        return Some(window[i]);
      }
    }
    return None;
  }

  function BlockOf(e: Event, origin: Candle, displacement: Displacement): Block {
    Block(OrderBlock, e.direction, origin.low, origin.high, origin.timestamp, e.detectedAt, Active, None, None,
          {origin.timestamp} + e.evidence + set t | t in displacement.evidence)
  }

  function Lookback(c: seq<Candle>, cfg: Config, breakIndex: nat): seq<Candle>
    requires breakIndex <= |c|
  {
    c[MaxInt(0, breakIndex - cfg.blockLookback)..breakIndex]
  }

  datatype Sources = Sources(blocks: seq<Block>, seen: set<(Direction, int)>)

  /** One structure event: a block when it is displaced, unseen, and an opposing candle precedes it. */
  function StepSource(st: Sources, e: Event, c: seq<Candle>, breakIndex: nat, displacement: Option<Displacement>, cfg: Config): Sources
    requires breakIndex <= |c|
  {
    var key := (e.direction, e.detectedAt);
    if displacement.None? || key in st.seen then st
    else
      var origin := LastOpposing(Lookback(c, cfg, breakIndex), e.direction);
      if origin.None? then st
      else Sources(st.blocks + [BlockOf(e, origin.value, displacement.value)], st.seen + {key})
  }

  /** Every event names the close of a candle of the series. */
  ghost predicate Indexed(c: seq<Candle>, events: seq<Event>) {
    forall e :: e in events ==> e.detectedAt in CloseIndex(c)
  }

  ghost predicate IndexSound(c: seq<Candle>) {
    forall t :: t in CloseIndex(c) ==> CloseIndex(c)[t] <= |c|
  }

  function RunSources(c: seq<Candle>, events: seq<Event>, byKey: map<(Direction, int), Displacement>, cfg: Config): Sources
    requires Indexed(c, events) && IndexSound(c)
  {
    if events == [] then Sources([], {})
    else
      var e := events[|events| - 1];
      assert forall x :: x in events[..|events| - 1] ==> x in events;
      StepSource(RunSources(c, events[..|events| - 1], byKey, cfg), e, c, CloseIndex(c)[e.detectedAt],
                 Lookup(byKey, (e.direction, e.detectedAt)), cfg)
  }

  method IndexCloses(c: seq<Candle>) returns (m: map<int, nat>)
    ensures m == CloseIndex(c)
  {
    m := map[];
    for i := 0 to |c|
      invariant m == CloseIndex(c[..i])
    {
      assert c[..i + 1][..i] == c[..i];
      m := m[c[i].ClosedAt() := i];
    }
    assert c[..|c|] == c;
  }

  method SourceBlocks(c: seq<Candle>, structure: seq<Event>, displacements: seq<Displacement>, cfg: Config)
    returns (blocks: seq<Block>)
    requires Indexed(c, structure) && IndexSound(c)
    ensures blocks == RunSources(c, structure, ByKey(displacements), cfg).blocks
  {
    hide LastOpposing, Lookup;
    var byKey := IndexByKey(displacements);
    var index := IndexCloses(c);
    blocks := [];
    var seen: set<(Direction, int)> := {};
    for i := 0 to |structure|
      invariant Indexed(c, structure[..i])
      invariant Sources(blocks, seen) == RunSources(c, structure[..i], byKey, cfg)
    {
      assert structure[..i + 1][..i] == structure[..i];
      var e := structure[i];
      assert e in structure;
      var key := (e.direction, e.detectedAt);
      var displacement := Lookup(byKey, key);
      if displacement.None? || key in seen {
        continue;
      }
      var breakIndex := index[e.detectedAt];
      var origin := FindLastOpposing(Lookback(c, cfg, breakIndex), e.direction);
      if origin.None? {
        continue;
      }
      blocks := blocks + [BlockOf(e, origin.value, displacement.value)];
      seen := seen + {key};
    }
    assert structure[..|structure|] == structure;
  }

  // ----- which events yield a block -------------------------------------------------------------

  /** The last opposing candle, without the search. */
  lemma {:induction false} LastOpposingExact(window: seq<Candle>, d: Direction, x: Candle)
    ensures LastOpposing(window, d) == Some(x) <==>
              exists m :: 0 <= m < |window| && window[m] == x && Opposing(d, x) && forall k :: m < k < |window| ==> !Opposing(d, window[k])
    ensures LastOpposing(window, d).None? <==> forall k :: 0 <= k < |window| ==> !Opposing(d, window[k])
  {
    hide Opposing;
    if window != [] {
      var n := |window| - 1;
      LastOpposingExact(window[..n], d, x);
      if Opposing(d, window[n]) {
        assert window[n] == x ==> 0 <= n < |window| && window[n] == x;
      } else {
        assert forall k :: 0 <= k < n ==> window[..n][k] == window[k];
        if m :| 0 <= m < n && window[..n][m] == x && Opposing(d, x) && forall k :: m < k < n ==> !Opposing(d, window[..n][k]) {
          assert window[m] == x;
        }
      }
    }
  }

  function KeyOf(e: Event): (Direction, int) {
    (e.direction, e.detectedAt)
  }

  /** The origin an event would have, whatever came before it. */
  function OriginOf(c: seq<Candle>, e: Event, byKey: map<(Direction, int), Displacement>, cfg: Config): Option<Candle>
    requires e.detectedAt in CloseIndex(c) && IndexSound(c)
  {
    if Lookup(byKey, KeyOf(e)).None? then None
    else LastOpposing(Lookback(c, cfg, CloseIndex(c)[e.detectedAt]), e.direction)
  }

  /** No earlier event has the same direction and instant. */
  ghost predicate FirstOfKey(events: seq<Event>, i: nat)
    requires i < |events|
  {
    forall j :: 0 <= j < i ==> KeyOf(events[j]) != KeyOf(events[i])
  }

  ghost predicate Yields(c: seq<Candle>, events: seq<Event>, byKey: map<(Direction, int), Displacement>, cfg: Config, i: nat, b: Block)
    requires Indexed(c, events) && IndexSound(c)
  {
    && i < |events| && FirstOfKey(events, i)
    && events[i] in events
    && OriginOf(c, events[i], byKey, cfg).Some?
    && b == BlockOf(events[i], OriginOf(c, events[i], byKey, cfg).value, Lookup(byKey, KeyOf(events[i])).value)
  }

  lemma {:induction false} FrontIndexed(c: seq<Candle>, events: seq<Event>)
    requires Indexed(c, events) && events != []
    ensures Indexed(c, events[..|events| - 1]) && events[|events| - 1].detectedAt in CloseIndex(c)
  {
    hide CloseIndex;
    assert events[|events| - 1] in events;
  }

  /** What has been seen: the keys of the events that had an origin. */
  lemma {:induction false} SeenExact(c: seq<Candle>, events: seq<Event>, byKey: map<(Direction, int), Displacement>, cfg: Config, key: (Direction, int))
    requires Indexed(c, events) && IndexSound(c)
    ensures key in RunSources(c, events, byKey, cfg).seen <==>
              exists j :: 0 <= j < |events| && events[j] in events && KeyOf(events[j]) == key && OriginOf(c, events[j], byKey, cfg).Some?
  {
    hide CloseIndex, IndexSound, LastOpposing, Lookback, Lookup;
    if events != [] {
      var n := |events| - 1;
      var front, e := events[..n], events[n];
      FrontIndexed(c, events);
      SeenExact(c, front, byKey, cfg, key);
      SeenExact(c, front, byKey, cfg, KeyOf(e));
      assert forall j :: 0 <= j < n ==> front[j] == events[j];
      assert events[n] in events;
    }
  }

  /**
   * The source blocks are those of the events that are the first with their direction and instant, are displaced, and
   * have an opposing candle within the lookback.
   */
  lemma {:induction false} SourcesExact(c: seq<Candle>, events: seq<Event>, byKey: map<(Direction, int), Displacement>, cfg: Config, b: Block)
    requires Indexed(c, events) && IndexSound(c)
    ensures b in RunSources(c, events, byKey, cfg).blocks <==> exists i: nat :: Yields(c, events, byKey, cfg, i, b)
  {
    hide CloseIndex, IndexSound, LastOpposing, Lookback, Lookup, BlockOf;
    if events != [] {
      var n := |events| - 1;
      var front, e := events[..n], events[n];
      FrontIndexed(c, events);
      SourcesExact(c, front, byKey, cfg, b);
      SeenExact(c, front, byKey, cfg, KeyOf(e));
      assert forall j :: 0 <= j < n ==> front[j] == events[j];
      assert events[n] in events;
      forall i: nat | i < n ensures Yields(c, front, byKey, cfg, i, b) <==> Yields(c, events, byKey, cfg, i, b) {
        assert front[i] in front && events[i] in events;
      }
      var before, after := RunSources(c, front, byKey, cfg), RunSources(c, events, byKey, cfg);
      if OriginOf(c, e, byKey, cfg).Some? {
        forall j | 0 <= j < n && KeyOf(events[j]) == KeyOf(e) ensures OriginOf(c, front[j], byKey, cfg).Some? && front[j] in front {
        }
        assert KeyOf(e) !in before.seen <==> FirstOfKey(events, n);
        var mine := BlockOf(e, OriginOf(c, e, byKey, cfg).value, Lookup(byKey, KeyOf(e)).value);
        assert after.blocks == if FirstOfKey(events, n) then before.blocks + [mine] else before.blocks;
        assert Yields(c, events, byKey, cfg, n, b) <==> FirstOfKey(events, n) && b == mine;
      } else {
        assert after == before && !Yields(c, events, byKey, cfg, n, b);
      }
      if i: nat :| Yields(c, front, byKey, cfg, i, b) {
        assert Yields(c, events, byKey, cfg, i, b);
      }
    }
  }

  // ----- lifecycle of one block -----------------------------------------------------------------

  predicate Overlaps(b: Block, x: Candle) {
    x.low <= b.upper && x.high >= b.lower
  }

  predicate Fails(b: Block, x: Candle) {
    match b.direction
    case Bullish => x.close < b.lower
    case Bearish => x.close > b.upper
  }

  function MitigationOf(b: Block, x: Candle): Block {
    Block(MitigationBlock, b.direction, b.lower, b.upper, b.originTimestamp, x.ClosedAt(), Mitigated,
          Some(x.ClosedAt()), None, b.evidence + {x.timestamp})
  }

  function BreakerOf(b: Block, x: Candle): Block {
    Block(BreakerBlock, Opposite(b.direction), b.lower, b.upper, b.originTimestamp, x.ClosedAt(), Active,
          None, None, b.evidence + {x.timestamp})
  }

  datatype Life = Life(mitigatedAt: Option<int>, invalidatedAt: Option<int>, derived: seq<Block>)

  function StepLife(life: Life, b: Block, x: Candle): Life {
    if life.invalidatedAt.Some? || x.ClosedAt() <= b.detectedAt then life
    else
      var first := Overlaps(b, x) && life.mitigatedAt.None?;
      Life(if first then Some(x.ClosedAt()) else life.mitigatedAt,
           if Fails(b, x) then Some(x.ClosedAt()) else None,
           life.derived + If(first, MitigationOf(b, x)) + If(Fails(b, x), BreakerOf(b, x)))
  }

  function LifeAfter(c: seq<Candle>, b: Block, n: nat): Life
    requires n <= |c|
  {
    if n == 0 then Life(None, None, []) else StepLife(LifeAfter(c, b, n - 1), b, c[n - 1])
  }

  lemma {:induction false} LifeDone(c: seq<Candle>, b: Block, n: nat, m: nat)
    requires n <= m <= |c| && LifeAfter(c, b, n).invalidatedAt.Some?
    ensures LifeAfter(c, b, m) == LifeAfter(c, b, n)
  {
    if n < m {
      LifeDone(c, b, n, m - 1);
    }
  }

  function StatusOf(life: Life): BlockStatus {
    if life.invalidatedAt.Some? then Invalidated else if life.mitigatedAt.Some? then Mitigated else Active
  }

  function Updated(c: seq<Candle>, b: Block): Block {
    var life := LifeAfter(c, b, |c|);
    b.(status := StatusOf(life), mitigatedAt := life.mitigatedAt, invalidatedAt := life.invalidatedAt)
  }

  /** What one source block contributes: its mitigation and breaker, then itself, updated. */
  function Contribution(c: seq<Candle>, b: Block): seq<Block> {
    LifeAfter(c, b, |c|).derived + [Updated(c, b)]
  }

  function Contributions(c: seq<Candle>, blocks: seq<Block>): seq<Block> {
    if blocks == [] then [] else Contributions(c, blocks[..|blocks| - 1]) + Contribution(c, blocks[|blocks| - 1])
  }

  /** The loop over the candles for one source block. */
  method Track(c: seq<Candle>, b: Block) returns (contribution: seq<Block>)
    ensures contribution == Contribution(c, b)
  {
    hide Overlaps, Fails;
    contribution := [];
    var mitigatedAt: Option<int> := None;
    var invalidatedAt: Option<int> := None;
    var j := 0;
    while j < |c|
      invariant 0 <= j <= |c|
      invariant LifeAfter(c, b, j) == Life(mitigatedAt, None, contribution) && invalidatedAt.None?
    {
      var x := c[j];
      if x.ClosedAt() <= b.detectedAt {
        j := j + 1;
        continue;
      }
      ghost var before := contribution;
      ghost var first := Overlaps(b, x) && mitigatedAt.None?;
      if Overlaps(b, x) && mitigatedAt.None? {
        mitigatedAt := Some(x.ClosedAt());
        contribution := contribution + [MitigationOf(b, x)];
      }
      assert contribution == before + If(first, MitigationOf(b, x));
      if Fails(b, x) {
        invalidatedAt := Some(x.ClosedAt());
        contribution := contribution + [BreakerOf(b, x)];
        assert LifeAfter(c, b, j + 1) == Life(mitigatedAt, invalidatedAt, contribution);
        LifeDone(c, b, j + 1, |c|);
        break;
      }
      assert contribution == before + If(first, MitigationOf(b, x)) + If(Fails(b, x), BreakerOf(b, x));
      j := j + 1;
    }
    var status := if invalidatedAt.Some? then Invalidated else if mitigatedAt.Some? then Mitigated else Active;
    contribution := contribution + [b.(status := status, mitigatedAt := mitigatedAt, invalidatedAt := invalidatedAt)];
  }

  // ----- the published list ---------------------------------------------------------------------

  /** The order of the kinds' names. */
  function KindRank(k: BlockKind): nat {
    match k
    case BreakerBlock => 0
    case MitigationBlock => 1
    case OrderBlock => 2
  }

  predicate NotAfter(a: Block, b: Block) {
    a.detectedAt < b.detectedAt || (a.detectedAt == b.detectedAt && KindRank(a.kind) <= KindRank(b.kind))
  }

  /** Place `x` after everything that may precede it: the stable insertion. */
  function Place(s: seq<Block>, x: Block): seq<Block> {
    if s == [] || NotAfter(s[|s| - 1], x) then s + [x] else Place(s[..|s| - 1], x) + [s[|s| - 1]]
  }

  function Sorted(s: seq<Block>): seq<Block> {
    if s == [] then [] else Place(Sorted(s[..|s| - 1]), s[|s| - 1])
  }

  ghost predicate InOrder(s: seq<Block>) {
    forall i, j :: 0 <= i < j < |s| ==> NotAfter(s[i], s[j])
  }

  /** Detection and kind order all blocks. */
  lemma {:induction false} NotAfterOrders(a: Block, b: Block, x: Block)
    ensures NotAfter(a, b) || NotAfter(b, a)
    ensures NotAfter(a, b) && NotAfter(b, x) ==> NotAfter(a, x)
  {
  }

  lemma {:induction false} PlaceHolds(s: seq<Block>, x: Block)
    ensures multiset(Place(s, x)) == multiset(s) + multiset{x}
  {
    hide NotAfter;
    if s != [] && !NotAfter(s[|s| - 1], x) {
      PlaceHolds(s[..|s| - 1], x);
      assert s == s[..|s| - 1] + [s[|s| - 1]];
    }
  }

  lemma {:induction false} PlaceMember(s: seq<Block>, x: Block, y: Block)
    ensures y in Place(s, x) <==> y in s || y == x
  {
    hide NotAfter;
    if s != [] && !NotAfter(s[|s| - 1], x) {
      PlaceMember(s[..|s| - 1], x, y);
      assert s == s[..|s| - 1] + [s[|s| - 1]];
    }
  }

  lemma {:induction false} InOrderAppend(s: seq<Block>, x: Block)
    requires InOrder(s) && forall i :: 0 <= i < |s| ==> NotAfter(s[i], x)
    ensures InOrder(s + [x])
  {
    hide NotAfter;
  }

  lemma {:induction false} PlaceInOrder(s: seq<Block>, x: Block)
    requires InOrder(s)
    ensures InOrder(Place(s, x))
  {
    hide NotAfter;
    if s == [] || NotAfter(s[|s| - 1], x) {
      forall i | 0 <= i < |s| ensures NotAfter(s[i], x) {
        NotAfterOrders(s[i], s[|s| - 1], x);
        NotAfterOrders(s[i], s[i], s[i]);
      }
      InOrderAppend(s, x);
    } else {
      var front, last := s[..|s| - 1], s[|s| - 1];
      PlaceInOrder(front, x);
      var placed := Place(front, x);
      forall i | 0 <= i < |placed| ensures NotAfter(placed[i], last) {
        PlaceMember(front, x, placed[i]);
        NotAfterOrders(x, last, last);
      }
      hide InOrder;
      InOrderAppend(placed, last);
    }
  }

  /** The published list holds the same blocks, in order of detection and then of kind. */
  lemma {:induction false} SortedExact(s: seq<Block>)
    ensures InOrder(Sorted(s)) && multiset(Sorted(s)) == multiset(s)
  {
    if s != [] {
      assert s == s[..|s| - 1] + [s[|s| - 1]];
      SortedExact(s[..|s| - 1]);
      PlaceInOrder(Sorted(s[..|s| - 1]), s[|s| - 1]);
      PlaceHolds(Sorted(s[..|s| - 1]), s[|s| - 1]);
    }
  }

  lemma {:induction false} SortedMember(s: seq<Block>, x: Block)
    ensures x in Sorted(s) <==> x in s
  {
    SortedExact(s);
    assert x in multiset(Sorted(s)) <==> x in multiset(s);
  }

  method PriceBlocks(c: seq<Candle>, structure: seq<Event>, displacements: seq<Displacement>, cfg: Config)
    returns (result: seq<Block>)
    requires Indexed(c, structure) && IndexSound(c)
    ensures result == Sorted(Contributions(c, RunSources(c, structure, ByKey(displacements), cfg).blocks))
  {
    hide Contribution;
    var blocks := SourceBlocks(c, structure, displacements, cfg);
    var all: seq<Block> := [];
    for i := 0 to |blocks|
      invariant all == Contributions(c, blocks[..i])
    {
      assert blocks[..i + 1][..i] == blocks[..i];
      var contribution := Track(c, blocks[i]);
      all := all + contribution;
    }
    assert blocks[..|blocks|] == blocks;
    result := Sorted(all);
  }
}
