/** Order-block history: what a longer series can and cannot change about the blocks of a shorter one. */
module SmcBlockHistory {
  import opened Domain
  import opened Stream
  import opened SmcSwings
  import opened SmcStructure
  import opened SmcBlocks

  // ----- one block ------------------------------------------------------------------------------

  function OverlapHit(b: Block): Candle -> bool {
    (x: Candle) => x.ClosedAt() > b.detectedAt && Overlaps(b, x)
  }

  function FailHit(b: Block): Candle -> bool {
    (x: Candle) => x.ClosedAt() > b.detectedAt && Fails(b, x)
  }

  /** Candle `i` is the block's first retest, and the block had not failed before it. */
  ghost predicate MitigatesAt(c: seq<Candle>, b: Block, i: nat) {
    IsFirst(c, OverlapHit(b), i) && forall j: nat :: j < i ==> !FailHit(b)(c[j])
  }

  /** Candle `i` is the first close through the block. */
  ghost predicate FailsAt(c: seq<Candle>, b: Block, i: nat) {
    IsFirst(c, FailHit(b), i)
  }

  ghost predicate DerivedAt(c: seq<Candle>, b: Block, i: nat, x: Block)
    requires i < |c|
  {
    (MitigatesAt(c, b, i) && x == MitigationOf(b, c[i])) || (FailsAt(c, b, i) && x == BreakerOf(b, c[i]))
  }

  ghost predicate TimeExact(c: seq<Candle>, n: nat, at: nat -> bool, t: Option<int>)
    requires n <= |c|
  {
    match t
    case None => forall i: nat :: i < n ==> !at(i)
    case Some(v) => exists i: nat :: i < n && at(i) && v == c[i].ClosedAt()
  }

  ghost function Mitigating(c: seq<Candle>, b: Block): nat -> bool {
    (i: nat) => MitigatesAt(c, b, i)
  }

  ghost function Failing(c: seq<Candle>, b: Block): nat -> bool {
    (i: nat) => FailsAt(c, b, i)
  }

  lemma {:induction false} TimeStep(c: seq<Candle>, n: nat, at: nat -> bool, t: Option<int>)
    requires n < |c| && TimeExact(c, n, at, t)
    ensures at(n) ==> TimeExact(c, n + 1, at, Some(c[n].ClosedAt()))
    ensures !at(n) ==> TimeExact(c, n + 1, at, t)
  {
    if t.Some? {
      var i: nat :| i < n && at(i) && t.value == c[i].ClosedAt();
      assert i < n + 1 && at(i);
    }
    assert n < n + 1;
  }

  /** What the loop does at candle `n`, in terms of the two predicates. */
  lemma {:induction false} StepMeaning(c: seq<Candle>, b: Block, n: nat, life: Life)
    requires n < |c|
    requires TimeExact(c, n, Mitigating(c, b), life.mitigatedAt) && TimeExact(c, n, Failing(c, b), life.invalidatedAt)
    ensures var live := life.invalidatedAt.None? && c[n].ClosedAt() > b.detectedAt;
            && (MitigatesAt(c, b, n) <==> live && Overlaps(b, c[n]) && life.mitigatedAt.None?)
            && (FailsAt(c, b, n) <==> live && Fails(b, c[n]))
  {
    hide Overlaps, Fails;
    if life.invalidatedAt.Some? {
      var i: nat :| i < n && Failing(c, b)(i);
      assert FailsAt(c, b, i) && FailHit(b)(c[i]);
    } else {
      forall i: nat | i < n ensures !IsFirst(c, FailHit(b), i) {
        assert !Failing(c, b)(i);
      }
      NoneBefore(c, FailHit(b), n);
    }
    if life.mitigatedAt.Some? {
      var i: nat :| i < n && Mitigating(c, b)(i);
      assert MitigatesAt(c, b, i) && OverlapHit(b)(c[i]);
    } else if life.invalidatedAt.None? {
      forall i: nat | i < n ensures !IsFirst(c, OverlapHit(b), i) {
        assert !Mitigating(c, b)(i);
      }
      NoneBefore(c, OverlapHit(b), n);
    }
  }

  /** With no first hit among the first `n` candles there is no hit at all. */
  lemma {:induction false} NoneBefore(c: seq<Candle>, hit: Candle -> bool, n: nat)
    requires n <= |c| && forall i: nat :: i < n ==> !IsFirst(c, hit, i)
    ensures forall i: nat :: i < n ==> !hit(c[i])
  {
    if n > 0 {
      NoneBefore(c, hit, n - 1);
      assert !IsFirst(c, hit, n - 1);
    }
  }

  ghost predicate DerivedExact(c: seq<Candle>, b: Block, n: nat, derived: seq<Block>)
    requires n <= |c|
  {
    forall x :: x in derived <==> exists i: nat :: i < n && DerivedAt(c, b, i, x)
  }

  lemma {:induction false} DerivedStep(c: seq<Candle>, b: Block, n: nat, derived: seq<Block>)
    requires n < |c| && DerivedExact(c, b, n, derived)
    ensures DerivedExact(c, b, n + 1,
              derived + If(MitigatesAt(c, b, n), MitigationOf(b, c[n])) + If(FailsAt(c, b, n), BreakerOf(b, c[n])))
  {
    hide MitigatesAt, FailsAt, MitigationOf, BreakerOf;
    var after := derived + If(MitigatesAt(c, b, n), MitigationOf(b, c[n])) + If(FailsAt(c, b, n), BreakerOf(b, c[n]));
    forall x
      ensures x in after <==> exists i: nat :: i < n + 1 && DerivedAt(c, b, i, x)
    {
      assert x in after <==> x in derived || DerivedAt(c, b, n, x);
      if x in derived {
        var i: nat :| i < n && DerivedAt(c, b, i, x);
        assert i < n + 1 && DerivedAt(c, b, i, x);
      }
      if i: nat :| i < n + 1 && DerivedAt(c, b, i, x) {
        if i < n {
          assert x in derived;
        }
      }
    }
  }

  function Count(o: Option<int>): nat {
    if o.Some? then 1 else 0
  }

  /** One step, in terms of the two predicates. */
  lemma {:induction false} StepLifeMeaning(c: seq<Candle>, b: Block, n: nat, life: Life)
    requires n < |c|
    requires TimeExact(c, n, Mitigating(c, b), life.mitigatedAt) && TimeExact(c, n, Failing(c, b), life.invalidatedAt)
    ensures var after := StepLife(life, b, c[n]);
            && after.mitigatedAt == (if Mitigating(c, b)(n) then Some(c[n].ClosedAt()) else life.mitigatedAt)
            && after.invalidatedAt == (if Failing(c, b)(n) then Some(c[n].ClosedAt()) else life.invalidatedAt)
            && after.derived == life.derived + If(MitigatesAt(c, b, n), MitigationOf(b, c[n])) + If(FailsAt(c, b, n), BreakerOf(b, c[n]))
            && (MitigatesAt(c, b, n) ==> life.mitigatedAt.None?)
            && (FailsAt(c, b, n) ==> life.invalidatedAt.None?)
  {
    StepMeaning(c, b, n, life);
    hide MitigatesAt, FailsAt, MitigationOf, BreakerOf, Overlaps, Fails, TimeExact;
    assert life.derived + [] + [] == life.derived;
  }

  lemma {:induction false} LifeStart(c: seq<Candle>, b: Block)
    ensures TimeExact(c, 0, Mitigating(c, b), None) && TimeExact(c, 0, Failing(c, b), None) && DerivedExact(c, b, 0, [])
  {
  }

  /** The lifecycle of a block, said without the loop: one mitigation at most, one breaker at most, and when. */
  lemma {:induction false} LifeExact(c: seq<Candle>, b: Block, n: nat)
    requires n <= |c|
    ensures var life := LifeAfter(c, b, n);
            && TimeExact(c, n, Mitigating(c, b), life.mitigatedAt)
            && TimeExact(c, n, Failing(c, b), life.invalidatedAt)
            && DerivedExact(c, b, n, life.derived)
            && |life.derived| == Count(life.mitigatedAt) + Count(life.invalidatedAt)
  {
    hide StepLife, MitigatesAt, FailsAt, MitigationOf, BreakerOf, TimeExact, DerivedExact;
    if n == 0 {
      LifeStart(c, b);
    } else {
      LifeExact(c, b, n - 1);
      var life := LifeAfter(c, b, n - 1);
      StepLifeMeaning(c, b, n - 1, life);
      TimeStep(c, n - 1, Mitigating(c, b), life.mitigatedAt);
      TimeStep(c, n - 1, Failing(c, b), life.invalidatedAt);
      DerivedStep(c, b, n - 1, life.derived);
    }
  }

  lemma {:induction false} LifePrefix(c: seq<Candle>, b: Block, n: nat, k: nat)
    requires n <= k <= |c|
    ensures LifeAfter(c[..k], b, n) == LifeAfter(c, b, n)
  {
    if n > 0 {
      LifePrefix(c, b, n - 1, k);
    }
  }

  /** Derived blocks neither vanish nor appear late. */
  lemma {:induction false} DerivedKnownAt(c: seq<Candle>, b: Block, k: nat, x: Block)
    requires Series(c) && 0 < k <= |c|
    ensures x in LifeAfter(c[..k], b, k).derived <==>
            x in LifeAfter(c, b, |c|).derived && x.detectedAt <= c[k - 1].ClosedAt()
  {
    hide MitigatesAt, FailsAt, LifeAfter, TimeExact;
    LifePrefix(c, b, k, k);
    LifeExact(c, b, k);
    LifeExact(c, b, |c|);
    if x in LifeAfter(c, b, |c|).derived {
      var i: nat :| i < |c| && DerivedAt(c, b, i, x);
      assert x.detectedAt == c[i].ClosedAt();
      assert i < k <==> x.detectedAt <= c[k - 1].ClosedAt();
    }
    if x in LifeAfter(c, b, k).derived {
      var i: nat :| i < k && DerivedAt(c, b, i, x);
    }
  }

  lemma {:induction false} DerivedKinds(c: seq<Candle>, b: Block, n: nat, x: Block)
    requires n <= |c| && x in LifeAfter(c, b, n).derived
    ensures x.kind != OrderBlock && x.detectedAt > b.detectedAt
    ensures x.kind == BreakerBlock ==> x.direction == Opposite(b.direction)
    ensures x.kind == MitigationBlock ==> x.direction == b.direction
  {
    hide LifeAfter, TimeExact, Overlaps, Fails;
    LifeExact(c, b, n);
    var i: nat :| i < n && DerivedAt(c, b, i, x);
  }

  function Rank(s: BlockStatus): nat {
    match s
    case Active => 0
    case Mitigated => 1
    case Invalidated => 2
  }

  /** `b` is `a` as seen later: nothing recorded changes, and the status only moves forward. */
  ghost predicate LaterView(a: Block, b: Block) {
    && b == a.(status := b.status, mitigatedAt := b.mitigatedAt, invalidatedAt := b.invalidatedAt)
    && (a.mitigatedAt.Some? ==> b.mitigatedAt == a.mitigatedAt)
    && (a.invalidatedAt.Some? ==> b.invalidatedAt == a.invalidatedAt && b.mitigatedAt == a.mitigatedAt)
    && Rank(a.status) <= Rank(b.status)
  }

  lemma {:induction false} TimeStable(c: seq<Candle>, n: nat, m: nat, at: nat -> bool, s: Option<int>, t: Option<int>)
    requires n <= m <= |c| && TimeExact(c, n, at, s) && TimeExact(c, m, at, t)
    requires forall i: nat, j: nat :: at(i) && at(j) ==> i == j
    ensures s.Some? ==> t == s
  {
    if s.Some? {
      var i: nat :| i < n && at(i) && s.value == c[i].ClosedAt();
      if t.Some? {
        var j: nat :| j < m && at(j) && t.value == c[j].ClosedAt();
        assert i == j;
      }
    }
  }

  lemma {:induction false} UpdatedLater(c: seq<Candle>, b: Block, k: nat)
    requires Series(c) && k <= |c|
    ensures LaterView(Updated(c[..k], b), Updated(c, b))
  {
    hide Overlaps, Fails, TimeExact, DerivedExact, LifeAfter;
    LifePrefix(c, b, k, k);
    LifeExact(c, b, k);
    LifeExact(c, b, |c|);
    TimeStable(c, k, |c|, Mitigating(c, b), LifeAfter(c, b, k).mitigatedAt, LifeAfter(c, b, |c|).mitigatedAt);
    TimeStable(c, k, |c|, Failing(c, b), LifeAfter(c, b, k).invalidatedAt, LifeAfter(c, b, |c|).invalidatedAt);
    if LifeAfter(c, b, k).invalidatedAt.Some? {
      LifeDone(c, b, k, |c|);
    }
  }

  // ----- source blocks --------------------------------------------------------------------------

  lemma {:induction false} CloseIndexOf(c: seq<Candle>, i: nat, k: nat)
    requires Series(c) && i < k <= |c|
    ensures c[i].ClosedAt() in CloseIndex(c[..k]) && CloseIndex(c[..k])[c[i].ClosedAt()] == i
  {
    CloseIndexExact(c, k, c[i].ClosedAt());
    var j := CloseIndex(c[..k])[c[i].ClosedAt()];
    assert c[j].timestamp == c[i].timestamp;
  }

  lemma {:induction false} IndexIsSound(c: seq<Candle>)
    requires Series(c)
    ensures IndexSound(c)
  {
    forall t | t in CloseIndex(c) ensures CloseIndex(c)[t] <= |c| {
      assert c[..|c|] == c;
      CloseIndexExact(c, |c|, t);
    }
  }

  /** The event names the close of one of the first `k` candles. */
  ghost predicate ClosesWithin(c: seq<Candle>, k: nat, e: Event) {
    exists i: nat :: i < k && i < |c| && e.detectedAt == c[i].ClosedAt()
  }

  ghost predicate AllWithin(c: seq<Candle>, k: nat, events: seq<Event>) {
    forall e :: e in events ==> ClosesWithin(c, k, e)
  }

  lemma {:induction false} WithinIndexed(c: seq<Candle>, k: nat, events: seq<Event>)
    requires Series(c) && k <= |c| && AllWithin(c, k, events)
    ensures Indexed(c[..k], events) && Indexed(c, events)
  {
    forall e | e in events ensures e.detectedAt in CloseIndex(c[..k]) && e.detectedAt in CloseIndex(c) {
      var i: nat :| i < k && i < |c| && e.detectedAt == c[i].ClosedAt();
      CloseIndexOf(c, i, k);
      CloseIndexOf(c, i, |c|);
      assert c[..|c|] == c;
    }
  }

  lemma {:induction false} SourceStepPrefix(c: seq<Candle>, cfg: Config, k: nat, st: Sources, e: Event, i: nat)
    requires Series(c) && cfg.Valid() && i < k <= |c| && e.detectedAt == c[i].ClosedAt()
    ensures var a, b := ByKey(Displacements(c[..k], cfg)), ByKey(Displacements(c, cfg));
            var key := (e.direction, e.detectedAt);
            StepSource(st, e, c[..k], i, Lookup(a, key), cfg) == StepSource(st, e, c, i, Lookup(b, key), cfg)
  {
    hide Displacements, LastOpposing, BlockOf, Lookup;
    SameDisplacement(c, cfg, i, k, e.direction);
    var lo := MaxInt(0, i - cfg.blockLookback);
    assert c[..k][lo..i] == c[lo..i];
  }

  /** The same events give the same source blocks in a prefix and in the whole series. */
  lemma {:induction false} SourcesPrefix(c: seq<Candle>, cfg: Config, k: nat, events: seq<Event>)
    requires Series(c) && cfg.Valid() && k <= |c| && AllWithin(c, k, events)
    requires Indexed(c[..k], events) && Indexed(c, events) && IndexSound(c[..k]) && IndexSound(c)
    ensures RunSources(c[..k], events, ByKey(Displacements(c[..k], cfg)), cfg)
            == RunSources(c, events, ByKey(Displacements(c, cfg)), cfg)
  {
    if events != [] {
      hide Displacements, StepSource, Lookup;
      var front, e := events[..|events| - 1], events[|events| - 1];
      assert forall x :: x in front ==> x in events;
      SourcesPrefix(c, cfg, k, front);
      assert e in events;
      var i: nat :| i < k && i < |c| && e.detectedAt == c[i].ClosedAt();
      CloseIndexOf(c, i, k);
      CloseIndexOf(c, i, |c|);
      assert c[..|c|] == c;
      SourceStepPrefix(c, cfg, k, RunSources(c, front, ByKey(Displacements(c, cfg)), cfg), e, i);
    }
  }

  ghost predicate FromEvents(blocks: seq<Block>, from: nat, events: seq<Event>, lo: nat) {
    forall i :: from <= i < |blocks| ==>
      blocks[i].kind == OrderBlock && exists j :: lo <= j < |events| && blocks[i].detectedAt == events[j].detectedAt
  }

  /** More events only append source blocks, each stamped by one of the new events. */
  lemma {:induction false} SourcesGrow(c: seq<Candle>, events: seq<Event>, m: nat, byKey: map<(Direction, int), Displacement>, cfg: Config)
    requires Indexed(c, events) && IndexSound(c) && m <= |events|
    requires Indexed(c, events[..m])
    ensures RunSources(c, events[..m], byKey, cfg).blocks <= RunSources(c, events, byKey, cfg).blocks
    ensures FromEvents(RunSources(c, events, byKey, cfg).blocks, |RunSources(c, events[..m], byKey, cfg).blocks|, events, m)
    decreases |events|
  {
    if m == |events| {
      assert events[..m] == events;
    } else {
      hide Lookup, LastOpposing;
      var front, e := events[..|events| - 1], events[|events| - 1];
      assert forall x :: x in front ==> x in events;
      assert front[..m] == events[..m];
      SourcesGrow(c, front, m, byKey, cfg);
      var st := RunSources(c, front, byKey, cfg);
      var after := RunSources(c, events, byKey, cfg).blocks;
      var from := |RunSources(c, events[..m], byKey, cfg).blocks|;
      forall i | from <= i < |after|
        ensures after[i].kind == OrderBlock && exists j :: m <= j < |events| && after[i].detectedAt == events[j].detectedAt
      {
        if i < |st.blocks| {
          var j :| m <= j < |front| && st.blocks[i].detectedAt == front[j].detectedAt;
          assert front[j] == events[j];
        } else {
          assert after[i].detectedAt == events[|events| - 1].detectedAt;
        }
      }
    }
  }

  lemma {:induction false} ContributionMember(c: seq<Candle>, blocks: seq<Block>, x: Block)
    ensures x in Contributions(c, blocks) <==> exists i :: 0 <= i < |blocks| && x in Contribution(c, blocks[i])
  {
    hide Contribution;
    if blocks != [] {
      var front := blocks[..|blocks| - 1];
      assert forall i :: 0 <= i < |front| ==> front[i] == blocks[i];
      ContributionMember(c, blocks[..|blocks| - 1], x);
    }
  }

  /** The derived part of the published list. */
  lemma {:induction false} DerivedPublished(c: seq<Candle>, blocks: seq<Block>, x: Block)
    requires x.kind != OrderBlock
    requires forall b :: b in blocks ==> b.kind == OrderBlock
    ensures x in Sorted(Contributions(c, blocks)) <==>
            exists i :: 0 <= i < |blocks| && x in LifeAfter(c, blocks[i], |c|).derived
  {
    hide LifeAfter, Sorted, Contributions;
    SortedMember(Contributions(c, blocks), x);
    ContributionMember(c, blocks, x);
    forall i | 0 <= i < |blocks|
      ensures x in Contribution(c, blocks[i]) <==> x in LifeAfter(c, blocks[i], |c|).derived
    {
      assert blocks[i] in blocks;
    }
  }

  /** The order-block part of the published list. */
  lemma {:induction false} SourcePublished(c: seq<Candle>, blocks: seq<Block>, x: Block)
    requires x.kind == OrderBlock
    ensures x in Sorted(Contributions(c, blocks)) <==> exists i :: 0 <= i < |blocks| && x == Updated(c, blocks[i])
  {
    hide LifeAfter, Sorted, Contributions, Updated;
    SortedMember(Contributions(c, blocks), x);
    ContributionMember(c, blocks, x);
    forall i | 0 <= i < |blocks|
      ensures x in Contribution(c, blocks[i]) <==> x == Updated(c, blocks[i])
    {
      forall y | y in LifeAfter(c, blocks[i], |c|).derived ensures y.kind != OrderBlock {
        DerivedKinds(c, blocks[i], |c|, y);
      }
      assert Contribution(c, blocks[i])[|LifeAfter(c, blocks[i], |c|).derived|] == Updated(c, blocks[i]);
    }
  }

  /** What the published lists of a prefix and of the whole have in common, given their source blocks. */
  lemma {:induction false} PublishedKnownAt(c: seq<Candle>, k: nat, part: seq<Block>, whole: seq<Block>, x: Block)
    requires Series(c) && 0 < k <= |c| && part <= whole
    requires forall b :: b in whole ==> b.kind == OrderBlock
    requires forall i :: |part| <= i < |whole| ==> whole[i].detectedAt > c[k - 1].ClosedAt()
    requires x.kind != OrderBlock
    ensures x in Sorted(Contributions(c[..k], part)) <==>
            x in Sorted(Contributions(c, whole)) && x.detectedAt <= c[k - 1].ClosedAt()
  {
    hide LifeAfter, Sorted, Contributions;
    forall b | b in part ensures b in whole {
      var i :| 0 <= i < |part| && part[i] == b;
      assert whole[i] == b;
    }
    DerivedPublished(c[..k], part, x);
    DerivedPublished(c, whole, x);
    forall i | 0 <= i < |whole|
      ensures i < |part| ==> (x in LifeAfter(c[..k], part[i], k).derived <==>
                              x in LifeAfter(c, whole[i], |c|).derived && x.detectedAt <= c[k - 1].ClosedAt())
      ensures i >= |part| && x in LifeAfter(c, whole[i], |c|).derived ==> x.detectedAt > c[k - 1].ClosedAt()
    {
      if i < |part| {
        DerivedKnownAt(c, whole[i], k, x);
      } else if x in LifeAfter(c, whole[i], |c|).derived {
        DerivedKinds(c, whole[i], |c|, x);
      }
    }
  }

  /** Every order block of the prefix is published later as a later view of itself. */
  lemma {:induction false} PublishedLater(c: seq<Candle>, k: nat, part: seq<Block>, whole: seq<Block>, x: Block) returns (y: Block)
    requires Series(c) && 0 < k <= |c| && part <= whole
    requires forall b :: b in whole ==> b.kind == OrderBlock
    requires x.kind == OrderBlock && x in Sorted(Contributions(c[..k], part))
    ensures y in Sorted(Contributions(c, whole)) && LaterView(x, y)
  {
    hide LifeAfter, Sorted, Contributions, Updated;
    SourcePublished(c[..k], part, x);
    var i :| 0 <= i < |part| && x == Updated(c[..k], part[i]);
    y := Updated(c, whole[i]);
    UpdatedLater(c, whole[i], k);
    SourcePublished(c, whole, y);
  }

  /** And every order block of the whole that was detected in time was already published by the prefix. */
  lemma {:induction false} PublishedEarlier(c: seq<Candle>, k: nat, part: seq<Block>, whole: seq<Block>, y: Block) returns (x: Block)
    requires Series(c) && 0 < k <= |c| && part <= whole
    requires forall b :: b in whole ==> b.kind == OrderBlock
    requires forall i :: |part| <= i < |whole| ==> whole[i].detectedAt > c[k - 1].ClosedAt()
    requires y.kind == OrderBlock && y in Sorted(Contributions(c, whole)) && y.detectedAt <= c[k - 1].ClosedAt()
    ensures x in Sorted(Contributions(c[..k], part)) && LaterView(x, y)
  {
    hide LifeAfter, Sorted, Contributions;
    SourcePublished(c, whole, y);
    var i :| 0 <= i < |whole| && y == Updated(c, whole[i]);
    x := Updated(c[..k], whole[i]);
    UpdatedLater(c, whole[i], k);
    SourcePublished(c[..k], part, x);
  }
}
