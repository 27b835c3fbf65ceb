/** Replaying one closed candle stream: the cursor engine. */
module Replay {
  import opened Domain

  /** The dataset is named by its digest. */
  datatype Checkpoint = Checkpoint(dataset: int, nextIndex: int)

  datatype Frame = Frame(candle: Candle, availableAt: int, index: int, total: int)

  /** What the engine accepts: at least one candle, all closed, one stream, strictly chronological. */
  ghost predicate Replayable(c: seq<Candle>) {
    && c != []
    && (forall i :: 0 <= i < |c| ==> c[i].isClosed)
    && (forall i :: 0 <= i < |c| ==> c[i].instrument == c[0].instrument && c[i].timeframe == c[0].timeframe)
    && (forall i, j :: 0 <= i < j < |c| ==> c[i].timestamp < c[j].timestamp)
  }

  predicate Accepts(c: seq<Candle>) {
    && c != []
    && (forall i :: 0 <= i < |c| ==> c[i].isClosed)
    && (forall i :: 0 <= i < |c| ==> c[i].instrument == c[0].instrument && c[i].timeframe == c[0].timeframe)
    && (forall i :: 1 <= i < |c| ==> c[i - 1].timestamp < c[i].timestamp)
  }

  lemma {:induction false} NeighboursOrdered(c: seq<Candle>, i: nat, j: nat)
    requires (forall k :: 1 <= k < |c| ==> c[k - 1].timestamp < c[k].timestamp) && i < j < |c|
    ensures c[i].timestamp < c[j].timestamp
    decreases j
  {
    if i + 1 < j {
      NeighboursOrdered(c, i, j - 1);
      assert c[j - 1].timestamp < c[j].timestamp;
    } else {
      assert c[i + 1 - 1].timestamp < c[i + 1].timestamp;
    }
  }

  lemma {:induction false} AcceptsExactly(c: seq<Candle>)
    ensures Accepts(c) <==> Replayable(c)
  {
    if Accepts(c) {
      forall i: nat, j: nat | i < j < |c| ensures c[i].timestamp < c[j].timestamp {
        NeighboursOrdered(c, i, j);
      }
    }
  }

  /** How many candles are available at an instant; the candles are in order of availability. */
  function CountAvailable(c: seq<Candle>, asOf: int): nat {
    if c == [] then 0 else if c[|c| - 1].ClosedAt() <= asOf then |c| else CountAvailable(c[..|c| - 1], asOf)
  }

  /** A seek exposes exactly the candles closed by then, and nothing later. */
  lemma {:induction false} CountAvailableExact(c: seq<Candle>, asOf: int)
    requires forall i, j :: 0 <= i < j < |c| ==> c[i].ClosedAt() < c[j].ClosedAt()
    ensures CountAvailable(c, asOf) <= |c|
    ensures forall i :: 0 <= i < |c| ==> (i < CountAvailable(c, asOf) <==> c[i].ClosedAt() <= asOf)
  {
    if c != [] && c[|c| - 1].ClosedAt() > asOf {
      CountAvailableExact(c[..|c| - 1], asOf);
    }
  }

  lemma {:induction false} ClosingOrdered(c: seq<Candle>)
    requires Replayable(c)
    ensures forall i, j :: 0 <= i < j < |c| ==> c[i].ClosedAt() < c[j].ClosedAt()
  {
  }

  class ReplayEngine {
    const candles: seq<Candle>
    const dataset: int
    var nextIndex: int

    ghost predicate Valid()
      reads this
    {
      Replayable(candles) && 0 <= nextIndex <= |candles|
    }

    constructor (candles: seq<Candle>, digest: seq<Candle> -> int)
      requires Accepts(candles)
      ensures Valid() && this.candles == candles && dataset == Named(digest, candles) && nextIndex == 0
    {
      this.candles := candles;
      dataset := Named(digest, candles);
      nextIndex := 0;
      new;
      AcceptsExactly(candles);
    }

    /** The next frame, and the cursor one on; nothing once complete. */
    method Step() returns (frame: Option<Frame>)
      requires Valid()
      modifies this`nextIndex
      ensures Valid()
      ensures old(nextIndex) == |candles| ==> frame.None? && nextIndex == old(nextIndex)
      ensures old(nextIndex) < |candles| ==>
                && nextIndex == old(nextIndex) + 1
                && frame == Some(Frame(candles[old(nextIndex)], candles[old(nextIndex)].ClosedAt(), old(nextIndex), |candles|))
    {
      if nextIndex == |candles| {
        return None;
      }
      var index := nextIndex;
      nextIndex := nextIndex + 1;
      return Some(Frame(candles[index], candles[index].ClosedAt(), index, |candles|));
    }

    method Snapshot() returns (seen: seq<Candle>)
      requires Valid()
      ensures seen == candles[..nextIndex]
    {
      return candles[..nextIndex];
    }

    /** Afterwards exactly the candles closed by `asOf` are exposed. */
    method Seek(asOf: int) returns (seen: seq<Candle>)
      requires Valid()
      modifies this`nextIndex
      ensures Valid() && nextIndex == CountAvailable(candles, asOf) && seen == candles[..nextIndex]
      ensures forall i :: 0 <= i < |candles| ==> (i < nextIndex <==> candles[i].ClosedAt() <= asOf)
    {
      ClosingOrdered(candles);
      CountAvailableExact(candles, asOf);
      nextIndex := CountAvailable(candles, asOf);
      seen := Snapshot();
    }

    function Position(): Checkpoint
      reads this
    {
      Checkpoint(dataset, nextIndex)
    }

    /** Restoring a checkpoint of the same dataset puts the cursor back; any other is refused and changes nothing. */
    method Restore(checkpoint: Checkpoint) returns (ok: bool)
      requires Valid()
      modifies this`nextIndex
      ensures Valid()
      ensures ok <==> checkpoint.dataset == dataset && 0 <= checkpoint.nextIndex <= |candles|
      ensures ok ==> Position() == checkpoint
      ensures !ok ==> nextIndex == old(nextIndex)
    {
      if checkpoint.dataset != dataset || !(0 <= checkpoint.nextIndex <= |candles|) {
        return false;
      }
      nextIndex := checkpoint.nextIndex;
      return true;
    }
  }

  function Named(digest: seq<Candle> -> int, candles: seq<Candle>): int {
    digest(candles)
  }

  /** A run broken off, checkpointed and resumed on a new engine emits what an unbroken run emits. */
  method ResumeElsewhere(candles: seq<Candle>, digest: seq<Candle> -> int, first: nat, second: nat)
    returns (frames: seq<Frame>, unbroken: seq<Frame>)
    requires Accepts(candles)
    ensures frames == unbroken
  {
    var a := new ReplayEngine(candles, digest);
    unbroken := Emit(a, first + second);
    var b := new ReplayEngine(candles, digest);
    var begun := Emit(b, first);
    var c := new ReplayEngine(candles, digest);
    var ok := c.Restore(b.Position());
    var rest := Emit(c, second);
    frames := begun + rest;
  }

  /** The frames of up to `count` steps from a cursor. */
  function FramesFrom(candles: seq<Candle>, start: int, count: nat): seq<Frame>
    requires 0 <= start <= |candles|
  {
    seq(MinInt(count, |candles| - start), i requires 0 <= i < MinInt(count, |candles| - start) =>
      Frame(candles[start + i], candles[start + i].ClosedAt(), start + i, |candles|))
  }

  method Emit(engine: ReplayEngine, count: nat) returns (frames: seq<Frame>)
    requires engine.Valid()
    modifies engine`nextIndex
    ensures engine.Valid() && engine.nextIndex == MinInt(old(engine.nextIndex) + count, |engine.candles|)
    ensures frames == FramesFrom(engine.candles, old(engine.nextIndex), count)
  {
    frames := [];
    for n := 0 to count
      invariant engine.Valid() && engine.nextIndex == MinInt(old(engine.nextIndex) + n, |engine.candles|)
      invariant frames == FramesFrom(engine.candles, old(engine.nextIndex), n)
    {
      var frame := engine.Step();
      if frame.Some? {
        frames := frames + [frame.value];
      }
    }
  }
}
