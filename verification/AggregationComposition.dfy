/** Aggregating twice is aggregating once. */
module AggregationComposition {
  import opened Domain
  import opened Aggregation
  import opened AggregationLaws
  import opened Arith

  // ----- complete buckets are tiled -------------------------------------------------------------

  function Slot(b: int, base: int, i: int): int {
    b + i * base
  }

  /** The candles follow one another from `b` on, one base interval each. */
  ghost predicate Tiled(m: seq<Candle>, b: int, base: int) {
    forall i :: 0 <= i < |m| ==> m[i].timestamp == Slot(b, base, i)
  }

  /** The source facts everything below rests on: one candle per instant, on the session grid, whole sessions. */
  ghost predicate Regular(s: seq<Candle>, cal: Option<Calendar>, base: int)
    requires base > 0
  {
    StrictlyAscending(s) && OnGrid(s, cal, base) && CalendarValid(cal) && WholeSessions(cal, base)
  }

  function Expected(cal: Option<Calendar>, target: int, base: int, b: int): int
    requires base > 0
  {
    (BucketEnd(cal, target, b) - b) / base
  }

  /** Every base interval of the bucket has its source, on the bucket's own day. */
  ghost predicate SlotsFilled(s: seq<Candle>, b: int, base: int, n: int) {
    forall i :: 0 <= i < n ==> HasTime(s, Slot(b, base, i)) && DateOf(Slot(b, base, i)) == DateOf(b)
  }

  lemma {:induction false} ContiguousFrom(m: seq<Candle>, base: int, i: nat)
    requires ContiguousOrdered(m, base) && i < |m|
    ensures m[i].timestamp == Slot(m[0].timestamp, base, i)
  {
    if i > 0 {
      ContiguousFrom(m, base, i - 1);
      assert m[i - 1 + 1].timestamp - m[i - 1].timestamp == base;
      assert (i - 1) * base + base == i * base;
    }
  }

  lemma {:induction false} TiledContiguous(m: seq<Candle>, b: int, base: int)
    requires Tiled(m, b, base)
    ensures ContiguousOrdered(m, base)
  {
    forall i | 0 <= i < |m| - 1 ensures m[i + 1].timestamp - m[i].timestamp == base {
      assert (i + 1) * base == i * base + base;
    }
  }

  lemma {:induction false} StrictIsAscending(s: seq<Candle>)
    requires StrictlyAscending(s)
    ensures SortByTime(s) == s
  {
    SortSorted(s);
  }

  /** Where one member of a bucket lies. */
  lemma {:induction false} MemberPlace(s: seq<Candle>, cal: Option<Calendar>, target: int, base: int, b: int, x: Candle)
    requires target > 0 && base > 0 && target % base == 0 && Regular(s, cal, base)
    requires x in Members(s, cal, target, b)
    ensures x in s && ProperBucket(cal, target, b) && DateOf(x.timestamp) == DateOf(b)
    ensures b <= x.timestamp < BucketEnd(cal, target, b) && (x.timestamp - b) % base == 0
  {
    hide Members, WholeSessions, CalendarValid, StrictlyAscending;
    MembersExact(s, cal, target, b, x);
    BucketBounds(cal, target, x.timestamp);
    BucketWhole(cal, target, base, b);
    assert GridAligned(cal, base, x.timestamp);
    var open := OpenOf(cal, DateOf(b));
    MultipleSum(x.timestamp - open, b - open, base);
  }

  /** Contiguous grid points that start in a range of their own length start at its beginning. */
  lemma {:induction false} FillsFromStart(m: seq<Candle>, b: int, base: int, end: int)
    requires base > 0 && m != [] && ContiguousOrdered(m, base) && end == b + |m| * base
    requires b <= m[0].timestamp && (m[0].timestamp - b) % base == 0 && m[|m| - 1].timestamp < end
    ensures Tiled(m, b, base)
  {
    hide ContiguousOrdered;
    var n := |m|;
    ContiguousFrom(m, base, n - 1);
    assert (n - 1) * base + base == n * base;
    if m[0].timestamp > b {
      GridGap(0, m[0].timestamp - b, base);
      assert false;
    }
    forall i | 0 <= i < |m| ensures m[i].timestamp == Slot(b, base, i) {
      ContiguousFrom(m, base, i);
    }
  }

  lemma {:induction false} CompleteMeans(s: seq<Candle>, cal: Option<Calendar>, target: int, base: int, cutoff: int, b: int)
    requires target > 0 && base > 0 && target % base == 0 && Regular(s, cal, base)
    requires Emits(s, cal, target, base, cutoff, b)
    ensures Members(s, cal, target, b) != [] && BucketEnd(cal, target, b) <= cutoff
    ensures |Members(s, cal, target, b)| == Expected(cal, target, base, b)
    ensures ContiguousOrdered(Members(s, cal, target, b), base)
  {
    hide Members, BucketEnd, Regular, StrictlyAscending, ContiguousOrdered, SortByTime;
    OrderedMembers(s, cal, target, base, b);
  }

  /** A complete bucket's sources tile it from its start. */
  lemma {:induction false} CompleteIsTiled(s: seq<Candle>, cal: Option<Calendar>, target: int, base: int, cutoff: int, b: int)
    requires target > 0 && base > 0 && target % base == 0 && Regular(s, cal, base)
    requires Emits(s, cal, target, base, cutoff, b)
    ensures ProperBucket(cal, target, b) && BucketEnd(cal, target, b) <= cutoff
    ensures |Members(s, cal, target, b)| == Expected(cal, target, base, b) > 0
    ensures Tiled(Members(s, cal, target, b), b, base)
  {
    hide Members, BucketEnd, Regular, ProperBucket, ContiguousOrdered, Emits, Tiled;
    CompleteMeans(s, cal, target, base, cutoff, b);
    var m := Members(s, cal, target, b);
    MemberPlace(s, cal, target, base, b, m[0]);
    MemberPlace(s, cal, target, base, b, m[|m| - 1]);
    RegularBucket(s, cal, target, base, b);
    ExpectedSpan(cal, target, base, b);
    FillsFromStart(m, b, base, BucketEnd(cal, target, b));
  }

  lemma {:induction false} ExpectedSpan(cal: Option<Calendar>, target: int, base: int, b: int)
    requires base > 0 && (BucketEnd(cal, target, b) - b) % base == 0 && b < BucketEnd(cal, target, b)
    ensures BucketEnd(cal, target, b) == b + Expected(cal, target, base, b) * base
    ensures Expected(cal, target, base, b) > 0
  {
    hide BucketEnd;
    Quotient(BucketEnd(cal, target, b) - b, base);
    var n := Expected(cal, target, base, b);
    if n <= 0 {
      MulMono(n, 0, base);
      assert false;
    }
  }

  lemma {:induction false} OrderedMembers(s: seq<Candle>, cal: Option<Calendar>, target: int, base: int, b: int)
    requires target > 0 && base > 0 && Regular(s, cal, base)
    ensures StrictlyAscending(Members(s, cal, target, b))
    ensures SortByTime(Members(s, cal, target, b)) == Members(s, cal, target, b)
  {
    hide Members, StrictlyAscending;
    MembersAscending(s, cal, target, b);
    StrictIsAscending(Members(s, cal, target, b));
  }

  lemma {:induction false} RegularBucket(s: seq<Candle>, cal: Option<Calendar>, target: int, base: int, b: int)
    requires target > 0 && base > 0 && target % base == 0 && Regular(s, cal, base) && ProperBucket(cal, target, b)
    ensures (BucketEnd(cal, target, b) - b) % base == 0 && b < BucketEnd(cal, target, b) <= CloseOf(cal, DateOf(b))
    ensures (b - OpenOf(cal, DateOf(b))) % base == 0
  {
    hide WholeSessions, CalendarValid, StrictlyAscending, ProperBucket, BucketEnd;
    BucketWhole(cal, target, base, b);
  }

  ghost predicate OnSlots(m: seq<Candle>, b: int, base: int, n: int)
    requires base > 0
  {
    forall x :: x in m ==> b <= x.timestamp < Slot(b, base, n) && (x.timestamp - b) % base == 0
  }

  ghost predicate AllSlots(m: seq<Candle>, b: int, base: int, n: int) {
    forall i :: 0 <= i < n ==> HasTime(m, Slot(b, base, i))
  }

  lemma {:induction false} SomeMember(m: seq<Candle>)
    ensures m == [] || exists x :: x in m
  {
    if m != [] {
      assert m[0] in m;
    }
  }

  lemma {:induction false} NoSlots(m: seq<Candle>, b: int, base: int)
    requires base > 0 && OnSlots(m, b, base, 0)
    ensures m == []
  {
    SomeMember(m);
  }

  lemma {:induction false} DropLastSlot(m: seq<Candle>, b: int, base: int, n: nat)
    requires base > 0 && n > 0 && StrictlyAscending(m) && OnSlots(m, b, base, n) && AllSlots(m, b, base, n)
    ensures m != [] && m[|m| - 1].timestamp == Slot(b, base, n - 1)
    ensures StrictlyAscending(m[..|m| - 1])
    ensures OnSlots(m[..|m| - 1], b, base, n - 1) && AllSlots(m[..|m| - 1], b, base, n - 1)
  {
    hide StrictlyAscending, Slot, HasTime;
    var t := Slot(b, base, n - 1);
    SlotStep(b, base, n - 1);
    SlotGrid(b, base, n - 1);
    LastIs(m, b, base, t);
    var front := m[..|m| - 1];
    FrontAscending(m);
    assert forall x :: x in front ==> x in m;
    forall i | 0 <= i < n - 1 ensures HasTime(front, Slot(b, base, i)) {
      SlotOrder(b, base, i, n - 1);
      FrontTimes(m, Slot(b, base, i));
    }
  }

  /** Grid points that fill a range, in order, tile it. */
  lemma {:induction false} GridFill(m: seq<Candle>, b: int, base: int, n: nat)
    requires base > 0 && StrictlyAscending(m) && OnSlots(m, b, base, n) && AllSlots(m, b, base, n)
    ensures |m| == n && Tiled(m, b, base)
  {
    hide StrictlyAscending, Slot, OnSlots, AllSlots;
    if n == 0 {
      NoSlots(m, b, base);
    } else {
      DropLastSlot(m, b, base, n);
      GridFill(m[..|m| - 1], b, base, n - 1);
    }
  }

  lemma {:induction false} SlotStep(b: int, base: int, i: int)
    ensures Slot(b, base, i + 1) == Slot(b, base, i) + base
  {
    assert (i + 1) * base == i * base + base;
  }

  lemma {:induction false} SlotOrder(b: int, base: int, i: int, j: int)
    requires base > 0 && i < j
    ensures Slot(b, base, i) + base <= Slot(b, base, j)
  {
    MulMono(i + 1, j, base);
    assert (i + 1) * base == i * base + base;
  }

  lemma {:induction false} SlotGrid(b: int, base: int, i: int)
    requires base > 0
    ensures (Slot(b, base, i) - b) % base == 0
  {
    MultipleOf(i, base);
  }

  lemma {:induction false} LastIs(m: seq<Candle>, b: int, base: int, t: int)
    requires base > 0 && StrictlyAscending(m) && HasTime(m, t) && (t - b) % base == 0
    requires forall x :: x in m ==> x.timestamp < t + base && (x.timestamp - b) % base == 0
    ensures m != [] && m[|m| - 1].timestamp == t
  {
    var j :| 0 <= j < |m| && m[j].timestamp == t;
    var last := m[|m| - 1];
    assert last in m;
    if t < last.timestamp {
      GridGap(t - b, last.timestamp - b, base);
    }
  }

  /** A bucket with every slot filled is complete as soon as its end has passed. */
  lemma {:induction false} FilledIsComplete(s: seq<Candle>, cal: Option<Calendar>, target: int, base: int, cutoff: int, b: int)
    requires target > 0 && base > 0 && target % base == 0 && Regular(s, cal, base)
    requires ProperBucket(cal, target, b) && BucketEnd(cal, target, b) <= cutoff
    requires SlotsFilled(s, b, base, Expected(cal, target, base, b))
    ensures Emits(s, cal, target, base, cutoff, b)
  {
    hide Members, BucketEnd, Regular, ProperBucket, Slot, StrictlyAscending, ContiguousOrdered, HasTime, Expected, Tiled, SortByTime;
    var m := Members(s, cal, target, b);
    var n := Expected(cal, target, base, b);
    RegularBucket(s, cal, target, base, b);
    ExpectedSpan(cal, target, base, b);
    SlotMeaning(b, base, n);
    forall x | x in m ensures b <= x.timestamp < Slot(b, base, n) && (x.timestamp - b) % base == 0 {
      MemberPlace(s, cal, target, base, b, x);
    }
    forall i | 0 <= i < n ensures HasTime(m, Slot(b, base, i)) {
      SlotInBucket(s, cal, target, base, b, n, i);
    }
    OrderedMembers(s, cal, target, base, b);
    GridFill(m, b, base, n);
    TiledContiguous(m, b, base);
    CompleteFrom(s, cal, target, base, cutoff, b);
  }

  lemma {:induction false} CompleteFrom(s: seq<Candle>, cal: Option<Calendar>, target: int, base: int, cutoff: int, b: int)
    requires target > 0 && base > 0 && target % base == 0 && Regular(s, cal, base)
    requires Members(s, cal, target, b) != [] && BucketEnd(cal, target, b) <= cutoff
    requires |Members(s, cal, target, b)| == Expected(cal, target, base, b)
    requires ContiguousOrdered(Members(s, cal, target, b), base)
    ensures Emits(s, cal, target, base, cutoff, b)
  {
    hide Members, BucketEnd, Regular, StrictlyAscending, ContiguousOrdered, SortByTime;
    OrderedMembers(s, cal, target, base, b);
  }

  lemma {:induction false} SlotMeaning(b: int, base: int, n: int)
    ensures Slot(b, base, n) == b + n * base
  {
  }

  lemma {:induction false} SlotInBucket(s: seq<Candle>, cal: Option<Calendar>, target: int, base: int, b: int, n: int, i: int)
    requires target > 0 && base > 0 && target % base == 0 && Regular(s, cal, base) && ProperBucket(cal, target, b)
    requires 0 <= i < n && Slot(b, base, n) == BucketEnd(cal, target, b)
    requires HasTime(s, Slot(b, base, i)) && DateOf(Slot(b, base, i)) == DateOf(b)
    ensures HasTime(Members(s, cal, target, b), Slot(b, base, i))
  {
    hide Members, BucketEnd, ProperBucket, BucketOf, Slot, WholeSessions, CalendarValid, StrictlyAscending, OnGrid;
    var t := Slot(b, base, i);
    SlotOrder(b, base, i, n);
    NotBefore(b, base, i);
    BucketContains(cal, target, b, t);
    var j :| 0 <= j < |s| && s[j].timestamp == t;
    MembersExact(s, cal, target, b, s[j]);
    InHasTime(Members(s, cal, target, b), s[j]);
  }

  lemma {:induction false} InHasTime(s: seq<Candle>, x: Candle)
    requires x in s
    ensures HasTime(s, x.timestamp)
  {
    var j :| 0 <= j < |s| && s[j] == x;
  }

  lemma {:induction false} NotBefore(b: int, base: int, i: int)
    requires base > 0 && i >= 0
    ensures Slot(b, base, i) >= b
  {
    MulMono(0, i, base);
  }

  /** A bucket emits a bar exactly when it is over and every one of its base intervals has a source. */
  lemma {:induction false} EmitsExact(s: seq<Candle>, cal: Option<Calendar>, target: int, base: int, cutoff: int, b: int)
    requires target > 0 && base > 0 && target % base == 0 && Regular(s, cal, base)
    ensures Emits(s, cal, target, base, cutoff, b) <==>
              && ProperBucket(cal, target, b) && BucketEnd(cal, target, b) <= cutoff
              && SlotsFilled(s, b, base, Expected(cal, target, base, b))
  {
    hide Members, BucketEnd, Regular, ProperBucket, Slot, Emits, HasTime, Expected;
    if Emits(s, cal, target, base, cutoff, b) {
      CompleteIsTiled(s, cal, target, base, cutoff, b);
      var m := Members(s, cal, target, b);
      forall i | 0 <= i < |m| ensures HasTime(s, Slot(b, base, i)) && DateOf(Slot(b, base, i)) == DateOf(b) {
        assert m[i] in m;
        MemberPlace(s, cal, target, base, b, m[i]);
        InHasTime(s, m[i]);
      }
    } else if ProperBucket(cal, target, b) && BucketEnd(cal, target, b) <= cutoff
              && SlotsFilled(s, b, base, Expected(cal, target, base, b)) {
      FilledIsComplete(s, cal, target, base, cutoff, b);
    }
  }

  // ----- two steps against one ------------------------------------------------------------------

  /** The intermediate bars of a two-step aggregation, all taken at one instant. */
  ghost predicate Intermediate(mids: seq<Candle>, s: seq<Candle>, cal: Option<Calendar>, base: int, mid: int, cutoff: int)
    requires base > 0 && mid > 0
  {
    && base < mid < DAY && mid % base == 0
    && Regular(s, cal, base) && WholeSessions(cal, mid)
    && IsAggregation(mids, s, cal, mid, base, cutoff)
  }

  /** What one intermediate bar is. */
  lemma {:induction false} MidBar(mids: seq<Candle>, s: seq<Candle>, cal: Option<Calendar>, base: int, mid: int, cutoff: int, i: nat)
    requires base > 0 && mid > 0 && Intermediate(mids, s, cal, base, mid, cutoff) && i < |mids|
    ensures var b := mids[i].timestamp;
            && ProperBucket(cal, mid, b) && (b - OpenOf(cal, DateOf(b))) % mid == 0
            && BucketEnd(cal, mid, b) == b + mid <= cutoff
            && Expected(cal, mid, base, b) == mid / base
            && |Members(s, cal, mid, b)| == mid / base > 0
            && Tiled(Members(s, cal, mid, b), b, base)
            && mids[i] == CombineOrdered(Members(s, cal, mid, b), b, mid)
  {
    hide Members, BucketEnd, Regular, WholeSessions, Emits, StrictlyAscending, SortByTime, Tiled, CombineOrdered, ProperBucket;
    var b := mids[i].timestamp;
    assert Emits(s, cal, mid, base, cutoff, b);
    CompleteIsTiled(s, cal, mid, base, cutoff, b);
    OrderedMembers(s, cal, mid, base, b);
    MidSpan(s, cal, base, mid, b);
  }

  /** On whole sessions no intermediate bucket is cut short by the close. */
  lemma {:induction false} MidSpan(s: seq<Candle>, cal: Option<Calendar>, base: int, mid: int, b: int)
    requires base > 0 && base < mid < DAY && mid % base == 0
    requires Regular(s, cal, base) && WholeSessions(cal, mid) && ProperBucket(cal, mid, b)
    ensures BucketEnd(cal, mid, b) == b + mid && Expected(cal, mid, base, b) == mid / base
    ensures (b - OpenOf(cal, DateOf(b))) % mid == 0
  {
    hide OnGrid, StrictlyAscending, WholeSessions;
    BucketWhole(cal, mid, mid, b);
    GridGap(0, BucketEnd(cal, mid, b) - b, mid);
  }

  lemma {:induction false} AvailableAll(s: seq<Candle>, base: int, cal: Option<Calendar>, cutoff: int)
    requires forall i :: 0 <= i < |s| ==> s[i].isClosed && AvailableAt(s[i], base, cal) <= cutoff
    ensures Available(s, base, cal, cutoff) == s
  {
    hide AvailableAt;
    if s != [] {
      AvailableAll(s[..|s| - 1], base, cal, cutoff);
    }
  }

  /** Every intermediate bar is known at the instant it was made for, and the bars are regular sources again. */
  lemma {:induction false} MidsRegular(mids: seq<Candle>, s: seq<Candle>, cal: Option<Calendar>, base: int, mid: int, cutoff: int)
    requires base > 0 && mid > 0 && Intermediate(mids, s, cal, base, mid, cutoff)
    ensures Regular(mids, cal, mid) && Available(mids, mid, cal, cutoff) == mids
  {
    hide Members, BucketEnd, WholeSessions, Emits, StrictlyAscending, AreBars, CalendarValid, ProperBucket, Expected, Tiled;
    forall i | 0 <= i < |mids|
      ensures mids[i].isClosed && AvailableAt(mids[i], mid, cal) <= cutoff && GridAligned(cal, mid, mids[i].timestamp)
    {
      MidBar(mids, s, cal, base, mid, cutoff, i);
    }
    AvailableAll(mids, mid, cal, cutoff);
    forall x | x in mids ensures GridAligned(cal, mid, x.timestamp) {
      var i :| 0 <= i < |mids| && mids[i] == x;
    }
  }

  /** The slots of a sub-bucket are consecutive slots of the whole. */
  lemma {:induction false} SubSlot(b: int, base: int, q: int, j: int, i: int)
    ensures Slot(Slot(b, q * base, j), base, i) == Slot(b, base, j * q + i)
  {
    assert j * (q * base) == (j * q) * base;
    assert (j * q) * base + i * base == (j * q + i) * base;
  }

  /** A two-step bucket: what both aggregations must agree on. */
  ghost predicate TwoStep(mids: seq<Candle>, s: seq<Candle>, cal: Option<Calendar>, base: int, mid: int, target: int, cutoff: int)
    requires base > 0
  {
    mid > 0 && Intermediate(mids, s, cal, base, mid, cutoff) && mid < target <= DAY && target % mid == 0
  }

  lemma {:induction false} MidEmits(mids: seq<Candle>, s: seq<Candle>, cal: Option<Calendar>, base: int, mid: int, cutoff: int, b: int)
    requires base > 0 && mid > 0 && Intermediate(mids, s, cal, base, mid, cutoff)
    ensures HasTime(mids, b) <==> ProperBucket(cal, mid, b) && b + mid <= cutoff && SlotsFilled(s, b, base, mid / base)
  {
    hide Members, BucketEnd, Regular, WholeSessions, Emits, StrictlyAscending, AreBars, ProperBucket, Expected, SlotsFilled, HasTime;
    TimeEmitted(mids, s, cal, mid, base, cutoff, b);
    EmitsExact(s, cal, mid, base, cutoff, b);
    if ProperBucket(cal, mid, b) {
      MidSpan(s, cal, base, mid, b);
    }
  }

  /** A bucket of the final aggregation is made of whole intermediate buckets. */
  lemma {:induction false} TwoStepSpan(mids: seq<Candle>, s: seq<Candle>, cal: Option<Calendar>,
                                       base: int, mid: int, target: int, cutoff: int, b: int)
    requires base > 0 && TwoStep(mids, s, cal, base, mid, target, cutoff) && ProperBucket(cal, target, b)
    ensures target % base == 0 && mid == mid / base * base && mid / base > 0
    ensures Expected(cal, target, base, b) == Expected(cal, target, mid, b) * (mid / base)
    ensures Expected(cal, target, mid, b) > 0
    ensures BucketEnd(cal, target, b) == Slot(b, mid, Expected(cal, target, mid, b)) <= CloseOf(cal, DateOf(b))
    ensures (b - OpenOf(cal, DateOf(b))) % mid == 0
  {
    hide OnGrid, StrictlyAscending, WholeSessions, CalendarValid, IsAggregation, BucketEnd, ProperBucket;
    MultipleTrans(target, mid, base);
    BucketWhole(cal, target, mid, b);
    ExpectedSpan(cal, target, mid, b);
    DivideMultiple(BucketEnd(cal, target, b) - b, mid, base);
    Quotient(mid, base);
    if mid / base <= 0 {
      MulMono(mid / base, 0, base);
      assert false;
    }
  }

  /** The j-th intermediate bucket of a final bucket. */
  lemma {:induction false} SubBucket(mids: seq<Candle>, s: seq<Candle>, cal: Option<Calendar>,
                                     base: int, mid: int, target: int, cutoff: int, b: int, j: int)
    requires base > 0 && TwoStep(mids, s, cal, base, mid, target, cutoff) && ProperBucket(cal, target, b)
    requires 0 <= j < Expected(cal, target, mid, b) && BucketEnd(cal, target, b) <= cutoff
    requires DateOf(Slot(b, mid, j)) == DateOf(b)
    ensures HasTime(mids, Slot(b, mid, j)) <==> SlotsFilled(s, Slot(b, mid, j), base, mid / base)
  {
    hide BucketEnd, Slot, Expected, SlotsFilled, HasTime, Intermediate;
    var sub := Slot(b, mid, j);
    TwoStepSpan(mids, s, cal, base, mid, target, cutoff, b);
    SlotOrder(b, mid, j, Expected(cal, target, mid, b));
    NotBefore(b, mid, j);
    SlotGrid(b, mid, j);
    MultipleSum(sub - b, b - OpenOf(cal, DateOf(b)), mid);
    MidEmits(mids, s, cal, base, mid, cutoff, sub);
  }

  /** All sub-buckets are filled exactly when the whole bucket is. */
  lemma {:induction false} FilledTwice(mids: seq<Candle>, s: seq<Candle>, cal: Option<Calendar>,
                                       base: int, mid: int, target: int, cutoff: int, b: int)
    requires base > 0 && TwoStep(mids, s, cal, base, mid, target, cutoff) && ProperBucket(cal, target, b)
    requires BucketEnd(cal, target, b) <= cutoff
    ensures SlotsFilled(mids, b, mid, Expected(cal, target, mid, b)) <==> SlotsFilled(s, b, base, Expected(cal, target, base, b))
  {
    hide BucketEnd, Slot, Expected, HasTime, Intermediate, ProperBucket, TwoStep, SlotsFilled;
    TwoStepSpan(mids, s, cal, base, mid, target, cutoff, b);
    var q, n := mid / base, Expected(cal, target, mid, b);
    if SlotsFilled(mids, b, mid, n) {
      forall k | 0 <= k < n * q ensures HasTime(s, Slot(b, base, k)) && DateOf(Slot(b, base, k)) == DateOf(b) {
        FilledFromMids(mids, s, cal, base, mid, target, cutoff, b, k);
      }
      FilledIntro(s, b, base, n * q);
    }
    if SlotsFilled(s, b, base, n * q) {
      forall j | 0 <= j < n ensures HasTime(mids, Slot(b, mid, j)) && DateOf(Slot(b, mid, j)) == DateOf(b) {
        FilledToMids(mids, s, cal, base, mid, target, cutoff, b, j);
      }
      FilledIntro(mids, b, mid, n);
    }
  }

  lemma {:induction false} FilledIntro(s: seq<Candle>, b: int, base: int, n: int)
    requires forall i :: 0 <= i < n ==> HasTime(s, Slot(b, base, i)) && DateOf(Slot(b, base, i)) == DateOf(b)
    ensures SlotsFilled(s, b, base, n)
  {
    hide HasTime, Slot;
  }

  lemma {:induction false} FilledFromMids(mids: seq<Candle>, s: seq<Candle>, cal: Option<Calendar>,
                                          base: int, mid: int, target: int, cutoff: int, b: int, k: int)
    requires base > 0 && TwoStep(mids, s, cal, base, mid, target, cutoff) && ProperBucket(cal, target, b)
    requires BucketEnd(cal, target, b) <= cutoff && SlotsFilled(mids, b, mid, Expected(cal, target, mid, b))
    requires 0 <= k < Expected(cal, target, mid, b) * (mid / base)
    ensures HasTime(s, Slot(b, base, k)) && DateOf(Slot(b, base, k)) == DateOf(b)
  {
    hide BucketEnd, Slot, Expected, HasTime, Intermediate, ProperBucket, TwoStep;
    TwoStepSpan(mids, s, cal, base, mid, target, cutoff, b);
    var q := mid / base;
    var j, i := k / q, k % q;
    Quotient(k, q);
    SplitIndex(k, q, Expected(cal, target, mid, b));
    SubSlot(b, base, q, j, i);
    SubBucket(mids, s, cal, base, mid, target, cutoff, b, j);
  }

  lemma {:induction false} SplitIndex(k: int, q: int, n: int)
    requires q > 0 && 0 <= k < n * q
    ensures 0 <= k / q < n && 0 <= k % q < q && k == (k / q) * q + k % q
  {
    Quotient(k, q);
    MulStrict(k / q, n, q);
    if k / q < 0 {
      MulMono(k / q, -1, q);
      assert false;
    }
  }

  lemma {:induction false} FilledToMids(mids: seq<Candle>, s: seq<Candle>, cal: Option<Calendar>,
                                        base: int, mid: int, target: int, cutoff: int, b: int, j: int)
    requires base > 0 && TwoStep(mids, s, cal, base, mid, target, cutoff) && ProperBucket(cal, target, b)
    requires BucketEnd(cal, target, b) <= cutoff && SlotsFilled(s, b, base, Expected(cal, target, base, b))
    requires 0 <= j < Expected(cal, target, mid, b)
    ensures HasTime(mids, Slot(b, mid, j)) && DateOf(Slot(b, mid, j)) == DateOf(b)
  {
    hide BucketEnd, Slot, Expected, HasTime, Intermediate, ProperBucket, TwoStep;
    TwoStepSpan(mids, s, cal, base, mid, target, cutoff, b);
    var q, n := mid / base, Expected(cal, target, mid, b);
    forall i | 0 <= i < q
      ensures Slot(Slot(b, mid, j), base, i) == Slot(b, base, j * q + i) && 0 <= j * q + i < n * q
    {
      SubSlot(b, base, q, j, i);
      MulMono(0, j, q);
      MulMono(j + 1, n, q);
      assert (j + 1) * q == j * q + q;
    }
    SlotMeaning(Slot(b, mid, j), base, 0);
    assert DateOf(Slot(Slot(b, mid, j), base, 0)) == DateOf(b);
    FilledIntro(s, Slot(b, mid, j), base, q);
    SubBucket(mids, s, cal, base, mid, target, cutoff, b, j);
  }

  /** Both ways of aggregating emit a bar for the same buckets. */
  lemma {:induction false} SameBuckets(mids: seq<Candle>, s: seq<Candle>, cal: Option<Calendar>,
                                       base: int, mid: int, target: int, cutoff: int, b: int)
    requires base > 0 && TwoStep(mids, s, cal, base, mid, target, cutoff)
    ensures Emits(mids, cal, target, mid, cutoff, b) <==> Emits(s, cal, target, base, cutoff, b)
  {
    hide BucketEnd, Slot, Expected, HasTime, ProperBucket, SlotsFilled, Regular, Emits, WholeSessions, IsAggregation;
    MidsRegular(mids, s, cal, base, mid, cutoff);
    MultipleTrans(target, mid, base);
    EmitsExact(mids, cal, target, mid, cutoff, b);
    EmitsExact(s, cal, target, base, cutoff, b);
    if ProperBucket(cal, target, b) && BucketEnd(cal, target, b) <= cutoff {
      FilledTwice(mids, s, cal, base, mid, target, cutoff, b);
    }
  }

  // ----- the same bars --------------------------------------------------------------------------

  /** `bars` are the candles of the consecutive blocks of `q` sources. */
  ghost predicate BlockBars(sources: seq<Candle>, bars: seq<Candle>, q: int, mid: int)
    requires q > 0
    decreases |bars|
  {
    if bars == [] then sources == []
    else
      var cut, last := |sources| - q, bars[|bars| - 1];
      && cut >= 0
      && last == CombineOrdered(sources[cut..], last.timestamp, mid)
      && BlockBars(sources[..cut], bars[..|bars| - 1], q, mid)
  }

  lemma {:induction false} HighestConcat(a: seq<Candle>, z: seq<Candle>)
    requires a != [] && z != []
    ensures Highest(a + z) == Max(Highest(a), Highest(z)) && Lowest(a + z) == Min(Lowest(a), Lowest(z))
    decreases |z|
  {
    var front := z[..|z| - 1];
    assert (a + z)[..|a + z| - 1] == a + front;
    if |z| > 1 {
      HighestConcat(a, front);
    } else {
      assert a + front == a;
    }
  }

  lemma {:induction false} VolumeConcat(a: seq<Candle>, z: seq<Candle>)
    ensures Volume(a + z) == Volume(a) + Volume(z)
    decreases |z|
  {
    if z == [] {
      assert a + z == a;
    } else {
      assert (a + z)[..|a + z| - 1] == a + z[..|z| - 1];
      VolumeConcat(a, z[..|z| - 1]);
    }
  }

  /** What combining reads of a list of candles. */
  ghost predicate SameShape(a: seq<Candle>, z: seq<Candle>) {
    && a != [] && z != []
    && a[0].instrument == z[0].instrument && a[0].open == z[0].open
    && a[|a| - 1].close == z[|z| - 1].close && a[|a| - 1].openInterest == z[|z| - 1].openInterest
    && Highest(a) == Highest(z) && Lowest(a) == Lowest(z) && Volume(a) == Volume(z)
  }

  lemma {:induction false} OneBlock(block: seq<Candle>, bar: Candle, mid: int)
    requires block != [] && bar == CombineOrdered(block, bar.timestamp, mid)
    ensures SameShape(block, [bar])
  {
    assert [bar][..0] == [];
    assert Volume([bar]) == Volume([bar][..0]) + bar.volume;
  }

  lemma {:induction false} ShapeConcat(a: seq<Candle>, z: seq<Candle>, a': seq<Candle>, z': seq<Candle>)
    requires SameShape(a, z) && SameShape(a', z')
    ensures SameShape(a + a', z + z')
  {
    hide Highest, Lowest, Volume;
    HighestConcat(a, a');
    HighestConcat(z, z');
    VolumeConcat(a, a');
    VolumeConcat(z, z');
  }

  /** Combining the block bars combines the sources. */
  lemma {:induction false} BlocksCombine(sources: seq<Candle>, bars: seq<Candle>, q: int, mid: int)
    requires q > 0 && BlockBars(sources, bars, q, mid) && bars != []
    ensures SameShape(sources, bars)
    decreases |bars|
  {
    hide SameShape, CombineOrdered;
    var cut := |sources| - q;
    var front, last := bars[..|bars| - 1], bars[|bars| - 1];
    OneBlock(sources[cut..], last, mid);
    if front == [] {
      assert sources[cut..] == sources && [last] == bars;
    } else {
      BlocksCombine(sources[..cut], front, q, mid);
      ShapeConcat(sources[..cut], front, sources[cut..], [last]);
      assert sources[..cut] + sources[cut..] == sources && front + [last] == bars;
    }
  }

  lemma {:induction false} SameTimeSame(s: seq<Candle>, x: Candle, y: Candle)
    requires StrictlyAscending(s) && x in s && y in s && x.timestamp == y.timestamp
    ensures x == y
  {
    var i :| 0 <= i < |s| && s[i] == x;
    var j :| 0 <= j < |s| && s[j] == y;
  }

  lemma {:induction false} SameMember(s: seq<Candle>, cal: Option<Calendar>, mid: int, target: int, sub: int, b: int, x: Candle, y: Candle)
    requires mid > 0 && target > 0 && StrictlyAscending(s) && x.timestamp == y.timestamp
    requires x in Members(s, cal, mid, sub) && y in Members(s, cal, target, b)
    ensures x == y
  {
    hide Members;
    MembersExact(s, cal, mid, sub, x);
    MembersExact(s, cal, target, b, y);
    SameTimeSame(s, x, y);
  }

  /** The members of a sub-bucket are a slice of the members of the bucket. */
  lemma {:induction false} SubMembers(mids: seq<Candle>, s: seq<Candle>, cal: Option<Calendar>,
                                      base: int, mid: int, target: int, cutoff: int, b: int, j: int, cut: int)
    requires base > 0 && TwoStep(mids, s, cal, base, mid, target, cutoff)
    requires Emits(s, cal, target, base, cutoff, b) && HasTime(mids, Slot(b, mid, j))
    requires cut == j * (mid / base) && 0 <= cut <= cut + mid / base <= |Members(s, cal, target, b)|
    ensures Members(s, cal, mid, Slot(b, mid, j)) == Members(s, cal, target, b)[cut..cut + mid / base]
  {
    hide Members, Slot, BucketEnd, Expected, ProperBucket, WholeSessions, Emits, CombineOrdered, CalendarValid, OnGrid, StrictlyAscending, IsAggregation;
    var q, sub := mid / base, Slot(b, mid, j);
    var whole, part := Members(s, cal, target, b), Members(s, cal, mid, sub);
    MultipleTrans(target, mid, base);
    CompleteIsTiled(s, cal, target, base, cutoff, b);
    var at :| 0 <= at < |mids| && mids[at].timestamp == sub;
    MidBar(mids, s, cal, base, mid, cutoff, at);
    Quotient(mid, base);
    forall i | 0 <= i < q ensures part[i] == whole[cut + i] {
      SubSlot(b, base, q, j, i);
      assert part[i].timestamp == Slot(sub, base, i) && whole[cut + i].timestamp == Slot(b, base, cut + i);
      SameMember(s, cal, mid, target, sub, b, part[i], whole[cut + i]);
    }
  }

  /** The j-th member of the second step is the bar of the j-th block of sources. */
  lemma {:induction false} BlockBar(mids: seq<Candle>, s: seq<Candle>, cal: Option<Calendar>,
                                    base: int, mid: int, target: int, cutoff: int, b: int, j: nat)
    requires base > 0 && TwoStep(mids, s, cal, base, mid, target, cutoff)
    requires Emits(s, cal, target, base, cutoff, b) && Emits(mids, cal, target, mid, cutoff, b)
    requires j < |Members(mids, cal, target, b)|
    ensures var q, sources, bar := mid / base, Members(s, cal, target, b), Members(mids, cal, target, b)[j];
            && q > 0 && 0 <= j * q && (j + 1) * q == j * q + q <= |sources|
            && bar == CombineOrdered(sources[j * q..j * q + q], bar.timestamp, mid)
  {
    hide Members, BucketEnd, Expected, ProperBucket, WholeSessions, Emits, CombineOrdered, CalendarValid, OnGrid, StrictlyAscending, IsAggregation, Slot;
    MidsRegular(mids, s, cal, base, mid, cutoff);
    MultipleTrans(target, mid, base);
    CompleteIsTiled(s, cal, target, base, cutoff, b);
    CompleteIsTiled(mids, cal, target, mid, cutoff, b);
    TwoStepSpan(mids, s, cal, base, mid, target, cutoff, b);
    var q, bars := mid / base, Members(mids, cal, target, b);
    MulMono(0, j, q);
    MulMono(j + 1, |bars|, q);
    assert (j + 1) * q == j * q + q;
    assert bars[j] in bars;
    MembersExact(mids, cal, target, b, bars[j]);
    InHasTime(mids, bars[j]);
    SubMembers(mids, s, cal, base, mid, target, cutoff, b, j, j * q);
    var at :| 0 <= at < |mids| && mids[at] == bars[j];
    MidBar(mids, s, cal, base, mid, cutoff, at);
  }

  lemma {:induction false} NoBlocks(sources: seq<Candle>, bars: seq<Candle>, q: int, mid: int)
    requires q > 0
    ensures BlockBars(sources[..0], bars[..0], q, mid)
  {
  }

  lemma {:induction false} BlockAppend(a: seq<Candle>, z: seq<Candle>, bars: seq<Candle>, bar: Candle, q: int, mid: int)
    requires q > 0 && |z| == q && BlockBars(a, bars, q, mid) && bar == CombineOrdered(z, bar.timestamp, mid)
    ensures BlockBars(a + z, bars + [bar], q, mid)
  {
    hide CombineOrdered;
    assert (a + z)[|a|..] == z && (a + z)[..|a|] == a && (bars + [bar])[..|bars|] == bars;
  }

  lemma {:induction false} BlockNext(sources: seq<Candle>, bars: seq<Candle>, q: int, mid: int, cut: int, n: nat)
    requires q > 0 && 0 <= cut <= cut + q <= |sources| && n < |bars|
    requires BlockBars(sources[..cut], bars[..n], q, mid)
    requires bars[n] == CombineOrdered(sources[cut..cut + q], bars[n].timestamp, mid)
    ensures BlockBars(sources[..cut + q], bars[..n + 1], q, mid)
  {
    hide CombineOrdered, BlockBars;
    BlockAppend(sources[..cut], sources[cut..cut + q], bars[..n], bars[n], q, mid);
    assert sources[..cut + q] == sources[..cut] + sources[cut..cut + q] && bars[..n + 1] == bars[..n] + [bars[n]];
  }

  lemma {:induction false} BlocksUpTo(mids: seq<Candle>, s: seq<Candle>, cal: Option<Calendar>,
                                      base: int, mid: int, target: int, cutoff: int, b: int, n: nat)
    requires base > 0 && TwoStep(mids, s, cal, base, mid, target, cutoff)
    requires Emits(s, cal, target, base, cutoff, b) && Emits(mids, cal, target, mid, cutoff, b)
    requires n <= |Members(mids, cal, target, b)|
    ensures mid / base > 0 && 0 <= n * (mid / base) <= |Members(s, cal, target, b)|
    ensures BlockBars(Members(s, cal, target, b)[..n * (mid / base)], Members(mids, cal, target, b)[..n], mid / base, mid)
  {
    hide Members, Emits, CombineOrdered, Intermediate, BlockBars;
    var q, sources, bars := mid / base, Members(s, cal, target, b), Members(mids, cal, target, b);
    if n == 0 {
      MidPositive(mids, s, cal, base, mid, target, cutoff);
      NoBlocks(sources, bars, q, mid);
    } else {
      BlocksUpTo(mids, s, cal, base, mid, target, cutoff, b, n - 1);
      BlockBar(mids, s, cal, base, mid, target, cutoff, b, n - 1);
      BlockNext(sources, bars, q, mid, (n - 1) * q, n - 1);
    }
  }

  lemma {:induction false} MidPositive(mids: seq<Candle>, s: seq<Candle>, cal: Option<Calendar>,
                                       base: int, mid: int, target: int, cutoff: int)
    requires base > 0 && TwoStep(mids, s, cal, base, mid, target, cutoff)
    ensures mid / base > 0
  {
    Quotient(mid, base);
    if mid / base <= 0 {
      MulMono(mid / base, 0, base);
      assert false;
    }
  }

  /** And for each such bucket the bar is the same candle. */
  lemma {:induction false} SameBar(mids: seq<Candle>, s: seq<Candle>, cal: Option<Calendar>,
                                   base: int, mid: int, target: int, cutoff: int, b: int)
    requires base > 0 && TwoStep(mids, s, cal, base, mid, target, cutoff)
    requires Emits(s, cal, target, base, cutoff, b) && Emits(mids, cal, target, mid, cutoff, b)
    ensures Members(s, cal, target, b) != [] && Members(mids, cal, target, b) != []
    ensures Bar(mids, cal, target, b) == Bar(s, cal, target, b)
  {
    hide Members, Emits, BlockBars, BucketEnd, Expected, ProperBucket, WholeSessions, CalendarValid, OnGrid, StrictlyAscending, IsAggregation, SortByTime, Tiled, Slot;
    var sources, bars := Members(s, cal, target, b), Members(mids, cal, target, b);
    MidsRegular(mids, s, cal, base, mid, cutoff);
    MultipleTrans(target, mid, base);
    CompleteIsTiled(s, cal, target, base, cutoff, b);
    CompleteIsTiled(mids, cal, target, mid, cutoff, b);
    TwoStepSpan(mids, s, cal, base, mid, target, cutoff, b);
    BlocksUpTo(mids, s, cal, base, mid, target, cutoff, b, |bars|);
    assert sources[..|sources|] == sources && bars[..|bars|] == bars;
    BlocksCombine(sources, bars, mid / base, mid);
    OrderedMembers(s, cal, target, base, b);
    OrderedMembers(mids, cal, target, mid, b);
  }

  /**
   * Aggregation composes: on regular sources, aggregating to a whole-session intermediate timeframe and
   * then to a target gives exactly the bars of aggregating directly, at every instant.
   */
  lemma {:induction false} AggregationComposes(
    source: seq<Candle>, cal: Option<Calendar>, base: int, mid: int, target: int, cutoff: int,
    mids: seq<Candle>, twice: seq<Candle>, once: seq<Candle>)
    requires 0 < base < mid < target <= DAY && mid % base == 0 && target % mid == 0
    requires Regular(source, cal, base) && WholeSessions(cal, mid)
    requires IsAggregation(mids, Available(source, base, cal, cutoff), cal, mid, base, cutoff)
    requires IsAggregation(twice, Available(SortByTime(mids), mid, cal, cutoff), cal, target, mid, cutoff)
    requires IsAggregation(once, Available(source, base, cal, cutoff), cal, target, base, cutoff)
    ensures twice == once
  {
    hide Members, Emits, Bar, StrictlyAscending, SortByTime, Available, WholeSessions, CalendarValid;
    var s := Available(source, base, cal, cutoff);
    AvailableRegular(source, cal, base, cutoff);
    MidsRegular(mids, s, cal, base, mid, cutoff);
    StrictIsAscending(mids);
    forall b ensures Emits(mids, cal, target, mid, cutoff, b) <==> Emits(s, cal, target, base, cutoff, b) {
      SameBuckets(mids, s, cal, base, mid, target, cutoff, b);
    }
    forall b | Emits(s, cal, target, base, cutoff, b)
      ensures Members(s, cal, target, b) != [] && Members(mids, cal, target, b) != []
      ensures Bar(mids, cal, target, b) == Bar(s, cal, target, b)
    {
      SameBar(mids, s, cal, base, mid, target, cutoff, b);
    }
    Transfer(twice, mids, s, cal, base, mid, target, cutoff);
    AggregationUnique(twice, once, s, cal, target, base, cutoff);
  }

  lemma {:induction false} AvailableRegular(source: seq<Candle>, cal: Option<Calendar>, base: int, cutoff: int)
    requires base > 0 && Regular(source, cal, base)
    ensures Regular(Available(source, base, cal, cutoff), cal, base)
  {
    hide StrictlyAscending, CalendarValid, WholeSessions, GridAligned;
    AvailableAscending(source, base, cal, cutoff);
    var s := Available(source, base, cal, cutoff);
    forall x | x in s ensures GridAligned(cal, base, x.timestamp) {
      AvailableExact(source, base, cal, cutoff, x);
    }
  }

  lemma {:induction false} Transfer(bars: seq<Candle>, mids: seq<Candle>, s: seq<Candle>, cal: Option<Calendar>,
                                    base: int, mid: int, target: int, cutoff: int)
    requires base > 0 && mid > 0 && target > 0 && IsAggregation(bars, mids, cal, target, mid, cutoff)
    requires forall b :: Emits(mids, cal, target, mid, cutoff, b) <==> Emits(s, cal, target, base, cutoff, b)
    requires forall b :: Emits(s, cal, target, base, cutoff, b) ==>
               && Members(s, cal, target, b) != [] && Members(mids, cal, target, b) != []
               && Bar(mids, cal, target, b) == Bar(s, cal, target, b)
    ensures IsAggregation(bars, s, cal, target, base, cutoff)
  {
    hide Members, Emits, Bar, StrictlyAscending, HasTime;
  }

  /**
   * What a bar is worth: an existing candle over the sources that tile its bucket, its high the highest and
   * its low the lowest of theirs, its volume their sum.
   */
  lemma {:induction false} BarSound(bars: seq<Candle>, s: seq<Candle>, cal: Option<Calendar>, target: int, base: int, cutoff: int, i: nat)
    requires target > 0 && base > 0 && target % base == 0 && Regular(s, cal, base)
    requires (forall x :: x in s ==> x.Valid()) && IsAggregation(bars, s, cal, target, base, cutoff) && i < |bars|
    ensures var b := bars[i].timestamp;
            var m := Members(s, cal, target, b);
            && bars[i].Valid() && bars[i].isClosed && bars[i].timeframe == target
            && |m| == Expected(cal, target, base, b) > 0 && Tiled(m, b, base)
            && (forall x :: x in m <==> x in s && BucketOf(cal, target, x.timestamp) == Some(b))
            && (forall j :: 0 <= j < |m| ==> bars[i].low <= m[j].low && m[j].high <= bars[i].high)
            && (exists j :: 0 <= j < |m| && m[j].high == bars[i].high) && (exists j :: 0 <= j < |m| && m[j].low == bars[i].low)
            && bars[i].open == m[0].open && bars[i].close == m[|m| - 1].close && bars[i].volume == Volume(m)
  {
    hide Members, BucketEnd, WholeSessions, CalendarValid, OnGrid, StrictlyAscending, SortByTime, BucketOf, Highest, Lowest, Volume, Emits, Tiled, ProperBucket, Expected;
    var b := bars[i].timestamp;
    var m := Members(s, cal, target, b);
    CompleteIsTiled(s, cal, target, base, cutoff, b);
    OrderedMembers(s, cal, target, base, b);
    forall x ensures x in m <==> x in s && BucketOf(cal, target, x.timestamp) == Some(b) {
      MembersExact(s, cal, target, b, x);
    }
    forall j | 0 <= j < |m| ensures m[j].Valid() {
      assert m[j] in m;
    }
    CombineValid(m, b, target);
    ExtremesBound(m);
    ExtremesAttained(m);
  }

  /** No source feeds two bars. */
  lemma {:induction false} SourceFeedsOne(s: seq<Candle>, cal: Option<Calendar>, target: int, b: int, b': int, x: Candle)
    requires target > 0 && x in Members(s, cal, target, b) && x in Members(s, cal, target, b')
    ensures b == b'
  {
    MembersExact(s, cal, target, b, x);
    MembersExact(s, cal, target, b', x);
  }
}
