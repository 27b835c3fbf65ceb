/** What aggregation promises over time: which bars stay, which sources a bar is made of. */
module AggregationLaws {
  import opened Domain
  import opened Aggregation
  import opened Arith

  // ----- buckets --------------------------------------------------------------------------------

  /** A bucket start: a trading day's session open, or a whole number of targets after it. */
  ghost predicate ProperBucket(cal: Option<Calendar>, target: int, b: int)
    requires target > 0
  {
    var d := DateOf(b);
    && Trades(cal, d) && OpenOf(cal, d) <= b < CloseOf(cal, d)
    && (if target == DAY then b == OpenOf(cal, d) else (b - OpenOf(cal, d)) % target == 0)
  }

  lemma {:induction false} OpenDate(cal: Option<Calendar>, d: int)
    requires CalendarValid(cal)
    ensures DateOf(OpenOf(cal, d)) == d && OpenOf(cal, d) < CloseOf(cal, d)
  {
    if !(cal.Some? && d in cal.value) {
      QuotientUnique(d * DAY + NSE_OPEN, d, NSE_OPEN, DAY);
    }
  }

  /** The dates of a day's instants are one interval. */
  lemma {:induction false} DateBetween(a: int, b: int, t: int)
    requires a <= t <= b && DateOf(a) == DateOf(b)
    ensures DateOf(t) == DateOf(a)
  {
    Quotient(a, DAY);
    Quotient(b, DAY);
    QuotientUnique(t, DateOf(a), t - DateOf(a) * DAY, DAY);
  }

  /** A candle's bucket starts on the candle's own day, at or before it, and ends after it. */
  lemma {:induction false} BucketBounds(cal: Option<Calendar>, target: int, t: int)
    requires target > 0 && CalendarValid(cal) && BucketOf(cal, target, t).Some?
    ensures var b := BucketOf(cal, target, t).value;
            ProperBucket(cal, target, b) && DateOf(b) == DateOf(t) && b <= t < BucketEnd(cal, target, b)
  {
    var d := DateOf(t);
    var open := OpenOf(cal, d);
    OpenDate(cal, d);
    if target != DAY {
      FloorGrid(t - open, target);
      var b := BucketOf(cal, target, t).value;
      if t - open < target {
        QuotientUnique(t - open, 0, t - open, target);
      }
      NonNegativeFloor(t - open, target);
      DateBetween(open, t, b);
    }
  }

  lemma {:induction false} NonNegativeFloor(x: int, d: int)
    requires x >= 0 && d > 0
    ensures (x / d) * d >= 0
  {
    Quotient(x, d);
    if x / d < 0 {
      MulMono(x / d, -1, d);
    }
  }

  /** Every instant of the bucket's own day inside the bucket belongs to it. */
  lemma {:induction false} BucketContains(cal: Option<Calendar>, target: int, b: int, t: int)
    requires target > 0 && CalendarValid(cal) && ProperBucket(cal, target, b)
    requires DateOf(t) == DateOf(b) && b <= t < BucketEnd(cal, target, b)
    ensures BucketOf(cal, target, t) == Some(b)
  {
    var open := OpenOf(cal, DateOf(b));
    if target != DAY {
      FloorGridUnique(t - open, b - open, target);
    }
  }

  // ----- members --------------------------------------------------------------------------------

  lemma {:induction false} MembersExact(s: seq<Candle>, cal: Option<Calendar>, target: int, b: int, x: Candle)
    requires target > 0
    ensures x in Members(s, cal, target, b) <==> x in s && BucketOf(cal, target, x.timestamp) == Some(b)
  {
    hide BucketOf;
    if s != [] {
      MembersExact(s[..|s| - 1], cal, target, b, x);
      assert s == s[..|s| - 1] + [s[|s| - 1]];
    }
  }

  lemma {:induction false} MembersAscending(s: seq<Candle>, cal: Option<Calendar>, target: int, b: int)
    requires target > 0 && StrictlyAscending(s)
    ensures StrictlyAscending(Members(s, cal, target, b))
  {
    if s == [] {
      NoMembers(cal, target, b);
    } else {
      hide BucketOf, StrictlyAscending;
      var front, x := s[..|s| - 1], s[|s| - 1];
      FrontAscending(s);
      MembersAscending(front, cal, target, b);
      var m := Members(front, cal, target, b);
      forall i | 0 <= i < |m| ensures m[i].timestamp < x.timestamp {
        assert m[i] in m;
        MembersExact(front, cal, target, b, m[i]);
      }
      AppendAscending(m, x);
    }
  }

  lemma {:induction false} FrontAscending(s: seq<Candle>)
    requires StrictlyAscending(s) && s != []
    ensures StrictlyAscending(s[..|s| - 1])
    ensures forall x :: x in s[..|s| - 1] ==> x.timestamp < s[|s| - 1].timestamp
  {
  }

  lemma {:induction false} AvailableExact(s: seq<Candle>, base: int, cal: Option<Calendar>, cutoff: int, x: Candle)
    ensures x in Available(s, base, cal, cutoff) <==> x in s && x.isClosed && AvailableAt(x, base, cal) <= cutoff
  {
    hide AvailableAt;
    if s != [] {
      AvailableExact(s[..|s| - 1], base, cal, cutoff, x);
      assert s == s[..|s| - 1] + [s[|s| - 1]];
    }
  }

  lemma {:induction false} AvailableAscending(s: seq<Candle>, base: int, cal: Option<Calendar>, cutoff: int)
    requires StrictlyAscending(s)
    ensures StrictlyAscending(Available(s, base, cal, cutoff))
  {
    if s != [] {
      hide AvailableAt, StrictlyAscending;
      var front, x := s[..|s| - 1], s[|s| - 1];
      FrontAscending(s);
      AvailableAscending(front, base, cal, cutoff);
      var known := Available(front, base, cal, cutoff);
      forall i | 0 <= i < |known| ensures known[i].timestamp < x.timestamp {
        assert known[i] in known;
        AvailableExact(front, base, cal, cutoff, known[i]);
      }
      AppendAscending(known, x);
    }
  }

  // ----- what stays at a later instant ----------------------------------------------------------

  /** A source of the bucket that becomes known after `early`, and no later than `late`. */
  ghost predicate LateMember(x: Candle, base: int, cal: Option<Calendar>, target: int, b: int, early: int, late: int)
    requires target > 0
  {
    x.isClosed && BucketOf(cal, target, x.timestamp) == Some(b) && early < AvailableAt(x, base, cal) <= late
  }

  lemma {:induction false} MembersStep(s: seq<Candle>, base: int, cal: Option<Calendar>, target: int, b: int, cutoff: int)
    requires target > 0 && s != []
    ensures var x := s[|s| - 1];
            Members(Available(s, base, cal, cutoff), cal, target, b) ==
            Members(Available(s[..|s| - 1], base, cal, cutoff), cal, target, b) +
            (if x.isClosed && AvailableAt(x, base, cal) <= cutoff && BucketOf(cal, target, x.timestamp) == Some(b) then [x] else [])
  {
    hide BucketOf, AvailableAt;
    var x := s[|s| - 1];
    var known := Available(s[..|s| - 1], base, cal, cutoff);
    if x.isClosed && AvailableAt(x, base, cal) <= cutoff {
      assert Available(s, base, cal, cutoff) == known + [x];
      MembersAppend(known, cal, target, b, x);
    } else {
      assert Available(s, base, cal, cutoff) == known;
    }
  }

  lemma {:induction false} MembersAppend(s: seq<Candle>, cal: Option<Calendar>, target: int, b: int, x: Candle)
    requires target > 0
    ensures Members(s + [x], cal, target, b) ==
            Members(s, cal, target, b) + (if BucketOf(cal, target, x.timestamp) == Some(b) then [x] else [])
  {
    hide BucketOf;
    assert (s + [x])[..|s|] == s;
  }

  lemma {:induction false} GrowStep<T>(m: seq<T>, n: seq<T>, x: T, first: bool, second: bool)
    requires |m| <= |n| && (|m| == |n| ==> m == n) && (first ==> second)
    ensures var m', n' := m + (if first then [x] else []), n + (if second then [x] else []);
            && |m'| <= |n'| && (|m'| == |n'| ==> m' == n')
            && (|m'| == |n'| <==> |m| == |n| && (second ==> first))
  {
  }

  /** Waiting never removes a member; it adds exactly the late ones. */
  lemma {:induction false} MembersGrow(s: seq<Candle>, base: int, cal: Option<Calendar>, target: int, b: int, early: int, late: int)
    requires target > 0 && early <= late
    ensures var m, n := Members(Available(s, base, cal, early), cal, target, b), Members(Available(s, base, cal, late), cal, target, b);
            && |m| <= |n|
            && (|m| == |n| <==> m == n)
            && (m == n <==> forall x :: x in s ==> !LateMember(x, base, cal, target, b, early, late))
  {
    if s == [] {
      NothingAvailable(base, cal, target, b, early);
      NothingAvailable(base, cal, target, b, late);
    } else {
      hide Members, Available, BucketOf, AvailableAt;
      var front, x := s[..|s| - 1], s[|s| - 1];
      assert s == front + [x];
      MembersGrow(front, base, cal, target, b, early, late);
      MembersStep(s, base, cal, target, b, early);
      MembersStep(s, base, cal, target, b, late);
      var inBucket := x.isClosed && BucketOf(cal, target, x.timestamp) == Some(b);
      var at := AvailableAt(x, base, cal);
      assert LateMember(x, base, cal, target, b, early, late) <==> inBucket && early < at <= late;
      GrowStep(Members(Available(front, base, cal, early), cal, target, b), Members(Available(front, base, cal, late), cal, target, b),
               x, inBucket && at <= early, inBucket && at <= late);
    }
  }

  lemma {:induction false} NothingAvailable(base: int, cal: Option<Calendar>, target: int, b: int, cutoff: int)
    requires target > 0
    ensures Members(Available([], base, cal, cutoff), cal, target, b) == []
  {
  }

  /**
   * A bar once emitted stays at a later instant exactly when no further source of its bucket
   * becomes known in between, and then it is the same bar.
   */
  lemma {:induction false} BarStays(s: seq<Candle>, base: int, cal: Option<Calendar>, target: int, b: int, early: int, late: int)
    requires target > 0 && base > 0 && early <= late
    requires Emits(Available(s, base, cal, early), cal, target, base, early, b)
    ensures Emits(Available(s, base, cal, late), cal, target, base, late, b)
       <==> (forall x :: x in s ==> !LateMember(x, base, cal, target, b, early, late))
    ensures Emits(Available(s, base, cal, late), cal, target, base, late, b) ==>
              && Members(Available(s, base, cal, early), cal, target, b) != []
              && Members(Available(s, base, cal, late), cal, target, b) != []
              && Bar(Available(s, base, cal, late), cal, target, b) == Bar(Available(s, base, cal, early), cal, target, b)
  {
    hide Members, Available, LateMember, Contiguous, BucketEnd, Combine;
    MembersGrow(s, base, cal, target, b, early, late);
  }

  /** In-session sources start a whole number of base intervals after their session opens. */
  ghost predicate OnGrid(s: seq<Candle>, cal: Option<Calendar>, base: int)
    requires base > 0
  {
    forall x :: x in s ==> GridAligned(cal, base, x.timestamp)
  }

  ghost predicate GridAligned(cal: Option<Calendar>, base: int, t: int)
    requires base > 0
  {
    var d := DateOf(t);
    Trades(cal, d) && OpenOf(cal, d) <= t < CloseOf(cal, d) ==> (t - OpenOf(cal, d)) % base == 0
  }

  /** Every trading day's session lasts a whole number of `base` intervals. */
  ghost predicate WholeSessions(cal: Option<Calendar>, base: int)
    requires base > 0
  {
    forall d :: Trades(cal, d) ==> (CloseOf(cal, d) - OpenOf(cal, d)) % base == 0
  }

  /** The geometry of a bucket: it spans a whole number of base intervals. */
  lemma {:induction false} BucketWhole(cal: Option<Calendar>, target: int, base: int, b: int)
    requires target > 0 && base > 0 && target % base == 0 && CalendarValid(cal) && WholeSessions(cal, base)
    requires ProperBucket(cal, target, b)
    ensures (b - OpenOf(cal, DateOf(b))) % base == 0
    ensures (BucketEnd(cal, target, b) - b) % base == 0 && b < BucketEnd(cal, target, b) <= CloseOf(cal, DateOf(b))
  {
    var d := DateOf(b);
    var open, close := OpenOf(cal, d), CloseOf(cal, d);
    assert (close - open) % base == 0;
    if target != DAY {
      MultipleTrans(b - open, target, base);
      MultipleSum(close - open, b - open, base);
    }
  }

  /** An aligned source ends no later than its bucket. */
  lemma {:induction false} SourceEndsInBucket(cal: Option<Calendar>, target: int, base: int, t: int)
    requires target > 0 && base > 0 && target % base == 0 && CalendarValid(cal) && WholeSessions(cal, base)
    requires GridAligned(cal, base, t) && BucketOf(cal, target, t).Some?
    ensures t + base <= BucketEnd(cal, target, BucketOf(cal, target, t).value)
  {
    BucketBounds(cal, target, t);
    var b := BucketOf(cal, target, t).value;
    BucketWhole(cal, target, base, b);
    var open, end := OpenOf(cal, DateOf(b)), BucketEnd(cal, target, b);
    MultipleSum(b - open, end - b, base);
    GridGap(t - open, end - open, base);
  }

  /** The repository's promise: on aligned sources and whole sessions, no bar is ever taken back or changed. */
  lemma {:induction false} NoRetraction(s: seq<Candle>, base: int, cal: Option<Calendar>, target: int, b: int, early: int, late: int)
    requires target > 0 && 0 < base < target <= DAY && target % base == 0 && early <= late
    requires CalendarValid(cal) && WholeSessions(cal, base) && OnGrid(s, cal, base)
    requires Emits(Available(s, base, cal, early), cal, target, base, early, b)
    ensures Emits(Available(s, base, cal, late), cal, target, base, late, b)
    ensures Members(Available(s, base, cal, early), cal, target, b) != []
    ensures Members(Available(s, base, cal, late), cal, target, b) != []
    ensures Bar(Available(s, base, cal, late), cal, target, b) == Bar(Available(s, base, cal, early), cal, target, b)
  {
    forall x | x in s ensures !LateMember(x, base, cal, target, b, early, late) {
      hide CalendarValid, WholeSessions, BucketOf, Members, Available;
      if BucketOf(cal, target, x.timestamp) == Some(b) {
        SourceEndsInBucket(cal, target, base, x.timestamp);
      }
    }
    hide Members, Available, LateMember, Emits, Bar;
    BarStays(s, base, cal, target, b, early, late);
  }

  /** All the bars of an earlier aggregation are among those of a later one. */
  lemma {:induction false} BarsRemain(
    s: seq<Candle>, base: int, cal: Option<Calendar>, target: int, early: int, late: int, a: seq<Candle>, z: seq<Candle>)
    requires target > 0 && 0 < base < target <= DAY && target % base == 0 && early <= late
    requires CalendarValid(cal) && WholeSessions(cal, base) && OnGrid(s, cal, base)
    requires IsAggregation(a, Available(s, base, cal, early), cal, target, base, early)
    requires IsAggregation(z, Available(s, base, cal, late), cal, target, base, late)
    ensures forall x :: x in a ==> x in z
  {
    hide Members, Available, Emits, Bar, WholeSessions, CalendarValid, OnGrid, StrictlyAscending;
    forall x | x in a ensures x in z {
      var b := x.timestamp;
      NoRetraction(s, base, cal, target, b, early, late);
      assert HasTime(z, b);
      assert exists j :: 0 <= j < |z| && z[j].timestamp == b;
    }
  }

  // ----- a bar that is taken back ---------------------------------------------------------------

  function Hourly(t: int): Candle {
    Candle(0, t, 3600, 1.0, 1.0, 1.0, 1.0, 1.0, None, true)
  }

  /** The last three hourly candles of the regular session of day zero; the third outlives the close. */
  function LastHours(): seq<Candle> {
    [Hourly(47700), Hourly(51300), Hourly(54900)]
  }

  lemma {:induction false} LastHoursKnown(cutoff: int)
    requires NSE_CLOSE <= cutoff
    ensures Available(LastHours(), 3600, None, cutoff) ==
            LastHours()[..2] + (if 58500 <= cutoff then [Hourly(54900)] else [])
  {
    var s := LastHours();
    assert s[..2][..1] == s[..1] && s[..1][..0] == [];
    assert Available(s[..1][..0], 3600, None, cutoff) == [];
    assert Available(s[..1], 3600, None, cutoff) == [s[0]];
    assert Available(s[..2], 3600, None, cutoff) == [s[0], s[1]];
  }

  lemma {:induction false} NoMembers(cal: Option<Calendar>, target: int, b: int)
    requires target > 0
    ensures Members([], cal, target, b) == []
  {
  }

  lemma {:induction false} LastHourBucket(t: int)
    requires t == 47700 || t == 51300 || t == 54900
    ensures BucketOf(None, 14400, t) == Some(47700)
  {
    assert DateOf(t) == 0;
  }

  lemma {:induction false} LastHoursMembers(n: nat)
    requires n <= 3
    ensures Members(LastHours()[..n], None, 14400, 47700) == LastHours()[..n]
  {
    hide BucketOf, Members;
    var s := LastHours();
    if n == 0 {
      NoMembers(None, 14400, 47700);
    } else {
      LastHoursMembers(n - 1);
      LastHourBucket(s[n - 1].timestamp);
      MembersAppend(s[..n - 1], None, 14400, 47700, s[n - 1]);
      assert s[..n] == s[..n - 1] + [s[n - 1]];
    }
  }

  /** Two candles are what the bucket expects; three are too many. */
  lemma {:induction false} LastHoursComplete()
    ensures Complete(LastHours()[..2], None, 14400, 3600, NSE_CLOSE, 47700)
    ensures !Complete(LastHours()[..3], None, 14400, 3600, 58500, 47700)
  {
    SortSorted(LastHours()[..2]);
  }

  /**
   * Sessions that are no whole number of base intervals break the promise: the regular session's last
   * four-hour bar, built from hourly candles, is emitted at the close and gone 45 minutes later.
   */
  lemma {:induction false} HourlyBarTakenBack()
    ensures Emits(Available(LastHours(), 3600, None, NSE_CLOSE), None, 14400, 3600, NSE_CLOSE, 47700)
    ensures !Emits(Available(LastHours(), 3600, None, 58500), None, 14400, 3600, 58500, 47700)
  {
    hide Available, Members, Complete;
    var s := LastHours();
    LastHoursKnown(NSE_CLOSE);
    LastHoursMembers(2);
    assert s[..2] + [] == s[..2];
    LastHoursKnown(58500);
    LastHoursMembers(3);
    assert s[..2] + [Hourly(54900)] == s[..3];
    LastHoursComplete();
  }
}
