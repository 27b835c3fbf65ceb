/** Point-in-time aggregation of closed candles into session-aligned bars. */
module Aggregation {
  import opened Domain

  const DAY := 86400
  const WEEK := 604800
  const NSE_OPEN := 33300
  const NSE_CLOSE := 55800

  /** The target timeframes, in seconds. */
  const TIMEFRAMES := {60, 180, 300, 900, 1800, 3600, 14400, DAY, WEEK}

  /** One published session; times are seconds of Indian local time, dates are whole days of it. */
  datatype MarketSession = MarketSession(isNse: bool, sessionDate: int, opensAt: int, closesAt: int, isTradingDay: bool)
  {
    predicate Valid() {
      closesAt > opensAt
    }
  }

  type Calendar = map<int, MarketSession>

  datatype Error =
    | MixedInstruments
    | MixedTimeframes
    | TargetNotMultiple
    | NotNse
    | DuplicateSession
    | OpenDateMismatch
    | WeeklyNeedsDaily
    | WeekNotCovered

  function DateOf(t: int): int {
    t / DAY
  }

  // ----- sorting --------------------------------------------------------------------------------

  function Insert(s: seq<Candle>, x: Candle): seq<Candle> {
    if s == [] || s[|s| - 1].timestamp <= x.timestamp then s + [x] else Insert(s[..|s| - 1], x) + [s[|s| - 1]]
  }

  /** The stable sort by timestamp. */
  function SortByTime(s: seq<Candle>): seq<Candle> {
    if s == [] then [] else Insert(SortByTime(s[..|s| - 1]), s[|s| - 1])
  }

  ghost predicate Ascending(s: seq<Candle>) {
    forall i, j :: 0 <= i < j < |s| ==> s[i].timestamp <= s[j].timestamp
  }

  ghost predicate StrictlyAscending(s: seq<Candle>) {
    forall i, j :: 0 <= i < j < |s| ==> s[i].timestamp < s[j].timestamp
  }

  ghost predicate NoneAfter(s: seq<Candle>, t: int) {
    forall i :: 0 <= i < |s| ==> s[i].timestamp <= t
  }

  lemma {:induction false} InsertBounded(s: seq<Candle>, x: Candle, t: int)
    requires NoneAfter(s, t) && x.timestamp <= t
    ensures NoneAfter(Insert(s, x), t)
  {
    if s != [] && s[|s| - 1].timestamp > x.timestamp {
      InsertBounded(s[..|s| - 1], x, t);
    }
  }

  lemma {:induction false} InsertAscending(s: seq<Candle>, x: Candle)
    requires Ascending(s)
    ensures Ascending(Insert(s, x))
  {
    if s != [] && s[|s| - 1].timestamp > x.timestamp {
      InsertAscending(s[..|s| - 1], x);
      InsertBounded(s[..|s| - 1], x, s[|s| - 1].timestamp);
    }
  }

  lemma {:induction false} InsertKeeps(s: seq<Candle>, x: Candle)
    ensures multiset(Insert(s, x)) == multiset(s) + multiset{x}
  {
    if s != [] && s[|s| - 1].timestamp > x.timestamp {
      assert s == s[..|s| - 1] + [s[|s| - 1]];
      InsertKeeps(s[..|s| - 1], x);
    }
  }

  lemma {:induction false} SortExact(s: seq<Candle>)
    ensures Ascending(SortByTime(s)) && multiset(SortByTime(s)) == multiset(s)
  {
    if s != [] {
      assert s == s[..|s| - 1] + [s[|s| - 1]];
      SortExact(s[..|s| - 1]);
      InsertAscending(SortByTime(s[..|s| - 1]), s[|s| - 1]);
      InsertKeeps(SortByTime(s[..|s| - 1]), s[|s| - 1]);
    }
  }

  /** Sorting what is already in order changes nothing. */
  lemma {:induction false} SortSorted(s: seq<Candle>)
    requires Ascending(s)
    ensures SortByTime(s) == s
  {
    if s != [] {
      SortSorted(s[..|s| - 1]);
    }
  }

  // ----- sessions and buckets -------------------------------------------------------------------

  /** The calendar a list of sessions makes, or the first complaint about it. */
  function SessionLookup(sessions: seq<MarketSession>): Result<Calendar, Error> {
    if sessions == [] then Success(map[])
    else
      var front := SessionLookup(sessions[..|sessions| - 1]);
      var s := sessions[|sessions| - 1];
      if front.Failure? then front
      else if !s.isNse then Failure(NotNse)
      else if s.sessionDate in front.value then Failure(DuplicateSession)
      else if DateOf(s.opensAt) != s.sessionDate then Failure(OpenDateMismatch)
      else Success(front.value[s.sessionDate := s])
  }

  lemma {:induction false} SessionLookupStops(sessions: seq<MarketSession>, n: nat)
    requires n <= |sessions| && SessionLookup(sessions[..n]).Failure?
    ensures SessionLookup(sessions) == SessionLookup(sessions[..n])
    decreases |sessions|
  {
    if n < |sessions| {
      var front := sessions[..|sessions| - 1];
      assert front[..n] == sessions[..n];
      SessionLookupStops(front, n);
    } else {
      assert sessions[..n] == sessions;
    }
  }

  method BuildCalendar(sessions: seq<MarketSession>) returns (r: Result<Calendar, Error>)
    ensures r == SessionLookup(sessions)
    ensures r.Success? && (forall i :: 0 <= i < |sessions| ==> sessions[i].Valid()) ==> CalendarValid(Some(r.value))
  {
    if forall i :: 0 <= i < |sessions| ==> sessions[i].Valid() {
      SessionLookupValid(sessions);
    }
    var calendar: Calendar := map[];
    for i := 0 to |sessions|
      invariant SessionLookup(sessions[..i]) == Success(calendar)
    {
      var prefix := sessions[..i + 1];
      assert prefix[..i] == sessions[..i];
      var s := sessions[i];
      if !s.isNse {
        SessionLookupStops(sessions, i + 1);
        return Failure(NotNse);
      }
      if s.sessionDate in calendar {
        SessionLookupStops(sessions, i + 1);
        return Failure(DuplicateSession);
      }
      if DateOf(s.opensAt) != s.sessionDate {
        SessionLookupStops(sessions, i + 1);
        return Failure(OpenDateMismatch);
      }
      calendar := calendar[s.sessionDate := s];
    }
    assert sessions[..|sessions|] == sessions;
    return Success(calendar);
  }

  /** A calendar as the lookup builds it: every session opens on its own date and closes later. */
  ghost predicate CalendarValid(cal: Option<Calendar>) {
    cal.Some? ==> forall d :: d in cal.value ==> DateOf(cal.value[d].opensAt) == d && cal.value[d].Valid()
  }

  lemma {:induction false} SessionLookupValid(sessions: seq<MarketSession>)
    requires forall i :: 0 <= i < |sessions| ==> sessions[i].Valid()
    ensures SessionLookup(sessions).Success? ==> CalendarValid(Some(SessionLookup(sessions).value))
  {
    if sessions != [] {
      SessionLookupValid(sessions[..|sessions| - 1]);
    }
  }

  function OpenOf(cal: Option<Calendar>, d: int): int {
    if cal.Some? && d in cal.value then cal.value[d].opensAt else d * DAY + NSE_OPEN
  }

  function CloseOf(cal: Option<Calendar>, d: int): int {
    if cal.Some? && d in cal.value then cal.value[d].closesAt else d * DAY + NSE_CLOSE
  }

  predicate Trades(cal: Option<Calendar>, d: int) {
    cal.Some? && d in cal.value ==> cal.value[d].isTradingDay
  }

  /** The bucket a source candle falls into, if its session contains it. */
  function BucketOf(cal: Option<Calendar>, target: int, t: int): Option<int>
    requires target > 0
  {
    var d := DateOf(t);
    if !Trades(cal, d) || !(OpenOf(cal, d) <= t < CloseOf(cal, d)) then None
    else if target == DAY then Some(OpenOf(cal, d))
    else Some(OpenOf(cal, d) + (t - OpenOf(cal, d)) / target * target)
  }

  function BucketEnd(cal: Option<Calendar>, target: int, bucket: int): int {
    var close := CloseOf(cal, DateOf(bucket));
    if target == DAY then close else MinInt(bucket + target, close)
  }

  /** When a source candle is known: at its end, and a daily one at its session's close. */
  function AvailableAt(x: Candle, base: int, cal: Option<Calendar>): int {
    if base == DAY then CloseOf(cal, DateOf(x.timestamp)) else x.timestamp + base
  }

  function Available(s: seq<Candle>, base: int, cal: Option<Calendar>, cutoff: int): seq<Candle> {
    if s == [] then []
    else
      var x := s[|s| - 1];
      Available(s[..|s| - 1], base, cal, cutoff) + (if x.isClosed && AvailableAt(x, base, cal) <= cutoff then [x] else [])
  }

  /** The sources of one bucket. */
  function Members(s: seq<Candle>, cal: Option<Calendar>, target: int, bucket: int): seq<Candle>
    requires target > 0
  {
    if s == [] then []
    else
      var x := s[|s| - 1];
      Members(s[..|s| - 1], cal, target, bucket) + (if BucketOf(cal, target, x.timestamp) == Some(bucket) then [x] else [])
  }

  // ----- one bar --------------------------------------------------------------------------------

  predicate ContiguousOrdered(s: seq<Candle>, seconds: int) {
    forall i :: 0 <= i < |s| - 1 ==> s[i + 1].timestamp - s[i].timestamp == seconds
  }

  predicate Contiguous(s: seq<Candle>, seconds: int) {
    ContiguousOrdered(SortByTime(s), seconds)
  }

  function Highest(s: seq<Candle>): real
    requires s != []
  {
    if |s| == 1 then s[0].high else Max(Highest(s[..|s| - 1]), s[|s| - 1].high)
  }

  function Lowest(s: seq<Candle>): real
    requires s != []
  {
    if |s| == 1 then s[0].low else Min(Lowest(s[..|s| - 1]), s[|s| - 1].low)
  }

  function Volume(s: seq<Candle>): real {
    if s == [] then 0.0 else Volume(s[..|s| - 1]) + s[|s| - 1].volume
  }

  function CombineOrdered(s: seq<Candle>, timestamp: int, timeframe: int): Candle
    requires s != []
  {
    Candle(s[0].instrument, timestamp, timeframe, s[0].open, Highest(s), Lowest(s), s[|s| - 1].close, Volume(s),
           s[|s| - 1].openInterest, true)
  }

  lemma {:induction false} SortNonEmpty(s: seq<Candle>)
    requires s != []
    ensures SortByTime(s) != []
  {
    SortExact(s);
    assert s[0] in multiset(s);
    assert |multiset(SortByTime(s))| == |SortByTime(s)|;
  }

  function Combine(s: seq<Candle>, timestamp: int, timeframe: int): Candle
    requires s != []
  {
    SortNonEmpty(s);
    CombineOrdered(SortByTime(s), timestamp, timeframe)
  }

  /** Combining candles that exist never violates the candle validators. */
  lemma {:induction false} CombineValid(s: seq<Candle>, timestamp: int, timeframe: int)
    requires s != [] && timeframe > 0 && forall i :: 0 <= i < |s| ==> s[i].Valid()
    ensures CombineOrdered(s, timestamp, timeframe).Valid()
  {
    ExtremesBound(s);
  }

  lemma {:induction false} ExtremesBound(s: seq<Candle>)
    requires s != [] && forall i :: 0 <= i < |s| ==> s[i].Valid()
    ensures forall i :: 0 <= i < |s| ==> Lowest(s) <= s[i].low && s[i].high <= Highest(s)
    ensures Lowest(s) > 0.0 && Volume(s) >= 0.0
  {
    if |s| > 1 {
      ExtremesBound(s[..|s| - 1]);
      assert forall i :: 0 <= i < |s| - 1 ==> s[..|s| - 1][i] == s[i];
    } else {
      assert s[..0] == [];
      assert Volume(s) == Volume(s[..0]) + s[0].volume;
    }
  }

  /** The extremes are some source's own. */
  lemma {:induction false} ExtremesAttained(s: seq<Candle>)
    requires s != []
    ensures exists i :: 0 <= i < |s| && s[i].high == Highest(s)
    ensures exists i :: 0 <= i < |s| && s[i].low == Lowest(s)
  {
    var n := |s| - 1;
    if n == 0 {
      assert s[0].high == Highest(s) && s[0].low == Lowest(s);
    } else {
      ExtremesAttained(s[..n]);
      var i :| 0 <= i < n && s[..n][i].high == Highest(s[..n]);
      var j :| 0 <= j < n && s[..n][j].low == Lowest(s[..n]);
      assert s[i].high == Highest(s) || s[n].high == Highest(s);
      assert s[j].low == Lowest(s) || s[n].low == Lowest(s);
    }
  }

  // ----- the aggregation ------------------------------------------------------------------------

  /** The bucket is complete: every expected source is there, in one unbroken run, and its end has passed. */
  predicate Complete(m: seq<Candle>, cal: Option<Calendar>, target: int, base: int, cutoff: int, bucket: int)
    requires base > 0
  {
    var end := BucketEnd(cal, target, bucket);
    m != [] && end <= cutoff && |m| == (end - bucket) / base && Contiguous(m, base)
  }

  ghost predicate Emits(available: seq<Candle>, cal: Option<Calendar>, target: int, base: int, cutoff: int, bucket: int)
    requires target > 0 && base > 0
  {
    Complete(Members(available, cal, target, bucket), cal, target, base, cutoff, bucket)
  }

  function Bar(available: seq<Candle>, cal: Option<Calendar>, target: int, bucket: int): Candle
    requires target > 0 && Members(available, cal, target, bucket) != []
  {
    Combine(Members(available, cal, target, bucket), bucket, target)
  }

  ghost predicate HasTime(bars: seq<Candle>, t: int) {
    exists i :: 0 <= i < |bars| && bars[i].timestamp == t
  }

  ghost predicate AreBars(
    bars: seq<Candle>, available: seq<Candle>, cal: Option<Calendar>, target: int, base: int, cutoff: int)
    requires target > 0 && base > 0
  {
    forall i :: 0 <= i < |bars| ==>
      var b := bars[i].timestamp;
      && Emits(available, cal, target, base, cutoff, b)
      && Members(available, cal, target, b) != []
      && bars[i] == Bar(available, cal, target, b)
  }

  /** The bars of an aggregation: one for every complete bucket and no other, in strictly increasing order of time. */
  ghost predicate IsAggregation(
    bars: seq<Candle>, available: seq<Candle>, cal: Option<Calendar>, target: int, base: int, cutoff: int)
    requires target > 0 && base > 0
  {
    && StrictlyAscending(bars)
    && AreBars(bars, available, cal, target, base, cutoff)
    && (forall b :: Emits(available, cal, target, base, cutoff, b) ==> HasTime(bars, b))
  }

  method FilterAvailable(s: seq<Candle>, base: int, cal: Option<Calendar>, cutoff: int) returns (r: seq<Candle>)
    ensures r == Available(s, base, cal, cutoff)
  {
    r := [];
    for i := 0 to |s|
      invariant r == Available(s[..i], base, cal, cutoff)
    {
      assert s[..i + 1][..i] == s[..i];
      if s[i].isClosed && AvailableAt(s[i], base, cal) <= cutoff {
        r := r + [s[i]];
      }
    }
    assert s[..|s|] == s;
  }

  ghost predicate IsGrouping(grouped: map<int, seq<Candle>>, s: seq<Candle>, cal: Option<Calendar>, target: int)
    requires target > 0
  {
    forall b :: if b in grouped then grouped[b] != [] && grouped[b] == Members(s, cal, target, b) else Members(s, cal, target, b) == []
  }

  /** Fill the dictionary of buckets, candle by candle. */
  method GroupCandles(s: seq<Candle>, cal: Option<Calendar>, target: int) returns (grouped: map<int, seq<Candle>>)
    requires target > 0
    ensures IsGrouping(grouped, s, cal, target)
  {
    hide BucketOf;
    grouped := map[];
    for i := 0 to |s|
      invariant IsGrouping(grouped, s[..i], cal, target)
    {
      assert s[..i + 1][..i] == s[..i];
      var bucket := BucketOf(cal, target, s[i].timestamp);
      if bucket.None? {
        continue;
      }
      var before := if bucket.value in grouped then grouped[bucket.value] else [];
      grouped := grouped[bucket.value := before + [s[i]]];
    }
    assert s[..|s|] == s;
  }

  method SortedKeys(keys: set<int>) returns (r: seq<int>)
    ensures forall i, j :: 0 <= i < j < |r| ==> r[i] < r[j]
    ensures forall k :: k in keys <==> k in r
  {
    r := [];
    var rest := keys;
    while |rest| > 0
      invariant rest <= keys
      invariant forall i, j :: 0 <= i < j < |r| ==> r[i] < r[j]
      invariant forall k :: k in keys <==> k in r || k in rest
      invariant forall i, k :: 0 <= i < |r| && k in rest ==> r[i] < k
      decreases |rest|
    {
      var least := Least(rest);
      r := r + [least];
      rest := rest - {least};
    }
  }

  method Least(s: set<int>) returns (least: int)
    requires |s| > 0
    ensures least in s && forall k :: k in s ==> least <= k
  {
    assert exists k :: k in s by {
      if forall k :: k !in s {
        assert false;
      }
    }
    least :| least in s;
    var rest := s - {least};
    while |rest| > 0
      invariant rest <= s && least in s
      invariant forall k :: k in s ==> least <= k || k in rest
      decreases |rest|
    {
      assert exists k :: k in rest by {
        if forall k :: k !in rest {
          assert false;
        }
      }
      var k :| k in rest;
      if k < least {
        least := k;
      }
      rest := rest - {k};
    }
  }

  lemma {:induction false} BarStamp(available: seq<Candle>, cal: Option<Calendar>, target: int, b: int)
    requires target > 0 && Members(available, cal, target, b) != []
    ensures Bar(available, cal, target, b).timestamp == b
  {
    hide Members;
  }

  /** The output loop has handled the first `n` keys. */
  ghost predicate Handled(bars: seq<Candle>, keys: seq<int>, n: nat,
                          available: seq<Candle>, cal: Option<Calendar>, target: int, base: int, cutoff: int)
    requires target > 0 && base > 0 && n <= |keys|
  {
    && StrictlyAscending(bars)
    && AreBars(bars, available, cal, target, base, cutoff)
    && (forall i :: 0 <= i < |bars| ==> bars[i].timestamp in keys[..n])
    && (forall j :: 0 <= j < n && Emits(available, cal, target, base, cutoff, keys[j]) ==> HasTime(bars, keys[j]))
  }

  lemma {:induction false} HasTimeAppend(bars: seq<Candle>, x: Candle, t: int)
    ensures HasTime(bars + [x], t) <==> HasTime(bars, t) || t == x.timestamp
  {
    var after := bars + [x];
    assert after[|bars|] == x;
    if HasTime(bars, t) {
      var i :| 0 <= i < |bars| && bars[i].timestamp == t;
      assert after[i].timestamp == t;
    }
  }

  lemma {:induction false} KeysBefore(keys: seq<int>, n: nat, t: int)
    requires n < |keys| && (forall i, j :: 0 <= i < j < |keys| ==> keys[i] < keys[j]) && t in keys[..n]
    ensures t < keys[n]
  {
    if n > 0 && t in keys[..n - 1] {
      KeysBefore(keys, n - 1, t);
      assert keys[n - 1] < keys[n];
    } else if n > 0 {
      assert keys[..n] == keys[..n - 1] + [keys[n - 1]];
      assert t == keys[n - 1];
    }
  }

  lemma {:induction false} AppendAscending(bars: seq<Candle>, x: Candle)
    requires StrictlyAscending(bars) && forall i :: 0 <= i < |bars| ==> bars[i].timestamp < x.timestamp
    ensures StrictlyAscending(bars + [x])
  {
  }

  lemma {:induction false} AreBarsAppend(bars: seq<Candle>, b: int, available: seq<Candle>, cal: Option<Calendar>,
                                         target: int, base: int, cutoff: int)
    requires target > 0 && base > 0 && AreBars(bars, available, cal, target, base, cutoff)
    requires Emits(available, cal, target, base, cutoff, b) && Members(available, cal, target, b) != []
    ensures AreBars(bars + [Bar(available, cal, target, b)], available, cal, target, base, cutoff)
  {
    hide Emits, Bar, Members;
    BarStamp(available, cal, target, b);
  }

  lemma {:induction false} HandleEmitted(bars: seq<Candle>, keys: seq<int>, n: nat,
                                         available: seq<Candle>, cal: Option<Calendar>, target: int, base: int, cutoff: int)
    requires target > 0 && base > 0 && n < |keys| && (forall i, j :: 0 <= i < j < |keys| ==> keys[i] < keys[j])
    requires Handled(bars, keys, n, available, cal, target, base, cutoff)
    requires Members(available, cal, target, keys[n]) != [] && Emits(available, cal, target, base, cutoff, keys[n])
    ensures Handled(bars + [Bar(available, cal, target, keys[n])], keys, n + 1, available, cal, target, base, cutoff)
  {
    hide Emits, Bar, Members, HasTime, AreBars, StrictlyAscending;
    var bar := Bar(available, cal, target, keys[n]);
    BarStamp(available, cal, target, keys[n]);
    forall i | 0 <= i < |bars| ensures bars[i].timestamp < keys[n] {
      KeysBefore(keys, n, bars[i].timestamp);
    }
    AppendAscending(bars, bar);
    AreBarsAppend(bars, keys[n], available, cal, target, base, cutoff);
    assert keys[..n + 1] == keys[..n] + [keys[n]];
    forall j | 0 <= j < n + 1 ensures HasTime(bars + [bar], keys[j]) <==> HasTime(bars, keys[j]) || keys[j] == keys[n] {
      HasTimeAppend(bars, bar, keys[j]);
    }
  }

  lemma {:induction false} HandleSkipped(bars: seq<Candle>, keys: seq<int>, n: nat,
                                         available: seq<Candle>, cal: Option<Calendar>, target: int, base: int, cutoff: int)
    requires target > 0 && base > 0 && n < |keys|
    requires Handled(bars, keys, n, available, cal, target, base, cutoff)
    requires !Emits(available, cal, target, base, cutoff, keys[n])
    ensures Handled(bars, keys, n + 1, available, cal, target, base, cutoff)
  {
    hide Emits, HasTime, AreBars, StrictlyAscending;
    assert keys[..n + 1] == keys[..n] + [keys[n]];
  }

  /** The output loop: the complete buckets, in order. */
  method EmitBars(available: seq<Candle>, cal: Option<Calendar>, target: int, base: int, cutoff: int) returns (bars: seq<Candle>)
    requires target > 0 && base > 0
    ensures IsAggregation(bars, available, cal, target, base, cutoff)
  {
    hide Members, Combine, Complete, AreBars;
    var grouped := GroupCandles(available, cal, target);
    var keys := SortedKeys(grouped.Keys);
    bars := [];
    NothingHandled(keys, available, cal, target, base, cutoff);
    for n := 0 to |keys|
      invariant Handled(bars, keys, n, available, cal, target, base, cutoff)
    {
      hide Handled;
      var bucket := keys[n];
      assert bucket in grouped;
      var members := grouped[bucket];
      if Complete(members, cal, target, base, cutoff, bucket) {
        HandleEmitted(bars, keys, n, available, cal, target, base, cutoff);
        bars := bars + [Combine(members, bucket, target)];
      } else {
        HandleSkipped(bars, keys, n, available, cal, target, base, cutoff);
      }
    }
    forall b | Emits(available, cal, target, base, cutoff, b)
      ensures HasTime(bars, b)
    {
      EmitsSomething(available, cal, target, base, cutoff, b);
      assert b in grouped;
      var j :| 0 <= j < |keys| && keys[j] == b;
    }
  }

  lemma {:induction false} NothingHandled(keys: seq<int>, available: seq<Candle>, cal: Option<Calendar>, target: int, base: int, cutoff: int)
    requires target > 0 && base > 0
    ensures Handled([], keys, 0, available, cal, target, base, cutoff)
  {
  }

  lemma {:induction false} EmitsSomething(available: seq<Candle>, cal: Option<Calendar>, target: int, base: int, cutoff: int, b: int)
    requires target > 0 && base > 0 && Emits(available, cal, target, base, cutoff, b)
    ensures Members(available, cal, target, b) != []
  {
  }

  lemma {:induction false} TimeEmitted(a: seq<Candle>, available: seq<Candle>, cal: Option<Calendar>,
                                       target: int, base: int, cutoff: int, t: int)
    requires target > 0 && base > 0 && IsAggregation(a, available, cal, target, base, cutoff)
    ensures HasTime(a, t) <==> Emits(available, cal, target, base, cutoff, t)
  {
    hide Emits, Bar, Members;
  }

  /** The specification determines the bars: there is only one aggregation. */
  lemma {:induction false} AggregationUnique(a: seq<Candle>, b: seq<Candle>, available: seq<Candle>, cal: Option<Calendar>,
                                             target: int, base: int, cutoff: int)
    requires target > 0 && base > 0
    requires IsAggregation(a, available, cal, target, base, cutoff) && IsAggregation(b, available, cal, target, base, cutoff)
    ensures a == b
  {
    hide Emits, Bar, Members;
    forall t ensures HasTime(a, t) <==> HasTime(b, t) {
      TimeEmitted(a, available, cal, target, base, cutoff, t);
      TimeEmitted(b, available, cal, target, base, cutoff, t);
    }
    SameTimes(a, b);
  }

  /** Two strictly ascending lists with the same times, and the same bar at each, are equal. */
  lemma {:induction false} SameTimes(a: seq<Candle>, b: seq<Candle>)
    requires StrictlyAscending(a) && StrictlyAscending(b)
    requires forall t :: HasTime(a, t) <==> HasTime(b, t)
    requires forall i, j :: 0 <= i < |a| && 0 <= j < |b| && a[i].timestamp == b[j].timestamp ==> a[i] == b[j]
    ensures a == b
    decreases |a|
  {
    if a == [] || b == [] {
      if a != [] {
        assert HasTime(a, a[0].timestamp);
      }
      if b != [] {
        assert HasTime(b, b[0].timestamp);
      }
    } else {
      var fa, fb := a[..|a| - 1], b[..|b| - 1];
      SameLast(a, b);
      forall t ensures HasTime(fa, t) <==> HasTime(fb, t) {
        FrontTimes(a, t);
        FrontTimes(b, t);
      }
      SameTimes(fa, fb);
      assert a == fa + [a[|a| - 1]] && b == fb + [b[|b| - 1]];
    }
  }

  lemma {:induction false} FrontTimes(a: seq<Candle>, t: int)
    requires StrictlyAscending(a) && a != []
    ensures HasTime(a[..|a| - 1], t) <==> HasTime(a, t) && t != a[|a| - 1].timestamp
  {
    var front := a[..|a| - 1];
    if HasTime(front, t) {
      var i :| 0 <= i < |front| && front[i].timestamp == t;
      assert a[i].timestamp == t;
    }
    if HasTime(a, t) && t != a[|a| - 1].timestamp {
      var i :| 0 <= i < |a| && a[i].timestamp == t;
      assert front[i].timestamp == t;
    }
  }

  lemma {:induction false} SameLast(a: seq<Candle>, b: seq<Candle>)
    requires StrictlyAscending(a) && StrictlyAscending(b) && a != [] && b != []
    requires forall t :: HasTime(a, t) <==> HasTime(b, t)
    ensures a[|a| - 1].timestamp == b[|b| - 1].timestamp
  {
    assert HasTime(a, a[|a| - 1].timestamp) && HasTime(b, b[|b| - 1].timestamp);
    var m :| 0 <= m < |a| && a[m].timestamp == b[|b| - 1].timestamp;
    var n :| 0 <= n < |b| && b[n].timestamp == a[|a| - 1].timestamp;
  }
}
