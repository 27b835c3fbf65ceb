/** Weekly bars, and the entry point that dispatches to them. */
module AggregationWeekly {
  import opened Domain
  import opened Aggregation
  import opened AggregationLaws
  import opened Arith

  // ----- weeks ----------------------------------------------------------------------------------

  /** The Monday of a date's week; day zero is a Thursday. */
  function MondayOf(d: int): int {
    d - (d + 3) % 7
  }

  function WeekOf(x: Candle): int {
    MondayOf(DateOf(x.timestamp))
  }

  /** Weeks partition the days: a date lies in the week of exactly one Monday. */
  lemma {:induction false} MondayExact(d: int, w: int)
    requires (w + 3) % 7 == 0
    ensures w <= d < w + 7 <==> w == MondayOf(d)
  {
  }

  function WeekMembers(s: seq<Candle>, monday: int): seq<Candle> {
    if s == [] then []
    else
      var x := s[|s| - 1];
      WeekMembers(s[..|s| - 1], monday) + (if WeekOf(x) == monday then [x] else [])
  }

  predicate WeekCovered(cal: Calendar, monday: int) {
    forall d :: monday <= d < monday + 5 ==> d in cal
  }

  function Trading(cal: Calendar, monday: int): set<int> {
    set d | d in cal && monday <= d < monday + 7 && cal[d].isTradingDay
  }

  function Dates(m: seq<Candle>): set<int> {
    set i | 0 <= i < |m| :: DateOf(m[i].timestamp)
  }

  /** The week is over and has its daily candles: five of any day, or, by calendar, one at each trading day's open. */
  predicate WeekComplete(m: seq<Candle>, cal: Option<Calendar>, monday: int, cutoff: int) {
    match cal
    case None => |m| == 5 && (monday + 4) * DAY + NSE_CLOSE <= cutoff
    case Some(c) =>
      && m != []
      && |m| == |Dates(m)| && Dates(m) == Trading(c, monday)
      && (forall i :: 0 <= i < |m| && DateOf(m[i].timestamp) in Trading(c, monday) ==>
                        m[i].timestamp == c[DateOf(m[i].timestamp)].opensAt)
      && (forall d :: d in Trading(c, monday) ==> c[d].closesAt <= cutoff)
  }

  predicate WeekEmits(s: seq<Candle>, cal: Option<Calendar>, monday: int, cutoff: int) {
    WeekComplete(WeekMembers(s, monday), cal, monday, cutoff)
  }

  function WeekBar(m: seq<Candle>): Candle
    requires m != []
  {
    Combine(m, m[0].timestamp, WEEK)
  }

  lemma {:induction false} WeekMembersExact(s: seq<Candle>, monday: int, x: Candle)
    ensures x in WeekMembers(s, monday) <==> x in s && WeekOf(x) == monday
  {
    hide WeekOf;
    if s != [] {
      WeekMembersExact(s[..|s| - 1], monday, x);
      assert s == s[..|s| - 1] + [s[|s| - 1]];
    }
  }

  lemma {:induction false} WeekAppend(s: seq<Candle>, monday: int, x: Candle)
    ensures WeekMembers(s + [x], monday) == WeekMembers(s, monday) + (if WeekOf(x) == monday then [x] else [])
  {
    assert (s + [x])[..|s|] == s;
  }

  // ----- the weekly bars ------------------------------------------------------------------------

  ghost predicate HasWeek(bars: seq<Candle>, monday: int) {
    exists i :: 0 <= i < |bars| && WeekOf(bars[i]) == monday
  }

  ghost predicate AreWeeks(bars: seq<Candle>, s: seq<Candle>, cal: Option<Calendar>, cutoff: int) {
    forall i :: 0 <= i < |bars| ==>
      && WeekEmits(s, cal, WeekOf(bars[i]), cutoff)
      && WeekMembers(s, WeekOf(bars[i])) != []
      && bars[i] == WeekBar(WeekMembers(s, WeekOf(bars[i])))
  }

  /** One bar for every complete week and no other, week after week. */
  ghost predicate IsWeekly(bars: seq<Candle>, s: seq<Candle>, cal: Option<Calendar>, cutoff: int) {
    && (forall i, j :: 0 <= i < j < |bars| ==> WeekOf(bars[i]) < WeekOf(bars[j]))
    && AreWeeks(bars, s, cal, cutoff)
    && (forall w :: WeekEmits(s, cal, w, cutoff) ==> HasWeek(bars, w))
  }

  ghost predicate IsWeekGrouping(groups: map<int, seq<Candle>>, s: seq<Candle>) {
    forall w :: if w in groups then groups[w] != [] && groups[w] == WeekMembers(s, w) else WeekMembers(s, w) == []
  }

  method GroupWeeks(s: seq<Candle>) returns (groups: map<int, seq<Candle>>)
    ensures IsWeekGrouping(groups, s)
  {
    hide WeekOf;
    groups := map[];
    for i := 0 to |s|
      invariant IsWeekGrouping(groups, s[..i])
    {
      assert s[..i + 1][..i] == s[..i];
      var monday := WeekOf(s[i]);
      var before := if monday in groups then groups[monday] else [];
      groups := groups[monday := before + [s[i]]];
    }
    assert s[..|s|] == s;
  }

  lemma {:induction false} WeekBarStamp(s: seq<Candle>, monday: int)
    requires WeekMembers(s, monday) != []
    ensures WeekOf(WeekBar(WeekMembers(s, monday))) == monday
  {
    hide WeekMembers;
    var m := WeekMembers(s, monday);
    assert m[0] in m;
    WeekMembersExact(s, monday, m[0]);
  }

  /** The output loop has handled the first `n` weeks. */
  ghost predicate WeeksHandled(bars: seq<Candle>, keys: seq<int>, n: nat, s: seq<Candle>, cal: Option<Calendar>, cutoff: int)
    requires n <= |keys|
  {
    && (forall i, j :: 0 <= i < j < |bars| ==> WeekOf(bars[i]) < WeekOf(bars[j]))
    && AreWeeks(bars, s, cal, cutoff)
    && (forall i :: 0 <= i < |bars| ==> WeekOf(bars[i]) in keys[..n])
    && (forall j :: 0 <= j < n && WeekEmits(s, cal, keys[j], cutoff) ==> HasWeek(bars, keys[j]))
  }

  lemma {:induction false} HasWeekAppend(bars: seq<Candle>, x: Candle, w: int)
    ensures HasWeek(bars + [x], w) <==> HasWeek(bars, w) || w == WeekOf(x)
  {
    hide WeekOf;
    var after := bars + [x];
    assert after[|bars|] == x;
    if HasWeek(bars, w) {
      var i :| 0 <= i < |bars| && WeekOf(bars[i]) == w;
      assert WeekOf(after[i]) == w;
    }
  }

  lemma {:induction false} WeekHandled(bars: seq<Candle>, keys: seq<int>, n: nat, s: seq<Candle>, cal: Option<Calendar>, cutoff: int)
    requires n < |keys| && (forall i, j :: 0 <= i < j < |keys| ==> keys[i] < keys[j])
    requires WeeksHandled(bars, keys, n, s, cal, cutoff)
    requires WeekMembers(s, keys[n]) != [] && WeekEmits(s, cal, keys[n], cutoff)
    ensures WeeksHandled(bars + [WeekBar(WeekMembers(s, keys[n]))], keys, n + 1, s, cal, cutoff)
  {
    hide WeekOf, WeekEmits, WeekMembers, WeekBar, HasWeek;
    var bar := WeekBar(WeekMembers(s, keys[n]));
    WeekBarStamp(s, keys[n]);
    forall i | 0 <= i < |bars| ensures WeekOf(bars[i]) < keys[n] {
      KeysBefore(keys, n, WeekOf(bars[i]));
    }
    assert keys[..n + 1] == keys[..n] + [keys[n]];
    forall j | 0 <= j < n + 1 ensures HasWeek(bars + [bar], keys[j]) <==> HasWeek(bars, keys[j]) || keys[j] == keys[n] {
      HasWeekAppend(bars, bar, keys[j]);
    }
  }

  lemma {:induction false} WeekSkipped(bars: seq<Candle>, keys: seq<int>, n: nat, s: seq<Candle>, cal: Option<Calendar>, cutoff: int)
    requires n < |keys| && WeeksHandled(bars, keys, n, s, cal, cutoff) && !WeekEmits(s, cal, keys[n], cutoff)
    ensures WeeksHandled(bars, keys, n + 1, s, cal, cutoff)
  {
    hide WeekOf, WeekEmits, WeekMembers, HasWeek, AreWeeks;
    assert keys[..n + 1] == keys[..n] + [keys[n]];
  }

  ghost predicate AllCovered(s: seq<Candle>, cal: Option<Calendar>) {
    cal.Some? ==> forall w :: WeekMembers(s, w) != [] ==> WeekCovered(cal.value, w)
  }

  lemma {:induction false} IncompleteNothing(cal: Option<Calendar>, monday: int, cutoff: int)
    ensures !WeekComplete([], cal, monday, cutoff)
  {
  }

  method AggregateWeekly(s: seq<Candle>, cutoff: int, sessions: Option<seq<MarketSession>>) returns (r: Result<seq<Candle>, Error>)
    ensures s == [] || s[0].timeframe != DAY ==> r == Failure(WeeklyNeedsDaily)
    ensures s != [] && s[0].timeframe == DAY ==>
              match CalendarOf(sessions)
              case Failure(e) => r == Failure(e)
              case Success(cal) =>
                if AllCovered(s, cal) then r.Success? && IsWeekly(r.value, s, cal, cutoff)
                else r == Failure(WeekNotCovered)
  {
    hide WeekMembers, WeekComplete, WeekCovered, WeekBar, AreWeeks, CalendarOf;
    if s == [] || s[0].timeframe != DAY {
      return Failure(WeeklyNeedsDaily);
    }
    var groups := GroupWeeks(s);
    var calendar := BuildOptional(sessions);
    if calendar.Failure? {
      return Failure(calendar.error);
    }
    var cal := calendar.value;
    var keys := SortedKeys(groups.Keys);
    var bars := [];
    NoWeeksHandled(keys, s, cal, cutoff);
    for n := 0 to |keys|
      invariant WeeksHandled(bars, keys, n, s, cal, cutoff)
      invariant cal.Some? ==> forall j :: 0 <= j < n ==> WeekCovered(cal.value, keys[j])
    {
      hide WeeksHandled;
      var monday := keys[n];
      assert monday in groups;
      var members := groups[monday];
      if cal.Some? && !WeekCovered(cal.value, monday) {
        return Failure(WeekNotCovered);
      }
      if WeekComplete(members, cal, monday, cutoff) {
        WeekHandled(bars, keys, n, s, cal, cutoff);
        bars := bars + [WeekBar(members)];
      } else {
        WeekSkipped(bars, keys, n, s, cal, cutoff);
      }
    }
    forall w | WeekMembers(s, w) != [] ensures w in keys {
      assert w in groups;
    }
    forall w | WeekEmits(s, cal, w, cutoff) ensures HasWeek(bars, w) {
      IncompleteNothing(cal, w, cutoff);
      var j :| 0 <= j < |keys| && keys[j] == w;
    }
    return Success(bars);
  }

  lemma {:induction false} NoWeeksHandled(keys: seq<int>, s: seq<Candle>, cal: Option<Calendar>, cutoff: int)
    ensures WeeksHandled([], keys, 0, s, cal, cutoff)
  {
  }

  // ----- the entry point ------------------------------------------------------------------------

  function CalendarOf(sessions: Option<seq<MarketSession>>): Result<Option<Calendar>, Error> {
    match sessions
    case None => Success(None)
    case Some(list) =>
      match SessionLookup(list)
      case Failure(e) => Failure(e)
      case Success(cal) => Success(Some(cal))
  }

  method BuildOptional(sessions: Option<seq<MarketSession>>) returns (r: Result<Option<Calendar>, Error>)
    ensures r == CalendarOf(sessions)
  {
    match sessions
    case None => return Success(None);
    case Some(list) =>
      var built := BuildCalendar(list);
      match built
      case Failure(e) => return Failure(e);
      case Success(cal) => return Success(Some(cal));
  }

  /** The first complaint about the sources, in the order the complaints are made. */
  function SourceError(s: seq<Candle>, target: int): Option<Error>
    requires s != [] && s[0].timeframe > 0
  {
    var base := s[0].timeframe;
    if exists x :: x in s && x.instrument != s[0].instrument then Some(MixedInstruments)
    else if exists x :: x in s && x.timeframe != base then Some(MixedTimeframes)
    else if target <= base || target % base != 0 then Some(TargetNotMultiple)
    else None
  }

  /** The answer the aggregation owes: each error in its turn, else exactly the complete buckets' bars. */
  ghost predicate Answers(r: Result<seq<Candle>, Error>, candles: seq<Candle>, target: int, cutoff: int,
                          sessions: Option<seq<MarketSession>>)
    requires target > 0 && (forall i :: 0 <= i < |candles| ==> candles[i].timeframe > 0)
  {
    if candles == [] then r == Success([])
    else
      SortNonEmpty(candles);
      FirstTimeframe(candles);
      var s := SortByTime(candles);
      var base := s[0].timeframe;
      if SourceError(s, target).Some? then r == Failure(SourceError(s, target).value)
      else
        match CalendarOf(sessions)
        case Failure(e) => r == Failure(e)
        case Success(cal) =>
          var known := Available(s, base, cal, cutoff);
          if target != WEEK then r.Success? && IsAggregation(r.value, known, cal, target, base, cutoff)
          else if known == [] || base != DAY then r == Failure(WeeklyNeedsDaily)
          else if !AllCovered(known, cal) then r == Failure(WeekNotCovered)
          else r.Success? && IsWeekly(r.value, known, cal, cutoff)
  }

  lemma {:induction false} FirstTimeframe(candles: seq<Candle>)
    requires candles != [] && forall i :: 0 <= i < |candles| ==> candles[i].timeframe > 0
    ensures SortByTime(candles) != [] && SortByTime(candles)[0].timeframe > 0
  {
    SortNonEmpty(candles);
    SortExact(candles);
    assert SortByTime(candles)[0] in multiset(SortByTime(candles));
    assert SortByTime(candles)[0] in candles;
  }

  method Aggregate(candles: seq<Candle>, target: int, cutoff: int, sessions: Option<seq<MarketSession>>)
    returns (r: Result<seq<Candle>, Error>)
    requires target in TIMEFRAMES && (forall i :: 0 <= i < |candles| ==> candles[i].timeframe > 0)
    ensures Answers(r, candles, target, cutoff, sessions)
  {
    hide SortByTime, Available, IsAggregation, IsWeekly, AllCovered, CalendarOf;
    if candles == [] {
      return Success([]);
    }
    SortNonEmpty(candles);
    FirstTimeframe(candles);
    var s := SortByTime(candles);
    var base := s[0].timeframe;
    var complaint := SourceError(s, target);
    if complaint.Some? {
      return Failure(complaint.value);
    }
    var calendar := BuildOptional(sessions);
    if calendar.Failure? {
      return Failure(calendar.error);
    }
    var known := FilterAvailable(s, base, calendar.value, cutoff);
    if target == WEEK {
      UniformTimeframe(s, base, calendar.value, cutoff);
      r := AggregateWeekly(known, cutoff, sessions);
    } else {
      var bars := EmitBars(known, calendar.value, target, base, cutoff);
      r := Success(bars);
    }
  }

  lemma {:induction false} UniformTimeframe(s: seq<Candle>, base: int, cal: Option<Calendar>, cutoff: int)
    requires forall x :: x in s ==> x.timeframe == base
    ensures forall i :: 0 <= i < |Available(s, base, cal, cutoff)| ==> Available(s, base, cal, cutoff)[i].timeframe == base
  {
    hide Available;
    var known := Available(s, base, cal, cutoff);
    forall i | 0 <= i < |known| ensures known[i].timeframe == base {
      assert known[i] in known;
      AvailableExact(s, base, cal, cutoff, known[i]);
    }
  }

  // ----- what stays -----------------------------------------------------------------------------

  /** A daily candle of the week that becomes known after `early`, and no later than `late`. */
  ghost predicate LateDay(x: Candle, cal: Option<Calendar>, monday: int, early: int, late: int) {
    x.isClosed && WeekOf(x) == monday && early < AvailableAt(x, DAY, cal) <= late
  }

  function KnownWeek(s: seq<Candle>, cal: Option<Calendar>, monday: int, cutoff: int): seq<Candle> {
    WeekMembers(Available(s, DAY, cal, cutoff), monday)
  }

  lemma {:induction false} KnownWeekStep(s: seq<Candle>, x: Candle, cal: Option<Calendar>, monday: int, cutoff: int)
    ensures KnownWeek(s + [x], cal, monday, cutoff) ==
            KnownWeek(s, cal, monday, cutoff) +
            (if x.isClosed && WeekOf(x) == monday && AvailableAt(x, DAY, cal) <= cutoff then [x] else [])
  {
    hide AvailableAt, WeekOf, WeekMembers;
    assert (s + [x])[..|s|] == s;
    var known := Available(s, DAY, cal, cutoff);
    if x.isClosed && AvailableAt(x, DAY, cal) <= cutoff {
      assert Available(s + [x], DAY, cal, cutoff) == known + [x];
      WeekAppend(known, monday, x);
    } else {
      assert Available(s + [x], DAY, cal, cutoff) == known;
    }
  }

  lemma {:induction false} KnownWeekNothing(cal: Option<Calendar>, monday: int, cutoff: int)
    ensures KnownWeek([], cal, monday, cutoff) == []
  {
  }

  lemma {:induction false} KnownWeekGrows(s: seq<Candle>, cal: Option<Calendar>, monday: int, early: int, late: int)
    requires early <= late
    ensures var m, n := KnownWeek(s, cal, monday, early), KnownWeek(s, cal, monday, late);
            && |m| <= |n|
            && (|m| == |n| <==> m == n)
            && (m == n <==> forall x :: x in s ==> !LateDay(x, cal, monday, early, late))
  {
    hide KnownWeek, AvailableAt, WeekOf;
    if s == [] {
      KnownWeekNothing(cal, monday, early);
      KnownWeekNothing(cal, monday, late);
    } else {
      var front, x := s[..|s| - 1], s[|s| - 1];
      assert s == front + [x];
      KnownWeekGrows(front, cal, monday, early, late);
      KnownWeekStep(front, x, cal, monday, early);
      KnownWeekStep(front, x, cal, monday, late);
      var inWeek := x.isClosed && WeekOf(x) == monday;
      var at := AvailableAt(x, DAY, cal);
      assert LateDay(x, cal, monday, early, late) <==> inWeek && early < at <= late;
      GrowStep(KnownWeek(front, cal, monday, early), KnownWeek(front, cal, monday, late), x,
               inWeek && at <= early, inWeek && at <= late);
    }
  }

  lemma {:induction false} SameSizeWeek(m: seq<Candle>, n: seq<Candle>, cal: Option<Calendar>, monday: int, early: int, late: int)
    requires early <= late && WeekComplete(m, cal, monday, early)
    ensures WeekComplete(n, cal, monday, late) ==> |n| == |m|
    ensures WeekComplete(m, cal, monday, late)
  {
    hide Dates, Trading;
  }

  /** A weekly bar stays exactly when no further daily candle of its week becomes known. */
  lemma {:induction false} WeekStays(s: seq<Candle>, cal: Option<Calendar>, monday: int, early: int, late: int)
    requires early <= late && WeekEmits(Available(s, DAY, cal, early), cal, monday, early)
    ensures WeekEmits(Available(s, DAY, cal, late), cal, monday, late)
       <==> (forall x :: x in s ==> !LateDay(x, cal, monday, early, late))
    ensures WeekEmits(Available(s, DAY, cal, late), cal, monday, late) ==>
              KnownWeek(s, cal, monday, late) == KnownWeek(s, cal, monday, early) != []
  {
    hide WeekComplete, WeekMembers, Available, LateDay;
    KnownWeekGrows(s, cal, monday, early, late);
    SameSizeWeek(KnownWeek(s, cal, monday, early), KnownWeek(s, cal, monday, late), cal, monday, early, late);
    IncompleteNothing(cal, monday, early);
  }

  /** The days on which a week's daily candles may fall if its bar is to last. */
  ghost predicate OnWeekDays(s: seq<Candle>, cal: Option<Calendar>, monday: int) {
    forall x :: x in s && WeekOf(x) == monday ==>
      match cal
      case None => DateOf(x.timestamp) <= monday + 4
      case Some(c) => DateOf(x.timestamp) in Trading(c, monday)
  }

  /** Candles on the week's own trading days never take its bar back. */
  lemma {:induction false} WeekNeverTakenBack(s: seq<Candle>, cal: Option<Calendar>, monday: int, early: int, late: int)
    requires early <= late && WeekEmits(Available(s, DAY, cal, early), cal, monday, early)
    requires OnWeekDays(s, cal, monday)
    ensures WeekEmits(Available(s, DAY, cal, late), cal, monday, late)
    ensures KnownWeek(s, cal, monday, late) == KnownWeek(s, cal, monday, early) != []
  {
    hide WeekMembers, Available, Dates;
    forall x | x in s ensures !LateDay(x, cal, monday, early, late) {
      hide WeekOf;
    }
    WeekStays(s, cal, monday, early, late);
  }

  // ----- a week taken back ----------------------------------------------------------------------

  function Daily(d: int): Candle {
    Candle(0, d * DAY + NSE_OPEN, DAY, 1.0, 1.0, 1.0, 1.0, 1.0, None, true)
  }

  /** Monday to Saturday of the week that starts on day four. */
  function SixDays(): seq<Candle> {
    [Daily(4), Daily(5), Daily(6), Daily(7), Daily(8), Daily(9)]
  }

  const FRIDAY_CLOSE := 8 * DAY + NSE_CLOSE

  lemma {:induction false} DailyKnown(d: int)
    requires 4 <= d <= 9
    ensures WeekOf(Daily(d)) == 4 && AvailableAt(Daily(d), DAY, None) == d * DAY + NSE_CLOSE
  {
    QuotientUnique(d * DAY + NSE_OPEN, d, NSE_OPEN, DAY);
  }

  lemma {:induction false} SixDaysKnown(n: nat)
    requires n <= 6
    ensures KnownWeek(SixDays()[..n], None, 4, FRIDAY_CLOSE) == SixDays()[..MinInt(n, 5)]
  {
    hide KnownWeek, WeekOf, AvailableAt;
    var s := SixDays();
    if n == 0 {
      KnownWeekNothing(None, 4, FRIDAY_CLOSE);
    } else {
      SixDaysKnown(n - 1);
      DailyKnown(n + 3);
      assert s[n - 1] == Daily(n + 3);
      KnownWeekStep(s[..n - 1], s[n - 1], None, 4, FRIDAY_CLOSE);
      assert s[..n] == s[..n - 1] + [s[n - 1]];
    }
  }

  /**
   * Without a calendar a Saturday candle breaks the promise: the bar of Monday to Friday is emitted at
   * Friday's close and gone at Saturday's.
   */
  lemma {:induction false} SaturdayTakesWeekBack()
    ensures WeekEmits(Available(SixDays(), DAY, None, FRIDAY_CLOSE), None, 4, FRIDAY_CLOSE)
    ensures !WeekEmits(Available(SixDays(), DAY, None, FRIDAY_CLOSE + DAY), None, 4, FRIDAY_CLOSE + DAY)
  {
    hide WeekMembers, Available, WeekOf, AvailableAt;
    var s := SixDays();
    SixDaysKnown(6);
    assert s[..6] == s;
    DailyKnown(9);
    assert s[5] == Daily(9);
    assert LateDay(s[5], None, 4, FRIDAY_CLOSE, FRIDAY_CLOSE + DAY);
    WeekStays(s, None, 4, FRIDAY_CLOSE, FRIDAY_CLOSE + DAY);
  }

  // ----- weeks of other than five candles -------------------------------------------------------

  /** A weekly bar stands for five daily candles if and only if there is no calendar, or five trading days in it. */
  lemma {:induction false} FiveCandlesExactly(m: seq<Candle>, cal: Option<Calendar>, monday: int, cutoff: int)
    requires WeekComplete(m, cal, monday, cutoff)
    ensures |m| == 5 <==> cal.None? || |Trading(cal.value, monday)| == 5
  {
  }

  /** The week of `SixDays` with a holiday on its Friday. */
  function HolidayWeek(): Calendar {
    map d | 4 <= d < 9 :: MarketSession(true, d, d * DAY + NSE_OPEN, d * DAY + NSE_CLOSE, d != 8)
  }

  lemma {:induction false} HolidayDates()
    ensures Dates(SixDays()[..4]) == {4, 5, 6, 7} == Trading(HolidayWeek(), 4)
  {
    var m := SixDays()[..4];
    forall i | 0 <= i < 4 ensures DateOf(m[i].timestamp) == i + 4 {
      QuotientUnique((i + 4) * DAY + NSE_OPEN, i + 4, NSE_OPEN, DAY);
    }
    forall d | 4 <= d < 8 ensures d in Dates(m) {
      assert DateOf(m[d - 4].timestamp) == d;
    }
  }

  /** Four daily candles make a bar of it. */
  lemma {:induction false} HolidayWeekOfFour()
    ensures WeekCovered(HolidayWeek(), 4) && WeekComplete(SixDays()[..4], Some(HolidayWeek()), 4, FRIDAY_CLOSE)
  {
    hide Dates, Trading;
    HolidayDates();
    var m := SixDays()[..4];
    forall i | 0 <= i < 4 ensures m[i].timestamp == HolidayWeek()[DateOf(m[i].timestamp)].opensAt && DateOf(m[i].timestamp) == i + 4 {
      QuotientUnique((i + 4) * DAY + NSE_OPEN, i + 4, NSE_OPEN, DAY);
    }
    forall d | d in Trading(HolidayWeek(), 4) ensures d in HolidayWeek() && HolidayWeek()[d].closesAt <= FRIDAY_CLOSE {
      assert d in {4, 5, 6, 7};
    }
  }
}
