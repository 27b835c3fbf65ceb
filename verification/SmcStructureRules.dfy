/** What the structure stream means: which candles break which swings, and how breaks are labelled. */
module SmcStructureRules {
  import opened Domain
  import opened Stream
  import opened SmcSwings
  import opened SmcStructure

  /** The swing a break or shift event refers to, as the loop's `consumed` set names it. */
  function KeyOf(e: Event): (Direction, int) {
    (Opposite(e.direction), e.swingTimestamp)
  }

  predicate IsBreak(e: Event) {
    e.kind != MarketStructureShift
  }

  // ----- labels ---------------------------------------------------------------------------------

  /** A break reverses exactly when the event before it points the other way; a shift only follows its own reversal. */
  ghost predicate Labelled(events: seq<Event>) {
    forall i :: 0 <= i < |events| ==>
      if IsBreak(events[i])
      then events[i].kind == ChangeOfCharacter <==> i > 0 && events[i - 1].direction != events[i].direction
      else i > 0 && events[i - 1].kind == ChangeOfCharacter && KeyOf(events[i - 1]) == KeyOf(events[i])
           && events[i - 1].detectedAt == events[i].detectedAt && events[i - 1].level == events[i].level
  }

  /** A reversal is followed by a shift exactly when its candle is a displacement in the new direction. */
  ghost predicate Shifted(events: seq<Event>, byKey: map<(Direction, int), Displacement>) {
    forall i :: 0 <= i < |events| && events[i].kind == ChangeOfCharacter ==>
      (i + 1 < |events| && !IsBreak(events[i + 1]) <==> (events[i].direction, events[i].detectedAt) in byKey)
  }

  /** No swing is broken twice. */
  ghost predicate BrokenOnce(events: seq<Event>) {
    forall i, j :: 0 <= i < j < |events| && IsBreak(events[i]) && IsBreak(events[j]) ==> KeyOf(events[i]) != KeyOf(events[j])
  }

  ghost predicate TrendIsLast(st: State) {
    st.trend == if st.structure == [] then None else Some(st.structure[|st.structure| - 1].direction)
  }

  ghost predicate ConsumedAreBroken(st: State) {
    && (forall i :: 0 <= i < |st.structure| && IsBreak(st.structure[i]) ==> KeyOf(st.structure[i]) in st.consumed)
    && (forall k :: k in st.consumed ==> exists i :: 0 <= i < |st.structure| && IsBreak(st.structure[i]) && KeyOf(st.structure[i]) == k)
  }

  ghost predicate Coherent(st: State, byKey: map<(Direction, int), Displacement>) {
    Labelled(st.structure) && Shifted(st.structure, byKey) && BrokenOnce(st.structure) && TrendIsLast(st) && ConsumedAreBroken(st)
  }

  /** The two shapes of what one break appends. */
  lemma {:induction false} BreakShapes(swing: Swing, candle: Candle, trend: Option<Direction>, byKey: map<(Direction, int), Displacement>, scope: Scope)
    ensures var key := (Opposite(swing.direction), candle.ClosedAt());
            var events := BreakEvents(swing, candle, trend, Lookup(byKey, key), scope);
            && 1 <= |events| <= 2
            && IsBreak(events[0]) && KeyOf(events[0]) == (swing.direction, swing.candleTimestamp)
            && (events[0].kind == ChangeOfCharacter <==> trend.Some? && trend.value != events[0].direction)
            && (events[0].direction, events[0].detectedAt) == key
            && (|events| == 2 <==> events[0].kind == ChangeOfCharacter && key in byKey)
            && (|events| == 2 ==> !IsBreak(events[1]) && KeyOf(events[1]) == KeyOf(events[0])
                                  && events[1].detectedAt == events[0].detectedAt && events[1].level == events[0].level
                                  && events[1].direction == events[0].direction)
  {
  }

  lemma {:induction false} AppendCoherent(a: seq<Event>, e: seq<Event>, trend: Option<Direction>, byKey: map<(Direction, int), Displacement>)
    requires Labelled(a) && Shifted(a, byKey) && 1 <= |e| <= 2 && IsBreak(e[0])
    requires trend == if a == [] then None else Some(a[|a| - 1].direction)
    requires e[0].kind == ChangeOfCharacter <==> trend.Some? && trend.value != e[0].direction
    requires |e| == 2 <==> e[0].kind == ChangeOfCharacter && (e[0].direction, e[0].detectedAt) in byKey
    requires |e| == 2 ==> !IsBreak(e[1]) && KeyOf(e[1]) == KeyOf(e[0]) && e[1].detectedAt == e[0].detectedAt && e[1].level == e[0].level
    ensures Labelled(a + e) && Shifted(a + e, byKey)
  {
    hide KeyOf;
  }

  lemma {:induction false} SwingCoherent(st: State, swing: Swing, candle: Candle, byKey: map<(Direction, int), Displacement>, cfg: Config, scope: Scope)
    requires Coherent(st, byKey)
    ensures Coherent(StepSwing(st, swing, candle, byKey, cfg, scope), byKey)
  {
    hide Swept, Broken, Lookup, BreakEvents, Labelled, Shifted;
    var key := (swing.direction, swing.candleTimestamp);
    if Broken(swing, candle) && key !in st.consumed {
      var e := BreakEvents(swing, candle, st.trend, Lookup(byKey, (Opposite(swing.direction), candle.ClosedAt())), scope);
      var after := StepSwing(st, swing, candle, byKey, cfg, scope);
      BreakShapes(swing, candle, st.trend, byKey, scope);
      AppendCoherent(st.structure, e, st.trend, byKey);
      AppendOnce(st, e, key);
      assert after.structure == st.structure + e;
    }
  }

  lemma {:induction false} AppendOnce(st: State, e: seq<Event>, key: (Direction, int))
    requires BrokenOnce(st.structure) && ConsumedAreBroken(st) && key !in st.consumed
    requires 1 <= |e| <= 2 && IsBreak(e[0]) && KeyOf(e[0]) == key && (|e| == 2 ==> !IsBreak(e[1]))
    ensures BrokenOnce(st.structure + e)
    ensures ConsumedAreBroken(st.(structure := st.structure + e, consumed := st.consumed + {key}))
  {
    hide KeyOf, IsBreak;
    var s := st.structure + e;
    forall k | k in st.consumed + {key}
      ensures exists i :: 0 <= i < |s| && IsBreak(s[i]) && KeyOf(s[i]) == k
    {
      if k == key {
        assert IsBreak(s[|st.structure|]) && KeyOf(s[|st.structure|]) == k;
      } else {
        var i :| 0 <= i < |st.structure| && IsBreak(st.structure[i]) && KeyOf(st.structure[i]) == k;
        assert IsBreak(s[i]) && KeyOf(s[i]) == k;
      }
    }
  }

  lemma {:induction false} SideCoherent(st: State, d: Direction, available: seq<Swing>, candle: Candle,
                     byKey: map<(Direction, int), Displacement>, cfg: Config, scope: Scope)
    requires Coherent(st, byKey)
    ensures Coherent(StepSide(st, d, available, candle, byKey, cfg, scope), byKey)
  {
    hide StepSwing, Coherent;
    var m := Matching(available, d);
    if m != [] {
      SwingCoherent(st, m[|m| - 1], candle, byKey, cfg, scope);
    }
  }

  lemma {:induction false} StartCoherent(byKey: map<(Direction, int), Displacement>)
    ensures Coherent(START, byKey)
  {
  }

  lemma {:induction false} RunCoherent(c: seq<Candle>, swings: seq<Swing>, byKey: map<(Direction, int), Displacement>,
                                       cfg: Config, scope: Scope, n: nat)
    requires n <= |c|
    ensures Coherent(Run(c, swings, byKey, cfg, scope, n), byKey)
  {
    hide StepSide, Coherent, Before, SwingTime;
    if n == 0 {
      StartCoherent(byKey);
    } else {
      RunCoherent(c, swings, byKey, cfg, scope, n - 1);
      var st := Run(c, swings, byKey, cfg, scope, n - 1);
      var available := Before(swings, SwingTime(), c[n - 1].ClosedAt());
      SideCoherent(st, Bullish, available, c[n - 1], byKey, cfg, scope);
      SideCoherent(StepSide(st, Bullish, available, c[n - 1], byKey, cfg, scope), Bearish, available, c[n - 1], byKey, cfg, scope);
    }
  }

  /** The labels of every structure stream the engine publishes. */
  lemma {:induction false} StructureLabels(c: seq<Candle>, left: nat, right: nat, cfg: Config, scope: Scope)
    requires cfg.Valid()
    ensures var s := Structure(c, left, right, cfg, scope);
            Labelled(s) && Shifted(s, ByKey(Displacements(c, cfg))) && BrokenOnce(s)
  {
    hide Swings, Displacements, Labelled, Shifted, BrokenOnce;
    RunCoherent(c, Swings(c, left, right, scope), ByKey(Displacements(c, cfg)), cfg, scope, |c|);
  }

  // ----- which candle breaks which swing --------------------------------------------------------

  function Latest(s: seq<Swing>, d: Direction): Option<Swing> {
    var m := Matching(s, d);
    if m == [] then None else Some(m[|m| - 1])
  }

  /** The latest swing of side `d` confirmed before candle `i` has origin `ts`, and candle `i` closes beyond it. */
  ghost predicate BrokenAt(c: seq<Candle>, left: nat, right: nat, scope: Scope, i: nat, d: Direction, ts: int)
    requires i < |c|
  {
    var latest := Latest(Collect(SwingEmitter(c, left, right, scope), i), d);
    latest.Some? && latest.value.candleTimestamp == ts && Broken(latest.value, c[i])
  }

  ghost predicate SweptAt(c: seq<Candle>, left: nat, right: nat, scope: Scope, cfg: Config, i: nat, d: Direction, ts: int)
    requires i < |c|
  {
    var latest := Latest(Collect(SwingEmitter(c, left, right, scope), i), d);
    latest.Some? && latest.value.candleTimestamp == ts && Swept(latest.value, c[i], cfg)
  }

  ghost predicate HasBreak(events: seq<Event>, key: (Direction, int)) {
    exists e :: e in events && IsBreak(e) && KeyOf(e) == key
  }

  ghost predicate HasSweep(sweeps: seq<Sweep>, key: (Direction, int)) {
    exists s :: s in sweeps && (s.direction, s.swingTimestamp) == key
  }

  /** What one side of one step consumes, publishes and sweeps. */
  lemma {:induction false} SideExact(st: State, d: Direction, available: seq<Swing>, candle: Candle,
                  byKey: map<(Direction, int), Displacement>, cfg: Config, scope: Scope, key: (Direction, int))
    ensures var after := StepSide(st, d, available, candle, byKey, cfg, scope);
            var latest := Latest(available, d);
            && st.structure <= after.structure && st.sweeps <= after.sweeps
            && (key in after.consumed <==>
                key in st.consumed
                || (latest.Some? && Broken(latest.value, candle) && key == (d, latest.value.candleTimestamp)))
            && (HasBreak(after.structure[|st.structure|..], key) <==> key in after.consumed && key !in st.consumed)
            && (HasSweep(after.sweeps[|st.sweeps|..], key) <==>
                latest.Some? && Swept(latest.value, candle, cfg) && key == (d, latest.value.candleTimestamp))
  {
    hide Swept, Broken, Lookup, BreakEvents, KeyOf, IsBreak;
    MatchingDirection(available, d);
    var after := StepSide(st, d, available, candle, byKey, cfg, scope);
    var latest := Latest(available, d);
    if latest.Some? {
      var swing := latest.value;
      assert swing.direction == d;
      BreakShapes(swing, candle, st.trend, byKey, scope);
      var e := BreakEvents(swing, candle, st.trend, Lookup(byKey, (Opposite(d), candle.ClosedAt())), scope);
      if Broken(swing, candle) && (d, swing.candleTimestamp) !in st.consumed {
        assert after.structure[|st.structure|..] == e;
        assert e[0] in e;
      } else {
        assert after.structure[|st.structure|..] == [];
      }
      if Swept(swing, candle, cfg) {
        assert after.sweeps[|st.sweeps|..] == [SweepOf(swing, candle)];
        assert SweepOf(swing, candle) in after.sweeps[|st.sweeps|..];
      } else {
        assert after.sweeps[|st.sweeps|..] == [];
      }
    }
  }

  lemma {:induction false} HasBreakConcat(a: seq<Event>, b: seq<Event>, key: (Direction, int))
    ensures HasBreak(a + b, key) <==> HasBreak(a, key) || HasBreak(b, key)
  {
    hide KeyOf, IsBreak;
    if HasBreak(a, key) {
      var e :| e in a && IsBreak(e) && KeyOf(e) == key;
      assert e in a + b;
    }
    if HasBreak(b, key) {
      var e :| e in b && IsBreak(e) && KeyOf(e) == key;
      assert e in a + b;
    }
  }

  lemma {:induction false} HasSweepConcat(a: seq<Sweep>, b: seq<Sweep>, key: (Direction, int))
    ensures HasSweep(a + b, key) <==> HasSweep(a, key) || HasSweep(b, key)
  {
    if HasSweep(a, key) {
      var s :| s in a && (s.direction, s.swingTimestamp) == key;
      assert s in a + b;
    }
    if HasSweep(b, key) {
      var s :| s in b && (s.direction, s.swingTimestamp) == key;
      assert s in a + b;
    }
  }

  ghost predicate LatestBroken(available: seq<Swing>, candle: Candle, key: (Direction, int)) {
    var latest := Latest(available, key.0);
    latest.Some? && latest.value.candleTimestamp == key.1 && Broken(latest.value, candle)
  }

  ghost predicate LatestSwept(available: seq<Swing>, candle: Candle, cfg: Config, key: (Direction, int)) {
    var latest := Latest(available, key.0);
    latest.Some? && latest.value.candleTimestamp == key.1 && Swept(latest.value, candle, cfg)
  }

  lemma {:induction false} CandleExact(st: State, available: seq<Swing>, candle: Candle,
                    byKey: map<(Direction, int), Displacement>, cfg: Config, scope: Scope, key: (Direction, int))
    ensures var after := StepCandle(st, available, candle, byKey, cfg, scope);
            && st.structure <= after.structure && st.sweeps <= after.sweeps
            && (key in after.consumed <==> key in st.consumed || LatestBroken(available, candle, key))
            && (HasBreak(after.structure[|st.structure|..], key) <==> key in after.consumed && key !in st.consumed)
            && (HasSweep(after.sweeps[|st.sweeps|..], key) <==> LatestSwept(available, candle, cfg, key))
  {
    hide StepSide, Latest, HasBreak, HasSweep, Broken, Swept;
    var mid := StepSide(st, Bullish, available, candle, byKey, cfg, scope);
    var after := StepSide(mid, Bearish, available, candle, byKey, cfg, scope);
    SideExact(st, Bullish, available, candle, byKey, cfg, scope, key);
    SideExact(mid, Bearish, available, candle, byKey, cfg, scope, key);
    HasBreakConcat(mid.structure[|st.structure|..], after.structure[|mid.structure|..], key);
    HasSweepConcat(mid.sweeps[|st.sweeps|..], after.sweeps[|mid.sweeps|..], key);
    assert key == (key.0, key.1) && (key.0 == Bullish || key.0 == Bearish);
    assert after.structure[|st.structure|..] == mid.structure[|st.structure|..] + after.structure[|mid.structure|..];
    assert after.sweeps[|st.sweeps|..] == mid.sweeps[|st.sweeps|..] + after.sweeps[|mid.sweeps|..];
  }

  lemma {:induction false} AnalysisExact(c: seq<Candle>, left: nat, right: nat, cfg: Config, scope: Scope, i: nat, key: (Direction, int))
    requires Series(c) && cfg.Valid() && i < |c|
    ensures key in Analysis(c, left, right, cfg, scope, i + 1).consumed <==>
            key in Analysis(c, left, right, cfg, scope, i).consumed || BrokenAt(c, left, right, scope, i, key.0, key.1)
    ensures HasBreak(EventsAt(c, left, right, cfg, scope, i), key) <==>
            key in Analysis(c, left, right, cfg, scope, i + 1).consumed && key !in Analysis(c, left, right, cfg, scope, i).consumed
    ensures HasSweep(SweepsAt(c, left, right, cfg, scope, i), key) <==> SweptAt(c, left, right, scope, cfg, i, key.0, key.1)
  {
    hide StepCandle, HasBreak, HasSweep, Latest, Swings, Displacements, Broken, Swept, SwingEmitter;
    SameAvailable(c, left, right, scope, i, |c|);
    assert c[..|c|] == c;
    var st := Analysis(c, left, right, cfg, scope, i);
    CandleExact(st, Before(Swings(c, left, right, scope), SwingTime(), c[i].ClosedAt()), c[i],
                ByKey(Displacements(c, cfg)), cfg, scope, key);
  }

  lemma {:induction false} ConsumedExact(c: seq<Candle>, left: nat, right: nat, cfg: Config, scope: Scope, n: nat, key: (Direction, int))
    requires Series(c) && cfg.Valid() && n <= |c|
    ensures key in Analysis(c, left, right, cfg, scope, n).consumed <==>
            exists j: nat :: j < n && BrokenAt(c, left, right, scope, j, key.0, key.1)
  {
    hide Analysis, BrokenAt, EventsAt, SweepsAt, HasBreak, HasSweep, SweptAt, Series;
    if n == 0 {
      AnalysisStart(c, left, right, cfg, scope);
    } else {
      ConsumedExact(c, left, right, cfg, scope, n - 1, key);
      AnalysisExact(c, left, right, cfg, scope, n - 1, key);
    }
  }

  /** A break of a swing is published at candle `i` if and only if `i` is the first candle that breaks it as the latest swing. */
  lemma {:induction false} BreakExact(c: seq<Candle>, left: nat, right: nat, cfg: Config, scope: Scope, i: nat, d: Direction, ts: int)
    requires Series(c) && cfg.Valid() && i < |c|
    ensures HasBreak(EventsAt(c, left, right, cfg, scope, i), (d, ts)) <==>
            BrokenAt(c, left, right, scope, i, d, ts)
            && forall j: nat :: j < i ==> !BrokenAt(c, left, right, scope, j, d, ts)
  {
    hide Analysis, BrokenAt, EventsAt, SweepsAt, HasBreak, HasSweep, SweptAt;
    AnalysisExact(c, left, right, cfg, scope, i, (d, ts));
    ConsumedExact(c, left, right, cfg, scope, i, (d, ts));
  }

  /** A sweep is published at candle `i` if and only if the latest swing of its side is swept there, consumed or not. */
  lemma {:induction false} SweepExact(c: seq<Candle>, left: nat, right: nat, cfg: Config, scope: Scope, i: nat, d: Direction, ts: int)
    requires Series(c) && cfg.Valid() && i < |c|
    ensures HasSweep(SweepsAt(c, left, right, cfg, scope, i), (d, ts)) <==> SweptAt(c, left, right, scope, cfg, i, d, ts)
  {
    hide Analysis, BrokenAt, EventsAt, SweepsAt, HasBreak, HasSweep, SweptAt;
    AnalysisExact(c, left, right, cfg, scope, i, (d, ts));
  }
}
