/** Strict validation of raw candles: report, never repair. */
module CandleValidation {
  import opened Domain

  /** A raw record; a timestamp without a zone is absent here. */
  datatype Raw = Raw(
    instrument: int, timestamp: Option<int>, timeframe: int, open: real, high: real, low: real, close: real, volume: real,
    sourceId: int, openInterest: Option<real>)

  datatype Code = InvalidTimestamp | Duplicate | OutOfOrder(previous: int) | FeedGap(missing: int) | TimestampDrift | InvalidCandle
    | ConflictingCandle(timestamp: int, timeframe: int)

  datatype Event = Event(instrument: int, at: int, code: Code, rawId: int)
  {
    predicate Warning() {
      code.FeedGap?
    }
  }

  datatype Identity = Identity(instrument: int, timestamp: int, timeframe: int)

  datatype Progress = Progress(
    seen: set<Identity>, previous: map<(int, int), int>, accepted: seq<Candle>, events: seq<Event>)

  function Start(): Progress {
    Progress({}, map[], [], [])
  }

  /** Division that rounds down, whatever the signs. */
  function FloorDiv(x: int, y: int): int
    requires y != 0
  {
    if y > 0 then x / y else (-x) / (-y)
  }

  function Parsed(r: Raw, timestamp: int, now: int): Candle {
    Candle(r.instrument, timestamp, r.timeframe, r.open, r.high, r.low, r.close, r.volume, r.openInterest,
           timestamp + r.timeframe <= now)
  }

  function Reported(p: Progress, r: Raw, now: int, code: Code): Progress {
    p.(events := p.events + [Event(r.instrument, now, code, r.sourceId)])
  }

  /** The record is too new, not a candle, or accepted. */
  function Judged(p: Progress, r: Raw, t: int, now: int, drift: int): Progress {
    var known := p.(previous := p.previous[(r.instrument, r.timeframe) := t]);
    if t > now + drift then Reported(known, r, now, TimestampDrift)
    else if Parsed(r, t, now).Valid() then known.(accepted := known.accepted + [Parsed(r, t, now)])
    else Reported(known, r, now, InvalidCandle)
  }

  /** One record; nothing when the gap is measured in timeframes of zero seconds, which the division refuses. */
  function Next(p: Progress, r: Raw, now: int, drift: int): Option<Progress> {
    if r.timestamp.None? then Some(Reported(p, r, now, InvalidTimestamp))
    else
      var t := r.timestamp.value;
      var id, stream := Identity(r.instrument, t, r.timeframe), (r.instrument, r.timeframe);
      if id in p.seen then Some(Reported(p, r, now, Duplicate))
      else
        var noted := p.(seen := p.seen + {id});
        if stream !in p.previous then Some(Judged(noted, r, t, now, drift))
        else
          var previous := p.previous[stream];
          if t < previous then Some(Reported(noted, r, now, OutOfOrder(previous)))
          else if t <= previous + r.timeframe then Some(Judged(noted, r, t, now, drift))
          else if r.timeframe == 0 then None
          else
            var missing := FloorDiv(t - (previous + r.timeframe), r.timeframe);
            Some(Judged(Reported(noted, r, now, FeedGap(missing)), r, t, now, drift))
  }

  /** The records in turn; nothing once one of them has raised. */
  function Validated(records: seq<Raw>, now: int, drift: int): Option<Progress> {
    if records == [] then Some(Start())
    else
      match Validated(records[..|records| - 1], now, drift)
      case None => None
      case Some(p) => Next(p, records[|records| - 1], now, drift)
  }

  lemma {:induction false} ValidatedStops(records: seq<Raw>, now: int, drift: int, n: nat)
    requires n <= |records| && Validated(records[..n], now, drift).None?
    ensures Validated(records, now, drift).None?
    decreases |records|
  {
    hide Next;
    if n < |records| {
      assert records[..|records| - 1][..n] == records[..n];
      ValidatedStops(records[..|records| - 1], now, drift, n);
    } else {
      assert records[..n] == records;
    }
  }

  /** The validating loop, with its set, its dictionary and its two lists. */
  method Validate(records: seq<Raw>, now: int, drift: int) returns (r: Option<Progress>)
    ensures r == Validated(records, now, drift)
  {
    hide FloorDiv, Parsed;
    var seen: set<Identity> := {};
    var previous: map<(int, int), int> := map[];
    var accepted: seq<Candle>, events: seq<Event> := [], [];
    for i := 0 to |records|
      invariant Validated(records[..i], now, drift) == Some(Progress(seen, previous, accepted, events))
    {
      var raw := records[i];
      assert records[..i + 1][..i] == records[..i];
      if raw.timestamp.None? {
        events := events + [Event(raw.instrument, now, InvalidTimestamp, raw.sourceId)];
        continue;
      }
      var t := raw.timestamp.value;
      var id, stream := Identity(raw.instrument, t, raw.timeframe), (raw.instrument, raw.timeframe);
      if id in seen {
        events := events + [Event(raw.instrument, now, Duplicate, raw.sourceId)];
        continue;
      }
      seen := seen + {id};
      if stream in previous {
        if t < previous[stream] {
          events := events + [Event(raw.instrument, now, OutOfOrder(previous[stream]), raw.sourceId)];
          continue;
        }
        var expected := previous[stream] + raw.timeframe;
        if t > expected {
          if raw.timeframe == 0 {
            ValidatedStops(records, now, drift, i + 1);
            return None;
          }
          events := events + [Event(raw.instrument, now, FeedGap(FloorDiv(t - expected, raw.timeframe)), raw.sourceId)];
        }
      }
      previous := previous[stream := t];
      if t > now + drift {
        events := events + [Event(raw.instrument, now, TimestampDrift, raw.sourceId)];
        continue;
      }
      var candle := Parsed(raw, t, now);
      if candle.Valid() {
        accepted := accepted + [candle];
      } else {
        events := events + [Event(raw.instrument, now, InvalidCandle, raw.sourceId)];
      }
    }
    assert records[..|records|] == records;
    return Some(Progress(seen, previous, accepted, events));
  }

  // ----- one answer for each record -------------------------------------------------------------

  function Errors(events: seq<Event>): nat {
    if events == [] then 0 else Errors(events[..|events| - 1]) + (if events[|events| - 1].Warning() then 0 else 1)
  }

  lemma {:induction false} ErrorsAppend(events: seq<Event>, e: Event)
    ensures Errors(events + [e]) == Errors(events) + (if e.Warning() then 0 else 1)
  {
    assert (events + [e])[..|events|] == events;
  }

  lemma {:induction false} JudgedAnswers(p: Progress, r: Raw, t: int, now: int, drift: int)
    ensures var z := Judged(p, r, t, now, drift);
            |z.accepted| + Errors(z.events) == |p.accepted| + Errors(p.events) + 1
  {
    hide Errors, Parsed;
    ErrorsAppend(p.events, Event(r.instrument, now, TimestampDrift, r.sourceId));
    ErrorsAppend(p.events, Event(r.instrument, now, InvalidCandle, r.sourceId));
  }

  lemma {:induction false} NextAnswers(p: Progress, r: Raw, now: int, drift: int)
    requires Next(p, r, now, drift).Some?
    ensures var z := Next(p, r, now, drift).value;
            && |z.accepted| + Errors(z.events) == |p.accepted| + Errors(p.events) + 1
            && p.accepted <= z.accepted && p.events <= z.events
  {
    hide Errors, FloorDiv, Parsed;
    ErrorsAppend(p.events, Event(r.instrument, now, InvalidTimestamp, r.sourceId));
    if r.timestamp.Some? {
      var t := r.timestamp.value;
      var id, stream := Identity(r.instrument, t, r.timeframe), (r.instrument, r.timeframe);
      ErrorsAppend(p.events, Event(r.instrument, now, Duplicate, r.sourceId));
      var noted := p.(seen := p.seen + {id});
      JudgedAnswers(noted, r, t, now, drift);
      if stream in p.previous {
        ErrorsAppend(p.events, Event(r.instrument, now, OutOfOrder(p.previous[stream]), r.sourceId));
        if r.timeframe != 0 {
          var gap := FeedGap(FloorDiv(t - (p.previous[stream] + r.timeframe), r.timeframe));
          ErrorsAppend(p.events, Event(r.instrument, now, gap, r.sourceId));
          JudgedAnswers(Reported(noted, r, now, gap), r, t, now, drift);
        }
      }
    }
  }

  /** Every record is answered: by one accepted candle, or by exactly one error. */
  lemma {:induction false} EveryRecordAnswered(records: seq<Raw>, now: int, drift: int, n: nat)
    requires n < |records| && Validated(records[..n + 1], now, drift).Some?
    ensures Validated(records[..n], now, drift).Some?
    ensures var p, z := Validated(records[..n], now, drift).value, Validated(records[..n + 1], now, drift).value;
            && p.accepted <= z.accepted && p.events <= z.events
            && (|z.accepted| - |p.accepted|) + (Errors(z.events) - Errors(p.events)) == 1
            && |z.accepted| + Errors(z.events) == n + 1
  {
    hide Next, Errors;
    assert records[..n + 1][..n] == records[..n];
    NextAnswers(Validated(records[..n], now, drift).value, records[n], now, drift);
    if n > 0 {
      EveryRecordAnswered(records, now, drift, n - 1);
    } else {
      NothingYet(records, now, drift);
    }
  }

  lemma {:induction false} NothingYet(records: seq<Raw>, now: int, drift: int)
    ensures Validated(records[..0], now, drift) == Some(Start()) && Errors(Start().events) == 0
  {
  }

  // ----- what is accepted -----------------------------------------------------------------------

  predicate SameStream(a: Candle, z: Candle) {
    a.instrument == z.instrument && a.timeframe == z.timeframe
  }

  /** Accepted candles exist as candles, and each stream's are strictly chronological. */
  ghost predicate Orderly(accepted: seq<Candle>) {
    && (forall i :: 0 <= i < |accepted| ==> accepted[i].Valid())
    && (forall i, j :: 0 <= i < j < |accepted| && SameStream(accepted[i], accepted[j]) ==> accepted[i].timestamp < accepted[j].timestamp)
  }

  /** A stream's latest timestamp is known, and was seen. */
  ghost predicate Tracked(p: Progress) {
    && (forall i :: 0 <= i < |p.accepted| ==>
          (p.accepted[i].instrument, p.accepted[i].timeframe) in p.previous
          && p.accepted[i].timestamp <= p.previous[(p.accepted[i].instrument, p.accepted[i].timeframe)])
    && (forall s :: s in p.previous ==> Identity(s.0, p.previous[s], s.1) in p.seen)
  }

  lemma {:induction false} JudgedOrderly(p: Progress, r: Raw, t: int, now: int, drift: int)
    requires Orderly(p.accepted) && Tracked(p) && Identity(r.instrument, t, r.timeframe) in p.seen
    requires (r.instrument, r.timeframe) in p.previous ==> p.previous[(r.instrument, r.timeframe)] < t
    ensures Orderly(Judged(p, r, t, now, drift).accepted) && Tracked(Judged(p, r, t, now, drift))
  {
  }

  lemma {:induction false} TrackedNoted(p: Progress, id: Identity, e: Event)
    requires Tracked(p)
    ensures Tracked(p.(seen := p.seen + {id})) && Tracked(p.(events := p.events + [e]))
    ensures Tracked(p.(seen := p.seen + {id}, events := p.events + [e]))
  {
  }

  /** A record not seen before, and no earlier than its stream's latest, is later. */
  lemma {:induction false} FreshIsLater(p: Progress, r: Raw, t: int)
    requires Tracked(p) && Identity(r.instrument, t, r.timeframe) !in p.seen
    requires (r.instrument, r.timeframe) in p.previous && p.previous[(r.instrument, r.timeframe)] <= t
    ensures p.previous[(r.instrument, r.timeframe)] < t
  {
    var stream := (r.instrument, r.timeframe);
    assert Identity(stream.0, p.previous[stream], stream.1) in p.seen;
  }

  lemma {:induction false} NextOrderly(p: Progress, r: Raw, now: int, drift: int)
    requires Orderly(p.accepted) && Tracked(p) && Next(p, r, now, drift).Some?
    ensures Orderly(Next(p, r, now, drift).value.accepted) && Tracked(Next(p, r, now, drift).value)
  {
    hide Orderly, Tracked, FloorDiv, Parsed, Judged;
    if r.timestamp.None? {
      TrackedNoted(p, Identity(0, 0, 0), Event(r.instrument, now, InvalidTimestamp, r.sourceId));
    } else {
      var t := r.timestamp.value;
      var id, stream := Identity(r.instrument, t, r.timeframe), (r.instrument, r.timeframe);
      TrackedNoted(p, id, Event(r.instrument, now, Duplicate, r.sourceId));
      if id !in p.seen {
        var noted := p.(seen := p.seen + {id});
        if stream !in p.previous {
          JudgedOrderly(noted, r, t, now, drift);
        } else if t < p.previous[stream] {
          TrackedNoted(p, id, Event(r.instrument, now, OutOfOrder(p.previous[stream]), r.sourceId));
        } else {
          FreshIsLater(p, r, t);
          JudgedOrderly(noted, r, t, now, drift);
          if r.timeframe != 0 {
            var gap := FeedGap(FloorDiv(t - (p.previous[stream] + r.timeframe), r.timeframe));
            TrackedNoted(noted, id, Event(r.instrument, now, gap, r.sourceId));
            JudgedOrderly(Reported(noted, r, now, gap), r, t, now, drift);
          }
        }
      }
    }
  }

  lemma {:induction false} AcceptedTracked(records: seq<Raw>, now: int, drift: int)
    requires Validated(records, now, drift).Some?
    ensures Orderly(Validated(records, now, drift).value.accepted) && Tracked(Validated(records, now, drift).value)
  {
    hide Next;
    if records != [] {
      hide Orderly, Tracked;
      AcceptedTracked(records[..|records| - 1], now, drift);
      NextOrderly(Validated(records[..|records| - 1], now, drift).value, records[|records| - 1], now, drift);
    }
  }

  function IdentityOf(x: Candle): Identity {
    Identity(x.instrument, x.timestamp, x.timeframe)
  }

  /** Accepted candles are valid, strictly chronological in each stream, and no two have one identity. */
  lemma {:induction false} AcceptedOrderly(records: seq<Raw>, now: int, drift: int)
    requires Validated(records, now, drift).Some?
    ensures var a := Validated(records, now, drift).value.accepted;
            && Orderly(a)
            && (forall i, j :: 0 <= i < j < |a| ==> IdentityOf(a[i]) != IdentityOf(a[j]))
  {
    hide Validated;
    AcceptedTracked(records, now, drift);
    var a := Validated(records, now, drift).value.accepted;
    forall i, j | 0 <= i < j < |a| ensures IdentityOf(a[i]) != IdentityOf(a[j]) {
      assert SameStream(a[i], a[j]) ==> a[i].timestamp < a[j].timestamp;
    }
  }

  // ----- when validation raises -----------------------------------------------------------------

  /** The record is stamped, and of zero timeframe. */
  predicate ZeroFrame(r: Raw) {
    r.timestamp.Some? && r.timeframe == 0
  }

  /** When the instrument's first stamped record of zero timeframe is stamped. */
  function Opening(records: seq<Raw>, instrument: int): Option<int> {
    if records == [] then None
    else
      var before, r := Opening(records[..|records| - 1], instrument), records[|records| - 1];
      if before.Some? then before else if ZeroFrame(r) && r.instrument == instrument then r.timestamp else None
  }

  /** Record `j` is of zero timeframe and later than its instrument's first such record before it. */
  ghost predicate DividesByZero(records: seq<Raw>, j: nat) {
    && j < |records| && ZeroFrame(records[j])
    && Opening(records[..j], records[j].instrument).Some?
    && records[j].timestamp.value > Opening(records[..j], records[j].instrument).value
  }

  ghost predicate SomeDivides(records: seq<Raw>) {
    exists j: nat :: DividesByZero(records, j)
  }

  lemma {:induction false} SomeDividesStep(records: seq<Raw>)
    requires records != []
    ensures SomeDivides(records) <==> SomeDivides(records[..|records| - 1]) || DividesByZero(records, |records| - 1)
  {
    hide Opening;
    var front := records[..|records| - 1];
    assert forall j: nat :: j < |front| ==> front[..j] == records[..j] && front[j] == records[j];
    if SomeDivides(records) {
      var j: nat :| DividesByZero(records, j);
      assert j < |front| ==> DividesByZero(front, j);
    }
    if SomeDivides(front) {
      var j: nat :| DividesByZero(front, j);
      assert DividesByZero(records, j);
    }
  }

  /** Nothing seen is later than its stream's latest, and a zero-timeframe stream's latest is its opening. */
  ghost predicate Anchored(p: Progress, records: seq<Raw>) {
    && (forall id :: id in p.seen ==>
          (id.instrument, id.timeframe) in p.previous && id.timestamp <= p.previous[(id.instrument, id.timeframe)])
    && (forall s :: s in p.previous ==> Identity(s.0, p.previous[s], s.1) in p.seen)
    && (forall x: int :: Opening(records, x) == if (x, 0) in p.previous then Some(p.previous[(x, 0)]) else None)
  }

  /** What a record leaves in the set and the dictionary. */
  lemma {:induction false} NextMarks(p: Progress, r: Raw, now: int, drift: int)
    requires Next(p, r, now, drift).Some?
    ensures var z := Next(p, r, now, drift).value;
            if r.timestamp.None? || Identity(r.instrument, r.timestamp.value, r.timeframe) in p.seen then
              z.seen == p.seen && z.previous == p.previous
            else
              var t, stream := r.timestamp.value, (r.instrument, r.timeframe);
              && z.seen == p.seen + {Identity(r.instrument, t, r.timeframe)}
              && z.previous == if stream in p.previous && t < p.previous[stream] then p.previous else p.previous[stream := t]
  {
    hide FloorDiv, Parsed;
  }

  lemma {:induction false} NextAnchored(p: Progress, records: seq<Raw>, now: int, drift: int)
    requires records != [] && Anchored(p, records[..|records| - 1])
    ensures Next(p, records[|records| - 1], now, drift).None? <==> DividesByZero(records, |records| - 1)
    ensures Next(p, records[|records| - 1], now, drift).Some? ==>
              Anchored(Next(p, records[|records| - 1], now, drift).value, records)
  {
    var r := records[|records| - 1];
    if Next(p, r, now, drift).Some? {
      NextMarks(p, r, now, drift);
    }
    NextRaises(p, r, now, drift);
    hide Next;
  }

  lemma {:induction false} NextRaises(p: Progress, r: Raw, now: int, drift: int)
    ensures Next(p, r, now, drift).None? <==>
              && ZeroFrame(r) && Identity(r.instrument, r.timestamp.value, 0) !in p.seen
              && (r.instrument, 0) in p.previous && r.timestamp.value > p.previous[(r.instrument, 0)]
  {
    hide FloorDiv, Parsed, Judged;
  }

  lemma {:induction false} StartAnchored()
    ensures Anchored(Start(), [])
  {
  }

  /** Validation raises exactly when a record of zero timeframe is later than its instrument's first one. */
  lemma {:induction false} RaisesExactly(records: seq<Raw>, now: int, drift: int)
    ensures Validated(records, now, drift).None? <==> SomeDivides(records)
    ensures Validated(records, now, drift).Some? ==> Anchored(Validated(records, now, drift).value, records)
  {
    hide Next, Anchored, DividesByZero;
    if records == [] {
      StartAnchored();
      NothingDivides();
    } else {
      var front := records[..|records| - 1];
      RaisesExactly(front, now, drift);
      SomeDividesStep(records);
      if Validated(front, now, drift).Some? {
        NextAnchored(Validated(front, now, drift).value, records, now, drift);
      }
    }
  }

  lemma {:induction false} NothingDivides()
    ensures !SomeDivides([])
  {
  }

  /** Two records of zero timeframe, a second apart. */
  function Timeless(timestamp: int): Raw {
    Raw(1, Some(timestamp), 0, 1.0, 1.0, 1.0, 1.0, 0.0, timestamp, None)
  }

  lemma {:induction false} TimelessRaises(now: int, drift: int)
    ensures Validated([Timeless(0), Timeless(1)], now, drift).None?
  {
    var records := [Timeless(0), Timeless(1)];
    assert records[..1] == [Timeless(0)] && records[..1][..0] == [];
    assert DividesByZero(records, 1);
    RaisesExactly(records, now, drift);
  }
}
