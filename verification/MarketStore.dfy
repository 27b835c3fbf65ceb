/** Ingesting a batch: insert-if-absent tables, and conflicts reported instead of overwritten. */
module MarketStore {
  import opened Domain
  import opened CandleValidation

  // ----- a table that only ever inserts ---------------------------------------------------------

  /** Rows, each under its unique key, in turn: a key already there keeps its row. */
  function Inserted<K, V>(table: map<K, V>, rows: seq<(K, V)>): map<K, V> {
    if rows == [] then table
    else
      var before, row := Inserted(table, rows[..|rows| - 1]), rows[|rows| - 1];
      if row.0 in before then before else before[row.0 := row.1]
  }

  function Keys<K, V>(rows: seq<(K, V)>): set<K> {
    set i | 0 <= i < |rows| :: rows[i].0
  }

  method InsertIgnore<K, V>(table: map<K, V>, rows: seq<(K, V)>) returns (after: map<K, V>, count: nat)
    ensures after == Inserted(table, rows) && count == |after| - |table|
  {
    after, count := table, 0;
    for i := 0 to |rows|
      invariant after == Inserted(table, rows[..i]) && count == |after| - |table|
    {
      assert rows[..i + 1][..i] == rows[..i];
      if rows[i].0 !in after {
        after := after[rows[i].0 := rows[i].1];
        count := count + 1;
      }
    }
    assert rows[..|rows|] == rows;
  }

  /** The keys are those of the table and of the rows, and a key already there keeps its row. */
  lemma {:induction false} InsertedKeeps<K, V>(table: map<K, V>, rows: seq<(K, V)>)
    ensures Inserted(table, rows).Keys == table.Keys + Keys(rows)
    ensures forall k :: k in table ==> k in Inserted(table, rows) && Inserted(table, rows)[k] == table[k]
  {
    if rows != [] {
      var front, row := rows[..|rows| - 1], rows[|rows| - 1];
      InsertedKeeps(table, front);
      KeysAppend(front, row);
      assert rows == front + [row];
    }
  }

  lemma {:induction false} KeysAppend<K, V>(rows: seq<(K, V)>, row: (K, V))
    ensures Keys(rows + [row]) == Keys(rows) + {row.0}
  {
    var all := rows + [row];
    assert all[|rows|] == row;
    assert forall i :: 0 <= i < |rows| ==> all[i] == rows[i];
  }

  /** Inserting rows whose keys are all there changes nothing. */
  lemma {:induction false} InsertedNothing<K, V>(table: map<K, V>, rows: seq<(K, V)>)
    requires Keys(rows) <= table.Keys
    ensures Inserted(table, rows) == table
  {
    if rows != [] {
      var front, row := rows[..|rows| - 1], rows[|rows| - 1];
      KeysAppend(front, row);
      assert rows == front + [row];
      InsertedNothing(table, front);
      assert row.0 in Keys(rows);
    }
  }

  /** A row under a key the table lacks and no earlier row has is the one that goes in. */
  lemma {:induction false} InsertedRow<K, V>(table: map<K, V>, rows: seq<(K, V)>, i: nat)
    requires i < |rows| && rows[i].0 !in table && forall j :: 0 <= j < i ==> rows[j].0 != rows[i].0
    ensures rows[i].0 in Inserted(table, rows) && Inserted(table, rows)[rows[i].0] == rows[i].1
  {
    var front := rows[..|rows| - 1];
    if i < |front| {
      InsertedRow(table, front, i);
    } else {
      InsertedKeeps(table, front);
      assert rows[i].0 !in Keys(front);
    }
  }

  // ----- one ingestion --------------------------------------------------------------------------

  /** The three tables: raw rows by source and event, candles by identity, quality events by raw event and code. */
  datatype Tables = Tables(raw: map<(int, int), Raw>, candles: map<Identity, Candle>, events: map<(int, CodeName), Event>)

  /** The code of an event, without its details. */
  datatype CodeName = NInvalidTimestamp | NDuplicate | NOutOfOrder | NFeedGap | NTimestampDrift | NInvalidCandle | NConflictingCandle

  function NameOf(code: Code): CodeName {
    match code
    case InvalidTimestamp => NInvalidTimestamp
    case Duplicate => NDuplicate
    case OutOfOrder(_) => NOutOfOrder
    case FeedGap(_) => NFeedGap
    case TimestampDrift => NTimestampDrift
    case InvalidCandle => NInvalidCandle
    case ConflictingCandle(_, _) => NConflictingCandle
  }

  function RawRows(source: int, records: seq<Raw>): seq<((int, int), Raw)> {
    seq(|records|, i requires 0 <= i < |records| => ((source, records[i].sourceId), records[i]))
  }

  function CandleRows(candles: seq<Candle>): seq<(Identity, Candle)> {
    seq(|candles|, i requires 0 <= i < |candles| => (IdentityOf(candles[i]), candles[i]))
  }

  function EventRows(events: seq<Event>): seq<((int, CodeName), Event)> {
    seq(|events|, i requires 0 <= i < |events| => ((events[i].rawId, NameOf(events[i].code)), events[i]))
  }

  /** The last raw event of an identity in the batch. */
  function SourceOf(records: seq<Raw>, id: Identity): Option<int> {
    if records == [] then None
    else
      var r := records[|records| - 1];
      if r.timestamp.Some? && Identity(r.instrument, r.timestamp.value, r.timeframe) == id then Some(r.sourceId)
      else SourceOf(records[..|records| - 1], id)
  }

  /** The accepted candles the store does not have. */
  function Fresh(candles: map<Identity, Candle>, accepted: seq<Candle>): seq<Candle> {
    if accepted == [] then []
    else
      var x := accepted[|accepted| - 1];
      Fresh(candles, accepted[..|accepted| - 1]) + (if IdentityOf(x) in candles then [] else [x])
  }

  ghost predicate Sourced(records: seq<Raw>, accepted: seq<Candle>) {
    forall i :: 0 <= i < |accepted| ==> SourceOf(records, IdentityOf(accepted[i])).Some?
  }

  /** A report for each accepted candle that differs from the stored one, naming the batch's last raw event for it. */
  function Conflicts(candles: map<Identity, Candle>, accepted: seq<Candle>, records: seq<Raw>, now: int): seq<Event>
    requires Sourced(records, accepted)
  {
    if accepted == [] then []
    else
      var x := accepted[|accepted| - 1];
      Conflicts(candles, accepted[..|accepted| - 1], records, now) +
      (if IdentityOf(x) in candles && candles[IdentityOf(x)] != x then [Conflict(x, records, now)] else [])
  }

  function Conflict(x: Candle, records: seq<Raw>, now: int): Event
    requires SourceOf(records, IdentityOf(x)).Some?
  {
    Event(x.instrument, now, ConflictingCandle(x.timestamp, x.timeframe), SourceOf(records, IdentityOf(x)).value)
  }

  lemma {:induction false} NextAccepts(p: Progress, r: Raw, now: int, drift: int)
    requires Next(p, r, now, drift).Some?
    ensures var z := Next(p, r, now, drift).value;
            z.accepted == p.accepted
            || (r.timestamp.Some? && z.accepted == p.accepted + [Parsed(r, r.timestamp.value, now)])
  {
    hide FloorDiv, Parsed;
  }

  /** Every accepted candle came from a record of the batch. */
  lemma {:induction false} AcceptedSourced(records: seq<Raw>, now: int, drift: int)
    requires Validated(records, now, drift).Some?
    ensures Sourced(records, Validated(records, now, drift).value.accepted)
  {
    hide Next;
    if records != [] {
      var front, r := records[..|records| - 1], records[|records| - 1];
      AcceptedSourced(front, now, drift);
      var p := Validated(front, now, drift).value;
      NextAccepts(p, r, now, drift);
    }
  }

  datatype Counts = Counts(raw: int, candles: int, events: int)

  /** The tables after an ingestion, and what it reports; nothing when validation raises. */
  function Ingested(t: Tables, source: int, records: seq<Raw>, now: int, drift: int): Option<(Tables, Counts)> {
    match Validated(records, now, drift)
    case None => None
    case Some(p) =>
      AcceptedSourced(records, now, drift);
      var raw := Inserted(t.raw, RawRows(source, records));
      var candles := Inserted(t.candles, CandleRows(Fresh(t.candles, p.accepted)));
      var events := Inserted(t.events, EventRows(p.events + Conflicts(t.candles, p.accepted, records, now)));
      Some((Tables(raw, candles, events), Counts(|raw| - |t.raw|, |candles| - |t.candles|, |events| - |t.events|)))
  }

  /** The batch's own part of the candle table, found by its instruments, timestamps and timeframes. */
  function Existing(candles: map<Identity, Candle>, accepted: seq<Candle>): map<Identity, Candle> {
    map id | id in candles
             && (exists i :: 0 <= i < |accepted| && accepted[i].instrument == id.instrument)
             && (exists i :: 0 <= i < |accepted| && accepted[i].timestamp == id.timestamp)
             && (exists i :: 0 <= i < |accepted| && accepted[i].timeframe == id.timeframe) :: candles[id]
  }

  lemma {:induction false} ExistingExact(candles: map<Identity, Candle>, accepted: seq<Candle>, i: nat)
    requires i < |accepted|
    ensures var id := IdentityOf(accepted[i]);
            (id in Existing(candles, accepted) <==> id in candles)
            && (id in candles ==> Existing(candles, accepted)[id] == candles[id])
  {
  }

  /** Which accepted candles are new, and which contradict what is stored. */
  method Compare(candles: map<Identity, Candle>, accepted: seq<Candle>, records: seq<Raw>, now: int)
    returns (newCandles: seq<Candle>, conflicts: seq<Event>)
    requires Sourced(records, accepted)
    ensures newCandles == Fresh(candles, accepted) && conflicts == Conflicts(candles, accepted, records, now)
  {
    hide Existing, Conflict, SourceOf;
    var existing := Existing(candles, accepted);
    newCandles, conflicts := [], [];
    for i := 0 to |accepted|
      invariant newCandles == Fresh(candles, accepted[..i])
      invariant conflicts == Conflicts(candles, accepted[..i], records, now)
    {
      hide IdentityOf;
      assert accepted[..i + 1][..i] == accepted[..i];
      ExistingExact(candles, accepted, i);
      var id := IdentityOf(accepted[i]);
      if id !in existing {
        newCandles := newCandles + [accepted[i]];
      } else if existing[id] != accepted[i] {
        conflicts := conflicts + [Conflict(accepted[i], records, now)];
      }
    }
    assert accepted[..|accepted|] == accepted;
  }

  class HistoricalCandleIngestor {
    var raw: map<(int, int), Raw>
    var candles: map<Identity, Candle>
    var events: map<(int, CodeName), Event>

    function Stored(): Tables
      reads this
    {
      Tables(raw, candles, events)
    }

    constructor ()
      ensures Stored() == Tables(map[], map[], map[])
    {
      raw, candles, events := map[], map[], map[];
    }

    /** Validate, compare with what is stored, then insert into the three tables; a batch that raises stores nothing. */
    method Ingest(source: int, records: seq<Raw>, now: int, drift: int) returns (r: Option<Counts>)
      modifies this
      ensures match Ingested(old(Stored()), source, records, now, drift)
              case None => r == None && Stored() == old(Stored())
              case Some(answer) => Stored() == answer.0 && r == Some(answer.1)
    {
      hide Validated, Inserted, Keys, RawRows, CandleRows, EventRows, SourceOf, Fresh, Conflicts, Sourced;
      var validated := Validate(records, now, drift);
      if validated.None? {
        return None;
      }
      AcceptedSourced(records, now, drift);
      var accepted := validated.value.accepted;
      var newCandles, conflicts := Compare(candles, accepted, records, now);
      var rawCount, candleCount, eventCount: nat;
      raw, rawCount := InsertIgnore(raw, RawRows(source, records));
      candles, candleCount := InsertIgnore(candles, CandleRows(newCandles));
      events, eventCount := InsertIgnore(events, EventRows(validated.value.events + conflicts));
      return Some(Counts(rawCount, candleCount, eventCount));
    }
  }

  // ----- what ingesting promises ----------------------------------------------------------------

  /** Nothing stored is ever overwritten or lost. */
  lemma {:induction false} NeverOverwrites(t: Tables, source: int, records: seq<Raw>, now: int, drift: int)
    requires Ingested(t, source, records, now, drift).Some?
    ensures var z := Ingested(t, source, records, now, drift).value.0;
            && (forall k :: k in t.raw ==> k in z.raw && z.raw[k] == t.raw[k])
            && (forall k :: k in t.candles ==> k in z.candles && z.candles[k] == t.candles[k])
            && (forall k :: k in t.events ==> k in z.events && z.events[k] == t.events[k])
  {
    hide Validated, Inserted, Keys, RawRows, CandleRows, EventRows, Fresh, Conflicts;
    AcceptedSourced(records, now, drift);
    var p := Validated(records, now, drift).value;
    InsertedKeeps(t.raw, RawRows(source, records));
    InsertedKeeps(t.candles, CandleRows(Fresh(t.candles, p.accepted)));
    InsertedKeeps(t.events, EventRows(p.events + Conflicts(t.candles, p.accepted, records, now)));
  }

  lemma {:induction false} FreshExact(candles: map<Identity, Candle>, accepted: seq<Candle>, x: Candle)
    ensures x in Fresh(candles, accepted) <==> x in accepted && IdentityOf(x) !in candles
  {
    hide IdentityOf;
    if accepted != [] {
      FreshExact(candles, accepted[..|accepted| - 1], x);
      assert accepted == accepted[..|accepted| - 1] + [accepted[|accepted| - 1]];
    }
  }

  ghost predicate DistinctIdentities(s: seq<Candle>) {
    forall i, j :: 0 <= i < j < |s| ==> IdentityOf(s[i]) != IdentityOf(s[j])
  }

  lemma {:induction false} FreshDistinct(candles: map<Identity, Candle>, accepted: seq<Candle>)
    requires DistinctIdentities(accepted)
    ensures DistinctIdentities(Fresh(candles, accepted))
  {
    if accepted != [] {
      hide IdentityOf;
      var front, x := accepted[..|accepted| - 1], accepted[|accepted| - 1];
      FreshDistinct(candles, front);
      var kept := Fresh(candles, front);
      forall i | 0 <= i < |kept| ensures IdentityOf(kept[i]) != IdentityOf(x) {
        assert kept[i] in kept;
        FreshExact(candles, front, kept[i]);
        var j :| 0 <= j < |front| && front[j] == kept[i];
        assert IdentityOf(accepted[j]) != IdentityOf(x);
      }
    }
  }

  /** After an ingestion every accepted candle's identity is stored: the candle itself, unless another was there before. */
  lemma {:induction false} AcceptedStored(t: Tables, source: int, records: seq<Raw>, now: int, drift: int, x: Candle)
    requires Ingested(t, source, records, now, drift).Some? && x in Validated(records, now, drift).value.accepted
    ensures var z := Ingested(t, source, records, now, drift).value.0;
            && IdentityOf(x) in z.candles
            && z.candles[IdentityOf(x)] == if IdentityOf(x) in t.candles then t.candles[IdentityOf(x)] else x
  {
    hide Validated, Inserted, IdentityOf, Keys, Conflicts;
    NeverOverwrites(t, source, records, now, drift);
    var accepted := Validated(records, now, drift).value.accepted;
    if IdentityOf(x) !in t.candles {
      AcceptedOrderly(records, now, drift);
      FreshDistinct(t.candles, accepted);
      FreshExact(t.candles, accepted, x);
      var kept := Fresh(t.candles, accepted);
      var i :| 0 <= i < |kept| && kept[i] == x;
      forall j | 0 <= j < i ensures CandleRows(kept)[j].0 != CandleRows(kept)[i].0 {
        assert IdentityOf(kept[j]) != IdentityOf(kept[i]);
      }
      InsertedRow(t.candles, CandleRows(kept), i);
    }
  }

  lemma {:induction false} NothingFresh(candles: map<Identity, Candle>, accepted: seq<Candle>)
    requires forall x :: x in accepted ==> IdentityOf(x) in candles
    ensures Fresh(candles, accepted) == []
  {
    hide IdentityOf;
    if accepted != [] {
      var front := accepted[..|accepted| - 1];
      assert forall x :: x in front ==> x in accepted;
      NothingFresh(candles, front);
    }
  }

  /** Whether a candle conflicts is settled by what was stored before its own ingestion. */
  lemma {:induction false} SameConflicts(
    a: map<Identity, Candle>, z: map<Identity, Candle>, accepted: seq<Candle>, records: seq<Raw>, now: int)
    requires Sourced(records, accepted)
    requires forall x :: x in accepted ==>
               IdentityOf(x) in z && z[IdentityOf(x)] == (if IdentityOf(x) in a then a[IdentityOf(x)] else x)
    ensures Conflicts(z, accepted, records, now) == Conflicts(a, accepted, records, now)
  {
    hide IdentityOf, Conflict, SourceOf;
    if accepted != [] {
      var front := accepted[..|accepted| - 1];
      assert forall x :: x in front ==> x in accepted;
      SameConflicts(a, z, front, records, now);
      assert accepted[|accepted| - 1] in accepted;
    }
  }

  /** Ingesting the same batch again, as of the same instant, leaves every table as it is and reports nothing inserted. */
  lemma {:induction false} IngestAgainChangesNothing(t: Tables, source: int, records: seq<Raw>, now: int, drift: int)
    requires Ingested(t, source, records, now, drift).Some?
    ensures var z := Ingested(t, source, records, now, drift).value.0;
            Ingested(z, source, records, now, drift) == Some((z, Counts(0, 0, 0)))
  {
    hide Validated, Inserted, Keys, IdentityOf, RawRows, CandleRows, EventRows, Fresh, Conflicts;
    AcceptedSourced(records, now, drift);
    var p := Validated(records, now, drift).value;
    var z := Ingested(t, source, records, now, drift).value.0;
    forall x | x in p.accepted
      ensures IdentityOf(x) in z.candles && z.candles[IdentityOf(x)] == if IdentityOf(x) in t.candles then t.candles[IdentityOf(x)] else x
    {
      AcceptedStored(t, source, records, now, drift, x);
    }
    NothingFresh(z.candles, p.accepted);
    SameConflicts(t.candles, z.candles, p.accepted, records, now);
    var events := EventRows(p.events + Conflicts(t.candles, p.accepted, records, now));
    InsertedKeeps(t.raw, RawRows(source, records));
    InsertedKeeps(t.events, events);
    InsertedNothing(z.raw, RawRows(source, records));
    InsertedNothing(z.events, events);
    NoCandleRows();
    InsertedNothing(z.candles, CandleRows([]));
  }

  lemma {:induction false} NoCandleRows()
    ensures CandleRows([]) == [] && Keys(CandleRows([])) == {}
  {
  }

  /** An accepted candle is what the store holds afterwards exactly when nothing else was there under its identity. */
  lemma {:induction false} StoredAsAcceptedExactly(t: Tables, source: int, records: seq<Raw>, now: int, drift: int, x: Candle)
    requires Ingested(t, source, records, now, drift).Some? && x in Validated(records, now, drift).value.accepted
    ensures var z := Ingested(t, source, records, now, drift).value.0;
            IdentityOf(x) in z.candles &&
            (z.candles[IdentityOf(x)] == x <==> (IdentityOf(x) in t.candles ==> t.candles[IdentityOf(x)] == x))
  {
    hide Ingested, Validated;
    AcceptedStored(t, source, records, now, drift, x);
  }

  /**
   * A candle stored before its interval closed stays open for ever: ingesting it again afterwards is reported as a
   * conflict, and the stored one is kept.
   */
  lemma {:induction false} OpenCandleStaysOpen(t: Tables, source: int, records: seq<Raw>, now: int, drift: int, x: Candle)
    requires Ingested(t, source, records, now, drift).Some? && x in Validated(records, now, drift).value.accepted
    requires x.isClosed && IdentityOf(x) in t.candles && t.candles[IdentityOf(x)] == x.(isClosed := false)
    ensures SourceOf(records, IdentityOf(x)).Some?
    ensures var z := Ingested(t, source, records, now, drift).value.0;
            && IdentityOf(x) in z.candles && z.candles[IdentityOf(x)] == x.(isClosed := false)
            && (SourceOf(records, IdentityOf(x)).value, NConflictingCandle) in z.events
  {
    hide Validated, Inserted, SourceOf, Keys, Conflicts, Conflict;
    AcceptedSourced(records, now, drift);
    AcceptedStored(t, source, records, now, drift, x);
    var p := Validated(records, now, drift).value;
    ConflictReported(t.candles, p.accepted, records, now, x);
    var events := p.events + Conflicts(t.candles, p.accepted, records, now);
    assert Conflict(x, records, now) in events;
    KeyOfEvent(events, Conflict(x, records, now));
    ConflictKey(x, records, now);
    InsertedKeeps(t.events, EventRows(events));
  }

  lemma {:induction false} OneRecord(r: Raw, now: int, drift: int)
    requires r.timestamp.Some? && r.timestamp.value <= now + drift && Parsed(r, r.timestamp.value, now).Valid()
    ensures Validated([r], now, drift).Some?
    ensures Validated([r], now, drift).value.accepted == [Parsed(r, r.timestamp.value, now)]
  {
    hide Parsed;
    assert [r][..0] == [] && Validated([], now, drift) == Some(Start());
  }

  /**
   * The input: one record, ingested into an empty store before its interval ends and again after it. The candle first
   * stored is open, the second ingestion reports a conflict and inserts no candle, and the store still holds the open one.
   */
  lemma {:induction false} IngestedTooEarly(r: Raw, source: int, first: int, second: int, drift: int)
    requires r.timestamp.Some? && r.timestamp.value <= first + drift && first < r.timestamp.value + r.timeframe <= second
    requires Parsed(r, r.timestamp.value, first).Valid()
    ensures var empty, open := Tables(map[], map[], map[]), Parsed(r, r.timestamp.value, first);
            var once := Ingested(empty, source, [r], first, drift);
            once.Some? && once.value.1.candles == 1 &&
            var twice := Ingested(once.value.0, source, [r], second, drift);
            && twice.Some? && twice.value.1.candles == 0
            && IdentityOf(open) in twice.value.0.candles && twice.value.0.candles[IdentityOf(open)] == open && !open.isClosed
            && Validated([r], second, drift).value.accepted == [open.(isClosed := true)]
            && (r.sourceId, NConflictingCandle) in twice.value.0.events
  {
    hide Validated, Keys, Conflicts, EventRows, RawRows;
    var empty := Tables(map[], map[], map[]);
    var open := Parsed(r, r.timestamp.value, first);
    OneRecord(r, first, drift);
    OneRecord(r, second, drift);
    AcceptedStored(empty, source, [r], first, drift, open);
    var once := Ingested(empty, source, [r], first, drift).value.0;
    assert [open][..0] == [];
    assert Fresh(map[], [open]) == [open];
    var rows := CandleRows([open]);
    assert rows[..0] == [];
    assert Inserted(map[], rows) == map[IdentityOf(open) := open];
    OpenCandleStaysOpen(once, source, [r], second, drift, open.(isClosed := true));
    assert SourceOf([r], IdentityOf(open)) == Some(r.sourceId);
    assert Fresh(once.candles, [open.(isClosed := true)]) == [];
    NoCandleRows();
  }

  /** A one-minute candle of the minute 0, ingested at second 30 and at second 90. */
  const EARLY := Raw(1, Some(0), 60, 100.0, 101.0, 99.0, 100.0, 10.0, 7, None)

  lemma {:induction false} OpenCandleExample()
    ensures var once := Ingested(Tables(map[], map[], map[]), 1, [EARLY], 30, 5);
            once.Some? &&
            var twice := Ingested(once.value.0, 1, [EARLY], 90, 5);
            && twice.Some? && (7, NConflictingCandle) in twice.value.0.events
            && Identity(1, 0, 60) in twice.value.0.candles && !twice.value.0.candles[Identity(1, 0, 60)].isClosed
  {
    hide Ingested, Validated;
    IngestedTooEarly(EARLY, 1, 30, 90, 5);
  }

  lemma {:induction false} KeyOfEvent(events: seq<Event>, e: Event)
    requires e in events
    ensures (e.rawId, NameOf(e.code)) in Keys(EventRows(events))
  {
    hide NameOf;
    var i :| 0 <= i < |events| && events[i] == e;
    assert EventRows(events)[i].0 == (e.rawId, NameOf(e.code));
  }

  lemma {:induction false} ConflictKey(x: Candle, records: seq<Raw>, now: int)
    requires SourceOf(records, IdentityOf(x)).Some?
    ensures Conflict(x, records, now).rawId == SourceOf(records, IdentityOf(x)).value
    ensures NameOf(Conflict(x, records, now).code) == NConflictingCandle
  {
    hide SourceOf;
  }

  lemma {:induction false} ConflictReported(
    candles: map<Identity, Candle>, accepted: seq<Candle>, records: seq<Raw>, now: int, x: Candle)
    requires Sourced(records, accepted) && x in accepted && IdentityOf(x) in candles && candles[IdentityOf(x)] != x
    ensures SourceOf(records, IdentityOf(x)).Some? && Conflict(x, records, now) in Conflicts(candles, accepted, records, now)
  {
    hide Conflict, SourceOf, IdentityOf;
    var front := accepted[..|accepted| - 1];
    assert accepted == front + [accepted[|accepted| - 1]];
    if x in front {
      ConflictReported(candles, front, records, now, x);
    }
  }
}
