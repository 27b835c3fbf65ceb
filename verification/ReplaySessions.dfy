/** Durable replay sessions: a cursor per session under a version check, and the coordinator over it. */
module ReplaySessions {
  import opened Domain
  import opened Replay

  datatype Row = Row(checkpoint: Checkpoint, instrument: int, timeframe: int, total: int, version: int, at: int)

  datatype Error =
    | NoSession | ConflictingEvidence | NegativeInput | StaleCheckpoint | StaleVersion | BadDataset | DatasetChanged
    | BadSchedule

  /** The table, and beside it, for the record, every cursor each session has had. */
  ghost predicate RowSound(row: Row, history: seq<int>) {
    && row.version >= 0 && |history| == row.version + 1
    && history[row.version] == row.checkpoint.nextIndex
    && (forall v :: 0 <= v < |history| ==> 0 <= history[v] <= row.total)
  }

  ghost predicate TableSound(rows: map<int, Row>, history: map<int, seq<int>>) {
    rows.Keys == history.Keys && forall id :: id in rows ==> RowSound(rows[id], history[id])
  }

  /** Sessions are never lost, their evidence never changes, and their past never is rewritten. */
  ghost predicate TableExtends(rows: map<int, Row>, history: map<int, seq<int>>, rows': map<int, Row>, history': map<int, seq<int>>)
    requires rows.Keys == history.Keys && rows'.Keys == history'.Keys
  {
    forall id :: id in rows ==>
      && id in rows'
      && rows'[id].checkpoint.dataset == rows[id].checkpoint.dataset && rows'[id].instrument == rows[id].instrument
      && rows'[id].timeframe == rows[id].timeframe && rows'[id].total == rows[id].total
      && history[id] <= history'[id]
  }

  /** What a session at one version will still show about that version later. */
  lemma {:induction false} ExtendsTransitive(
    a: map<int, Row>, ha: map<int, seq<int>>, b: map<int, Row>, hb: map<int, seq<int>>, c: map<int, Row>, hc: map<int, seq<int>>)
    requires a.Keys == ha.Keys && b.Keys == hb.Keys && c.Keys == hc.Keys
    requires TableExtends(a, ha, b, hb) && TableExtends(b, hb, c, hc)
    ensures TableExtends(a, ha, c, hc)
  {
  }

  /** A save some other client attempts; it may well fail. */
  datatype Attempt = Attempt(session: int, checkpoint: Checkpoint, expectedVersion: int, at: int)

  /** Whether a save would pass the guard. */
  predicate Passes(rows: map<int, Row>, a: Attempt) {
    && a.expectedVersion >= 0 && a.checkpoint.nextIndex >= 0 && a.session in rows
    && rows[a.session].version == a.expectedVersion
    && rows[a.session].checkpoint.dataset == a.checkpoint.dataset
    && a.checkpoint.nextIndex <= rows[a.session].total
  }

  /** The rows after a save: one version on, or as they were. */
  function Saved(rows: map<int, Row>, a: Attempt): map<int, Row> {
    if Passes(rows, a) then
      rows[a.session := rows[a.session].(checkpoint := a.checkpoint, version := a.expectedVersion + 1, at := a.at)]
    else rows
  }

  /** The rows after a list of saves. */
  function AfterAttempts(rows: map<int, Row>, attempts: seq<Attempt>): map<int, Row> {
    if attempts == [] then rows else Saved(AfterAttempts(rows, attempts[..|attempts| - 1]), attempts[|attempts| - 1])
  }

  /** A session's version only goes up, so one that stands where it stood was left alone. */
  lemma {:induction false} AttemptsOnward(rows: map<int, Row>, attempts: seq<Attempt>, session: int)
    requires session in rows
    ensures session in AfterAttempts(rows, attempts)
    ensures AfterAttempts(rows, attempts)[session].version >= rows[session].version
    ensures AfterAttempts(rows, attempts)[session].version == rows[session].version ==>
              AfterAttempts(rows, attempts)[session] == rows[session]
  {
    if attempts != [] {
      AttemptsOnward(rows, attempts[..|attempts| - 1], session);
    }
  }

  /** Saves of other sessions, or of stale versions, leave a session alone: it is undisturbed exactly when none passes. */
  ghost predicate Undisturbed(rows: map<int, Row>, attempts: seq<Attempt>, session: int)
    requires session in rows
  {
    AttemptsOnward(rows, attempts, session);
    AfterAttempts(rows, attempts)[session].version == rows[session].version
  }

  lemma {:induction false} QuietIsUndisturbed(rows: map<int, Row>, session: int)
    requires session in rows
    ensures Undisturbed(rows, [], session)
  {
  }

  class SessionTable {
    var rows: map<int, Row>
    ghost var history: map<int, seq<int>>

    ghost predicate Sound()
      reads this
    {
      TableSound(rows, history)
    }

    constructor ()
      ensures Sound() && rows == map[]
    {
      rows := map[];
      history := map[];
    }

    /** A new session starts at the engine's cursor; an existing one must match it in everything but the cursor. */
    method Create(session: int, engine: ReplayEngine, at: int) returns (r: Result<Row, Error>)
      requires Sound() && engine.Valid()
      modifies this
      ensures Sound() && TableExtends(old(rows), old(history), rows, history)
      ensures session !in old(rows) ==>
                && r == Success(Row(engine.Position(), engine.candles[0].instrument, engine.candles[0].timeframe, |engine.candles|, 0, at))
                && rows == old(rows)[session := r.value]
      ensures session in old(rows) ==>
                && rows == old(rows)
                && (r.Success? <==>
                      var row := old(rows)[session];
                      && row.checkpoint.dataset == engine.dataset && row.instrument == engine.candles[0].instrument
                      && row.timeframe == engine.candles[0].timeframe && row.total == |engine.candles|)
                && (r.Success? ==> r.value == old(rows)[session])
                && (r.Failure? ==> r.error == ConflictingEvidence)
    {
      if session in rows {
        var row := rows[session];
        if row.checkpoint.dataset != engine.dataset || row.instrument != engine.candles[0].instrument
           || row.timeframe != engine.candles[0].timeframe || row.total != |engine.candles|
        {
          return Failure(ConflictingEvidence);
        }
        return Success(row);
      }
      var row := Row(engine.Position(), engine.candles[0].instrument, engine.candles[0].timeframe, |engine.candles|, 0, at);
      rows := rows[session := row];
      history := history[session := [engine.nextIndex]];
      return Success(row);
    }

    method Load(session: int) returns (r: Result<Row, Error>)
      ensures r == if session in rows then Success(rows[session]) else Failure(NoSession)
    {
      if session !in rows {
        return Failure(NoSession);
      }
      return Success(rows[session]);
    }

    /** The guarded update: one version on, or nothing at all. */
    method Save(session: int, checkpoint: Checkpoint, expectedVersion: int, at: int) returns (r: Result<Row, Error>)
      requires Sound()
      modifies this
      ensures Sound() && TableExtends(old(rows), old(history), rows, history) && rows.Keys == old(rows).Keys
      ensures r.Success? <==> Passes(old(rows), Attempt(session, checkpoint, expectedVersion, at))
      ensures rows == Saved(old(rows), Attempt(session, checkpoint, expectedVersion, at))
      ensures r.Success? ==>
                && r.value == old(rows)[session].(checkpoint := checkpoint, version := expectedVersion + 1, at := at)
                && rows == old(rows)[session := r.value]
                && history == old(history)[session := old(history)[session] + [checkpoint.nextIndex]]
      ensures r.Failure? ==> rows == old(rows) && history == old(history)
    {
      if expectedVersion < 0 || checkpoint.nextIndex < 0 {
        return Failure(NegativeInput);
      }
      if session !in rows || rows[session].version != expectedVersion || rows[session].checkpoint.dataset != checkpoint.dataset
         || rows[session].total < checkpoint.nextIndex
      {
        return Failure(StaleCheckpoint);
      }
      var row := rows[session].(checkpoint := checkpoint, version := expectedVersion + 1, at := at);
      rows := rows[session := row];
      history := history[session := history[session] + [checkpoint.nextIndex]];
      return Success(row);
    }

    /** Whatever other clients do in between: any saves, in any order, good and stale. */
    method Interfere(attempts: seq<Attempt>)
      requires Sound()
      modifies this
      ensures Sound() && TableExtends(old(rows), old(history), rows, history) && rows.Keys == old(rows).Keys
      ensures rows == AfterAttempts(old(rows), attempts)
    {
      for i := 0 to |attempts|
        invariant Sound() && TableExtends(old(rows), old(history), rows, history) && rows.Keys == old(rows).Keys
        invariant rows == AfterAttempts(old(rows), attempts[..i])
      {
        hide TableExtends, RowSound, Saved;
        assert attempts[..i + 1][..i] == attempts[..i];
        ghost var r0, h0 := rows, history;
        var _ := Save(attempts[i].session, attempts[i].checkpoint, attempts[i].expectedVersion, attempts[i].at);
        ExtendsTransitive(old(rows), old(history), r0, h0, rows, history);
      }
      assert attempts[..|attempts|] == attempts;
    }
  }

  datatype Mutation = Mutation(row: Row, frame: Option<Frame>)

  /** The datasets by digest. */
  datatype Library = Library(digest: seq<Candle> -> int, load: int -> seq<Candle>)

  function Fetch(library: Library, dataset: int): seq<Candle> {
    library.load(dataset)
  }

  /** The candles of a session's dataset still are what its row recorded. */
  predicate Matches(library: Library, row: Row, candles: seq<Candle>) {
    && Accepts(candles) && Named(library.digest, candles) == row.checkpoint.dataset
    && candles[0].instrument == row.instrument && candles[0].timeframe == row.timeframe && |candles| == row.total
  }

  /** The session exists and its dataset still matches it. */
  predicate Restorable(library: Library, rows: map<int, Row>, session: int) {
    session in rows && Matches(library, rows[session], Fetch(library, rows[session].checkpoint.dataset))
  }

  function RestoreError(library: Library, rows: map<int, Row>, session: int): Error {
    if session !in rows then NoSession
    else if !Accepts(Fetch(library, rows[session].checkpoint.dataset)) then BadDataset
    else DatasetChanged
  }

  class ReplayCoordinator {
    const table: SessionTable
    const library: Library

    constructor (table: SessionTable, library: Library)
      ensures this.table == table && this.library == library
    {
      this.table := table;
      this.library := library;
    }

    method Rebuild(session: int) returns (row: Row, engine: ReplayEngine?, error: Error)
      requires table.Sound()
      ensures engine != null <==> Restorable(library, table.rows, session)
      ensures engine == null ==> error == RestoreError(library, table.rows, session)
      ensures engine != null ==>
                && fresh(engine) && engine.Valid() && session in table.rows && row == table.rows[session]
                && engine.candles == Fetch(library, row.checkpoint.dataset) && Matches(library, row, engine.candles)
                && engine.Position() == row.checkpoint
    {
      hide Accepts;
      engine := null;
      row := Row(Checkpoint(0, 0), 0, 0, 0, 0, 0);
      error := NoSession;
      var loaded := table.Load(session);
      if loaded.Failure? {
        return;
      }
      row := loaded.value;
      var candles := Fetch(library, row.checkpoint.dataset);
      if !Accepts(candles) {
        error := BadDataset;
        return;
      }
      AcceptsExactly(candles);
      var built := new ReplayEngine(candles, library.digest);
      if built.dataset != row.checkpoint.dataset || candles[0].instrument != row.instrument
         || candles[0].timeframe != row.timeframe || |candles| != row.total
      {
        error := DatasetChanged;
        return;
      }
      assert RowSound(row, table.history[session]);
      var ok := built.Restore(row.checkpoint);
      if !ok {
        error := DatasetChanged;
        return;
      }
      engine := built;
    }

    /**
     * One step. Whatever others do between the load and the save, a frame is returned only when the session stood at the
     * expected version throughout, and then the frame is the one at that version's cursor.
     */
    method Step(session: int, expectedVersion: int, at: int, between: seq<Attempt>) returns (r: Result<Mutation, Error>)
      requires table.Sound()
      modifies table
      ensures table.Sound() && TableExtends(old(table.rows), old(table.history), table.rows, table.history)
      ensures r.Success? <==>
                && Restorable(library, old(table.rows), session)
                && old(table.rows)[session].version == expectedVersion
                && (old(table.rows)[session].checkpoint.nextIndex == old(table.rows)[session].total
                    || Undisturbed(old(table.rows), between, session))
      ensures r.Success? ==> r.value.row.total == old(table.rows)[session].total
      ensures r.Success? ==> (r.value.frame.None? <==> old(table.rows)[session].checkpoint.nextIndex == old(table.rows)[session].total)
      ensures r.Success? && r.value.frame.None? ==> r.value.row == old(table.rows)[session] && table.rows == old(table.rows)
      ensures r.Success? && r.value.frame.Some? ==>
                && session in table.rows && table.rows[session] == r.value.row
                && r.value.row.version == expectedVersion + 1
                && table.history[session] == old(table.history)[session] + [r.value.row.checkpoint.nextIndex]
                && r.value.row.checkpoint.nextIndex == old(table.rows)[session].checkpoint.nextIndex + 1
                && FrameAt(r.value.frame.value, Fetch(library, old(table.rows)[session].checkpoint.dataset),
                           old(table.rows)[session].checkpoint.nextIndex)
    {
      hide Accepts, Replayable;
      ghost var r0, h0 := table.rows, table.history;
      var row, engine, error := Rebuild(session);
      if engine == null {
        return Failure(error);
      }
      if row.version != expectedVersion {
        return Failure(StaleVersion);
      }
      var frame := engine.Step();
      if frame.None? {
        return Success(Mutation(row, None));
      }
      table.Interfere(between);
      AttemptsOnward(r0, between, session);
      ghost var r1, h1 := table.rows, table.history;
      var saved := table.Save(session, engine.Position(), expectedVersion, at);
      ExtendsTransitive(r0, h0, r1, h1, table.rows, table.history);
      if saved.Failure? {
        return Failure(saved.error);
      }
      SameVersion(r0, h0, r1, h1, session);
      return Success(Mutation(saved.value, frame));
    }

    /** A seek moves the cursor to the candles closed by `asOf`, in one version, or leaves the session as it is. */
    method Seek(session: int, asOf: int, expectedVersion: int, at: int, between: seq<Attempt>) returns (r: Result<Row, Error>)
      requires table.Sound()
      modifies table
      ensures table.Sound() && TableExtends(old(table.rows), old(table.history), table.rows, table.history)
      ensures r.Success? <==>
                && Restorable(library, old(table.rows), session)
                && old(table.rows)[session].version == expectedVersion
                && var row := old(table.rows)[session];
                   (CountAvailable(Fetch(library, row.checkpoint.dataset), asOf) == row.checkpoint.nextIndex
                    || Undisturbed(old(table.rows), between, session))
      ensures r.Success? ==>
                && r.value.checkpoint.nextIndex == CountAvailable(Fetch(library, old(table.rows)[session].checkpoint.dataset), asOf)
                && (if r.value.checkpoint == old(table.rows)[session].checkpoint then r.value == old(table.rows)[session]
                    else
                      && r.value.version == expectedVersion + 1 && session in table.rows && table.rows[session] == r.value
                      && table.history[session] == old(table.history)[session] + [r.value.checkpoint.nextIndex])
    {
      hide Accepts, Replayable;
      ghost var r0, h0 := table.rows, table.history;
      var row, engine, error := Rebuild(session);
      if engine == null {
        return Failure(error);
      }
      if row.version != expectedVersion {
        return Failure(StaleVersion);
      }
      var _ := engine.Seek(asOf);
      if engine.Position() == row.checkpoint {
        return Success(row);
      }
      table.Interfere(between);
      AttemptsOnward(r0, between, session);
      ghost var r1, h1 := table.rows, table.history;
      var saved := table.Save(session, engine.Position(), expectedVersion, at);
      ExtendsTransitive(r0, h0, r1, h1, table.rows, table.history);
      if saved.Success? {
        SameVersion(r0, h0, r1, h1, session);
      }
      return saved;
    }

    /** Only candles before the stored cursor are shown. */
    method Snapshot(session: int) returns (r: Result<(Row, seq<Candle>), Error>)
      requires table.Sound()
      ensures r.Success? <==> Restorable(library, table.rows, session)
      ensures r.Success? ==>
                && session in table.rows && r.value.0 == table.rows[session]
                && 0 <= r.value.0.checkpoint.nextIndex <= |Fetch(library, r.value.0.checkpoint.dataset)|
                && r.value.1 == Fetch(library, r.value.0.checkpoint.dataset)[..r.value.0.checkpoint.nextIndex]
    {
      hide Accepts, Replayable;
      var row, engine, error := Rebuild(session);
      if engine == null {
        return Failure(error);
      }
      var seen := engine.Snapshot();
      return Success((row, seen));
    }
  }

  predicate FrameAt(frame: Frame, candles: seq<Candle>, index: int) {
    0 <= index < |candles| && frame == Frame(candles[index], candles[index].ClosedAt(), index, |candles|)
  }

  /** A session whose version has not moved has not moved at all. */
  lemma {:induction false} SameVersion(
    a: map<int, Row>, ha: map<int, seq<int>>, z: map<int, Row>, hz: map<int, seq<int>>, session: int)
    requires TableSound(a, ha) && TableSound(z, hz) && TableExtends(a, ha, z, hz) && session in a
    ensures session in z
    ensures z[session].version == a[session].version ==>
              && hz[session] == ha[session] && z[session].checkpoint == a[session].checkpoint && z[session].total == a[session].total
    ensures z[session].version >= a[session].version
  {
    assert RowSound(a[session], ha[session]) && RowSound(z[session], hz[session]);
  }
}
