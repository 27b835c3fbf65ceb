/**
 * The order store: one row per order under a version check, and one row per event.
 *
 * Any number of sessions work on it at once. Reading an order takes two queries, its row and then the ids of
 * its events; writing is one guarded update together with one insert. Other sessions may do any of these
 * between any two of them.
 */
module OrderStore {
  import opened Domain
  import opened OrderStateMachine

  /** The order table's columns. */
  datatype Row = Row(
    quantity: int, status: Status, filled: int, brokerId: Option<int>, lastEventAt: int, version: int, reason: Option<Reason>)

  /** The event table's columns, for one order. */
  datatype Record = Record(event: OrderEvent, version: int)

  /** One order's rows. `createdAt` is the moment its creation was given; the event rows stand in insertion order. */
  datatype Stored = Stored(row: Row, records: seq<Record>, createdAt: int)

  type Tables = map<int, Stored>

  function RowOf(s: OrderState): Row {
    Row(s.quantity, s.status, s.filled, s.brokerId, s.lastEventAt, s.version, s.reason)
  }

  /** What loading puts together. */
  function Assemble(order: int, row: Row, ids: set<int>): OrderState {
    OrderState(order, row.quantity, row.status, row.filled, row.brokerId, row.lastEventAt, ids, row.version, row.reason)
  }

  function Ids(records: seq<Record>): set<int> {
    set i | 0 <= i < |records| :: records[i].event.id
  }

  function Current(order: int, st: Stored): OrderState {
    Assemble(order, st.row, Ids(st.records))
  }

  function EventsOf(records: seq<Record>): seq<OrderEvent> {
    seq(|records|, i requires 0 <= i < |records| => records[i].event)
  }

  // ----- one session's writing step -------------------------------------------------------------

  datatype Outcome =
    | Unchanged(state: OrderState)
    | Refused(error: Error)
    | Conflict
    | DuplicateRow
    | Written(state: OrderState)

  /** The guarded update and the insert, from what a session read earlier. */
  function CommitOutcome(order: int, st: Stored, row: Row, ids: set<int>, e: OrderEvent): Outcome {
    var current := Assemble(order, row, ids);
    match Apply(current, e)
    case Failure(error) => Refused(error)
    case Success(updated) =>
      if e.id in ids then Unchanged(current)
      else if st.row.version != row.version then Conflict
      else if e.id in Ids(st.records) then DuplicateRow
      else Written(updated)
  }

  /** The rows afterwards: only a written outcome changes them, and never the quantity. */
  function Commit(order: int, st: Stored, row: Row, ids: set<int>, e: OrderEvent): Stored {
    match CommitOutcome(order, st, row, ids, e)
    case Written(s) =>
      Stored(Row(st.row.quantity, s.status, s.filled, s.brokerId, s.lastEventAt, s.version, s.reason),
             st.records + [Record(e, s.version)], st.createdAt)
    case _ => st
  }

  // ----- what a sound order is ------------------------------------------------------------------

  /** Applying the recorded events one after another to a fresh order; fails if any of them would. */
  function Replay(order: int, quantity: int, createdAt: int, events: seq<OrderEvent>): Result<OrderState, Error> {
    if events == [] then Initial(order, quantity, createdAt)
    else
      match Replay(order, quantity, createdAt, events[..|events| - 1])
      case Failure(error) => Failure(error)
      case Success(s) => Apply(s, events[|events| - 1])
  }

  function Fold(order: int, st: Stored, n: nat): Result<OrderState, Error>
    requires n <= |st.records|
  {
    Replay(order, st.row.quantity, st.createdAt, EventsOf(st.records[..n]))
  }

  /** The event rows number their versions 1, 2, ... and repeat no event. */
  ghost predicate Numbered(records: seq<Record>) {
    && (forall i :: 0 <= i < |records| ==> records[i].version == i + 1 && records[i].event.Valid())
    && (forall i, j :: 0 <= i < j < |records| ==> records[i].event.id != records[j].event.id)
  }

  /** The row is what the events recorded so far make of a fresh order. */
  ghost predicate Sound(order: int, st: Stored) {
    && st.row.quantity > 0
    && Numbered(st.records)
    && st.row.version == |st.records|
    && Fold(order, st, |st.records|) == Success(Current(order, st))
  }

  ghost predicate AllSound(t: Tables) {
    forall order :: order in t ==> Sound(order, t[order])
  }

  /** Nothing recorded is ever lost or rewritten. */
  ghost predicate Extends(a: Stored, z: Stored) {
    a.records <= z.records && a.row.quantity == z.row.quantity && a.createdAt == z.createdAt
  }

  /** What a session that has read the row, when the order stood at some version, knows. */
  ghost predicate ReadSoundly(order: int, st: Stored, row: Row) {
    && 0 <= row.version <= |st.records|
    && Fold(order, st, row.version).Success?
    && row == RowOf(Fold(order, st, row.version).value)
  }

  /** The ids were read later: they may run ahead of the row. */
  ghost predicate IdsSoundly(st: Stored, row: Row, ids: set<int>) {
    row.version <= |ids| <= |st.records| && ids == Ids(st.records[..|ids|])
  }

  // ----- facts about the fold -------------------------------------------------------------------

  lemma {:induction false} IdsAppend(records: seq<Record>, x: Record)
    ensures Ids(records + [x]) == Ids(records) + {x.event.id}
  {
    var all := records + [x];
    assert all[|records|] == x;
    assert forall i :: 0 <= i < |records| ==> all[i] == records[i];
  }

  lemma {:induction false} IdsCount(records: seq<Record>)
    requires Numbered(records)
    ensures |Ids(records)| == |records|
  {
    if records != [] {
      var front, last := records[..|records| - 1], records[|records| - 1];
      IdsCount(front);
      IdsAppend(front, last);
      assert records == front + [last];
      assert last.event.id !in Ids(front);
    }
  }

  lemma {:induction false} NumberedPrefix(records: seq<Record>, n: nat)
    requires Numbered(records) && n <= |records|
    ensures Numbered(records[..n])
  {
  }

  lemma {:induction false} EventsAppend(records: seq<Record>, x: Record)
    ensures EventsOf(records + [x]) == EventsOf(records) + [x.event]
  {
  }

  lemma {:induction false} ReplayAppend(order: int, quantity: int, createdAt: int, events: seq<OrderEvent>, e: OrderEvent)
    requires Replay(order, quantity, createdAt, events).Success?
    ensures Replay(order, quantity, createdAt, events + [e]) == Apply(Replay(order, quantity, createdAt, events).value, e)
  {
    hide Apply;
    assert (events + [e])[..|events|] == events;
  }

  /** Folding depends only on the recorded events. */
  lemma {:induction false} FoldStable(order: int, a: Stored, z: Stored, n: nat)
    requires Extends(a, z) && n <= |a.records|
    ensures Fold(order, a, n) == Fold(order, z, n)
  {
    assert a.records[..n] == z.records[..n];
  }

  // ----- every step keeps everything sound ------------------------------------------------------

  lemma {:induction false} CreateSound(order: int, quantity: int, createdAt: int)
    requires quantity > 0
    ensures Sound(order, Stored(RowOf(Initial(order, quantity, createdAt).value), [], createdAt))
  {
    var st := Stored(RowOf(Initial(order, quantity, createdAt).value), [], createdAt);
    assert EventsOf(st.records[..0]) == [] && Ids(st.records) == {};
  }

  /** A row read now. */
  lemma {:induction false} ReadRowSound(order: int, st: Stored)
    requires Sound(order, st)
    ensures ReadSoundly(order, st, st.row)
  {
  }

  /** Ids read now, after a row read earlier. */
  lemma {:induction false} ReadIdsSound(order: int, st: Stored, row: Row)
    requires Sound(order, st) && ReadSoundly(order, st, row)
    ensures IdsSoundly(st, row, Ids(st.records))
  {
    IdsCount(st.records);
    assert st.records[..|st.records|] == st.records;
  }

  /** What was read stays explained while others go on writing. */
  lemma {:induction false} ReadsStable(order: int, a: Stored, z: Stored, row: Row, ids: set<int>)
    requires Extends(a, z) && ReadSoundly(order, a, row)
    ensures ReadSoundly(order, z, row)
    ensures IdsSoundly(a, row, ids) ==> IdsSoundly(z, row, ids)
  {
    hide Fold;
    FoldStable(order, a, z, row.version);
    if IdsSoundly(a, row, ids) {
      assert a.records[..|ids|] == z.records[..|ids|];
    }
  }

  /**
   * Passing the version check proves the two reads were one snapshot: what the session assembled is exactly
   * the order as it stands.
   */
  lemma {:induction false} CommitSeesCurrent(order: int, st: Stored, row: Row, ids: set<int>)
    requires Sound(order, st) && ReadSoundly(order, st, row) && IdsSoundly(st, row, ids)
    requires row.version == st.row.version
    ensures Assemble(order, row, ids) == Current(order, st) && ids == Ids(st.records)
  {
    assert st.records[..|st.records|] == st.records;
  }

  /** A commit, whatever it was given to read, leaves the order sound, and never trips over a duplicate row. */
  lemma {:induction false} CommitSound(order: int, st: Stored, row: Row, ids: set<int>, e: OrderEvent)
    requires Sound(order, st) && ReadSoundly(order, st, row) && IdsSoundly(st, row, ids) && e.Valid()
    ensures Sound(order, Commit(order, st, row, ids, e)) && Extends(st, Commit(order, st, row, ids, e))
    ensures CommitOutcome(order, st, row, ids, e) != DuplicateRow
    ensures var o := CommitOutcome(order, st, row, ids, e);
            o.Written? ==>
              && Apply(Current(order, st), e) == Success(o.state)
              && o.state == Current(order, Commit(order, st, row, ids, e))
              && Commit(order, st, row, ids, e).records == st.records + [Record(e, |st.records| + 1)]
  {
    hide Apply, Sound, ReadSoundly, IdsSoundly;
    if row.version == st.row.version {
      CommitSeesCurrent(order, st, row, ids);
      if CommitOutcome(order, st, row, ids, e).Written? {
        WriteSound(order, st, e);
      }
    }
  }

  lemma {:induction false} ApplyNew(s: OrderState, e: OrderEvent)
    requires Apply(s, e).Success? && e.id !in s.processed
    ensures var t := Apply(s, e).value;
            t.version == s.version + 1 && t.processed == s.processed + {e.id} && t.quantity == s.quantity && t.orderId == s.orderId
  {
  }

  lemma {:induction false} WriteSound(order: int, st: Stored, e: OrderEvent)
    requires Sound(order, st) && e.Valid() && e.id !in Ids(st.records) && Apply(Current(order, st), e).Success?
    ensures var s := Apply(Current(order, st), e).value;
            var after := Stored(RowOf(s), st.records + [Record(e, s.version)], st.createdAt);
            Sound(order, after) && Current(order, after) == s && s.quantity == st.row.quantity && s.version == |st.records| + 1
  {
    hide Apply, Replay, EventsOf, Ids;
    ApplyNew(Current(order, st), e);
    var s := Apply(Current(order, st), e).value;
    var record := Record(e, s.version);
    var after := Stored(RowOf(s), st.records + [record], st.createdAt);
    IdsAppend(st.records, record);
    EventsAppend(st.records, record);
    assert st.records[..|st.records|] == st.records && after.records[..|after.records|] == after.records;
    ReplayAppend(order, st.row.quantity, st.createdAt, EventsOf(st.records), e);
    NumberedAppend(st.records, record);
  }

  lemma {:induction false} NumberedAppend(records: seq<Record>, x: Record)
    requires Numbered(records) && x.version == |records| + 1 && x.event.Valid() && x.event.id !in Ids(records)
    ensures Numbered(records + [x])
  {
    assert forall i :: 0 <= i < |records| ==> records[i].event.id in Ids(records);
  }

  // ----- all interleavings ----------------------------------------------------------------------

  /** How far a session has got with one order. */
  datatype Client =
    | Idle
    | HasRow(order: int, row: Row)
    | HasIds(order: int, row: Row, ids: set<int>)

  datatype System = System(tables: Tables, clients: map<int, Client>)

  datatype Step =
    | CreateStep(order: int, quantity: int, createdAt: int)
    | ReadRowStep(client: int, order: int)
    | ReadIdsStep(client: int)
    | CommitStep(client: int, event: OrderEvent)

  function ClientOf(sys: System, client: int): Client {
    if client in sys.clients then sys.clients[client] else Idle
  }

  /** One step of one session; a step that is not due does nothing. */
  function Take(sys: System, step: Step): System {
    match step
    case CreateStep(order, quantity, createdAt) =>
      if order in sys.tables || Initial(order, quantity, createdAt).Failure? then sys
      else sys.(tables := sys.tables[order := Stored(RowOf(Initial(order, quantity, createdAt).value), [], createdAt)])
    case ReadRowStep(client, order) =>
      if order !in sys.tables then sys
      else sys.(clients := sys.clients[client := HasRow(order, sys.tables[order].row)])
    case ReadIdsStep(client) =>
      (match ClientOf(sys, client)
       case HasRow(order, row) =>
         if order !in sys.tables then sys
         else sys.(clients := sys.clients[client := HasIds(order, row, Ids(sys.tables[order].records))])
       case _ => sys)
    case CommitStep(client, e) =>
      (match ClientOf(sys, client)
       case HasIds(order, row, ids) =>
         if order !in sys.tables || !e.Valid() then sys
         else System(sys.tables[order := Commit(order, sys.tables[order], row, ids, e)], sys.clients[client := Idle])
       case _ => sys)
  }

  function Execute(steps: seq<Step>): System {
    if steps == [] then System(map[], map[]) else Take(Execute(steps[..|steps| - 1]), steps[|steps| - 1])
  }

  ghost predicate ClientSound(t: Tables, c: Client) {
    match c
    case Idle => true
    case HasRow(order, row) => order in t && ReadSoundly(order, t[order], row)
    case HasIds(order, row, ids) => order in t && ReadSoundly(order, t[order], row) && IdsSoundly(t[order], row, ids)
  }

  ghost predicate SystemSound(sys: System) {
    AllSound(sys.tables) && forall c :: c in sys.clients ==> ClientSound(sys.tables, sys.clients[c])
  }

  ghost predicate TablesExtend(a: Tables, z: Tables) {
    forall order :: order in a ==> order in z && Extends(a[order], z[order])
  }

  lemma {:induction false} ClientStable(a: Tables, z: Tables, c: Client)
    requires TablesExtend(a, z) && ClientSound(a, c)
    ensures ClientSound(z, c)
  {
    hide Extends, ReadSoundly, IdsSoundly;
    match c
    case Idle =>
    case HasRow(order, row) => ReadsStable(order, a[order], z[order], row, {});
    case HasIds(order, row, ids) => ReadsStable(order, a[order], z[order], row, ids);
  }

  lemma {:induction false} ExtendsSelf(t: Tables, order: int, z: Stored)
    requires order in t ==> Extends(t[order], z)
    ensures TablesExtend(t, t) && TablesExtend(t, t[order := z])
  {
  }

  lemma {:induction false} TakeSound(sys: System, step: Step)
    requires SystemSound(sys)
    ensures SystemSound(Take(sys, step)) && TablesExtend(sys.tables, Take(sys, step).tables)
  {
    hide Sound, ReadSoundly, IdsSoundly, Extends, TablesExtend, ClientSound, Commit, Initial, Ids;
    var t := sys.tables;
    ExtendsNothing(t);
    match step
    case CreateStep(order, quantity, createdAt) =>
      InitialLawful(order, quantity, createdAt);
      if order !in t && quantity > 0 {
        var st := Stored(RowOf(Initial(order, quantity, createdAt).value), [], createdAt);
        CreateSound(order, quantity, createdAt);
        ExtendsSelf(t, order, st);
        forall c | c in sys.clients ensures ClientSound(t[order := st], sys.clients[c]) {
          ClientStable(t, t[order := st], sys.clients[c]);
        }
      }
    case ReadRowStep(client, order) =>
      if order in t {
        ReadRowSound(order, t[order]);
        HasRowSound(t, order, t[order].row);
      }
    case ReadIdsStep(client) =>
      var c := ClientOf(sys, client);
      if c.HasRow? {
        assert ClientSound(t, c);
        SoundRead(t, c);
        ReadIdsSound(c.order, t[c.order], c.row);
        HasIdsSound(t, c.order, c.row, Ids(t[c.order].records));
      }
    case CommitStep(client, e) =>
      var c := ClientOf(sys, client);
      if c.HasIds? && e.Valid() {
        assert ClientSound(t, c);
        SoundRead(t, c);
        var st := Commit(c.order, t[c.order], c.row, c.ids, e);
        CommitSound(c.order, t[c.order], c.row, c.ids, e);
        ExtendsSelf(t, c.order, st);
        IdleSound(t[c.order := st]);
        forall d | d in sys.clients ensures ClientSound(t[c.order := st], sys.clients[d]) {
          ClientStable(t, t[c.order := st], sys.clients[d]);
        }
      }
  }

  lemma {:induction false} ExtendsNothing(t: Tables)
    ensures TablesExtend(t, t)
  {
  }

  lemma {:induction false} IdleSound(t: Tables)
    ensures ClientSound(t, Idle)
  {
  }

  lemma {:induction false} HasRowSound(t: Tables, order: int, row: Row)
    requires order in t && ReadSoundly(order, t[order], row)
    ensures ClientSound(t, HasRow(order, row))
  {
  }

  lemma {:induction false} HasIdsSound(t: Tables, order: int, row: Row, ids: set<int>)
    requires order in t && ReadSoundly(order, t[order], row) && IdsSoundly(t[order], row, ids)
    ensures ClientSound(t, HasIds(order, row, ids))
  {
  }

  lemma {:induction false} SoundRead(t: Tables, c: Client)
    requires ClientSound(t, c) && !c.Idle?
    ensures c.order in t && ReadSoundly(c.order, t[c.order], c.row)
    ensures c.HasIds? ==> IdsSoundly(t[c.order], c.row, c.ids)
  {
  }

  /** In every interleaving, however long, every order and every half-finished read is sound. */
  lemma {:induction false} AlwaysSound(steps: seq<Step>)
    ensures SystemSound(Execute(steps))
  {
    hide Take, AllSound, ClientSound;
    if steps == [] {
      NothingSound();
    } else {
      AlwaysSound(steps[..|steps| - 1]);
      TakeSound(Execute(steps[..|steps| - 1]), steps[|steps| - 1]);
    }
  }

  lemma {:induction false} NothingSound()
    ensures SystemSound(System(map[], map[]))
  {
  }

  /** And no step of any session ever loses or rewrites a recorded event. */
  lemma {:induction false} NothingLost(steps: seq<Step>, n: nat)
    requires n <= |steps|
    ensures TablesExtend(Execute(steps[..n]).tables, Execute(steps).tables)
    decreases |steps|
  {
    hide Take, TablesExtend;
    if n == |steps| {
      assert steps[..n] == steps;
      ExtendsNothing(Execute(steps).tables);
    } else {
      var front := steps[..|steps| - 1];
      assert front[..n] == steps[..n];
      NothingLost(front, n);
      AlwaysSound(front);
      TakeSound(Execute(front), steps[|steps| - 1]);
      ExtendsTransitive(Execute(steps[..n]).tables, Execute(front).tables, Execute(steps).tables);
    }
  }

  lemma {:induction false} ExtendsTransitive(a: Tables, m: Tables, z: Tables)
    requires TablesExtend(a, m) && TablesExtend(m, z)
    ensures TablesExtend(a, z)
  {
  }

  /**
   * The event-sourced store under concurrency: after any interleaving, an order's row is what its recorded
   * events, applied one by one to a fresh order, make of it; their resulting versions are 1, 2, ..., the row's
   * version; and no event was recorded twice.
   */
  lemma {:induction false} StoredStateIsReplay(steps: seq<Step>, order: int)
    requires order in Execute(steps).tables
    ensures var st := Execute(steps).tables[order];
            && Replay(order, st.row.quantity, st.createdAt, EventsOf(st.records)) == Success(Current(order, st))
            && st.row.version == |st.records|
            && (forall i :: 0 <= i < |st.records| ==> st.records[i].version == i + 1)
            && (forall i, j :: 0 <= i < j < |st.records| ==> st.records[i].event.id != st.records[j].event.id)
  {
    hide Replay, EventsOf, Take;
    AlwaysSound(steps);
    var st := Execute(steps).tables[order];
    assert Sound(order, st);
    assert st.records[..|st.records|] == st.records;
  }

  /** After any interleaving, a commit that writes applied its event to the order exactly as it stood. */
  lemma {:induction false} WrittenFromSnapshot(steps: seq<Step>, client: int, e: OrderEvent)
    requires e.Valid() && ClientOf(Execute(steps), client).HasIds?
    requires ClientOf(Execute(steps), client).order in Execute(steps).tables
    ensures var c := ClientOf(Execute(steps), client);
            var st := Execute(steps).tables[c.order];
            var o := CommitOutcome(c.order, st, c.row, c.ids, e);
            && (o.Written? ==> Assemble(c.order, c.row, c.ids) == Current(c.order, st) && Apply(Current(c.order, st), e) == Success(o.state))
            && (o.Conflict? ==> c.row.version < st.row.version)
            && !o.DuplicateRow?
  {
    hide Take, Apply, Sound, ReadSoundly, IdsSoundly;
    AlwaysSound(steps);
    var c := ClientOf(Execute(steps), client);
    var st := Execute(steps).tables[c.order];
    assert ClientSound(Execute(steps).tables, c);
    SoundRead(Execute(steps).tables, c);
    assert Sound(c.order, st);
    CommitSound(c.order, st, c.row, c.ids, e);
    VersionsOrdered(c.order, st, c.row);
    if c.row.version == st.row.version {
      CommitSeesCurrent(c.order, st, c.row, c.ids);
    }
  }

  lemma {:induction false} VersionsOrdered(order: int, st: Stored, row: Row)
    requires Sound(order, st) && ReadSoundly(order, st, row)
    ensures row.version <= st.row.version
  {
  }

  // ----- torn loads -----------------------------------------------------------------------------

  /**
   * What a load returns is a state the order was really in exactly when nothing was recorded between its two
   * reads: the ids match the version.
   */
  lemma {:induction false} LoadConsistentExactly(order: int, st: Stored, row: Row, ids: set<int>)
    requires Sound(order, st) && ReadSoundly(order, st, row) && IdsSoundly(st, row, ids)
    ensures (exists n: nat :: n <= |st.records| && Fold(order, st, n) == Success(Assemble(order, row, ids))) <==> |ids| == row.version
  {
    if |ids| == row.version {
      FoldFacts(order, st, row.version);
      assert Fold(order, st, row.version) == Success(Assemble(order, row, ids));
    }
    forall n: nat | n <= |st.records| && Fold(order, st, n) == Success(Assemble(order, row, ids)) ensures |ids| == row.version {
      FoldFacts(order, st, n);
      NumberedPrefix(st.records, n);
      IdsCount(st.records[..n]);
    }
  }

  /**
   * The same of a load within any interleaving, its row read after the first `n` steps and its ids after all of them:
   * the order was really in the state returned if and only if no session recorded an event in between.
   */
  lemma {:induction false} LoadUndisturbedExactly(steps: seq<Step>, n: nat, order: int)
    requires n <= |steps| && order in Execute(steps[..n]).tables
    ensures order in Execute(steps).tables
    ensures var a, z := Execute(steps[..n]).tables[order], Execute(steps).tables[order];
            (exists k: nat :: k <= |z.records| && Fold(order, z, k) == Success(Assemble(order, a.row, Ids(z.records)))) <==>
            z.records == a.records
  {
    hide Execute, Fold, ReadSoundly, IdsSoundly;
    AlwaysSound(steps[..n]);
    AlwaysSound(steps);
    NothingLost(steps, n);
    var a, z := Execute(steps[..n]).tables[order], Execute(steps).tables[order];
    assert Extends(a, z) && Sound(order, a) && Sound(order, z);
    ReadRowSound(order, a);
    ReadsStable(order, a, z, a.row, {});
    ReadIdsSound(order, z, a.row);
    LoadConsistentExactly(order, z, a.row, Ids(z.records));
    IdsCount(z.records);
  }

  /** Every prefix of a sound order's events folds, to a state that has seen just them. */
  lemma {:induction false} FoldFacts(order: int, st: Stored, n: nat)
    requires Sound(order, st) && n <= |st.records|
    ensures Fold(order, st, n).Success?
    ensures var s := Fold(order, st, n).value;
            s.orderId == order && s.version == n && s.processed == Ids(st.records[..n]) && s.quantity == st.row.quantity
    decreases |st.records| - n
  {
    FoldSuccess(order, st, n);
    FoldSeen(order, st, n);
  }

  lemma {:induction false} FoldBack(order: int, st: Stored, n: nat)
    requires n < |st.records|
    ensures Fold(order, st, n + 1).Success? ==>
              Fold(order, st, n).Success? && Fold(order, st, n + 1) == Apply(Fold(order, st, n).value, st.records[n].event)
  {
    hide Apply;
    assert st.records[..n + 1] == st.records[..n] + [st.records[n]];
    EventsAppend(st.records[..n], st.records[n]);
    var events := EventsOf(st.records[..n + 1]);
    assert events[..|events| - 1] == EventsOf(st.records[..n]);
  }

  lemma {:induction false} FoldSuccess(order: int, st: Stored, n: nat)
    requires Sound(order, st) && n <= |st.records|
    ensures Fold(order, st, n).Success?
    decreases |st.records| - n
  {
    hide Fold, Apply;
    if n < |st.records| {
      FoldSuccess(order, st, n + 1);
      FoldBack(order, st, n);
    }
  }

  lemma {:induction false} FoldSeen(order: int, st: Stored, n: nat)
    requires Numbered(st.records) && st.row.quantity > 0 && n <= |st.records| && Fold(order, st, n).Success?
    ensures var s := Fold(order, st, n).value;
            s.orderId == order && s.version == n && s.processed == Ids(st.records[..n]) && s.quantity == st.row.quantity
  {
    if n == 0 {
      assert EventsOf(st.records[..0]) == [];
    } else {
      hide Fold, Apply, Ids;
      FoldBack(order, st, n - 1);
      FoldSeen(order, st, n - 1);
      assert st.records[..n] == st.records[..n - 1] + [st.records[n - 1]];
      IdsAppend(st.records[..n - 1], st.records[n - 1]);
      NotSeen(st.records, n - 1);
      ApplyNew(Fold(order, st, n - 1).value, st.records[n - 1].event);
    }
  }

  lemma {:induction false} NotSeen(records: seq<Record>, n: nat)
    requires Numbered(records) && n < |records|
    ensures records[n].event.id !in Ids(records[..n])
  {
  }

  /** The interleaving that tears a load: another session writes between the two reads. */
  function TornSteps(): seq<Step> {
    [CreateStep(0, 1, 0), ReadRowStep(1, 0), ReadIdsStep(1), ReadRowStep(0, 0), CommitStep(1, TORN_EVENT), ReadIdsStep(0)]
  }

  const NEW_ROW := Row(1, Created, 0, None, 0, 0, None)
  const PENDING_ROW := Row(1, RiskPending, 0, None, 0, 1, None)
  const TORN_EVENT := OrderEvent(7, RiskRequested, 0, 0, None)

  /** The system after each of those steps. */
  function TornAt(n: nat): System {
    var early, late := map[0 := Stored(NEW_ROW, [], 0)], map[0 := Stored(PENDING_ROW, [Record(TORN_EVENT, 1)], 0)];
    if n == 0 then System(map[], map[])
    else if n == 1 then System(early, map[])
    else if n == 2 then System(early, map[1 := HasRow(0, NEW_ROW)])
    else if n == 3 then System(early, map[1 := HasIds(0, NEW_ROW, {})])
    else if n == 4 then System(early, map[1 := HasIds(0, NEW_ROW, {}), 0 := HasRow(0, NEW_ROW)])
    else if n == 5 then System(late, map[1 := Idle, 0 := HasRow(0, NEW_ROW)])
    else System(late, map[1 := Idle, 0 := HasIds(0, NEW_ROW, {7})])
  }

  lemma {:induction false} TornCommit()
    ensures Ids([]) == {} && Ids([Record(TORN_EVENT, 1)]) == {7}
    ensures Commit(0, Stored(NEW_ROW, [], 0), NEW_ROW, {}, TORN_EVENT) == Stored(PENDING_ROW, [Record(TORN_EVENT, 1)], 0)
  {
    assert Ids([]) == {};
    IdsAppend([], Record(TORN_EVENT, 1));
    assert [] + [Record(TORN_EVENT, 1)] == [Record(TORN_EVENT, 1)];
  }

  lemma {:induction false} TornTakes(n: nat)
    requires n < 6
    ensures Take(TornAt(n), TornSteps()[n]) == TornAt(n + 1)
  {
    hide Commit, Ids;
    TornCommit();
  }

  lemma {:induction false} TornRun(n: nat)
    requires n <= 6
    ensures Execute(TornSteps()[..n]) == TornAt(n)
  {
    hide Take;
    if n > 0 {
      TornRun(n - 1);
      TornTakes(n - 1);
      TakeNext(TornSteps(), n - 1, TornAt(n - 1), TornAt(n));
    }
  }

  /** It leaves a session holding a version-0 row together with the id of the event that made version 1. */
  lemma {:induction false} LoadCanTear()
    ensures var sys := Execute(TornSteps());
            && ClientOf(sys, 0) == HasIds(0, NEW_ROW, {7}) && 0 in sys.tables
            && !exists n: nat :: n <= |sys.tables[0].records| && Fold(0, sys.tables[0], n) == Success(Assemble(0, NEW_ROW, {7}))
  {
    hide Fold, Execute, Take, Sound, ReadSoundly, IdsSoundly;
    TornRun(6);
    assert TornSteps()[..6] == TornSteps();
    AlwaysSound(TornSteps());
    var t := TornAt(6).tables;
    var c := HasIds(0, NEW_ROW, {7});
    assert 0 in TornAt(6).clients && TornAt(6).clients[0] == c;
    assert Sound(0, t[0]) && ClientSound(t, c);
    LoadConsistentExactly(0, t[0], NEW_ROW, {7});
  }

  lemma {:induction false} TakeNext(steps: seq<Step>, n: nat, before: System, after: System)
    requires n < |steps| && Execute(steps[..n]) == before && Take(before, steps[n]) == after
    ensures Execute(steps[..n + 1]) == after
  {
    hide Take;
    assert steps[..n + 1][..n] == steps[..n];
  }
}
