/** The repository object: each call as the queries and writes it makes, one session at a time. */
module OrderRepository {
  import opened Domain
  import opened OrderStateMachine
  import opened OrderStore

  datatype LoadResult = Missing | Loaded(state: OrderState)

  datatype ApplyResult = NoSuchOrder | Applied(outcome: Outcome)

  /** Event rows by resulting version. */
  function Placed(records: seq<Record>, x: Record): seq<Record> {
    if records == [] || records[|records| - 1].version <= x.version then records + [x]
    else Placed(records[..|records| - 1], x) + [records[|records| - 1]]
  }

  function ByVersion(records: seq<Record>): seq<Record> {
    if records == [] then [] else Placed(ByVersion(records[..|records| - 1]), records[|records| - 1])
  }

  /** A sound order's event rows are already in the order of the versions they made. */
  lemma {:induction false} ByVersionInOrder(records: seq<Record>)
    requires Numbered(records)
    ensures ByVersion(records) == records
  {
    if records != [] {
      hide Numbered, Placed;
      var front, last := records[..|records| - 1], records[|records| - 1];
      NumberedPrefix(records, |front|);
      ByVersionInOrder(front);
      PlacedLast(front, last, records);
    }
  }

  lemma {:induction false} PlacedLast(front: seq<Record>, last: Record, records: seq<Record>)
    requires Numbered(records) && records == front + [last]
    ensures Placed(front, last) == records
  {
    if front != [] {
      assert records[|front| - 1] == front[|front| - 1] && records[|front|] == last;
    }
  }

  class ExecutionOrderRepository {
    var tables: Tables

    constructor ()
      ensures tables == map[] && AllSound(tables)
    {
      tables := map[];
    }

    /** Insert a fresh row; a key that exists is refused by the table. */
    method Create(order: int, quantity: int, createdAt: int) returns (r: Result<OrderState, Error>, inserted: bool)
      requires AllSound(tables)
      modifies this
      ensures AllSound(tables) && TablesExtend(old(tables), tables)
      ensures r == Initial(order, quantity, createdAt)
      ensures inserted <==> quantity > 0 && order !in old(tables)
      ensures inserted ==>
                && tables.Keys == old(tables).Keys + {order} && (forall o :: o in old(tables) ==> tables[o] == old(tables)[o])
                && tables[order].records == [] && Current(order, tables[order]) == r.value
      ensures !inserted ==> tables == old(tables)
    {
      hide Sound, Extends;
      ExtendsNothing(tables);
      r := Initial(order, quantity, createdAt);
      inserted := false;
      if r.Failure? || order in tables {
        return;
      }
      var st := Stored(RowOf(r.value), [], createdAt);
      CreateSound(order, quantity, createdAt);
      ExtendsSelf(tables, order, st);
      inserted := true;
      tables := tables[order := st];
    }

    /** The row, then the ids. */
    method Load(order: int) returns (r: LoadResult)
      ensures r == if order in tables then Loaded(Current(order, tables[order])) else Missing
    {
      if order !in tables {
        return Missing;
      }
      var row := tables[order].row;
      var ids := Ids(tables[order].records);
      return Loaded(Assemble(order, row, ids));
    }

    /** Load, apply, and write under the version check. */
    method ApplyEvent(order: int, e: OrderEvent) returns (r: ApplyResult)
      requires AllSound(tables) && e.Valid()
      modifies this
      ensures AllSound(tables) && TablesExtend(old(tables), tables)
      ensures r.NoSuchOrder? <==> order !in old(tables)
      ensures r.NoSuchOrder? ==> tables == old(tables)
      ensures r.Applied? ==>
                var before := Current(order, old(tables)[order]);
                && order in tables
                && (forall o :: o in old(tables) && o != order ==> o in tables && tables[o] == old(tables)[o])
                && (if e.id in before.processed then r.outcome == Unchanged(before) && tables == old(tables)
                    else
                      match Apply(before, e)
                      case Failure(error) => r.outcome == Refused(error) && tables == old(tables)
                      case Success(after) =>
                        && r.outcome == Written(after)
                        && Current(order, tables[order]) == after
                        && tables[order].records == old(tables)[order].records + [Record(e, after.version)])
    {
      hide Sound, Extends, Apply, ReadSoundly, IdsSoundly;
      ExtendsNothing(tables);
      if order !in tables {
        return NoSuchOrder;
      }
      var st := tables[order];
      var row, ids := st.row, Ids(st.records);
      ReadRowSound(order, st);
      ReadIdsSound(order, st, row);
      CommitSound(order, st, row, ids, e);
      DuplicateUnchanged(Current(order, st), e);
      var outcome := CommitOutcome(order, st, row, ids, e);
      if outcome.Written? {
        ExtendsSelf(tables, order, Commit(order, st, row, ids, e));
        WriteSound(order, st, e);
        tables := tables[order := Commit(order, st, row, ids, e)];
      }
      return Applied(outcome);
    }

    /** The recorded events, in the order of the versions they made; replaying them gives the order. */
    method Events(order: int) returns (events: seq<OrderEvent>)
      requires AllSound(tables)
      ensures order !in tables ==> events == []
      ensures order in tables ==>
                && events == EventsOf(tables[order].records)
                && Replay(order, tables[order].row.quantity, tables[order].createdAt, events) == Success(Current(order, tables[order]))
    {
      hide Replay, Numbered;
      if order !in tables {
        return [];
      }
      assert Sound(order, tables[order]);
      var records := tables[order].records;
      ByVersionInOrder(records);
      assert records[..|records|] == records;
      return EventsOf(ByVersion(records));
    }
  }

  lemma {:induction false} DuplicateUnchanged(s: OrderState, e: OrderEvent)
    ensures e.id in s.processed ==> Apply(s, e) == Success(s)
  {
  }

  /** Two sessions' applies in a row, through the object: applying an event a second time changes nothing. */
  method ApplyTwice(repository: ExecutionOrderRepository, order: int, e: OrderEvent) returns (first: ApplyResult, second: ApplyResult)
    requires AllSound(repository.tables) && e.Valid()
    modifies repository
    ensures AllSound(repository.tables)
    ensures first.Applied? && (first.outcome.Written? || first.outcome.Unchanged?) ==>
              second == Applied(Unchanged(first.outcome.state)) && order in repository.tables
              && Current(order, repository.tables[order]) == first.outcome.state
  {
    hide AllSound, TablesExtend, Commit;
    first := repository.ApplyEvent(order, e);
    if first.Applied? && first.outcome.Written? {
      RecordedId(Current(order, old(repository.tables)[order]), e);
    }
    second := repository.ApplyEvent(order, e);
  }

  lemma {:induction false} RecordedId(s: OrderState, e: OrderEvent)
    ensures Apply(s, e).Success? ==> e.id in Apply(s, e).value.processed
  {
  }
}
