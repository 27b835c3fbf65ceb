/** Comparing the broker's orders with the local ones: any disagreement locks trading. */
module Reconciliation {
  import opened Domain
  import opened OrderStateMachine

  datatype BrokerOrder = BrokerOrder(id: int, status: Status, quantity: int, filled: int)

  datatype IssueType = UnknownBrokerOrder | MissingBrokerOrder | DuplicateBrokerOrder | QuantityMismatch | StatusMismatch

  /** `id` is absent for a local order that should have a broker id and has none. */
  datatype Issue = Issue(kind: IssueType, id: Option<int>)

  predicate PreBroker(status: Status) {
    status in {Created, RiskPending, RiskRejected, Approved}
  }

  // ----- first occurrences ----------------------------------------------------------------------

  function First<T>(s: seq<T>, key: T -> Option<int>, id: int): Option<T> {
    if s == [] then None
    else
      var earlier := First(s[..|s| - 1], key, id);
      if earlier.Some? then earlier else if key(s[|s| - 1]) == Some(id) then Some(s[|s| - 1]) else None
  }

  predicate Repeated<T>(s: seq<T>, key: T -> Option<int>, id: int) {
    s != [] && (Repeated(s[..|s| - 1], key, id) || (key(s[|s| - 1]) == Some(id) && First(s[..|s| - 1], key, id).Some?))
  }

  /** What the recursive forms mean. */
  lemma {:induction false} FirstExact<T>(s: seq<T>, key: T -> Option<int>, id: int)
    ensures First(s, key, id).None? <==> forall i :: 0 <= i < |s| ==> key(s[i]) != Some(id)
    ensures First(s, key, id).Some? ==>
              exists i :: 0 <= i < |s| && s[i] == First(s, key, id).value && key(s[i]) == Some(id)
                          && forall j :: 0 <= j < i ==> key(s[j]) != Some(id)
    ensures Repeated(s, key, id) <==> exists i, j :: 0 <= i < j < |s| && key(s[i]) == Some(id) && key(s[j]) == Some(id)
  {
    if s != [] {
      var front := s[..|s| - 1];
      FirstExact(front, key, id);
      assert forall i :: 0 <= i < |front| ==> front[i] == s[i];
    }
  }

  function KeySet(keys: seq<int>): set<int> {
    set k | k in keys
  }

  /** A dictionary of first occurrences, and its keys in the order they were put in. */
  ghost predicate IsIndex<T>(m: map<int, T>, keys: seq<int>, s: seq<T>, key: T -> Option<int>) {
    && (forall id :: (if id in m then Some(m[id]) else None) == First(s, key, id))
    && m.Keys == KeySet(keys)
    && (forall i, j :: 0 <= i < j < |keys| ==> keys[i] != keys[j])
  }

  function LocalKey(o: OrderState): Option<int> {
    o.brokerId
  }

  function BrokerKey(b: BrokerOrder): Option<int> {
    Some(b.id)
  }

  // ----- what counts as an issue ----------------------------------------------------------------

  function LocalFirst(local: seq<OrderState>, id: int): Option<OrderState> {
    First(local, LocalKey, id)
  }

  function BrokerFirst(broker: seq<BrokerOrder>, id: int): Option<BrokerOrder> {
    First(broker, BrokerKey, id)
  }

  /** An order that has been to the broker, or may have been, without the broker's id for it. */
  predicate Unassigned(local: seq<OrderState>) {
    exists i :: 0 <= i < |local| && local[i].brokerId.None? && !PreBroker(local[i].status)
  }

  /** Exactly the issues the two lists give rise to. */
  ghost predicate IsIssue(issue: Issue, local: seq<OrderState>, broker: seq<BrokerOrder>) {
    match issue
    case Issue(MissingBrokerOrder, None) => Unassigned(local)
    case Issue(DuplicateBrokerOrder, Some(id)) => Repeated(local, LocalKey, id) || Repeated(broker, BrokerKey, id)
    case Issue(MissingBrokerOrder, Some(id)) => LocalFirst(local, id).Some? && BrokerFirst(broker, id).None?
    case Issue(UnknownBrokerOrder, Some(id)) => LocalFirst(local, id).None? && BrokerFirst(broker, id).Some?
    case Issue(QuantityMismatch, Some(id)) =>
      var l, b := LocalFirst(local, id), BrokerFirst(broker, id);
      l.Some? && b.Some? && (l.value.quantity != b.value.quantity || l.value.filled != b.value.filled)
    case Issue(StatusMismatch, Some(id)) =>
      var l, b := LocalFirst(local, id), BrokerFirst(broker, id);
      l.Some? && b.Some? && l.value.status != b.value.status
    case _ => false
  }

  /** Both sides tell one story. */
  ghost predicate InAgreement(local: seq<OrderState>, broker: seq<BrokerOrder>) {
    && (forall i :: 0 <= i < |local| && local[i].brokerId.None? ==> PreBroker(local[i].status))
    && (forall i, j :: 0 <= i < j < |local| && local[i].brokerId.Some? ==> local[i].brokerId != local[j].brokerId)
    && (forall i, j :: 0 <= i < j < |broker| ==> broker[i].id != broker[j].id)
    && LocalIds(local) == BrokerIds(broker)
    && (forall i, j :: 0 <= i < |local| && 0 <= j < |broker| && local[i].brokerId == Some(broker[j].id) ==>
                         && local[i].quantity == broker[j].quantity && local[i].filled == broker[j].filled
                         && local[i].status == broker[j].status)
  }

  function LocalIds(local: seq<OrderState>): set<int> {
    set i | 0 <= i < |local| && local[i].brokerId.Some? :: local[i].brokerId.value
  }

  function BrokerIds(broker: seq<BrokerOrder>): set<int> {
    set i | 0 <= i < |broker| :: broker[i].id
  }

  // ----- the loops ------------------------------------------------------------------------------

  lemma {:induction false} FirstAppend<T>(s: seq<T>, key: T -> Option<int>, n: nat, id: int)
    requires n < |s|
    ensures First(s[..n + 1], key, id) ==
            if First(s[..n], key, id).Some? then First(s[..n], key, id) else if key(s[n]) == Some(id) then Some(s[n]) else None
    ensures Repeated(s[..n + 1], key, id) <==>
              Repeated(s[..n], key, id) || (key(s[n]) == Some(id) && First(s[..n], key, id).Some?)
  {
    assert s[..n + 1][..n] == s[..n];
  }

  lemma {:induction false} IndexPut<T>(m: map<int, T>, keys: seq<int>, s: seq<T>, key: T -> Option<int>, n: nat, id: int)
    requires n < |s| && IsIndex(m, keys, s[..n], key) && key(s[n]) == Some(id) && id !in m
    ensures IsIndex(m[id := s[n]], keys + [id], s[..n + 1], key)
  {
    var after := m[id := s[n]];
    forall other ensures First(s[..n + 1], key, other) == (if other in after then Some(after[other]) else None) {
      FirstAppend(s, key, n, other);
    }
  }

  lemma {:induction false} IndexSkip<T>(m: map<int, T>, keys: seq<int>, s: seq<T>, key: T -> Option<int>, n: nat)
    requires n < |s| && IsIndex(m, keys, s[..n], key) && (key(s[n]).Some? ==> key(s[n]).value in m)
    ensures IsIndex(m, keys, s[..n + 1], key)
  {
    forall other ensures First(s[..n + 1], key, other) == (if other in m then Some(m[other]) else None) {
      FirstAppend(s, key, n, other);
    }
  }

  lemma {:induction false} IndexNothing<T>(s: seq<T>, key: T -> Option<int>)
    ensures IsIndex(map[], [], s[..0], key) && forall id :: !Repeated(s[..0], key, id)
  {
  }

  ghost predicate LocalIssues(issues: seq<Issue>, local: seq<OrderState>) {
    forall x: Issue :: x in issues <==>
      match x
      case Issue(MissingBrokerOrder, None) => Unassigned(local)
      case Issue(DuplicateBrokerOrder, Some(id)) => Repeated(local, LocalKey, id)
      case _ => false
  }

  lemma {:induction false} LocalIssuesNext(issues: seq<Issue>, local: seq<OrderState>, n: nat)
    requires n < |local| && LocalIssues(issues, local[..n])
    ensures var o := local[n];
            LocalIssues(
              if o.brokerId.None? then (if PreBroker(o.status) then issues else issues + [Issue(MissingBrokerOrder, None)])
              else if LocalFirst(local[..n], o.brokerId.value).Some? then issues + [Issue(DuplicateBrokerOrder, o.brokerId)]
              else issues,
              local[..n + 1])
  {
    hide Repeated, First, PreBroker;
    forall id ensures Repeated(local[..n + 1], LocalKey, id) <==>
                        Repeated(local[..n], LocalKey, id) || (local[n].brokerId == Some(id) && LocalFirst(local[..n], id).Some?)
    {
      FirstAppend(local, LocalKey, n, id);
    }
    UnassignedNext(local, n);
  }

  lemma {:induction false} UnassignedNext(local: seq<OrderState>, n: nat)
    requires n < |local|
    ensures Unassigned(local[..n + 1]) <==> Unassigned(local[..n]) || (local[n].brokerId.None? && !PreBroker(local[n].status))
  {
    hide PreBroker;
    var now, before := local[..n + 1], local[..n];
    assert forall i :: 0 <= i < n ==> now[i] == before[i];
    assert now[n] == local[n];
    if Unassigned(before) {
      var i :| 0 <= i < n && before[i].brokerId.None? && !PreBroker(before[i].status);
      assert now[i].brokerId.None? && !PreBroker(now[i].status);
    }
  }

  method IndexLocal(local: seq<OrderState>) returns (m: map<int, OrderState>, keys: seq<int>, issues: seq<Issue>)
    ensures IsIndex(m, keys, local, LocalKey) && LocalIssues(issues, local)
  {
    hide Repeated, First, Unassigned, PreBroker;
    m, keys, issues := map[], [], [];
    IndexNothing(local, LocalKey);
    NothingUnassigned();
    assert local[..0] == [];
    for n := 0 to |local|
      invariant IsIndex(m, keys, local[..n], LocalKey)
      invariant LocalIssues(issues, local[..n])
    {
      var order := local[n];
      LocalIssuesNext(issues, local, n);
      if order.brokerId.None? {
        if !PreBroker(order.status) {
          issues := issues + [Issue(MissingBrokerOrder, None)];
        }
        IndexSkip(m, keys, local, LocalKey, n);
        continue;
      }
      var id := order.brokerId.value;
      assert (if id in m then Some(m[id]) else None) == First(local[..n], LocalKey, id);
      if id in m {
        issues := issues + [Issue(DuplicateBrokerOrder, Some(id))];
        IndexSkip(m, keys, local, LocalKey, n);
      } else {
        IndexPut(m, keys, local, LocalKey, n, id);
        m := m[id := order];
        keys := keys + [id];
      }
    }
    assert local[..|local|] == local;
  }

  lemma {:induction false} NothingUnassigned()
    ensures !Unassigned([])
  {
  }

  ghost predicate BrokerIssues(issues: seq<Issue>, broker: seq<BrokerOrder>) {
    forall x: Issue :: x in issues <==> x.kind == DuplicateBrokerOrder && x.id.Some? && Repeated(broker, BrokerKey, x.id.value)
  }

  method IndexBroker(broker: seq<BrokerOrder>) returns (m: map<int, BrokerOrder>, keys: seq<int>, issues: seq<Issue>)
    ensures IsIndex(m, keys, broker, BrokerKey) && BrokerIssues(issues, broker)
  {
    hide Repeated, First;
    m, keys, issues := map[], [], [];
    IndexNothing(broker, BrokerKey);
    for n := 0 to |broker|
      invariant IsIndex(m, keys, broker[..n], BrokerKey)
      invariant BrokerIssues(issues, broker[..n])
    {
      var order := broker[n];
      forall id ensures Repeated(broker[..n + 1], BrokerKey, id) <==>
                          Repeated(broker[..n], BrokerKey, id) || (order.id == id && First(broker[..n], BrokerKey, id).Some?)
      {
        FirstAppend(broker, BrokerKey, n, id);
      }
      assert (if order.id in m then Some(m[order.id]) else None) == First(broker[..n], BrokerKey, order.id);
      if order.id in m {
        issues := issues + [Issue(DuplicateBrokerOrder, Some(order.id))];
        IndexSkip(m, keys, broker, BrokerKey, n);
      } else {
        IndexPut(m, keys, broker, BrokerKey, n, order.id);
        m := m[order.id := order];
        keys := keys + [order.id];
      }
    }
    assert broker[..|broker|] == broker;
  }

  /** The issues of one matched pair. */
  ghost predicate PairIssue(x: Issue, local: map<int, OrderState>, broker: map<int, BrokerOrder>) {
    x.id.Some? && x.id.value in local &&
    var id := x.id.value;
    match x.kind
    case MissingBrokerOrder => id !in broker
    case QuantityMismatch => id in broker && (local[id].quantity != broker[id].quantity || local[id].filled != broker[id].filled)
    case StatusMismatch => id in broker && local[id].status != broker[id].status
    case _ => false
  }

  /** One local order against the broker's order of the same id, if there is one. */
  method ComparePair(id: int, local: map<int, OrderState>, broker: map<int, BrokerOrder>) returns (found: bool, issues: seq<Issue>)
    requires id in local.Keys
    ensures found <==> id in broker.Keys
    ensures forall x :: x in issues <==> PairIssue(x, local, broker) && x.id.value == id
  {
    issues := [];
    if id !in broker {
      return false, [Issue(MissingBrokerOrder, Some(id))];
    }
    found := true;
    if local[id].quantity != broker[id].quantity || local[id].filled != broker[id].filled {
      issues := issues + [Issue(QuantityMismatch, Some(id))];
    }
    if local[id].status != broker[id].status {
      issues := issues + [Issue(StatusMismatch, Some(id))];
    }
  }

  lemma {:induction false} KeySetNext(keys: seq<int>, n: nat)
    requires n < |keys| && forall i, j :: 0 <= i < j < |keys| ==> keys[i] != keys[j]
    ensures KeySet(keys[..n + 1]) == KeySet(keys[..n]) + {keys[n]} && keys[n] !in KeySet(keys[..n])
  {
    assert keys[..n + 1] == keys[..n] + [keys[n]];
  }

  /** Exactly the issues of the pairs with these ids. */
  ghost predicate PairIssues(issues: seq<Issue>, ids: set<int>, local: map<int, OrderState>, broker: map<int, BrokerOrder>) {
    forall x :: x in issues <==> PairIssue(x, local, broker) && x.id.value in ids
  }

  lemma {:induction false} PairIssuesNext(issues: seq<Issue>, ids: set<int>, more: seq<Issue>, id: int,
                                          local: map<int, OrderState>, broker: map<int, BrokerOrder>)
    requires PairIssues(issues, ids, local, broker) && id !in ids
    requires forall x :: x in more <==> PairIssue(x, local, broker) && x.id.value == id
    ensures PairIssues(issues + more, ids + {id}, local, broker)
  {
    hide PairIssue;
  }

  method ComparePairs(local: map<int, OrderState>, keys: seq<int>, broker: map<int, BrokerOrder>)
    returns (matched: nat, issues: seq<Issue>)
    requires local.Keys == KeySet(keys) && (forall i, j :: 0 <= i < j < |keys| ==> keys[i] != keys[j])
    ensures matched == |local.Keys * broker.Keys|
    ensures PairIssues(issues, local.Keys, local, broker)
  {
    matched, issues := 0, [];
    assert KeySet(keys[..0]) * broker.Keys == {};
    for n := 0 to |keys|
      invariant matched == |KeySet(keys[..n]) * broker.Keys|
      invariant PairIssues(issues, KeySet(keys[..n]), local, broker)
    {
      hide PairIssues, PairIssue, KeySet;
      var id := keys[n];
      KeySetNext(keys, n);
      InKeys(keys, n);
      var found, more := ComparePair(id, local, broker);
      PairIssuesNext(issues, KeySet(keys[..n]), more, id, local, broker);
      CountNext(KeySet(keys[..n]), id, broker.Keys);
      issues := issues + more;
      if found {
        matched := matched + 1;
      }
    }
    assert keys[..|keys|] == keys;
  }

  lemma {:induction false} CountNext(a: set<int>, id: int, b: set<int>)
    requires id !in a
    ensures |(a + {id}) * b| == |a * b| + (if id in b then 1 else 0)
  {
    if id in b {
      assert (a + {id}) * b == a * b + {id};
    } else {
      assert (a + {id}) * b == a * b;
    }
  }

  lemma {:induction false} InKeys(keys: seq<int>, n: nat)
    requires n < |keys|
    ensures keys[n] in KeySet(keys)
  {
  }

  method FindUnknown(local: map<int, OrderState>, broker: map<int, BrokerOrder>, keys: seq<int>) returns (issues: seq<Issue>)
    requires broker.Keys == KeySet(keys)
    ensures forall x :: x in issues <==> x.kind == UnknownBrokerOrder && x.id.Some? && x.id.value in broker.Keys && x.id.value !in local
  {
    issues := [];
    for n := 0 to |keys|
      invariant forall x :: x in issues <==>
                  x.kind == UnknownBrokerOrder && x.id.Some? && x.id.value in keys[..n] && x.id.value !in local
    {
      assert keys[..n + 1] == keys[..n] + [keys[n]];
      if keys[n] !in local {
        issues := issues + [Issue(UnknownBrokerOrder, Some(keys[n]))];
      }
    }
    assert keys[..|keys|] == keys;
  }

  /** Trading is safe exactly when both sides agree on everything; otherwise each issue is named. */
  method Reconcile(local: seq<OrderState>, broker: seq<BrokerOrder>) returns (safe: bool, matched: nat, issues: seq<Issue>)
    ensures safe <==> InAgreement(local, broker)
    ensures matched == |LocalIds(local) * BrokerIds(broker)|
    ensures forall x :: x in issues <==> IsIssue(x, local, broker)
  {
    hide InAgreement, First, Repeated, Unassigned;
    var localById, localKeys, localIssues := IndexLocal(local);
    var brokerById, brokerKeys, brokerIssues := IndexBroker(broker);
    var pairs, pairIssues := ComparePairs(localById, localKeys, brokerById);
    var unknown := FindUnknown(localById, brokerById, brokerKeys);
    matched := pairs;
    issues := localIssues + brokerIssues + pairIssues + unknown;
    safe := |issues| == 0;
    IssuesExact(local, broker, localById, localKeys, brokerById, brokerKeys, localIssues, brokerIssues, pairIssues, unknown);
    KeysOfLocal(local, localById, localKeys);
    KeysOfBroker(broker, brokerById, brokerKeys);
    SafeExact(local, broker, issues);
  }

  lemma {:induction false} IssuesExact(
    local: seq<OrderState>, broker: seq<BrokerOrder>,
    localById: map<int, OrderState>, localKeys: seq<int>, brokerById: map<int, BrokerOrder>, brokerKeys: seq<int>,
    a: seq<Issue>, b: seq<Issue>, p: seq<Issue>, u: seq<Issue>)
    requires IsIndex(localById, localKeys, local, LocalKey) && LocalIssues(a, local)
    requires IsIndex(brokerById, brokerKeys, broker, BrokerKey) && BrokerIssues(b, broker)
    requires PairIssues(p, localById.Keys, localById, brokerById)
    requires forall x :: x in u <==> x.kind == UnknownBrokerOrder && x.id.Some? && x.id.value in brokerById.Keys && x.id.value !in localById
    ensures forall x :: x in a + b + p + u <==> IsIssue(x, local, broker)
  {
    hide First, Repeated, Unassigned;
    forall x ensures x in a + b + p + u <==> IsIssue(x, local, broker) {
      assert x in a + b + p + u <==> x in a || x in b || x in p || x in u;
      if x.id.Some? {
        var id := x.id.value;
        assert (if id in localById then Some(localById[id]) else None) == LocalFirst(local, id);
        assert (if id in brokerById then Some(brokerById[id]) else None) == BrokerFirst(broker, id);
      }
    }
  }

  lemma {:induction false} KeysOfLocal(local: seq<OrderState>, m: map<int, OrderState>, keys: seq<int>)
    requires IsIndex(m, keys, local, LocalKey)
    ensures m.Keys == LocalIds(local)
  {
    hide First, Repeated;
    forall id ensures id in m <==> id in LocalIds(local) {
      FirstExact(local, LocalKey, id);
      assert (if id in m then Some(m[id]) else None) == First(local, LocalKey, id);
    }
  }

  lemma {:induction false} KeysOfBroker(broker: seq<BrokerOrder>, m: map<int, BrokerOrder>, keys: seq<int>)
    requires IsIndex(m, keys, broker, BrokerKey)
    ensures m.Keys == BrokerIds(broker)
  {
    hide First, Repeated;
    forall id ensures id in m <==> id in BrokerIds(broker) {
      FirstExact(broker, BrokerKey, id);
      assert (if id in m then Some(m[id]) else None) == First(broker, BrokerKey, id);
    }
  }

  lemma {:induction false} SafeExact(local: seq<OrderState>, broker: seq<BrokerOrder>, issues: seq<Issue>)
    requires forall x :: x in issues <==> IsIssue(x, local, broker)
    ensures issues == [] <==> InAgreement(local, broker)
  {
    if issues == [] {
      forall x ensures !IsIssue(x, local, broker) {
      }
      NoIssueAgrees(local, broker);
    } else {
      assert issues[0] in issues;
      IssueDisagrees(local, broker, issues[0]);
    }
  }

  lemma {:induction false} NoIssueAgrees(local: seq<OrderState>, broker: seq<BrokerOrder>)
    requires forall x :: !IsIssue(x, local, broker)
    ensures InAgreement(local, broker)
  {
    hide First, Repeated;
    assert !IsIssue(Issue(MissingBrokerOrder, None), local, broker);
    forall id
      ensures !Repeated(local, LocalKey, id) && !Repeated(broker, BrokerKey, id)
      ensures LocalFirst(local, id).Some? <==> BrokerFirst(broker, id).Some?
      ensures LocalFirst(local, id).Some? ==>
                var l, b := LocalFirst(local, id).value, BrokerFirst(broker, id).value;
                l.quantity == b.quantity && l.filled == b.filled && l.status == b.status
    {
      assert !IsIssue(Issue(DuplicateBrokerOrder, Some(id)), local, broker);
      assert !IsIssue(Issue(MissingBrokerOrder, Some(id)), local, broker);
      assert !IsIssue(Issue(UnknownBrokerOrder, Some(id)), local, broker);
      assert !IsIssue(Issue(QuantityMismatch, Some(id)), local, broker);
      assert !IsIssue(Issue(StatusMismatch, Some(id)), local, broker);
    }
    forall id ensures id in LocalIds(local) <==> id in BrokerIds(broker) {
      FirstExact(local, LocalKey, id);
      FirstExact(broker, BrokerKey, id);
    }
    forall i, j | 0 <= i < j < |local| && local[i].brokerId.Some? ensures local[i].brokerId != local[j].brokerId {
      FirstExact(local, LocalKey, local[i].brokerId.value);
    }
    forall i, j | 0 <= i < j < |broker| ensures broker[i].id != broker[j].id {
      FirstExact(broker, BrokerKey, broker[i].id);
    }
    forall i, j | 0 <= i < |local| && 0 <= j < |broker| && local[i].brokerId == Some(broker[j].id)
      ensures local[i].quantity == broker[j].quantity && local[i].filled == broker[j].filled && local[i].status == broker[j].status
    {
      OnlyLocal(local, i);
      OnlyBroker(broker, j);
    }
  }

  lemma {:induction false} OnlyLocal(local: seq<OrderState>, i: nat)
    requires i < |local| && local[i].brokerId.Some? && !Repeated(local, LocalKey, local[i].brokerId.value)
    ensures LocalFirst(local, local[i].brokerId.value) == Some(local[i])
  {
    hide First, Repeated;
    FirstExact(local, LocalKey, local[i].brokerId.value);
  }

  lemma {:induction false} OnlyBroker(broker: seq<BrokerOrder>, j: nat)
    requires j < |broker| && !Repeated(broker, BrokerKey, broker[j].id)
    ensures BrokerFirst(broker, broker[j].id) == Some(broker[j])
  {
    hide First, Repeated;
    FirstExact(broker, BrokerKey, broker[j].id);
  }

  lemma {:induction false} IssueDisagrees(local: seq<OrderState>, broker: seq<BrokerOrder>, x: Issue)
    requires IsIssue(x, local, broker)
    ensures !InAgreement(local, broker)
  {
    hide First, Repeated;
    if x.id.Some? {
      FirstExact(local, LocalKey, x.id.value);
      FirstExact(broker, BrokerKey, x.id.value);
      assert LocalIds(local) == BrokerIds(broker) ==> (x.id.value in LocalIds(local) <==> x.id.value in BrokerIds(broker));
    }
  }
}
