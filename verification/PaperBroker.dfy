/** The paper broker: the service that keeps the books and marks them to market. */
module PaperBroker {
  import opened Domain
  import opened Drawdowns
  import opened RiskEngine
  import opened PaperLedger

  // ----- marking to market ----------------------------------------------------------------------

  datatype Mark = Mark(instrument: int, quantity: real, average: real, price: real, realized: real, unrealized: real)

  datatype Totals = Totals(value: real, realized: real, unrealized: real, gross: real, net: real, marks: seq<Mark>)

  datatype Snapshot = Snapshot(
    account: int, at: int, cash: real, equity: real, realized: real, unrealized: real, gross: real, net: real, drawdown: real,
    marks: seq<Mark>)

  predicate Priced(p: Position, prices: map<int, real>) {
    p.quantity == 0.0 || (p.instrument in prices && prices[p.instrument] > 0.0)
  }

  /** Adding one position of the account to the totals. */
  function Tallied(t: Totals, p: Position, prices: map<int, real>): Totals
    requires Priced(p, prices)
  {
    var realized := t.realized + p.realized;
    if p.quantity == 0.0 then t.(realized := realized)
    else
      var price := prices[p.instrument];
      var value, pnl := p.quantity * price, (price - p.average) * p.quantity;
      Totals(t.value + value, realized, t.unrealized + pnl, t.gross + Abs(value), t.net + value,
             t.marks + [Mark(p.instrument, p.quantity, p.average, price, p.realized, pnl)])
  }

  /** The totals of an account's positions, or nothing when an open one has no valid price. */
  function Tally(positions: seq<Position>, account: int, prices: map<int, real>): Option<Totals> {
    if positions == [] then Some(Totals(0.0, 0.0, 0.0, 0.0, 0.0, []))
    else
      var p := positions[|positions| - 1];
      match Tally(positions[..|positions| - 1], account, prices)
      case None => None
      case Some(t) => if p.account != account then Some(t) else if Priced(p, prices) then Some(Tallied(t, p, prices)) else None
  }

  lemma {:induction false} TalliedEquation(t: Totals, p: Position, prices: map<int, real>)
    requires Priced(p, prices)
    ensures var u := Tallied(t, p, prices);
            && u.value + Contribution(p) - t.value == (u.realized - t.realized) + (u.unrealized - t.unrealized)
            && u.net - t.net == u.value - t.value
            && u.gross - t.gross == Abs(u.net - t.net)
  {
    if p.quantity != 0.0 {
      var price := prices[p.instrument];
      assert (price - p.average) * p.quantity == p.quantity * price - p.quantity * p.average;
    }
  }

  /** What the positions are worth, over what they contributed, is what they realized and stand to realize. */
  lemma {:induction false} TallyEquation(positions: seq<Position>, account: int, prices: map<int, real>)
    ensures Tally(positions, account, prices).Some? ==>
              var t := Tally(positions, account, prices).value;
              && Contributed(positions, account) + t.value == t.realized + t.unrealized
              && t.net == t.value && Abs(t.net) <= t.gross
    ensures Tally(positions, account, prices).Some? <==>
              forall i :: 0 <= i < |positions| && positions[i].account == account ==> Priced(positions[i], prices)
  {
    hide Tallied, Contribution, Priced;
    if positions != [] {
      var front, p := positions[..|positions| - 1], positions[|positions| - 1];
      TallyEquation(front, account, prices);
      if Tally(front, account, prices).Some? && Priced(p, prices) {
        TalliedEquation(Tally(front, account, prices).value, p, prices);
      }
    }
  }

  lemma {:induction false} TallyStops(positions: seq<Position>, account: int, prices: map<int, real>, n: nat)
    requires n <= |positions| && Tally(positions[..n], account, prices).None?
    ensures Tally(positions, account, prices).None?
    decreases |positions|
  {
    hide Tallied, Priced;
    if n < |positions| {
      assert positions[..|positions| - 1][..n] == positions[..n];
      TallyStops(positions[..|positions| - 1], account, prices, n);
    } else {
      assert positions[..n] == positions;
    }
  }

  method TallyAll(positions: seq<Position>, account: int, prices: map<int, real>) returns (r: Option<Totals>)
    ensures r == Tally(positions, account, prices)
  {
    hide Tallied, Priced;
    var t := Totals(0.0, 0.0, 0.0, 0.0, 0.0, []);
    for i := 0 to |positions|
      invariant Tally(positions[..i], account, prices) == Some(t)
    {
      assert positions[..i + 1][..i] == positions[..i];
      var p := positions[i];
      if p.account != account {
        continue;
      }
      if !Priced(p, prices) {
        TallyStops(positions, account, prices, i + 1);
        return None;
      }
      t := Tallied(t, p, prices);
    }
    assert positions[..|positions|] == positions;
    return Some(t);
  }

  function Drawdown(peak: real, equity: real): real {
    if peak > 0.0 then Fall(peak, equity) else 0.0
  }

  lemma {:induction false} DrawdownRange(peak: real, equity: real)
    requires peak > 0.0 && equity <= peak
    ensures Drawdown(peak, equity) >= 0.0
    ensures Drawdown(peak, equity) <= 1.0 <==> equity >= 0.0
  {
    FallRange(peak, equity);
  }

  /** What marking does to the books: the account's peak may rise. */
  function Marked(b: Books, account: int, prices: map<int, real>): Books {
    if account !in b.ledgers then b
    else
      match Tally(b.positions, account, prices)
      case None => b
      case Some(t) =>
        var l := b.ledgers[account];
        b.(ledgers := b.ledgers[account := l.(peakEquity := Max(l.peakEquity, l.cash + t.value))])
  }

  // ----- the service ----------------------------------------------------------------------------

  class PersistentPaperBroker {
    const terms: Terms
    var ledgers: map<int, Ledger>
    var orders: seq<Order>
    var positions: seq<Position>
    var snapshots: seq<Snapshot>

    function State(): Books
      reads this
    {
      Books(ledgers, orders, positions)
    }

    constructor (terms: Terms)
      requires terms.slippageBps >= 0.0
      ensures this.terms == terms && ledgers == map[] && orders == [] && positions == [] && snapshots == []
      ensures Balanced(State())
    {
      this.terms := terms;
      ledgers, orders, positions, snapshots := map[], [], [], [];
    }

    method InitializeAccount(account: int, initialCash: real) returns (error: Option<Error>)
      requires Balanced(State())
      modifies this`ledgers
      ensures (error, State()) == Initialize(old(State()), account, initialCash)
      ensures Balanced(State())
    {
      InitializeBalanced(State(), account, initialCash);
      hide Balanced;
      if initialCash <= 0.0 {
        return Some(NonPositiveCash);
      }
      if account !in ledgers {
        ledgers := ledgers[account := Ledger(initialCash, initialCash, initialCash)];
      } else if ledgers[account].initialCash != initialCash {
        return Some(DifferentCapital);
      }
      return None;
    }

    /** Fill a risk-approved market order once, and keep cash, orders and positions in step. */
    method ExecuteMarket(intent: Intent, risk: Decision, marketPrice: real) returns (r: Result<Execution, Error>)
      requires Balanced(State())
      modifies this`ledgers, this`orders, this`positions
      ensures (r, State()) == Execute(old(State()), terms, intent, risk, marketPrice)
      ensures Balanced(State())
    {
      ExecuteBalanced(State(), terms, intent, risk, marketPrice);
      hide Balanced, Complaint, OrderOf, FillPrice, Charges, Notional, Fill, RowAt;
      var complaint := Complaint(intent, risk, marketPrice);
      if complaint.Some? {
        return Failure(complaint.value);
      }
      var existing := OrderOf(orders, intent.account, intent.idempotencyKey);
      if existing.Some? {
        return Success(Execution(existing.value, true));
      }
      if intent.account !in ledgers {
        return Failure(NoLedger);
      }
      var price := FillPrice(terms, intent.side, marketPrice);
      var charges := Charges(terms, Notional(price, risk.quantity), intent.side);
      var flow := Notional(price, risk.quantity);
      var ledger := ledgers[intent.account];
      ledgers := ledgers[intent.account := ledger.(cash := ledger.cash + ((if intent.side == Buy then -flow else flow) - charges))];
      var order := Order(intent.account, intent.instrument, intent.id, intent.idempotencyKey, intent.side, risk.quantity, price, charges);
      orders := orders + [order];
      UpdatePosition(order);
      return Success(Execution(order, false));
    }

    method UpdatePosition(o: Order)
      requires o.quantity != 0.0
      modifies this`positions
      ensures positions == Posted(old(positions), o.account, o.instrument, Signed(o.side, o.quantity), o.price, o.charges)
    {
      hide Fill;
      var i := RowAt(positions, o.account, o.instrument);
      var delta := Signed(o.side, o.quantity);
      if i == |positions| {
        positions := positions + [Position(o.account, o.instrument, delta, o.price, -o.charges)];
      } else {
        positions := positions[i := Fill(positions[i], delta, o.price, o.charges)];
      }
    }

    /**
     * Mark an account. The equity of every mark is the initial cash plus everything realized and unrealized;
     * the peak never falls; a missing price changes nothing.
     */
    method MarkToMarket(account: int, prices: map<int, real>, at: int) returns (r: Result<Snapshot, Error>)
      requires Balanced(State())
      modifies this`ledgers, this`snapshots
      ensures Balanced(State()) && ledgers.Keys == old(ledgers).Keys
      ensures r.Failure? ==> ledgers == old(ledgers) && snapshots == old(snapshots)
      ensures r.Success? <==>
                account in ledgers
                && forall i :: 0 <= i < |positions| && positions[i].account == account ==> Priced(positions[i], prices)
      ensures r == Failure(NoLedger) <==> account !in ledgers
      ensures State() == Marked(old(State()), account, prices)
      ensures r.Success? ==>
                var s, t := r.value, Tally(positions, account, prices);
                && t.Some?
                && s.equity == old(ledgers)[account].initialCash + s.realized + s.unrealized
                && s.equity == s.cash + t.value.value && s.cash == old(ledgers)[account].cash
                && s.realized == t.value.realized && s.unrealized == t.value.unrealized
                && s.gross == t.value.gross && s.net == t.value.net && Abs(s.net) <= s.gross && s.marks == t.value.marks
                && ledgers == old(ledgers)[account := old(ledgers)[account].(peakEquity := Max(old(ledgers)[account].peakEquity, s.equity))]
                && s.drawdown == Drawdown(ledgers[account].peakEquity, s.equity)
                && s.drawdown >= 0.0 && (s.drawdown <= 1.0 <==> s.equity >= 0.0)
                && s.account == account && s.at == at && snapshots == old(snapshots) + [s]
    {
      hide Tally, Drawdown, Contributed, Priced, KeysDistinct;
      if account !in ledgers {
        return Failure(NoLedger);
      }
      TallyEquation(positions, account, prices);
      var tally := TallyAll(positions, account, prices);
      if tally.None? {
        return Failure(PriceRequired);
      }
      var t := tally.value;
      assert AccountBalanced(State(), account);
      var equity := ledgers[account].cash + t.value;
      var ledger := ledgers[account].(peakEquity := Max(ledgers[account].peakEquity, equity));
      PeakBalanced(State(), account, ledger.peakEquity);
      DrawdownRange(ledger.peakEquity, equity);
      ledgers := ledgers[account := ledger];
      var s := Snapshot(account, at, ledger.cash, equity, t.realized, t.unrealized, t.gross, t.net,
                        Drawdown(ledger.peakEquity, equity), t.marks);
      snapshots := snapshots + [s];
      return Success(s);
    }
  }

  lemma {:induction false} PeakBalanced(b: Books, account: int, peak: real)
    requires Balanced(b) && account in b.ledgers && peak >= b.ledgers[account].peakEquity
    ensures Balanced(b.(ledgers := b.ledgers[account := b.ledgers[account].(peakEquity := peak)]))
  {
    hide Contributed, KeysDistinct;
    var after := b.(ledgers := b.ledgers[account := b.ledgers[account].(peakEquity := peak)]);
    forall other | other in after.ledgers ensures AccountBalanced(after, other) {
      assert AccountBalanced(b, other);
    }
  }

  lemma {:induction false} MarkedBalanced(b: Books, account: int, prices: map<int, real>)
    requires Balanced(b)
    ensures Balanced(Marked(b, account, prices))
  {
    hide Balanced, Tally;
    if account in b.ledgers && Tally(b.positions, account, prices).Some? {
      var l := b.ledgers[account];
      PeakBalanced(b, account, Max(l.peakEquity, l.cash + Tally(b.positions, account, prices).value.value));
    }
  }

  // ----- whole runs -----------------------------------------------------------------------------

  datatype Operation =
    | Open(account: int, initialCash: real)
    | Trade(intent: Intent, risk: Decision, marketPrice: real)
    | MarkAccount(account: int, prices: map<int, real>)

  function Operate(b: Books, terms: Terms, op: Operation): Books {
    match op
    case Open(account, initialCash) => Initialize(b, account, initialCash).1
    case Trade(intent, risk, marketPrice) => Execute(b, terms, intent, risk, marketPrice).1
    case MarkAccount(account, prices) => Marked(b, account, prices)
  }

  function OperateAll(terms: Terms, ops: seq<Operation>): Books {
    if ops == [] then Books(map[], [], []) else Operate(OperateAll(terms, ops[..|ops| - 1]), terms, ops[|ops| - 1])
  }

  /** After any run of openings, fills and marks, over any accounts and instruments, every account balances. */
  lemma {:induction false} LedgerConserved(terms: Terms, ops: seq<Operation>)
    ensures Balanced(OperateAll(terms, ops))
  {
    hide Balanced, Operate;
    if ops == [] {
      NothingBalanced();
    } else {
      LedgerConserved(terms, ops[..|ops| - 1]);
      OperateBalanced(OperateAll(terms, ops[..|ops| - 1]), terms, ops[|ops| - 1]);
    }
  }

  lemma {:induction false} NothingBalanced()
    ensures Balanced(Books(map[], [], []))
  {
  }

  lemma {:induction false} OperateBalanced(b: Books, terms: Terms, op: Operation)
    requires Balanced(b)
    ensures Balanced(Operate(b, terms, op))
  {
    hide Balanced, Execute, Initialize;
    match op
    case Open(account, initialCash) => InitializeBalanced(b, account, initialCash);
    case Trade(intent, risk, marketPrice) => ExecuteBalanced(b, terms, intent, risk, marketPrice);
    case MarkAccount(account, prices) => MarkedBalanced(b, account, prices);
  }

  /** So every possible mark of every reachable state shows equity as initial cash plus results. */
  lemma {:induction false} EveryMarkBalances(terms: Terms, ops: seq<Operation>, account: int, prices: map<int, real>)
    requires account in OperateAll(terms, ops).ledgers && Tally(OperateAll(terms, ops).positions, account, prices).Some?
    ensures var b := OperateAll(terms, ops);
            var t := Tally(b.positions, account, prices).value;
            b.ledgers[account].cash + t.value == b.ledgers[account].initialCash + t.realized + t.unrealized
  {
    hide Contributed, Tally, OperateAll;
    LedgerConserved(terms, ops);
    var b := OperateAll(terms, ops);
    assert AccountBalanced(b, account);
    TallyEquation(b.positions, account, prices);
  }
}
