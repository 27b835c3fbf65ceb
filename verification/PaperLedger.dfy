/** The paper account's books: cash, positions and what every fill and mark does to them. */
module PaperLedger {
  import opened Domain
  import opened RiskEngine

  datatype Ledger = Ledger(initialCash: real, cash: real, peakEquity: real)

  datatype Position = Position(account: int, instrument: int, quantity: real, average: real, realized: real)

  datatype Order = Order(account: int, instrument: int, intentId: int, key: int, side: Side, quantity: real, price: real, charges: real)

  datatype Books = Books(ledgers: map<int, Ledger>, orders: seq<Order>, positions: seq<Position>)

  // ----- one position ---------------------------------------------------------------------------

  predicate SameDirection(quantity: real, delta: real) {
    quantity == 0.0 || ((quantity > 0.0) == (delta > 0.0))
  }

  /** The average price after adding to a position. */
  function Blended(quantity: real, average: real, delta: real, price: real): real
    requires Abs(quantity) + Abs(delta) > 0.0
  {
    (Abs(quantity) * average + Abs(delta) * price) / (Abs(quantity) + Abs(delta))
  }

  /** What closing part of a position brings in. */
  function ClosingGain(quantity: real, average: real, delta: real, price: real): real {
    (price - average) * Min(Abs(quantity), Abs(delta)) * (if quantity > 0.0 then 1.0 else -1.0)
  }

  /** A fill of `delta`, signed, into an open or once-open position. */
  function Fill(p: Position, delta: real, price: real, charges: real): Position
    requires delta != 0.0
  {
    var quantity := p.quantity + delta;
    if SameDirection(p.quantity, delta) then
      p.(quantity := quantity, average := Blended(p.quantity, p.average, delta, price), realized := p.realized - charges)
    else
      var average :=
        if quantity == 0.0 then 0.0
        else if (quantity > 0.0) != (p.quantity > 0.0) then price
        else p.average;
      p.(quantity := quantity, average := average,
         realized := p.realized + ClosingGain(p.quantity, p.average, delta, price) - charges)
  }

  /** A position's cost basis. */
  function Basis(p: Position): real {
    p.quantity * p.average
  }

  /** What a position has contributed to cash: its realized result, less what is tied up in it. */
  function Contribution(p: Position): real {
    p.realized - Basis(p)
  }

  lemma {:induction false} BlendedBasis(quantity: real, average: real, delta: real, price: real)
    requires delta != 0.0 && SameDirection(quantity, delta)
    ensures (quantity + delta) * Blended(quantity, average, delta, price) == quantity * average + delta * price
  {
    var total := Abs(quantity) + Abs(delta);
    var blended := Blended(quantity, average, delta, price);
    assert blended * total == Abs(quantity) * average + Abs(delta) * price;
    if delta > 0.0 {
      assert total == quantity + delta;
    } else {
      assert total == -(quantity + delta);
      assert Abs(quantity) * average == -(quantity * average) && Abs(delta) * price == -(delta * price);
      assert (quantity + delta) * blended == -(blended * total);
    }
  }

  /** The part of a fill that closes, signed like the position. */
  function Closed(quantity: real, delta: real): real {
    if Abs(delta) < Abs(quantity) then -delta else quantity
  }

  lemma {:induction false} GainOfClosed(quantity: real, average: real, delta: real, price: real)
    requires delta != 0.0 && !SameDirection(quantity, delta)
    ensures ClosingGain(quantity, average, delta, price) == price * Closed(quantity, delta) - average * Closed(quantity, delta)
  {
    var closed := Min(Abs(quantity), Abs(delta));
    var sign := if quantity > 0.0 then 1.0 else -1.0;
    assert closed * sign == Closed(quantity, delta);
    assert (price - average) * closed * sign == (price - average) * (closed * sign);
  }

  /** Basis and gain together account for the cash a closing fill moves, whatever the gain is. */
  lemma {:induction false} ClosingBasis(p: Position, delta: real, price: real, charges: real)
    requires delta != 0.0 && !SameDirection(p.quantity, delta)
    ensures Basis(Fill(p, delta, price, charges)) ==
            Basis(p) + delta * price + (price * Closed(p.quantity, delta) - p.average * Closed(p.quantity, delta))
  {
    hide ClosingGain, Blended;
    var quantity := p.quantity + delta;
    var average := Fill(p, delta, price, charges).average;
    if Abs(delta) < Abs(p.quantity) {
      assert average == p.average;
      Expand(p.quantity, delta, p.average);
      Expand(0.0, -delta, p.average);
      Expand(0.0, -delta, price);
    } else {
      Expand(p.quantity, delta, price);
      if quantity == 0.0 {
        assert average == 0.0;
      } else {
        assert average == price;
      }
    }
  }

  lemma {:induction false} Expand(a: real, b: real, x: real)
    ensures (a + b) * x == a * x + b * x && (-b) * x == -(b * x) && x * (-b) == -(b * x) && x * b == b * x && x * a == a * x
  {
  }

  /** The heart of the ledger: through any fill, a position's contribution moves by exactly the cash the fill moves. */
  lemma {:induction false} FillConserves(p: Position, delta: real, price: real, charges: real)
    requires delta != 0.0
    ensures Contribution(Fill(p, delta, price, charges)) == Contribution(p) - delta * price - charges
  {
    if SameDirection(p.quantity, delta) {
      hide Blended;
      BlendedBasis(p.quantity, p.average, delta, price);
    } else {
      GainOfClosed(p.quantity, p.average, delta, price);
      ClosingBasis(p, delta, price, charges);
      hide Basis, ClosingGain, Closed, Blended;
    }
  }

  /** An exit no larger than the position shrinks it by exactly its size and never turns it over. */
  lemma {:induction false} ExitShrinks(p: Position, delta: real, price: real, charges: real)
    requires delta != 0.0 && p.quantity != 0.0 && (p.quantity > 0.0) != (delta > 0.0)
    ensures Abs(delta) <= Abs(p.quantity) <==>
              var q := Fill(p, delta, price, charges).quantity;
              q == 0.0 || ((q > 0.0) == (p.quantity > 0.0))
    ensures Abs(delta) <= Abs(p.quantity) ==>
              Abs(Fill(p, delta, price, charges).quantity) == Abs(p.quantity) - Abs(delta)
  {
    hide ClosingGain, Blended;
  }

  // ----- the book of an account -----------------------------------------------------------------

  /** All that an account's positions have contributed to its cash. */
  function Contributed(positions: seq<Position>, account: int): real {
    if positions == [] then 0.0
    else
      var p := positions[|positions| - 1];
      Contributed(positions[..|positions| - 1], account) + (if p.account == account then Contribution(p) else 0.0)
  }

  lemma {:induction false} ContributedAppend(positions: seq<Position>, p: Position, account: int)
    ensures Contributed(positions + [p], account) ==
            Contributed(positions, account) + (if p.account == account then Contribution(p) else 0.0)
  {
    hide Contribution;
    assert (positions + [p])[..|positions|] == positions;
  }

  lemma {:induction false} ContributedUpdate(positions: seq<Position>, i: nat, p: Position, account: int)
    requires i < |positions| && positions[i].account == p.account
    ensures Contributed(positions[i := p], account) ==
            Contributed(positions, account) + (if p.account == account then Contribution(p) - Contribution(positions[i]) else 0.0)
  {
    hide Contribution;
    var n := |positions| - 1;
    if i < n {
      ContributedUpdate(positions[..n], i, p, account);
      assert positions[i := p][..n] == positions[..n][i := p];
    } else {
      assert positions[i := p][..n] == positions[..n];
    }
  }

  lemma {:induction false} ContributedNothing(positions: seq<Position>, account: int)
    requires forall i :: 0 <= i < |positions| ==> positions[i].account != account
    ensures Contributed(positions, account) == 0.0
  {
    hide Contribution;
    if positions != [] {
      ContributedNothing(positions[..|positions| - 1], account);
    }
  }

  /** The first row of an account's position in an instrument, or the number of rows. */
  function RowAt(positions: seq<Position>, account: int, instrument: int): (i: nat)
    ensures i <= |positions|
    ensures i < |positions| ==> positions[i].account == account && positions[i].instrument == instrument
    ensures forall j :: 0 <= j < i ==> !(positions[j].account == account && positions[j].instrument == instrument)
  {
    if positions == [] then 0
    else
      var n := |positions| - 1;
      var i := RowAt(positions[..n], account, instrument);
      if i < n then i
      else if positions[n].account == account && positions[n].instrument == instrument then n
      else n + 1
  }

  /** The rows after a fill. */
  function Posted(positions: seq<Position>, account: int, instrument: int, delta: real, price: real, charges: real): seq<Position>
    requires delta != 0.0
  {
    var i := RowAt(positions, account, instrument);
    if i == |positions| then positions + [Position(account, instrument, delta, price, -charges)]
    else positions[i := Fill(positions[i], delta, price, charges)]
  }

  lemma {:induction false} PostedConserves(
    positions: seq<Position>, account: int, instrument: int, delta: real, price: real, charges: real, other: int)
    requires delta != 0.0
    ensures Contributed(Posted(positions, account, instrument, delta, price, charges), other) ==
            Contributed(positions, other) - (if other == account then delta * price + charges else 0.0)
  {
    hide RowAt, Fill, Contribution, Contributed;
    var i := RowAt(positions, account, instrument);
    if i == |positions| {
      var p := Position(account, instrument, delta, price, -charges);
      ContributedAppend(positions, p, other);
      OpeningContribution(p, delta, price, charges);
    } else {
      FillAccount(positions[i], delta, price, charges);
      ContributedUpdate(positions, i, Fill(positions[i], delta, price, charges), other);
      FillConserves(positions[i], delta, price, charges);
    }
  }

  lemma {:induction false} OpeningContribution(p: Position, delta: real, price: real, charges: real)
    requires p.quantity == delta && p.average == price && p.realized == -charges
    ensures Contribution(p) == -(delta * price) - charges
  {
  }

  lemma {:induction false} FillAccount(p: Position, delta: real, price: real, charges: real)
    requires delta != 0.0
    ensures Fill(p, delta, price, charges).account == p.account && Fill(p, delta, price, charges).instrument == p.instrument
    ensures Fill(p, delta, price, charges).quantity == p.quantity + delta
  {
    hide ClosingGain, Blended;
  }

  // ----- executing a market order ---------------------------------------------------------------

  datatype Error =
    | NotMarket | ForeignDecision | NotApproved | ApprovedQuantityOutOfRange | NonPositivePrice | NoLedger
    | NonPositiveCash | DifferentCapital | PriceRequired

  datatype Execution = Execution(order: Order, duplicate: bool)

  datatype Terms = Terms(costModel: (real, Side) -> real, slippageBps: real)

  function Complaint(intent: Intent, risk: Decision, marketPrice: real): Option<Error> {
    if intent.orderType != Market then Some(NotMarket)
    else if risk.intentId != intent.id then Some(ForeignDecision)
    else if risk.outcome == Rejected then Some(NotApproved)
    else if risk.quantity <= 0.0 || risk.quantity > intent.quantity then Some(ApprovedQuantityOutOfRange)
    else if marketPrice <= 0.0 then Some(NonPositivePrice)
    else None
  }

  /** The first order of an account under an idempotency key. */
  function OrderOf(orders: seq<Order>, account: int, key: int): Option<Order> {
    if orders == [] then None
    else
      var earlier, last := OrderOf(orders[..|orders| - 1], account, key), orders[|orders| - 1];
      if earlier.Some? then earlier else if last.account == account && last.key == key then Some(last) else None
  }

  function FillPrice(terms: Terms, side: Side, marketPrice: real): real {
    marketPrice * (1.0 + Signed(side, 1.0) * terms.slippageBps / 10000.0)
  }

  function Charges(terms: Terms, amount: real, side: Side): real {
    terms.costModel(amount, side)
  }

  function Filled(terms: Terms, intent: Intent, risk: Decision, marketPrice: real): Order {
    var price := FillPrice(terms, intent.side, marketPrice);
    Order(intent.account, intent.instrument, intent.id, intent.idempotencyKey, intent.side, risk.quantity, price,
          Charges(terms, Notional(price, risk.quantity), intent.side))
  }

  /** The answer to an execution, and the books after it. */
  function Execute(b: Books, terms: Terms, intent: Intent, risk: Decision, marketPrice: real): (Result<Execution, Error>, Books) {
    var complaint := Complaint(intent, risk, marketPrice);
    if complaint.Some? then (Failure(complaint.value), b)
    else
      var existing := OrderOf(b.orders, intent.account, intent.idempotencyKey);
      if existing.Some? then (Success(Execution(existing.value, true)), b)
      else if intent.account !in b.ledgers then (Failure(NoLedger), b)
      else
        var o := Filled(terms, intent, risk, marketPrice);
        (Success(Execution(o, false)), Post(b, o))
  }

  /** The books after an order is filled. */
  function Post(b: Books, o: Order): Books
    requires o.account in b.ledgers && o.quantity != 0.0
  {
    var ledger := b.ledgers[o.account];
    var flow := if o.side == Buy then -Notional(o.price, o.quantity) else Notional(o.price, o.quantity);
    Books(b.ledgers[o.account := ledger.(cash := ledger.cash + (flow - o.charges))],
          b.orders + [o],
          Posted(b.positions, o.account, o.instrument, Signed(o.side, o.quantity), o.price, o.charges))
  }

  function Initialize(b: Books, account: int, initialCash: real): (Option<Error>, Books) {
    if initialCash <= 0.0 then (Some(NonPositiveCash), b)
    else if account !in b.ledgers then (None, b.(ledgers := b.ledgers[account := Ledger(initialCash, initialCash, initialCash)]))
    else if b.ledgers[account].initialCash != initialCash then (Some(DifferentCapital), b)
    else (None, b)
  }

  // ----- the conservation law -------------------------------------------------------------------

  ghost predicate AccountBalanced(b: Books, account: int)
    requires account in b.ledgers
  {
    b.ledgers[account].cash == b.ledgers[account].initialCash + Contributed(b.positions, account)
  }

  ghost predicate KeysDistinct(orders: seq<Order>) {
    forall i, j :: 0 <= i < j < |orders| ==> !(orders[i].account == orders[j].account && orders[i].key == orders[j].key)
  }

  /** In every account, cash is the initial cash plus all that its positions have contributed. */
  ghost predicate Balanced(b: Books) {
    && (forall account :: account in b.ledgers ==> AccountBalanced(b, account))
    && (forall account :: account in b.ledgers ==> b.ledgers[account].initialCash > 0.0 && b.ledgers[account].peakEquity > 0.0)
    && (forall i :: 0 <= i < |b.positions| ==> b.positions[i].account in b.ledgers)
    && (forall i :: 0 <= i < |b.orders| ==> b.orders[i].account in b.ledgers)
    && KeysDistinct(b.orders)
  }

  lemma {:induction false} OrderOfExact(orders: seq<Order>, account: int, key: int)
    ensures OrderOf(orders, account, key).None? <==>
              forall i :: 0 <= i < |orders| ==> !(orders[i].account == account && orders[i].key == key)
  {
    if orders != [] {
      OrderOfExact(orders[..|orders| - 1], account, key);
    }
  }

  lemma {:induction false} CashFlow(o: Order)
    ensures (if o.side == Buy then -Notional(o.price, o.quantity) else Notional(o.price, o.quantity)) == -(Signed(o.side, o.quantity) * o.price)
  {
  }

  lemma {:induction false} PostBalanced(b: Books, o: Order)
    requires Balanced(b) && o.account in b.ledgers && o.quantity != 0.0 && OrderOf(b.orders, o.account, o.key).None?
    ensures Balanced(Post(b, o))
  {
    hide Contributed, RowAt, OrderOf;
    var after := Post(b, o);
    CashFlow(o);
    forall account | account in after.ledgers ensures AccountBalanced(after, account) {
      hide Posted;
      assert AccountBalanced(b, account);
      PostedConserves(b.positions, o.account, o.instrument, Signed(o.side, o.quantity), o.price, o.charges, account);
    }
    PostedAccounts(b, o);
    OrderOfExact(b.orders, o.account, o.key);
  }

  lemma {:induction false} PostedAccounts(b: Books, o: Order)
    requires Balanced(b) && o.account in b.ledgers && o.quantity != 0.0
    ensures forall i :: 0 <= i < |Post(b, o).positions| ==> Post(b, o).positions[i].account in b.ledgers
  {
    hide Contributed, Fill;
    var i := RowAt(b.positions, o.account, o.instrument);
    if i < |b.positions| {
      FillAccount(b.positions[i], Signed(o.side, o.quantity), o.price, o.charges);
    }
  }

  lemma {:induction false} ExecuteBalanced(b: Books, terms: Terms, intent: Intent, risk: Decision, marketPrice: real)
    requires Balanced(b)
    ensures Balanced(Execute(b, terms, intent, risk, marketPrice).1)
  {
    hide Balanced, Post, OrderOf, FillPrice;
    var o := Filled(terms, intent, risk, marketPrice);
    if Complaint(intent, risk, marketPrice).None? && OrderOf(b.orders, intent.account, intent.idempotencyKey).None?
       && intent.account in b.ledgers
    {
      PostBalanced(b, o);
    }
  }

  lemma {:induction false} InitializeBalanced(b: Books, account: int, initialCash: real)
    requires Balanced(b)
    ensures Balanced(Initialize(b, account, initialCash).1)
  {
    hide Contributed;
    var after := Initialize(b, account, initialCash).1;
    if account !in b.ledgers {
      ContributedNothing(b.positions, account);
    }
    forall other | other in after.ledgers ensures AccountBalanced(after, other) {
      assert other in b.ledgers ==> AccountBalanced(b, other);
    }
  }

  // ----- idempotency ----------------------------------------------------------------------------

  /**
   * A key that was ever executed changes nothing again, whatever the intent now asks and the market now says,
   * and answers with the order it made.
   */
  lemma {:induction false} RepeatedKeyChangesNothing(
    b: Books, terms: Terms, intent: Intent, risk: Decision, marketPrice: real, again: Intent, decision: Decision, price: real)
    requires Execute(b, terms, intent, risk, marketPrice).0.Success?
    requires again.account == intent.account && again.idempotencyKey == intent.idempotencyKey
    requires Complaint(again, decision, price).None?
    ensures var (first, after) := Execute(b, terms, intent, risk, marketPrice);
            Execute(after, terms, again, decision, price) == (Success(Execution(first.value.order, true)), after)
  {
    hide FillPrice, Posted, Complaint;
    var o := Filled(terms, intent, risk, marketPrice);
    if OrderOf(b.orders, intent.account, intent.idempotencyKey).None? {
      assert (b.orders + [o])[..|b.orders|] == b.orders;
    }
  }

  // ----- risk-approved fills --------------------------------------------------------------------

  /** What the risk engine lets through, the broker never refuses. */
  lemma {:induction false} ApprovalsAreExecutable(r: Request, marketPrice: real)
    requires r.intent.Valid() && Allowed(Decide(r)) && r.intent.orderType == Market && marketPrice > 0.0
    ensures Complaint(r.intent, Decide(r), marketPrice).None?
  {
    if r.intent.isExit {
      ExitWithinPosition(r);
    } else {
      ApprovedWithinCeilings(r);
    }
    hide LocksOn, LOCKS, Exceeded, Sized;
  }

  /** One exit: evaluated on the position as it is, then filled. */
  function ExitStep(p: Position, r: Request, price: real, charges: real): Position {
    var d := Decide(r);
    if !Allowed(d) || d.quantity == 0.0 then p else Fill(p, Signed(r.intent.side, d.quantity), price, charges)
  }

  datatype ExitFill = ExitFill(request: Request, price: real, charges: real)

  function ExitRun(p: Position, fills: seq<ExitFill>): Position {
    if fills == [] then p
    else
      var f := fills[|fills| - 1];
      ExitStep(ExitRun(p, fills[..|fills| - 1]), f.request, f.price, f.charges)
  }

  /** Every exit of a run was evaluated on the position it was filled into. */
  ghost predicate FreshExits(p: Position, fills: seq<ExitFill>) {
    forall i :: 0 <= i < |fills| ==>
      && fills[i].request.intent.Valid() && fills[i].request.intent.isExit
      && fills[i].request.context.positionQuantity == ExitRun(p, fills[..i]).quantity
  }

  ghost predicate BetweenZeroAnd(x: real, whole: real) {
    0.0 <= x <= whole || whole <= x <= 0.0
  }

  lemma {:induction false} ExitStepShrinks(p: Position, f: ExitFill)
    requires f.request.intent.Valid() && f.request.intent.isExit && f.request.context.positionQuantity == p.quantity
    ensures BetweenZeroAnd(ExitStep(p, f.request, f.price, f.charges).quantity, p.quantity)
  {
    hide Decide, Fill;
    var d := Decide(f.request);
    if Allowed(d) {
      ExitWithinPosition(f.request);
      ExitShrinks(p, Signed(f.request.intent.side, d.quantity), f.price, f.charges);
    }
  }

  /** No run of approved exits ever enlarges a position or turns it over. */
  lemma {:induction false} ExitsNeverEnlarge(p: Position, fills: seq<ExitFill>)
    requires FreshExits(p, fills)
    ensures BetweenZeroAnd(ExitRun(p, fills).quantity, p.quantity)
  {
    hide ExitStep;
    if fills != [] {
      var front := fills[..|fills| - 1];
      assert forall i :: 0 <= i < |front| ==> front[..i] == fills[..i] && front[i] == fills[i];
      ExitsNeverEnlarge(p, front);
      ExitStepShrinks(ExitRun(p, front), fills[|fills| - 1]);
    }
  }

  // ----- exits through the broker ---------------------------------------------------------------

  /** How much of an instrument an account holds by the books. */
  function Held(positions: seq<Position>, account: int, instrument: int): real {
    var i := RowAt(positions, account, instrument);
    if i < |positions| then positions[i].quantity else 0.0
  }

  /** Only the row of one account and instrument answers for it. */
  lemma {:induction false} RowAtFirst(positions: seq<Position>, account: int, instrument: int, i: nat)
    requires i <= |positions|
    requires i < |positions| ==> positions[i].account == account && positions[i].instrument == instrument
    requires forall j :: 0 <= j < i ==> !(positions[j].account == account && positions[j].instrument == instrument)
    ensures RowAt(positions, account, instrument) == i
  {
    hide RowAt;
  }

  /** A fill moves the holding it is posted to by its size, and no other. */
  lemma {:induction false} PostedHeld(
    positions: seq<Position>, account: int, instrument: int, delta: real, price: real, charges: real, other: int, what: int)
    requires delta != 0.0
    ensures Held(Posted(positions, account, instrument, delta, price, charges), other, what) ==
            Held(positions, other, what) + (if other == account && what == instrument then delta else 0.0)
  {
    hide RowAt, Fill;
    var after := Posted(positions, account, instrument, delta, price, charges);
    var i, k := RowAt(positions, account, instrument), RowAt(positions, other, what);
    if i < |positions| {
      FillAccount(positions[i], delta, price, charges);
      RowAtFirst(after, other, what, k);
    } else if other == account && what == instrument {
      RowAtFirst(after, other, what, i);
    } else {
      RowAtFirst(after, other, what, if k < |positions| then k else |after|);
    }
  }

  /** A request the broker is asked to fill, at a market price, once the risk engine has judged it. */
  datatype Submission = Submission(request: Request, marketPrice: real)

  function Submit(b: Books, terms: Terms, x: Submission): Books {
    Execute(b, terms, x.request.intent, Decide(x.request), x.marketPrice).1
  }

  function SubmitAll(b: Books, terms: Terms, xs: seq<Submission>): Books {
    if xs == [] then b else Submit(SubmitAll(b, terms, xs[..|xs| - 1]), terms, xs[|xs| - 1])
  }

  predicate Touches(x: Submission, account: int, instrument: int) {
    x.request.intent.account == account && x.request.intent.instrument == instrument
  }

  /** Whatever is submitted for this holding is an exit, judged on the holding as the books show it then. */
  ghost predicate ExitsOnly(b: Books, terms: Terms, xs: seq<Submission>, account: int, instrument: int) {
    forall i :: 0 <= i < |xs| && Touches(xs[i], account, instrument) ==>
      ExitOf(xs[i].request, Held(SubmitAll(b, terms, xs[..i]).positions, account, instrument))
  }

  predicate ExitOf(r: Request, held: real) {
    r.intent.Valid() && r.intent.isExit && r.context.positionQuantity == held
  }

  /** What one submission does to one holding: nothing, or its approved quantity. */
  lemma {:induction false} SubmitHeld(b: Books, terms: Terms, x: Submission, account: int, instrument: int)
    ensures var before, after := Held(b.positions, account, instrument), Held(Submit(b, terms, x).positions, account, instrument);
            || after == before
            || (Touches(x, account, instrument) && Allowed(Decide(x.request))
                && after == before + Signed(x.request.intent.side, Decide(x.request).quantity))
  {
    hide Decide, Held, Posted, OrderOf, FillPrice, Charges;
    var intent, d := x.request.intent, Decide(x.request);
    if Submit(b, terms, x) != b {
      var o := Filled(terms, intent, d, x.marketPrice);
      PostedHeld(b.positions, o.account, o.instrument, Signed(o.side, o.quantity), o.price, o.charges, account, instrument);
    }
  }

  lemma {:induction false} ExitHeldShrinks(r: Request, held: real)
    requires ExitOf(r, held) && Allowed(Decide(r))
    ensures BetweenZeroAnd(held + Signed(r.intent.side, Decide(r).quantity), held)
  {
    hide Decide;
    ExitWithinPosition(r);
  }

  /**
   * Over any run of submissions, to any accounts and instruments, accepted, refused or repeated: a holding for which
   * only approved exits are submitted, each judged on it as it stands, is never enlarged or turned over.
   */
  lemma {:induction false} BrokerExitsNeverEnlarge(b: Books, terms: Terms, xs: seq<Submission>, account: int, instrument: int)
    requires ExitsOnly(b, terms, xs, account, instrument)
    ensures BetweenZeroAnd(Held(SubmitAll(b, terms, xs).positions, account, instrument), Held(b.positions, account, instrument))
  {
    hide Submit, Held, Decide, ExitOf;
    if xs != [] {
      var front, x := xs[..|xs| - 1], xs[|xs| - 1];
      assert forall i :: 0 <= i < |front| ==> front[..i] == xs[..i] && front[i] == xs[i];
      BrokerExitsNeverEnlarge(b, terms, front, account, instrument);
      var before := SubmitAll(b, terms, front);
      SubmitHeld(before, terms, x, account, instrument);
      if Touches(x, account, instrument) && Allowed(Decide(x.request)) {
        ExitHeldShrinks(x.request, Held(before.positions, account, instrument));
      }
    }
  }

  // ----- exits judged on one snapshot -----------------------------------------------------------

  /** All that a list of exits, each approved on the same snapshot of the position, sells or buys back. */
  function ApprovedTotal(requests: seq<ExitFill>): real {
    if requests == [] then 0.0
    else ApprovedTotal(requests[..|requests| - 1]) + Decide(requests[|requests| - 1].request).quantity
  }

  ghost predicate StaleExits(p: Position, fills: seq<ExitFill>) {
    forall i :: 0 <= i < |fills| ==>
      && fills[i].request.intent.Valid() && fills[i].request.intent.isExit && Allowed(Decide(fills[i].request))
      && fills[i].request.context.positionQuantity == p.quantity
  }

  lemma {:induction false} StaleRun(p: Position, fills: seq<ExitFill>)
    requires StaleExits(p, fills) && p.quantity != 0.0
    ensures ApprovedTotal(fills) >= 0.0
    ensures ExitRun(p, fills).quantity == p.quantity - (if p.quantity > 0.0 then ApprovedTotal(fills) else -ApprovedTotal(fills))
  {
    hide Decide, Fill;
    if fills != [] {
      var front, f := fills[..|fills| - 1], fills[|fills| - 1];
      StaleRun(p, front);
      ExitWithinPosition(f.request);
      FillAccount(ExitRun(p, front), Signed(f.request.intent.side, Decide(f.request).quantity), f.price, f.charges);
    }
  }

  /**
   * Exits all approved on one snapshot, before any of them fills, keep to the position exactly when together
   * they do not exceed it: the engine checks each against the whole position.
   */
  lemma {:induction false} StaleExitsExact(p: Position, fills: seq<ExitFill>)
    requires StaleExits(p, fills) && p.quantity != 0.0
    ensures BetweenZeroAnd(ExitRun(p, fills).quantity, p.quantity) <==> ApprovedTotal(fills) <= Abs(p.quantity)
  {
    hide ApprovedTotal, ExitRun;
    StaleRun(p, fills);
  }

  /** An account holding ten units, and an order to sell all ten. */
  function Holder(): Position {
    Position(1, 1, 10.0, 100.0, 0.0)
  }

  function SellAll(id: int): ExitFill {
    var context := Context(
      0.0, 1000.0, 0.0, 1, 1000.0, 10.0, 0.0, 99.0, 101.0, true, true, true, false, false, 0.0, 0.0, 1000.0, 1000.0, 0, 0, 0.0, 0.0,
      0.0, None, true, 0.0, 0.0, 0.0, 0.0, 0.0, 0.0);
    var limits := Limits(0.1, 0.1, 5, 1.0, 5, 500.0, 0.1, 0.5, 1.0, 1.0, 10, 3, 1.0, 1.0, 10.0, 1.0, 1.0, 1.0);
    ExitFill(Request(Intent(id, id, 1, 1, Sell, Market, 10.0, true), context, limits, 100.0, None), 100.0, 0.0)
  }

  /** Two such orders, both approved before either fills, leave the account ten units short. */
  lemma {:induction false} StaleExitsCanFlip()
    ensures StaleExits(Holder(), [SellAll(1), SellAll(2)])
    ensures ExitRun(Holder(), [SellAll(1), SellAll(2)]).quantity == -10.0
  {
    var fills := [SellAll(1), SellAll(2)];
    SellAllApproved(1);
    SellAllApproved(2);
    assert fills[..1] == [SellAll(1)] && fills[..1][..0] == [];
    hide Decide, SellAll;
    TwoTotal(fills);
    StaleRun(Holder(), fills);
  }

  lemma {:induction false} SellAllApproved(id: int)
    ensures SellAll(id).request.intent.Valid() && SellAll(id).request.intent.isExit
    ensures Allowed(Decide(SellAll(id).request)) && Decide(SellAll(id).request).quantity == 10.0
    ensures SellAll(id).request.context.positionQuantity == 10.0
  {
    hide LocksOn, LOCKS;
  }

  lemma {:induction false} TwoTotal(fills: seq<ExitFill>)
    requires |fills| == 2
    ensures ApprovedTotal(fills) == Decide(fills[0].request).quantity + Decide(fills[1].request).quantity
  {
    hide Decide;
    var one := fills[..1];
    assert one[..0] == [] && one[0] == fills[0];
    assert ApprovedTotal(one) == ApprovedTotal(one[..0]) + Decide(one[0].request).quantity;
  }
}
