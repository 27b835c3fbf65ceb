/** The order lifecycle: a transition table under idempotent, fail-closed event handling. */
module OrderStateMachine {
  import opened Domain

  datatype Status =
    | Created | RiskPending | RiskRejected | Approved | Submitting | Submitted | Acknowledged
    | PartiallyFilled | Filled | CancelPending | Cancelled | Rejected | Expired | ReconciliationRequired

  datatype EventType =
    | RiskRequested | RiskApproval | RiskRejection | SubmitStarted | SubmitConfirmed | SubmissionUnknown
    | BrokerAcknowledged | Fill | CancelRequested | CancelConfirmed | BrokerRejected | ExpiredEvent

  datatype Reason = OutOfOrderEvent | ConflictingBrokerOrderId | Overfill | SubmissionOutcomeUnknown

  /** Quantities are whole units of 0.00000001, the smallest the store's columns keep. */
  datatype OrderEvent = OrderEvent(id: int, kind: EventType, occurredAt: int, fill: int, brokerId: Option<int>)
  {
    /** What the event's own constructor demands. */
    predicate Valid() {
      fill >= 0 && (kind == Fill <==> fill > 0)
    }
  }

  datatype OrderState = OrderState(
    orderId: int,
    quantity: int,
    status: Status,
    filled: int,
    brokerId: Option<int>,
    lastEventAt: int,
    processed: set<int>,
    version: int,
    reason: Option<Reason>)

  datatype Error = NonPositiveQuantity | InvalidFill | InvalidTransition

  function Initial(orderId: int, quantity: int, createdAt: int): Result<OrderState, Error> {
    if quantity <= 0 then Failure(NonPositiveQuantity)
    else Success(OrderState(orderId, quantity, Created, 0, None, createdAt, {}, 0, None))
  }

  function Transition(status: Status, kind: EventType): Option<Status> {
    match (status, kind)
    case (Created, RiskRequested) => Some(RiskPending)
    case (RiskPending, RiskApproval) => Some(Approved)
    case (RiskPending, RiskRejection) => Some(RiskRejected)
    case (Approved, SubmitStarted) => Some(Submitting)
    case (Submitting, SubmitConfirmed) => Some(Submitted)
    case (Submitting, SubmissionUnknown) => Some(ReconciliationRequired)
    case (Submitted, BrokerAcknowledged) => Some(Acknowledged)
    case (Submitted, BrokerRejected) => Some(Rejected)
    case (Acknowledged, BrokerRejected) => Some(Rejected)
    case (Submitted, CancelRequested) => Some(CancelPending)
    case (Acknowledged, CancelRequested) => Some(CancelPending)
    case (PartiallyFilled, CancelRequested) => Some(CancelPending)
    case (CancelPending, CancelConfirmed) => Some(Cancelled)
    case (Submitted, ExpiredEvent) => Some(Expired)
    case (Acknowledged, ExpiredEvent) => Some(Expired)
    case _ => None
  }

  predicate Fillable(status: Status) {
    status in {Submitted, Acknowledged, PartiallyFilled, CancelPending}
  }

  function RequiresReconciliation(s: OrderState, e: OrderEvent, reason: Reason): OrderState {
    s.(status := ReconciliationRequired,
       lastEventAt := MaxInt(s.lastEventAt, e.occurredAt),
       processed := s.processed + {e.id},
       version := s.version + 1,
       reason := Some(reason))
  }

  function Accept(s: OrderState, e: OrderEvent, status: Status, filled: int, brokerId: Option<int>): OrderState {
    s.(status := status,
       filled := filled,
       brokerId := brokerId,
       lastEventAt := e.occurredAt,
       processed := s.processed + {e.id},
       version := s.version + 1,
       reason := if status == ReconciliationRequired then Some(SubmissionOutcomeUnknown) else s.reason)
  }

  function Apply(s: OrderState, e: OrderEvent): Result<OrderState, Error> {
    if e.id in s.processed then Success(s)
    else if e.occurredAt < s.lastEventAt then Success(RequiresReconciliation(s, e, OutOfOrderEvent))
    else if e.brokerId.Some? && s.brokerId.Some? && s.brokerId != e.brokerId then
      Success(RequiresReconciliation(s, e, ConflictingBrokerOrderId))
    else
      var brokerId := if e.brokerId.Some? then e.brokerId else s.brokerId;
      if e.kind == Fill then
        if !Fillable(s.status) then Failure(InvalidFill)
        else if s.filled + e.fill > s.quantity then Success(RequiresReconciliation(s, e, Overfill))
        else
          Success(Accept(s, e, if s.filled + e.fill == s.quantity then Filled else PartiallyFilled, s.filled + e.fill, brokerId))
      else
        match Transition(s.status, e.kind)
        case None => Failure(InvalidTransition)
        case Some(target) => Success(Accept(s, e, target, s.filled, brokerId))
  }

  // ----- runs -----------------------------------------------------------------------------------

  /** The state after an event: an event that raises leaves the order as it was. */
  function After(s: OrderState, e: OrderEvent): OrderState {
    match Apply(s, e)
    case Success(next) => next
    case Failure(_) => s
  }

  /** The state after a whole delivery of events, good and bad. */
  function Run(s: OrderState, events: seq<OrderEvent>): OrderState {
    if events == [] then s else After(Run(s, events[..|events| - 1]), events[|events| - 1])
  }

  /** The event moved the order along its lifecycle: neither repeated, nor refused, nor reason to reconcile. */
  predicate Advances(s: OrderState, e: OrderEvent) {
    var next := After(s, e);
    e.id !in s.processed && Apply(s, e).Success? && s.status != ReconciliationRequired
    && (next.status != ReconciliationRequired || next.reason == Some(SubmissionOutcomeUnknown))
  }

  /** How many events of a kind moved the order along. */
  function Advanced(s: OrderState, events: seq<OrderEvent>, kind: EventType): nat {
    if events == [] then 0
    else
      var front, e := events[..|events| - 1], events[|events| - 1];
      Advanced(s, front, kind) + (if e.kind == kind && Advances(Run(s, front), e) then 1 else 0)
  }

  /** All the quantity those events filled. */
  function Fills(s: OrderState, events: seq<OrderEvent>): int {
    if events == [] then 0
    else
      var front, e := events[..|events| - 1], events[|events| - 1];
      Fills(s, front) + (if Advances(Run(s, front), e) then e.fill else 0)
  }

  function Moves(s: OrderState, events: seq<OrderEvent>): nat {
    if events == [] then 0
    else
      var front, e := events[..|events| - 1], events[|events| - 1];
      Moves(s, front) + (if Advances(Run(s, front), e) then 1 else 0)
  }

  ghost predicate Delivery(events: seq<OrderEvent>) {
    forall i :: 0 <= i < |events| ==> events[i].Valid()
  }

  predicate AtBroker(status: Status) {
    status in {Submitted, Acknowledged, PartiallyFilled, Filled, CancelPending, Cancelled, Rejected, Expired}
  }

  ghost predicate LawfulAmounts(s: OrderState) {
    && s.quantity > 0 && 0 <= s.filled <= s.quantity
    && (s.status == Filled ==> s.filled == s.quantity)
    && (s.status == PartiallyFilled ==> 0 < s.filled < s.quantity)
    && (s.status in {CancelPending, Cancelled} ==> s.filled < s.quantity)
    && (!(s.status in {PartiallyFilled, Filled, CancelPending, Cancelled, ReconciliationRequired}) ==> s.filled == 0)
  }

  /** What holds of every order at every moment. */
  ghost predicate Lawful(s: OrderState) {
    && LawfulAmounts(s)
    && s.version == |s.processed|
    && (s.status == ReconciliationRequired <==> s.reason.Some?)
  }

  lemma {:induction false} AfterAmounts(s: OrderState, e: OrderEvent)
    requires LawfulAmounts(s) && e.Valid()
    ensures LawfulAmounts(After(s, e)) && After(s, e).quantity == s.quantity && After(s, e).orderId == s.orderId
  {
  }

  /** An event is recorded once, and only if it does something. */
  lemma {:induction false} AfterRecorded(s: OrderState, e: OrderEvent)
    ensures var t := After(s, e);
            if t == s then true else e.id !in s.processed && t.processed == s.processed + {e.id} && t.version == s.version + 1
    ensures After(s, e) == s <==> e.id in s.processed || Apply(s, e).Failure?
  {
  }

  lemma {:induction false} AfterReason(s: OrderState, e: OrderEvent)
    requires s.status == ReconciliationRequired <==> s.reason.Some?
    ensures After(s, e).status == ReconciliationRequired <==> After(s, e).reason.Some?
  {
  }

  lemma {:induction false} AfterLawful(s: OrderState, e: OrderEvent)
    requires Lawful(s) && e.Valid()
    ensures Lawful(After(s, e)) && After(s, e).quantity == s.quantity && After(s, e).orderId == s.orderId
  {
    hide After, LawfulAmounts, Apply;
    AfterAmounts(s, e);
    AfterRecorded(s, e);
    AfterReason(s, e);
  }

  /** Only a move along the lifecycle changes the filled quantity, by exactly the event's fill. */
  lemma {:induction false} AfterFilled(s: OrderState, e: OrderEvent)
    requires Lawful(s) && e.Valid()
    ensures After(s, e).filled == s.filled + (if Advances(s, e) then e.fill else 0)
  {
  }

  /** Over every delivery: the laws of the state, and the filled quantity as the sum of the fills that counted. */
  lemma {:induction false} RunLawful(s: OrderState, events: seq<OrderEvent>)
    requires Lawful(s) && Delivery(events)
    ensures Lawful(Run(s, events)) && Run(s, events).quantity == s.quantity && Run(s, events).orderId == s.orderId
    ensures Run(s, events).filled == s.filled + Fills(s, events)
  {
    hide Lawful, After, Advances;
    if events != [] {
      var front, e := events[..|events| - 1], events[|events| - 1];
      RunLawful(s, front);
      AfterLawful(Run(s, front), e);
      AfterFilled(Run(s, front), e);
    }
  }

  lemma {:induction false} InitialLawful(orderId: int, quantity: int, createdAt: int)
    ensures Initial(orderId, quantity, createdAt).Success? <==> quantity > 0
    ensures quantity > 0 ==> Lawful(Initial(orderId, quantity, createdAt).value)
  {
  }

  // ----- what is never rewritten ----------------------------------------------------------------

  lemma {:induction false} AfterKeeps(s: OrderState, e: OrderEvent)
    requires LawfulAmounts(s) && e.Valid()
    ensures var t := After(s, e);
            && s.lastEventAt <= t.lastEventAt && s.filled <= t.filled
            && (s.brokerId.Some? ==> t.brokerId == s.brokerId)
            && (s.status == ReconciliationRequired ==> t.status == ReconciliationRequired && t.filled == s.filled)
  {
  }

  lemma {:induction false} AmountsOf(s: OrderState)
    requires Lawful(s)
    ensures LawfulAmounts(s)
  {
  }

  /** Later deliveries only add: a broker id once set stays, and reconciliation, once required, stays required. */
  lemma {:induction false} RunMonotone(s: OrderState, events: seq<OrderEvent>, n: nat)
    requires Lawful(s) && Delivery(events) && n <= |events|
    ensures var a, z := Run(s, events[..n]), Run(s, events);
            && a.processed <= z.processed && a.version <= z.version && a.lastEventAt <= z.lastEventAt && a.filled <= z.filled
            && (a.brokerId.Some? ==> z.brokerId == a.brokerId)
            && (a.status == ReconciliationRequired ==> z.status == ReconciliationRequired && z.filled == a.filled)
    decreases |events|
  {
    hide Lawful, After, LawfulAmounts, Apply;
    if n == |events| {
      assert events[..n] == events;
    } else {
      var front, e := events[..|events| - 1], events[|events| - 1];
      assert front[..n] == events[..n];
      RunMonotone(s, front, n);
      RunLawful(s, front);
      AmountsOf(Run(s, front));
      AfterRecorded(Run(s, front), e);
      AfterKeeps(Run(s, front), e);
    }
  }

  lemma {:induction false} RunAppend(s: OrderState, events: seq<OrderEvent>, e: OrderEvent)
    ensures Run(s, events + [e]) == After(Run(s, events), e)
  {
    hide After;
    assert (events + [e])[..|events|] == events;
  }

  /** Delivering an event again, at any later point, changes nothing. */
  lemma {:induction false} RedeliveryHarmless(s: OrderState, a: seq<OrderEvent>, e: OrderEvent, z: seq<OrderEvent>)
    requires e.id in Run(s, a).processed
    ensures Run(s, a + [e] + z) == Run(s, a + z)
    decreases |z|
  {
    hide Run, After, Apply;
    if z == [] {
      assert a + [e] + z == a + [e] && a + z == a;
      RunAppend(s, a, e);
      AfterRecorded(Run(s, a), e);
    } else {
      var front, last := z[..|z| - 1], z[|z| - 1];
      RedeliveryHarmless(s, a, e, front);
      assert a + [e] + z == (a + [e] + front) + [last] && a + z == (a + front) + [last];
      RunAppend(s, a + [e] + front, last);
      RunAppend(s, a + front, last);
    }
  }

  // ----- one approval, one submission -----------------------------------------------------------

  /** How the counts of approvals and submissions follow the status. */
  ghost predicate Counted(s: OrderState, approvals: nat, submissions: nat) {
    && approvals <= 1 && submissions <= approvals
    && (s.status in {Created, RiskPending, RiskRejected} ==> approvals == 0)
    && (s.status == Approved ==> approvals == 1 && submissions == 0)
    && (s.status == Submitting || AtBroker(s.status) ==> submissions == 1)
    && (s.filled > 0 ==> submissions == 1)
  }

  lemma {:induction false} AfterCounted(s: OrderState, e: OrderEvent, approvals: nat, submissions: nat)
    requires Lawful(s) && e.Valid() && Counted(s, approvals, submissions)
    ensures Counted(After(s, e),
                    approvals + (if e.kind == RiskApproval && Advances(s, e) then 1 else 0),
                    submissions + (if e.kind == SubmitStarted && Advances(s, e) then 1 else 0))
  {
  }

  /** An order at the broker, or with anything filled, was risk-approved exactly once and submitted exactly once. */
  lemma {:induction false} ApprovedOnceSubmittedOnce(orderId: int, quantity: int, createdAt: int, events: seq<OrderEvent>)
    requires quantity > 0 && Delivery(events)
    ensures var s := Initial(orderId, quantity, createdAt).value;
            Counted(Run(s, events), Advanced(s, events, RiskApproval), Advanced(s, events, SubmitStarted))
  {
    var s := Initial(orderId, quantity, createdAt).value;
    if events != [] {
      hide Lawful, After, Advances, Counted;
      var front, e := events[..|events| - 1], events[|events| - 1];
      InitialLawful(orderId, quantity, createdAt);
      ApprovedOnceSubmittedOnce(orderId, quantity, createdAt, front);
      RunLawful(s, front);
      AfterCounted(Run(s, front), e, Advanced(s, front, RiskApproval), Advanced(s, front, SubmitStarted));
    }
  }

  // ----- every lifecycle ends -------------------------------------------------------------------

  function Rank(status: Status): nat {
    match status
    case Created => 7
    case RiskPending => 6
    case Approved => 5
    case Submitting => 4
    case Submitted => 3
    case Acknowledged => 2
    case PartiallyFilled => 2
    case CancelPending => 1
    case _ => 0
  }

  /** What is left to happen: the unfilled quantity, then the rank of the status. */
  function Remaining(s: OrderState): int {
    2 * (s.quantity - s.filled) + Rank(s.status)
  }

  lemma {:induction false} AdvanceDecreases(s: OrderState, e: OrderEvent)
    requires Lawful(s) && e.Valid()
    ensures Advances(s, e) ==>
              After(s, e).filled > s.filled || (After(s, e).filled == s.filled && Rank(After(s, e).status) < Rank(s.status))
    ensures Advances(s, e) ==> Remaining(After(s, e)) < Remaining(s)
    ensures !Advances(s, e) ==> Remaining(After(s, e)) <= Remaining(s)
  {
  }

  /** No delivery, however long, moves an order along more than `2 * quantity + 7` times. */
  lemma {:induction false} LifecycleEnds(s: OrderState, events: seq<OrderEvent>)
    requires Lawful(s) && Delivery(events)
    ensures Moves(s, events) + Remaining(Run(s, events)) <= Remaining(s)
    ensures Moves(s, events) <= 2 * s.quantity + 7
  {
    hide After, Advances;
    if events != [] {
      var front, e := events[..|events| - 1], events[|events| - 1];
      LifecycleEnds(s, front);
      RunLawful(s, front);
      AdvanceDecreases(Run(s, front), e);
    }
    RunLawful(s, events);
  }

  // ----- exactly when an order must be reconciled ------------------------------------------------

  /** The three observations no order survives, and the one broker event that says so itself. */
  ghost predicate Ambiguous(s: OrderState, e: OrderEvent) {
    && e.id !in s.processed
    && (|| e.occurredAt < s.lastEventAt
        || (e.brokerId.Some? && s.brokerId.Some? && e.brokerId != s.brokerId)
        || (e.kind == Fill && Fillable(s.status) && s.filled + e.fill > s.quantity)
        || (e.kind == SubmissionUnknown && s.status == Submitting))
  }

  ghost predicate SomeAmbiguous(s: OrderState, events: seq<OrderEvent>) {
    exists i :: 0 <= i < |events| && Ambiguous(Run(s, events[..i]), events[i])
  }

  lemma {:induction false} SomeAmbiguousStep(s: OrderState, events: seq<OrderEvent>)
    requires events != []
    ensures var front, e := events[..|events| - 1], events[|events| - 1];
            SomeAmbiguous(s, events) <==> SomeAmbiguous(s, front) || Ambiguous(Run(s, front), e)
  {
    hide Run, Ambiguous;
    var front := events[..|events| - 1];
    assert forall i :: 0 <= i < |front| ==> front[..i] == events[..i] && front[i] == events[i];
    if SomeAmbiguous(s, front) {
      var i :| 0 <= i < |front| && Ambiguous(Run(s, front[..i]), front[i]);
      assert Ambiguous(Run(s, events[..i]), events[i]);
    }
    if SomeAmbiguous(s, events) {
      var i :| 0 <= i < |events| && Ambiguous(Run(s, events[..i]), events[i]);
      assert i < |front| ==> Ambiguous(Run(s, front[..i]), front[i]);
    }
  }

  /** Trading in an order stops for reconciliation exactly at the first ambiguous event. */
  lemma {:induction false} ReconciliationExact(orderId: int, quantity: int, createdAt: int, events: seq<OrderEvent>)
    requires quantity > 0 && Delivery(events)
    ensures var s := Initial(orderId, quantity, createdAt).value;
            Run(s, events).status == ReconciliationRequired <==> SomeAmbiguous(s, events)
  {
    hide After, Lawful, Ambiguous;
    var s := Initial(orderId, quantity, createdAt).value;
    if events != [] {
      var front, e := events[..|events| - 1], events[|events| - 1];
      ReconciliationExact(orderId, quantity, createdAt, front);
      InitialLawful(orderId, quantity, createdAt);
      RunLawful(s, front);
      AfterAmbiguous(Run(s, front), e);
      SomeAmbiguousStep(s, events);
    }
  }

  lemma {:induction false} AfterAmbiguous(s: OrderState, e: OrderEvent)
    requires Lawful(s) && e.Valid()
    ensures After(s, e).status == ReconciliationRequired <==> s.status == ReconciliationRequired || Ambiguous(s, e)
  {
  }
}
