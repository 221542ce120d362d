/**
 * Orders, deliveries and the dispatch-attempt log, and what each handler does to them in one atomic
 * step: auto-dispatch, rider actions, merchant moves, cancellations and the timeout jobs.
 */
module Dispatch {
  import opened Base

  datatype OrderStatus =
    | Placed | MerchantAccepted | MerchantRejected | Preparing | Ready | RiderAssigned | RiderAccepted
    | PickedUp | OnTheWay | Delivered | FailedDelivery | Cancelled

  datatype DeliveryStatus =
    | PendingAssignment | Assigned | Accepted | PickedUp | OnTheWay | Delivered | Failed

  datatype Order = Order(status: OrderStatus, pickup: bool, placedAt: int, township: Option<string>)

  datatype Delivery = Delivery(
    rider: Option<Id>, status: DeliveryStatus,
    assignedAt: Option<int>, acceptedAt: Option<int>, pickedUpAt: Option<int>, onTheWayAt: Option<int>,
    deliveredAt: Option<int>, failedAt: Option<int>, cancelledAt: Option<int>)

  datatype Outcome = PendingOutcome | TimeoutOutcome | RejectedOutcome | AcceptedOutcome | FailedOutcome

  datatype Attempt = Attempt(order: Id, rider: Id, outcome: Outcome)

  /** Deliveries are keyed by order (at most one row each); attempts are numbered in creation order. */
  datatype Tables = Tables(orders: map<Id, Order>, deliveries: map<Id, Delivery>, attempts: seq<Attempt>)

  const MAX_FAILED_ATTEMPTS := 3

  predicate IsActive(status: DeliveryStatus) {
    status.Assigned? || status.Accepted? || status.PickedUp? || status.OnTheWay?
  }

  function ActiveOrders(t: Tables, rider: Id): set<Id> {
    set o | o in t.deliveries && t.deliveries[o].rider == Some(rider) && IsActive(t.deliveries[o].status)
  }

  predicate InStatus(t: Tables, o: Id, status: OrderStatus) {
    o in t.orders && t.orders[o].status == status
  }

  predicate HasRider(t: Tables, o: Id) {
    o in t.deliveries && t.deliveries[o].rider.Some?
  }

  function SetStatus(t: Tables, o: Id, status: OrderStatus): Tables
    requires o in t.orders
  {
    t.(orders := t.orders[o := t.orders[o].(status := status)])
  }

  // ---------------------------------------------------------------------------------------------
  // Attempts
  // ---------------------------------------------------------------------------------------------

  predicate CountsAsFailure(outcome: Outcome) {
    outcome.TimeoutOutcome? || outcome.RejectedOutcome?
  }

  /** Timed-out and rejected attempts of an order. */
  function FailedCount(attempts: seq<Attempt>, o: Id): nat {
    if attempts == [] then 0
    else
      var last := attempts[|attempts| - 1];
      FailedCount(attempts[..|attempts| - 1], o)
        + (if last.order == o && CountsAsFailure(last.outcome) then 1 else 0)
  }

  /** Every rider the order was ever offered to, whatever became of the offer. */
  function Tried(attempts: seq<Attempt>, o: Id): set<Id> {
    set k | 0 <= k < |attempts| && attempts[k].order == o :: attempts[k].rider
  }

  function FirstUntried(riders: seq<Id>, tried: set<Id>): Option<Id> {
    if riders == [] then None
    else if riders[0] !in tried then Some(riders[0])
    else FirstUntried(riders[1..], tried)
  }

  /** Riders of the township first, then any eligible rider; tried riders are skipped. */
  function PickRider(matched: seq<Id>, any: seq<Id>, tried: set<Id>): Option<Id> {
    var local := FirstUntried(matched, tried);
    if local.Some? then local else FirstUntried(any, tried)
  }

  function LatestPending(attempts: seq<Attempt>, o: Id, rider: Id): Option<nat> {
    if attempts == [] then None
    else
      var n := |attempts| - 1;
      if attempts[n] == Attempt(o, rider, PendingOutcome) then Some(n)
      else LatestPending(attempts[..n], o, rider)
  }

  function Resolve(t: Tables, o: Id, rider: Id, outcome: Outcome): Tables {
    var k := LatestPending(t.attempts, o, rider);
    if k.Some? && k.value < |t.attempts|
    then t.(attempts := t.attempts[k.value := Attempt(o, rider, outcome)])
    else t
  }

  // ---------------------------------------------------------------------------------------------
  // Delivery row updates
  // ---------------------------------------------------------------------------------------------

  /** The upsert writes every milestone, so the row does not depend on what was there. */
  function FreshDelivery(rider: Id, now: int): Delivery {
    Delivery(Some(rider), Assigned, Some(now), None, None, None, None, None, None)
  }

  function RejectedRow(d: Delivery): Delivery {
    d.(rider := None, status := PendingAssignment, acceptedAt := None, pickedUpAt := None,
       onTheWayAt := None, deliveredAt := None, failedAt := None, cancelledAt := None)
  }

  function TimedOutRow(d: Delivery): Delivery {
    d.(rider := None, status := PendingAssignment, acceptedAt := None)
  }

  function CancelledRow(d: Delivery, now: int): Delivery {
    RejectedRow(d).(cancelledAt := Some(now))
  }

  // ---------------------------------------------------------------------------------------------
  // Auto-dispatch
  // ---------------------------------------------------------------------------------------------

  /** The assignment transaction commits: the rider has no active delivery and nothing else goes wrong. */
  predicate CanAssign(t: Tables, o: Id, rider: Id, healthy: bool) {
    healthy && ActiveOrders(t, rider) == {} && o in t.orders
  }

  function Assign(t: Tables, o: Id, rider: Id, now: int, healthy: bool): Tables {
    if CanAssign(t, o, rider, healthy) then
      SetStatus(t, o, RiderAssigned).(
        deliveries := t.deliveries[o := FreshDelivery(rider, now)],
        attempts := t.attempts + [Attempt(o, rider, PendingOutcome)])
    else
      t.(attempts := t.attempts + [Attempt(o, rider, FailedOutcome)])
  }

  function CancelForSystem(t: Tables, o: Id): Tables {
    if o in t.orders && t.orders[o].status != Cancelled then SetStatus(t, o, Cancelled) else t
  }

  predicate NeedsRider(t: Tables, o: Id) {
    InStatus(t, o, MerchantAccepted) && !t.orders[o].pickup && !HasRider(t, o)
  }

  /** The order and rider of the next assignment, unless the order is given up or no candidate is left. */
  function NextOffer(t: Tables, o: Id, matched: seq<Id>, any: seq<Id>): Option<(Id, Id)> {
    if FailedCount(t.attempts, o) >= MAX_FAILED_ATTEMPTS then None
    else
      var rider := PickRider(matched, any, Tried(t.attempts, o));
      if rider.None? then None else Some((o, rider.value))
  }

  function DispatchOrCancel(t: Tables, o: Id, matched: seq<Id>, any: seq<Id>, now: int, healthy: bool): Tables {
    if FailedCount(t.attempts, o) >= MAX_FAILED_ATTEMPTS then CancelForSystem(t, o)
    else
      var rider := PickRider(matched, any, Tried(t.attempts, o));
      if rider.None? then t else Assign(t, o, rider.value, now, healthy)
  }

  function AutoDispatchOrder(t: Tables, o: Id, matched: seq<Id>, any: seq<Id>, now: int, healthy: bool): Tables {
    if !NeedsRider(t, o) then t else DispatchOrCancel(t, o, matched, any, now, healthy)
  }

  /** Orders that a newly available rider may be given: accepted, for delivery, never assigned. */
  predicate NeverAssigned(t: Tables, o: Id) {
    InStatus(t, o, MerchantAccepted) && o !in t.deliveries && !t.orders[o].pickup
  }

  /** A missing or empty township does not filter. */
  function ReadyOrders(t: Tables, township: Option<string>): set<Id> {
    set o | o in t.orders && NeverAssigned(t, o) && (township.GetOr([]) == [] || t.orders[o].township == township)
  }

  /** By time of placing, then by id. */
  predicate Precedes(t: Tables, a: Id, b: Id)
    requires a in t.orders && b in t.orders
  {
    t.orders[a].placedAt < t.orders[b].placedAt || (t.orders[a].placedAt == t.orders[b].placedAt && Less(a, b))
  }

  predicate IsFirst(t: Tables, ids: set<Id>, o: Id)
    requires forall x :: x in ids ==> x in t.orders
  {
    o in ids && forall x :: x in ids && x != o ==> Precedes(t, o, x)
  }

  lemma {:induction false} FirstExists(t: Tables, ids: set<Id>)
    requires ids != {} && forall x :: x in ids ==> x in t.orders
    ensures exists o :: IsFirst(t, ids, o)
  {
    var x :| x in ids;
    if ids == {x} {
      assert IsFirst(t, ids, x);
    } else {
      var rest := ids - {x};
      assert rest + {x} == ids && rest != {};
      FirstExists(t, rest);
      var y :| IsFirst(t, rest, y);
      FirstWithOneMore(t, rest, y, x);
    }
  }

  /** The first of a set with one more: the newcomer, if it precedes. */
  lemma FirstWithOneMore(t: Tables, ids: set<Id>, first: Id, x: Id)
    requires x in t.orders && x !in ids && forall y :: y in ids ==> y in t.orders
    requires IsFirst(t, ids, first)
    ensures IsFirst(t, ids + {x}, if Precedes(t, x, first) then x else first)
  {
    LessIsTotal(x, first);
    forall y | y in ids && Less(x, first) && Less(first, y) ensures Less(x, y) {
      LessIsTransitive(x, first, y);
    }
  }

  lemma FirstIsUnique(t: Tables, ids: set<Id>, a: Id, b: Id)
    requires forall x :: x in ids ==> x in t.orders
    requires IsFirst(t, ids, a) && IsFirst(t, ids, b)
    ensures a == b
  {
    if a != b && Less(a, b) {
      LessIsAsymmetric(a, b);
    }
  }

  function First(t: Tables, ids: set<Id>): (o: Option<Id>)
    requires forall x :: x in ids ==> x in t.orders
    ensures o.None? <==> ids == {}
    ensures o.Some? ==> IsFirst(t, ids, o.value)
  {
    if ids == {} then None
    else
      FirstExists(t, ids);
      assert forall a, b :: IsFirst(t, ids, a) && IsFirst(t, ids, b) ==> a == b by {
        forall a, b | IsFirst(t, ids, a) && IsFirst(t, ids, b) ensures a == b {
          FirstIsUnique(t, ids, a, b);
        }
      }
      var o :| IsFirst(t, ids, o);
      Some(o)
  }

  /** The rider's township first, then anywhere. */
  function ChooseOrder(t: Tables, township: Option<string>): (o: Option<Id>)
    ensures o.None? <==> forall x :: x in t.orders ==> !NeverAssigned(t, x)
    ensures o.Some? ==> NeverAssigned(t, o.value)
  {
    var local := First(t, ReadyOrders(t, township));
    var anywhere := First(t, ReadyOrders(t, None));
    assert forall x :: x in t.orders && NeverAssigned(t, x) ==> x in ReadyOrders(t, None);
    if local.Some? then local else anywhere
  }

  /** The order is open to any free rider: accepted, to be delivered, and without a delivery row. */
  predicate IsWaiting(t: Tables, o: Id) {
    o in t.orders && t.orders[o].status == MerchantAccepted && !t.orders[o].pickup && o !in t.deliveries
  }

  /**
   * A rider who comes free is given the order placed first: of the rider's township if one is waiting
   * there, and otherwise, or if the rider has no township, of all that are waiting.
   */
  lemma ChosenOrderWasPlacedFirst(t: Tables, township: Option<string>)
    ensures var o := ChooseOrder(t, township);
      && (o.None? <==> forall x :: !IsWaiting(t, x))
      && (o.Some? ==> IsWaiting(t, o.value))
      && (o.Some? && township.Some? && township.value != [] && t.orders[o.value].township == township ==>
            forall x :: IsWaiting(t, x) && t.orders[x].township == township ==>
              t.orders[o.value].placedAt <= t.orders[x].placedAt)
      && (o.Some? && township.Some? && township.value != [] && t.orders[o.value].township != township ==>
            forall x :: IsWaiting(t, x) ==>
              t.orders[x].township != township && t.orders[o.value].placedAt <= t.orders[x].placedAt)
      && (o.Some? && township.GetOr([]) == [] ==>
            forall x :: IsWaiting(t, x) ==> t.orders[o.value].placedAt <= t.orders[x].placedAt)
  {
    forall x
      ensures IsWaiting(t, x) <==> x in ReadyOrders(t, None)
      ensures IsWaiting(t, x) && (township.GetOr([]) == [] || t.orders[x].township == township) <==> x in ReadyOrders(t, township)
    {
      assert IsWaiting(t, x) <==> x in t.orders && NeverAssigned(t, x);
    }
  }

  function AutoDispatchForRider(t: Tables, rider: Id, eligible: bool, township: Option<string>, now: int, healthy: bool): Tables {
    var choice := ChooseOrder(t, township);
    if !eligible || choice.None? then t else Assign(t, choice.value, rider, now, healthy)
  }

  predicate TimeoutApplies(t: Tables, o: Id) {
    InStatus(t, o, RiderAssigned) && o in t.deliveries && t.deliveries[o].status.Assigned?
  }

  function TimeoutReset(t: Tables, o: Id): Tables
    requires o in t.orders && o in t.deliveries
  {
    SetStatus(t, o, MerchantAccepted).(deliveries := t.deliveries[o := TimedOutRow(t.deliveries[o])])
  }

  /** Marks the attempt, and takes the order back from its current rider if still unanswered. */
  function ExpireAttempt(t: Tables, k: nat): Tables
    requires k < |t.attempts|
  {
    var o := t.attempts[k].order;
    var marked := t.(attempts := t.attempts[k := t.attempts[k].(outcome := TimeoutOutcome)]);
    if TimeoutApplies(t, o) then TimeoutReset(marked, o) else marked
  }

  function DispatchTimeout(t: Tables, k: nat, matched: seq<Id>, any: seq<Id>, now: int, healthy: bool): Tables {
    if k >= |t.attempts| || !t.attempts[k].outcome.PendingOutcome? then t
    else
      var o, expired := t.attempts[k].order, ExpireAttempt(t, k);
      if TimeoutApplies(t, o) then DispatchOrCancel(expired, o, matched, any, now, healthy) else expired
  }

  // ---------------------------------------------------------------------------------------------
  // Rider actions
  // ---------------------------------------------------------------------------------------------

  predicate CanAnswer(order: OrderStatus, delivery: DeliveryStatus) {
    order.RiderAssigned? && delivery.Assigned?
  }

  predicate CanPickUp(order: OrderStatus, delivery: DeliveryStatus) {
    order.Ready? && (delivery.Accepted? || delivery.Assigned?)
  }

  predicate CanGoOnTheWay(order: OrderStatus, delivery: DeliveryStatus) {
    order.PickedUp? && delivery.PickedUp?
  }

  predicate CanDeliver(order: OrderStatus, delivery: DeliveryStatus) {
    order.OnTheWay? && delivery.OnTheWay?
  }

  predicate CanFail(order: OrderStatus, delivery: DeliveryStatus) {
    (order.PickedUp? || order.OnTheWay?) && (delivery.PickedUp? || delivery.OnTheWay?)
  }

  predicate CanCancelPrePickup(order: OrderStatus, delivery: DeliveryStatus) {
    && (order.RiderAssigned? || order.RiderAccepted? || order.Preparing? || order.Ready?)
    && (delivery.Assigned? || delivery.Accepted?)
  }

  datatype RiderAction =
    | Accept | Reject | PickUp | GoOnTheWay | Deliver | Fail(hasReason: bool) | CancelPrePickup

  /** Order status, delivery row and guard of each rider action. */
  function TargetStatus(action: RiderAction): OrderStatus {
    match action
    case Accept => RiderAccepted
    case Reject => MerchantAccepted
    case PickUp => OrderStatus.PickedUp
    case GoOnTheWay => OrderStatus.OnTheWay
    case Deliver => OrderStatus.Delivered
    case Fail(_) => FailedDelivery
    case CancelPrePickup => MerchantAccepted
  }

  function TargetRow(action: RiderAction, d: Delivery, now: int): Delivery {
    match action
    case Accept => d.(status := Accepted, acceptedAt := Some(now))
    case Reject => RejectedRow(d)
    case PickUp => d.(status := DeliveryStatus.PickedUp, pickedUpAt := Some(now))
    case GoOnTheWay => d.(status := DeliveryStatus.OnTheWay, onTheWayAt := Some(now))
    case Deliver => d.(status := DeliveryStatus.Delivered, deliveredAt := Some(now))
    case Fail(_) => d.(status := Failed, failedAt := Some(now))
    case CancelPrePickup => CancelledRow(d, now)
  }

  predicate Permitted(action: RiderAction, order: OrderStatus, delivery: DeliveryStatus) {
    match action
    case Accept => CanAnswer(order, delivery)
    case Reject => CanAnswer(order, delivery)
    case PickUp => CanPickUp(order, delivery)
    case GoOnTheWay => CanGoOnTheWay(order, delivery)
    case Deliver => CanDeliver(order, delivery)
    case Fail(hasReason) => CanFail(order, delivery) && hasReason
    case CancelPrePickup => CanCancelPrePickup(order, delivery)
  }

  predicate OwnedBy(t: Tables, o: Id, rider: Id) {
    o in t.orders && o in t.deliveries && t.deliveries[o].rider == Some(rider)
  }

  /** The order already is where the action would take it; the shared transition then changes nothing. */
  predicate AlreadyDone(t: Tables, o: Id, action: RiderAction)
    requires o in t.orders && o in t.deliveries
  {
    && !action.CancelPrePickup?
    && t.orders[o].status == TargetStatus(action)
    && t.deliveries[o].status == TargetRow(action, t.deliveries[o], 0).status
  }

  function Transition(t: Tables, o: Id, action: RiderAction, now: int): Tables
    requires o in t.orders && o in t.deliveries
  {
    SetStatus(t, o, TargetStatus(action)).(
      deliveries := t.deliveries[o := TargetRow(action, t.deliveries[o], now)])
  }

  /** Accepting and rejecting also settle the rider's pending attempt; cancelling does not. */
  function SettleAttempt(t: Tables, o: Id, rider: Id, action: RiderAction): Tables {
    match action
    case Accept => Resolve(t, o, rider, AcceptedOutcome)
    case Reject => Resolve(t, o, rider, RejectedOutcome)
    case _ => t
  }

  predicate Succeeds(t: Tables, o: Id, rider: Id, action: RiderAction) {
    OwnedBy(t, o, rider)
    && (AlreadyDone(t, o, action) || Permitted(action, t.orders[o].status, t.deliveries[o].status))
  }

  function Act(t: Tables, o: Id, rider: Id, action: RiderAction, now: int): Tables {
    if !Succeeds(t, o, rider, action) then t
    else SettleAttempt(if AlreadyDone(t, o, action) then t else Transition(t, o, action, now), o, rider, action)
  }

  // ---------------------------------------------------------------------------------------------
  // Merchant, customer, timeouts
  // ---------------------------------------------------------------------------------------------

  datatype MerchantAction = AcceptOrder | RejectOrder | Prepare | MarkReady | ConfirmPickup

  /** The status a merchant action leads to, where it is allowed. */
  function MerchantMove(order: Order, action: MerchantAction): Option<OrderStatus> {
    match action
    case AcceptOrder => if order.status.Placed? then Some(MerchantAccepted) else None
    case RejectOrder => if order.status.Placed? then Some(MerchantRejected) else None
    case Prepare =>
      if (if order.pickup then order.status.MerchantAccepted? else order.status.RiderAccepted?)
      then Some(Preparing) else None
    case MarkReady => if order.status.Preparing? then Some(Ready) else None
    case ConfirmPickup => if order.pickup && order.status.Ready? then Some(OrderStatus.Delivered) else None
  }

  function MerchantStep(t: Tables, o: Id, action: MerchantAction): Tables {
    if o in t.orders && MerchantMove(t.orders[o], action).Some?
    then SetStatus(t, o, MerchantMove(t.orders[o], action).value)
    else t
  }

  predicate CustomerMayCancel(status: OrderStatus) {
    status.Placed? || status.MerchantAccepted? || status.Preparing? || status.Ready?
  }

  function CustomerCancel(t: Tables, o: Id): Tables {
    if o in t.orders && CustomerMayCancel(t.orders[o].status) then SetStatus(t, o, Cancelled) else t
  }

  predicate AdminMayCancel(status: OrderStatus) {
    CustomerMayCancel(status) || status.RiderAssigned? || status.RiderAccepted? || status.PickedUp? || status.OnTheWay?
  }

  function AdminCancel(t: Tables, o: Id): Tables {
    if o in t.orders && AdminMayCancel(t.orders[o].status) then SetStatus(t, o, Cancelled) else t
  }

  /** An administrator may set any status, whatever the present one. */
  function AdminOverride(t: Tables, o: Id, status: OrderStatus): Tables {
    if o in t.orders then SetStatus(t, o, status) else t
  }

  /** A payment that fails, is cancelled or expires takes an unaccepted order with it, unless it is cash. */
  function PaymentFailure(t: Tables, o: Id, cash: bool): Tables {
    if InStatus(t, o, Placed) && !cash then SetStatus(t, o, Cancelled) else t
  }

  /** Half an hour after placing: cancelled if no merchant took it. */
  function MerchantTimeout(t: Tables, o: Id): Tables {
    if InStatus(t, o, Placed) then SetStatus(t, o, Cancelled) else t
  }

  /** Half an hour after acceptance: cancelled if no rider holds it. */
  function RiderTimeout(t: Tables, o: Id): Tables {
    if InStatus(t, o, MerchantAccepted) && !HasRider(t, o) then SetStatus(t, o, Cancelled) else t
  }

  function Place(t: Tables, o: Id, pickup: bool, township: Option<string>, now: int): Tables {
    if o in t.orders then t else t.(orders := t.orders[o := Order(Placed, pickup, now, township)])
  }

  // ---------------------------------------------------------------------------------------------
  // Runs
  // ---------------------------------------------------------------------------------------------

  datatype Event =
    | PlaceOrder(order: Id, pickup: bool, township: Option<string>)
    | Merchant(order: Id, merchantAction: MerchantAction)
    | CustomerCancels(order: Id)
    | AdminCancels(order: Id)
    | AdminOverrides(order: Id, status: OrderStatus)
    | PaymentFails(order: Id, cash: bool)
    | MerchantTimesOut(order: Id)
    | RiderTimesOut(order: Id)
    | DispatchOrder(order: Id, matched: seq<Id>, any: seq<Id>, healthy: bool)
    | DispatchForRider(rider: Id, eligible: bool, township: Option<string>, healthy: bool)
    | AttemptTimesOut(index: nat, matched: seq<Id>, any: seq<Id>, healthy: bool)
    | RiderActs(order: Id, rider: Id, action: RiderAction)

  function Step(t: Tables, e: Event, now: int): Tables {
    match e
    case PlaceOrder(o, pickup, township) => Place(t, o, pickup, township, now)
    case Merchant(o, action) => MerchantStep(t, o, action)
    case CustomerCancels(o) => CustomerCancel(t, o)
    case AdminCancels(o) => AdminCancel(t, o)
    case AdminOverrides(o, status) => AdminOverride(t, o, status)
    case PaymentFails(o, cash) => PaymentFailure(t, o, cash)
    case MerchantTimesOut(o) => MerchantTimeout(t, o)
    case RiderTimesOut(o) => RiderTimeout(t, o)
    case DispatchOrder(o, matched, any, healthy) => AutoDispatchOrder(t, o, matched, any, now, healthy)
    case DispatchForRider(rider, eligible, township, healthy) =>
      AutoDispatchForRider(t, rider, eligible, township, now, healthy)
    case AttemptTimesOut(k, matched, any, healthy) => DispatchTimeout(t, k, matched, any, now, healthy)
    case RiderActs(o, rider, action) => Act(t, o, rider, action, now)
  }

  /** A timeout first settles its attempt and takes the order back; what follows starts from there. */
  function AfterExpiry(t: Tables, e: Event): Tables {
    if e.AttemptTimesOut? && e.index < |t.attempts| && t.attempts[e.index].outcome.PendingOutcome?
    then ExpireAttempt(t, e.index)
    else t
  }

  const EMPTY := Tables(map[], map[], [])

  /** An event and the clock reading it is handled at. */
  datatype Timed = Timed(event: Event, now: int)

  function Run(events: seq<Timed>): Tables {
    if events == [] then EMPTY
    else
      var n := |events| - 1;
      Step(Run(events[..n]), events[n].event, events[n].now)
  }

  /** The clock never runs backwards. */
  predicate ClockIsMonotone(events: seq<Timed>) {
    forall i, j :: 0 <= i <= j < |events| ==> events[i].now <= events[j].now
  }
}
