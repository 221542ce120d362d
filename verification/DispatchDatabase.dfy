/**
 * The handlers as the services run them: row by row on the order, delivery and attempt tables.
 * Each is proved to leave exactly the tables that its atomic step in module Dispatch describes.
 */
module DispatchDatabase {
  import opened Base
  import opened Dispatch

  datatype Reply = Done | NotFound | Conflict | ReasonRequired

  /** What a rider hears back. */
  function ReplyTo(t: Tables, o: Id, rider: Id, action: RiderAction): Reply {
    if !OwnedBy(t, o, rider) then NotFound
    else if Succeeds(t, o, rider, action) then Done
    else if action.Fail? && CanFail(t.orders[o].status, t.deliveries[o].status) then ReasonRequired
    else Conflict
  }

  /** An assignment is tried and its transaction fails. */
  predicate AsksForRetry(t: Tables, o: Id, matched: seq<Id>, any: seq<Id>, healthy: bool) {
    var offer := NextOffer(t, o, matched, any);
    offer.Some? && !CanAssign(t, o, offer.value.1, healthy)
  }

  class DispatchTables {
    var orders: map<Id, Order>
    var deliveries: map<Id, Delivery>
    var attempts: seq<Attempt>

    constructor ()
      ensures Snapshot() == EMPTY
    {
      orders, deliveries, attempts := map[], map[], [];
    }

    function Snapshot(): Tables
      reads this
    {
      Tables(orders, deliveries, attempts)
    }

    // -------------------------------------------------------------------------------------------
    // Repository primitives
    // -------------------------------------------------------------------------------------------

    method UpdateOrderStatus(o: Id, status: OrderStatus)
      requires o in orders
      modifies `orders
      ensures Snapshot() == SetStatus(old(Snapshot()), o, status)
    {
      orders := orders[o := orders[o].(status := status)];
    }

    method UpdateDelivery(o: Id, row: Delivery)
      modifies `deliveries
      ensures deliveries == old(deliveries)[o := row]
    {
      deliveries := deliveries[o := row];
    }

    method UpdateAttempt(k: nat, outcome: Outcome)
      requires k < |attempts|
      modifies `attempts
      ensures attempts == old(attempts)[k := old(attempts)[k].(outcome := outcome)]
    {
      attempts := attempts[k := attempts[k].(outcome := outcome)];
    }

    // -------------------------------------------------------------------------------------------
    // Auto-dispatch
    // -------------------------------------------------------------------------------------------

    /** Records the attempt, then tries the transaction; a failure is recorded and asks for a retry. */
    method AssignAndNotify(o: Id, rider: Id, now: int, healthy: bool) returns (retry: bool)
      modifies this
      ensures Snapshot() == Assign(old(Snapshot()), o, rider, now, healthy)
      ensures retry == !CanAssign(old(Snapshot()), o, rider, healthy)
    {
      attempts := attempts + [Attempt(o, rider, PendingOutcome)];
      var attempt := |attempts| - 1;
      assert ActiveOrders(Snapshot(), rider) == ActiveOrders(old(Snapshot()), rider);
      var activeDeliveries := |ActiveOrders(Snapshot(), rider)|;
      if activeDeliveries > 0 || o !in orders || !healthy {
        UpdateAttempt(attempt, FailedOutcome);
        return true;
      }
      UpdateDelivery(o, FreshDelivery(rider, now));
      UpdateOrderStatus(o, RiderAssigned);
      return false;
    }

    method CancelOrderNoRider(o: Id)
      modifies this
      ensures Snapshot() == CancelForSystem(old(Snapshot()), o)
    {
      if o in orders && orders[o].status != Cancelled {
        UpdateOrderStatus(o, Cancelled);
      }
    }

    method HandleAutoDispatchOrder(o: Id, matched: seq<Id>, any: seq<Id>, now: int, healthy: bool) returns (retry: bool)
      modifies this
      ensures Snapshot() == AutoDispatchOrder(old(Snapshot()), o, matched, any, now, healthy)
      ensures retry == (NeedsRider(old(Snapshot()), o) && AsksForRetry(old(Snapshot()), o, matched, any, healthy))
    {
      if !NeedsRider(Snapshot(), o) {
        return false;
      }
      retry := DispatchOrCancelOrder(o, matched, any, now, healthy);
    }

    /** The tail that the dispatch job and the timeout share: give up, or offer to an untried rider. */
    method DispatchOrCancelOrder(o: Id, matched: seq<Id>, any: seq<Id>, now: int, healthy: bool) returns (retry: bool)
      modifies this
      ensures Snapshot() == DispatchOrCancel(old(Snapshot()), o, matched, any, now, healthy)
      ensures retry == AsksForRetry(old(Snapshot()), o, matched, any, healthy)
    {
      var failedCount := FailedCount(attempts, o);
      if failedCount >= MAX_FAILED_ATTEMPTS {
        CancelOrderNoRider(o);
        return false;
      }
      var rider := PickEligibleRider(matched, any, Tried(attempts, o));
      if rider.None? {
        return false;
      }
      retry := AssignAndNotify(o, rider.value, now, healthy);
    }

    /** Both searches walk their list for the first rider not tried yet. */
    method PickEligibleRider(matched: seq<Id>, any: seq<Id>, tried: set<Id>) returns (rider: Option<Id>)
      ensures rider == PickRider(matched, any, tried)
      ensures rider.Some? ==> rider.value !in tried && (rider.value in matched || rider.value in any)
      ensures rider.Some? && rider.value !in matched ==> forall r :: r in matched ==> r in tried
      ensures rider.None? <==> (forall r :: r in matched || r in any ==> r in tried)
    {
      rider := FirstEligible(matched, tried);
      if rider.None? {
        rider := FirstEligible(any, tried);
      }
    }

    method FirstEligible(riders: seq<Id>, tried: set<Id>) returns (rider: Option<Id>)
      ensures rider == FirstUntried(riders, tried)
      ensures rider.None? <==> forall r :: r in riders ==> r in tried
      ensures rider.Some? ==> rider.value in riders && rider.value !in tried
    {
      var i := 0;
      while i < |riders|
        invariant i <= |riders|
        invariant forall j :: 0 <= j < i ==> riders[j] in tried
        invariant FirstUntried(riders, tried) == FirstUntried(riders[i..], tried)
      {
        if riders[i] !in tried {
          return Some(riders[i]);
        }
        i := i + 1;
      }
      return None;
    }

    /** Walks the orders for the earliest placed one that was never assigned, within a township if given. */
    method FindReadyOrder(township: Option<string>) returns (o: Option<Id>)
      ensures o == First(Snapshot(), ReadyOrders(Snapshot(), township))
    {
      o := None;
      var rest := ReadyOrders(Snapshot(), township);
      while rest != {}
        invariant rest <= ReadyOrders(Snapshot(), township)
        invariant o.None? <==> rest == ReadyOrders(Snapshot(), township)
        invariant o.Some? ==> IsFirst(Snapshot(), ReadyOrders(Snapshot(), township) - rest, o.value)
        decreases rest
      {
        var x :| x in rest;
        if o.Some? {
          LessIsTotal(x, o.value);
          FirstWithOneMore(Snapshot(), ReadyOrders(Snapshot(), township) - rest, o.value, x);
        }
        rest := rest - {x};
        if o.None? || Precedes(Snapshot(), x, o.value) {
          o := Some(x);
        }
      }
      if o.Some? {
        assert ReadyOrders(Snapshot(), township) - {} == ReadyOrders(Snapshot(), township);
        FirstIsUnique(Snapshot(), ReadyOrders(Snapshot(), township), o.value, First(Snapshot(), ReadyOrders(Snapshot(), township)).value);
      }
    }

    method HandleAutoDispatchForRider(rider: Id, eligible: bool, township: Option<string>, now: int, healthy: bool)
      returns (retry: bool)
      modifies this
      ensures Snapshot() == AutoDispatchForRider(old(Snapshot()), rider, eligible, township, now, healthy)
      ensures var choice := ChooseOrder(old(Snapshot()), township);
        retry == (eligible && choice.Some? && !CanAssign(old(Snapshot()), choice.value, rider, healthy))
    {
      if !eligible {
        return false;
      }
      var choice := FindReadyOrder(township);
      if choice.None? {
        choice := FindReadyOrder(None);
        if choice.None? {
          return false;
        }
      }
      retry := AssignAndNotify(choice.value, rider, now, healthy);
    }

    method HandleRiderDispatchTimeout(k: nat, matched: seq<Id>, any: seq<Id>, now: int, healthy: bool) returns (retry: bool)
      modifies this
      ensures Snapshot() == DispatchTimeout(old(Snapshot()), k, matched, any, now, healthy)
      ensures retry == (k < |old(attempts)| && old(attempts)[k].outcome.PendingOutcome?
        && TimeoutApplies(old(Snapshot()), old(attempts)[k].order)
        && AsksForRetry(ExpireAttempt(old(Snapshot()), k), old(attempts)[k].order, matched, any, healthy))
    {
      if k >= |attempts| || attempts[k].outcome != PendingOutcome {
        return false;
      }
      var o := attempts[k].order;
      UpdateAttempt(k, TimeoutOutcome);
      if !TimeoutApplies(Snapshot(), o) {
        return false;
      }
      UpdateDelivery(o, TimedOutRow(deliveries[o]));
      UpdateOrderStatus(o, MerchantAccepted);
      assert Snapshot() == ExpireAttempt(old(Snapshot()), k);
      retry := DispatchOrCancelOrder(o, matched, any, now, healthy);
    }

    // -------------------------------------------------------------------------------------------
    // Rider actions
    // -------------------------------------------------------------------------------------------

    /** Accepting and rejecting are transitions followed by settling the rider's attempt. */
    method RiderAct(o: Id, rider: Id, action: RiderAction, now: int) returns (reply: Reply)
      modifies this
      ensures reply == ReplyTo(old(Snapshot()), o, rider, action)
      ensures Snapshot() == Act(old(Snapshot()), o, rider, action, now)
    {
      if action.CancelPrePickup? {
        reply := CancelCurrentRiderDelivery(o, rider, now);
        return;
      }
      reply := HandleTransition(o, rider, action, now);
      if reply == Done && action.Accept? {
        ResolveDispatchAttempt(o, rider, AcceptedOutcome);
      }
      if reply == Done && action.Reject? {
        ResolveDispatchAttempt(o, rider, RejectedOutcome);
      }
    }

    method HandleTransition(o: Id, rider: Id, action: RiderAction, now: int) returns (reply: Reply)
      requires !action.CancelPrePickup?
      modifies this
      ensures reply == ReplyTo(old(Snapshot()), o, rider, action)
      ensures reply != Done ==> Snapshot() == old(Snapshot())
      ensures reply == Done && AlreadyDone(old(Snapshot()), o, action) ==> Snapshot() == old(Snapshot())
      ensures reply == Done && !AlreadyDone(old(Snapshot()), o, action) ==> (
        Snapshot() == Transition(old(Snapshot()), o, action, now))
    {
      if !OwnedBy(Snapshot(), o, rider) {
        return NotFound;
      }
      if AlreadyDone(Snapshot(), o, action) {
        return Done;
      }
      if !Permitted(if action.Fail? then Fail(true) else action, orders[o].status, deliveries[o].status) {
        return Conflict;
      }
      if action.Fail? && !action.hasReason {
        return ReasonRequired;
      }
      UpdateDelivery(o, TargetRow(action, deliveries[o], now));
      UpdateOrderStatus(o, TargetStatus(action));
      return Done;
    }

    method CancelCurrentRiderDelivery(o: Id, rider: Id, now: int) returns (reply: Reply)
      modifies this
      ensures reply == ReplyTo(old(Snapshot()), o, rider, CancelPrePickup)
      ensures Snapshot() == Act(old(Snapshot()), o, rider, CancelPrePickup, now)
    {
      if !OwnedBy(Snapshot(), o, rider) {
        return NotFound;
      }
      if !CanCancelPrePickup(orders[o].status, deliveries[o].status) {
        return Conflict;
      }
      UpdateDelivery(o, CancelledRow(deliveries[o], now));
      UpdateOrderStatus(o, MerchantAccepted);
      return Done;
    }

    /** Settles the rider's latest pending attempt on the order, searching newest first. */
    method ResolveDispatchAttempt(o: Id, rider: Id, outcome: Outcome)
      modifies `attempts
      ensures Snapshot() == Resolve(old(Snapshot()), o, rider, outcome)
    {
      var n := |attempts|;
      assert attempts[..n] == attempts;
      while n > 0
        invariant 0 <= n <= |attempts| && attempts == old(attempts)
        invariant LatestPending(attempts, o, rider) == LatestPending(attempts[..n], o, rider)
      {
        assert attempts[..n][..n - 1] == attempts[..n - 1];
        if attempts[n - 1] == Attempt(o, rider, PendingOutcome) {
          UpdateAttempt(n - 1, outcome);
          return;
        }
        n := n - 1;
      }
    }

    // -------------------------------------------------------------------------------------------
    // Order timeouts
    // -------------------------------------------------------------------------------------------

    method HandleMerchantTimeout(o: Id)
      modifies this
      ensures Snapshot() == MerchantTimeout(old(Snapshot()), o)
    {
      if o !in orders || orders[o].status != Placed {
        return;
      }
      UpdateOrderStatus(o, Cancelled);
    }

    method HandleRiderTimeout(o: Id)
      modifies this
      ensures Snapshot() == RiderTimeout(old(Snapshot()), o)
    {
      if o !in orders {
        return;
      }
      var hasAssignedRider := o in deliveries && deliveries[o].rider.Some?;
      if orders[o].status != MerchantAccepted || hasAssignedRider {
        return;
      }
      UpdateOrderStatus(o, Cancelled);
    }
  }
}
