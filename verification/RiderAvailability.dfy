/**
 * When a rider can be given an order, and how riders become free again: the active statuses written
 * out, and what ends a delivery.
 */
module RiderAvailability {
  import opened Base
  import opened Dispatch
  import opened DispatchAttempts
  import opened OrderDelivery

  /** The rider is on the delivery row of the order. */
  predicate IsOn(t: Tables, o: Id, rider: Id) {
    o in t.deliveries && t.deliveries[o].rider == Some(rider)
  }

  /**
   * An assignment commits exactly when the transaction is healthy, the order exists, and none of the
   * rider's delivery rows is assigned, accepted, picked up or on the way.
   */
  lemma AssignmentCommitsExactly(t: Tables, o: Id, rider: Id, healthy: bool)
    ensures CanAssign(t, o, rider, healthy) <==> (
      healthy && o in t.orders
      && forall p :: IsOn(t, p, rider) ==>
           var status := t.deliveries[p].status;
           !status.Assigned? && !status.Accepted? && !status.PickedUp? && !status.OnTheWay?)
  {
    if CanAssign(t, o, rider, healthy) {
      forall p | IsOn(t, p, rider) ensures !IsActive(t.deliveries[p].status) {
        assert p !in ActiveOrders(t, rider);
      }
    }
  }

  /** A committed assignment gives the order to the rider and offers it; a failed one changes neither row. */
  lemma AssignmentGivesTheOrder(t: Tables, o: Id, rider: Id, now: int, healthy: bool)
    ensures var t1 := Assign(t, o, rider, now, healthy);
      && (CanAssign(t, o, rider, healthy) ==>
            && o in t.orders && t1.orders == t.orders[o := t.orders[o].(status := RiderAssigned)]
            && t1.deliveries == t.deliveries[o := Delivery(Some(rider), Assigned, Some(now), None, None, None, None, None, None)]
            && t1.attempts == t.attempts + [Attempt(o, rider, PendingOutcome)])
      && (!CanAssign(t, o, rider, healthy) ==>
            t1.orders == t.orders && t1.deliveries == t.deliveries
            && t1.attempts == t.attempts + [Attempt(o, rider, FailedOutcome)])
  {
  }

  // ---------------------------------------------------------------------------------------------
  // Becoming free
  // ---------------------------------------------------------------------------------------------

  predicate EndsDelivery(action: RiderAction) {
    action.Deliver? || action.Fail? || action.Reject? || action.CancelPrePickup?
  }

  /** Delivering, failing, rejecting or cancelling an order takes it, and only it, off the rider's active ones. */
  lemma EndingFreesTheRider(t: Tables, o: Id, rider: Id, action: RiderAction, now: int)
    requires Succeeds(t, o, rider, action) && EndsDelivery(action)
    ensures ActiveOrders(Act(t, o, rider, action, now), rider) == ActiveOrders(t, rider) - {o}
  {
    hide LatestPending;
  }

  /** Accepting, picking up and going on the way keep the order active. */
  lemma GoingOnKeepsTheRider(t: Tables, o: Id, rider: Id, action: RiderAction, now: int)
    requires Succeeds(t, o, rider, action) && !EndsDelivery(action)
    ensures ActiveOrders(Act(t, o, rider, action, now), rider) == ActiveOrders(t, rider) + {o}
  {
    hide LatestPending;
  }

  /** A timeout takes the order back exactly when both it and its delivery still wait for the rider's answer. */
  lemma TimeoutTakesBackExactly(t: Tables, k: nat)
    requires k < |t.attempts|
    ensures var o, t1 := t.attempts[k].order, ExpireAttempt(t, k);
      && t1.attempts == t.attempts[k := Attempt(o, t.attempts[k].rider, TimeoutOutcome)]
      && (if o in t.orders && t.orders[o].status == RiderAssigned && o in t.deliveries && t.deliveries[o].status == Assigned
          then t1.orders == t.orders[o := t.orders[o].(status := MerchantAccepted)]
            && t1.deliveries == t.deliveries[o := t.deliveries[o].(rider := None, status := PendingAssignment, acceptedAt := None)]
          else t1.orders == t.orders && t1.deliveries == t.deliveries)
  {
  }

  /** So does the timeout of an unanswered offer. */
  lemma TimeoutFreesTheRider(t: Tables, k: nat, rider: Id)
    requires k < |t.attempts| && TimeoutApplies(t, t.attempts[k].order)
    ensures ActiveOrders(ExpireAttempt(t, k), rider) == ActiveOrders(t, rider) - {t.attempts[k].order}
  {
  }

  /** A rider whose one active order ends is assigned the next standing order, whatever it is. */
  lemma FreeRidersAreAssigned(t: Tables, o: Id, rider: Id, action: RiderAction, now: int, p: Id, later: int)
    requires Succeeds(t, o, rider, action) && EndsDelivery(action) && ActiveOrders(t, rider) <= {o}
    requires p in t.orders
    ensures var t1 := Assign(Act(t, o, rider, action, now), p, rider, later, true);
      InStatus(t1, p, RiderAssigned) && IsOn(t1, p, rider)
  {
    EndingFreesTheRider(t, o, rider, action, now);
    var t1 := Act(t, o, rider, action, now);
    assert ActiveOrders(t1, rider) == {};
    ActKeepsOrders(t, o, rider, action, now);
  }

  lemma ActKeepsOrders(t: Tables, o: Id, rider: Id, action: RiderAction, now: int)
    ensures Act(t, o, rider, action, now).orders.Keys == t.orders.Keys
  {
    hide LatestPending;
  }

  /** The same after the timeout of that rider's unanswered offer. */
  lemma TimedOutRidersAreAssigned(t: Tables, k: nat, rider: Id, p: Id, later: int)
    requires k < |t.attempts| && TimeoutApplies(t, t.attempts[k].order)
    requires ActiveOrders(t, rider) <= {t.attempts[k].order} && p in t.orders
    ensures var t1 := Assign(ExpireAttempt(t, k), p, rider, later, true);
      InStatus(t1, p, RiderAssigned) && IsOn(t1, p, rider)
  {
    TimeoutFreesTheRider(t, k, rider);
    assert ActiveOrders(ExpireAttempt(t, k), rider) == {};
  }
}
