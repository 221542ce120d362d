/**
 * Who may take an order from which status to which, and the whole course of an order from placing to
 * delivery.
 */
module OrderCourse {
  import opened Base
  import opened Dispatch
  import opened DispatchAttempts
  import opened RiderAvailability

  // ---------------------------------------------------------------------------------------------
  // Who may do what
  // ---------------------------------------------------------------------------------------------

  /** The order goes to the status if it may, and else nothing changes. */
  predicate Goes(t: Tables, t1: Tables, o: Id, may: bool, to: OrderStatus) {
    t1 == if may && o in t.orders then t.(orders := t.orders[o := t.orders[o].(status := to)]) else t
  }

  /** Placing records the order once, as asked for. */
  lemma PlacingRecordsTheOrder(t: Tables, o: Id, pickup: bool, township: Option<string>, now: int)
    ensures o !in t.orders ==> (
      Place(t, o, pickup, township, now) == t.(orders := t.orders[o := Order(Placed, pickup, now, township)]))
    ensures o in t.orders ==> Place(t, o, pickup, township, now) == t
  {
  }

  /** The merchant answers a placed order, prepares once a rider has accepted (at once for a pickup), and hands a pickup over. */
  lemma MerchantsMayExactly(t: Tables, o: Id)
    requires o in t.orders
    ensures var status, pickup := t.orders[o].status, t.orders[o].pickup;
      && Goes(t, MerchantStep(t, o, AcceptOrder), o, status == Placed, MerchantAccepted)
      && Goes(t, MerchantStep(t, o, RejectOrder), o, status == Placed, MerchantRejected)
      && Goes(t, MerchantStep(t, o, Prepare), o,
           (pickup && status == MerchantAccepted) || (!pickup && status == RiderAccepted), Preparing)
      && Goes(t, MerchantStep(t, o, MarkReady), o, status == Preparing, Ready)
      && Goes(t, MerchantStep(t, o, ConfirmPickup), o, pickup && status == Ready, OrderStatus.Delivered)
  {
  }

  /** The customer may cancel before a rider is found and while the food is made, an administrator until it is delivered. */
  lemma CancellationsMayExactly(t: Tables, o: Id)
    requires o in t.orders
    ensures var status := t.orders[o].status;
      && Goes(t, CustomerCancel(t, o), o,
           status == Placed || status == MerchantAccepted || status == Preparing || status == Ready, Cancelled)
      && Goes(t, AdminCancel(t, o), o,
           status != MerchantRejected && status != OrderStatus.Delivered && status != FailedDelivery && status != Cancelled,
           Cancelled)
      && Goes(t, CancelForSystem(t, o), o, true, Cancelled)
  {
  }

  /** Overrides go anywhere; a failed payment and the merchant timeout cancel placed orders, the rider timeout those nobody took. */
  lemma TimeoutsMayExactly(t: Tables, o: Id, status: OrderStatus, cash: bool)
    requires o in t.orders
    ensures Goes(t, AdminOverride(t, o, status), o, true, status)
    ensures Goes(t, PaymentFailure(t, o, cash), o, t.orders[o].status == Placed && !cash, Cancelled)
    ensures Goes(t, MerchantTimeout(t, o), o, t.orders[o].status == Placed, Cancelled)
    ensures Goes(t, RiderTimeout(t, o), o,
      t.orders[o].status == MerchantAccepted && !exists rider :: IsOn(t, o, rider), Cancelled)
  {
    if HasRider(t, o) {
      assert IsOn(t, o, t.deliveries[o].rider.value);
    }
  }

  // ---------------------------------------------------------------------------------------------
  // The course of an order
  // ---------------------------------------------------------------------------------------------

  /** An order to be delivered: its status, its delivery's, and the rider on it. */
  predicate At(t: Tables, o: Id, rider: Id, order: OrderStatus, delivery: DeliveryStatus) {
    InStatus(t, o, order) && !t.orders[o].pickup && IsOn(t, o, rider) && t.deliveries[o].status == delivery
  }

  /** What a rider may do on an order that is theirs, status by status, and where it leads. */
  lemma RidersMayExactly(t: Tables, o: Id, rider: Id, action: RiderAction, now: int)
    requires OwnedBy(t, o, rider) && !AlreadyDone(t, o, action)
    ensures var order, delivery := t.orders[o].status, t.deliveries[o].status;
      Succeeds(t, o, rider, action) <==>
        match action
        case Accept => order == RiderAssigned && delivery == Assigned
        case Reject => order == RiderAssigned && delivery == Assigned
        case PickUp => order == Ready && (delivery == Accepted || delivery == Assigned)
        case GoOnTheWay => order == OrderStatus.PickedUp && delivery == DeliveryStatus.PickedUp
        case Deliver => order == OrderStatus.OnTheWay && delivery == DeliveryStatus.OnTheWay
        case Fail(hasReason) =>
          hasReason && (order == OrderStatus.PickedUp || order == OrderStatus.OnTheWay)
          && (delivery == DeliveryStatus.PickedUp || delivery == DeliveryStatus.OnTheWay)
        case CancelPrePickup =>
          (order == RiderAssigned || order == RiderAccepted || order == Preparing || order == Ready)
          && (delivery == Assigned || delivery == Accepted)
  {
  }

  /**
   * What each action leaves: the order's status, and on the delivery row the status and the moment;
   * a rider who rejects or cancels goes off the row, and the milestones after the assignment with them.
   */
  lemma ActionsRecordTheMoment(t: Tables, o: Id, rider: Id, action: RiderAction, now: int)
    requires Succeeds(t, o, rider, action) && !AlreadyDone(t, o, action)
    ensures var t1, d := Act(t, o, rider, action, now), t.deliveries[o];
      && t1.orders == t.orders[o := t.orders[o].(status :=
           match action
           case Accept => RiderAccepted
           case Reject => MerchantAccepted
           case PickUp => OrderStatus.PickedUp
           case GoOnTheWay => OrderStatus.OnTheWay
           case Deliver => OrderStatus.Delivered
           case Fail(_) => FailedDelivery
           case CancelPrePickup => MerchantAccepted)]
      && t1.deliveries == t.deliveries[o :=
           match action
           case Accept => d.(status := Accepted, acceptedAt := Some(now))
           case Reject => Delivery(None, PendingAssignment, d.assignedAt, None, None, None, None, None, None)
           case PickUp => d.(status := DeliveryStatus.PickedUp, pickedUpAt := Some(now))
           case GoOnTheWay => d.(status := DeliveryStatus.OnTheWay, onTheWayAt := Some(now))
           case Deliver => d.(status := DeliveryStatus.Delivered, deliveredAt := Some(now))
           case Fail(_) => d.(status := Failed, failedAt := Some(now))
           case CancelPrePickup => Delivery(None, PendingAssignment, d.assignedAt, None, None, None, None, None, Some(now))]
  {
    hide LatestPending;
  }

  /** An action that has been done already succeeds and changes neither order nor delivery. */
  lemma RepeatedActionsChangeNothing(t: Tables, o: Id, rider: Id, now: int)
    requires OwnedBy(t, o, rider)
    ensures var order, delivery := t.orders[o].status, t.deliveries[o].status;
      && (order == RiderAccepted && delivery == Accepted ==> Repeats(t, o, rider, Accept, now))
      && (order == OrderStatus.PickedUp && delivery == DeliveryStatus.PickedUp ==> Repeats(t, o, rider, PickUp, now))
      && (order == OrderStatus.OnTheWay && delivery == DeliveryStatus.OnTheWay ==> Repeats(t, o, rider, GoOnTheWay, now))
      && (order == OrderStatus.Delivered && delivery == DeliveryStatus.Delivered ==> Repeats(t, o, rider, Deliver, now))
  {
    hide LatestPending;
  }

  predicate Repeats(t: Tables, o: Id, rider: Id, action: RiderAction, now: int) {
    var t1 := Act(t, o, rider, action, now);
    Succeeds(t, o, rider, action) && t1.orders == t.orders && t1.deliveries == t.deliveries
  }

  /** Each action in turn, done by its rider, takes order and delivery one station further. */
  lemma EveryStationIsReached(t: Tables, o: Id, rider: Id, now: int)
    ensures At(t, o, rider, RiderAssigned, Assigned) ==>
      At(Act(t, o, rider, Accept, now), o, rider, RiderAccepted, Accepted)
    ensures At(t, o, rider, RiderAccepted, Accepted) ==>
      At(MerchantStep(t, o, Prepare), o, rider, Preparing, Accepted)
    ensures At(t, o, rider, Preparing, Accepted) ==>
      At(MerchantStep(t, o, MarkReady), o, rider, Ready, Accepted)
    ensures At(t, o, rider, Ready, Accepted) ==>
      At(Act(t, o, rider, PickUp, now), o, rider, OrderStatus.PickedUp, DeliveryStatus.PickedUp)
    ensures At(t, o, rider, OrderStatus.PickedUp, DeliveryStatus.PickedUp) ==>
      At(Act(t, o, rider, GoOnTheWay, now), o, rider, OrderStatus.OnTheWay, DeliveryStatus.OnTheWay)
    ensures At(t, o, rider, OrderStatus.OnTheWay, DeliveryStatus.OnTheWay) ==>
      At(Act(t, o, rider, Deliver, now), o, rider, OrderStatus.Delivered, DeliveryStatus.Delivered)
  {
    hide LatestPending;
  }

  /** Placed, accepted, assigned, and then step by step: the order ends delivered and its rider free of it. */
  lemma TheCourseEndsDelivered(t: Tables, o: Id, rider: Id, matched: seq<Id>, any: seq<Id>, now: int)
    requires o !in t.orders && o !in t.deliveries && ActiveOrders(t, rider) == {}
    requires FailedCount(t.attempts, o) < 3 && PickRider(matched, any, Tried(t.attempts, o)) == Some(rider)
    ensures var accepted := MerchantStep(Place(t, o, false, None, now), o, AcceptOrder);
      var offered := AutoDispatchOrder(accepted, o, matched, any, now, true);
      var prepared := MerchantStep(MerchantStep(Act(offered, o, rider, Accept, now), o, Prepare), o, MarkReady);
      var onTheWay := Act(Act(prepared, o, rider, PickUp, now), o, rider, GoOnTheWay, now);
      var delivered := Act(onTheWay, o, rider, Deliver, now);
      && At(offered, o, rider, RiderAssigned, Assigned)
      && At(delivered, o, rider, OrderStatus.Delivered, DeliveryStatus.Delivered)
      && o !in ActiveOrders(delivered, rider)
  {
    hide Act, MerchantStep, FailedCount, AutoDispatchOrder, Place, PickRider, ActiveOrders;
    var offered := AssignedFromTheStart(t, o, rider, matched, any, now);
    FromAssignmentToDelivery(offered, o, rider, now);
  }

  lemma FromAssignmentToDelivery(t: Tables, o: Id, rider: Id, now: int)
    requires At(t, o, rider, RiderAssigned, Assigned)
    ensures var prepared := MerchantStep(MerchantStep(Act(t, o, rider, Accept, now), o, Prepare), o, MarkReady);
      var onTheWay := Act(Act(prepared, o, rider, PickUp, now), o, rider, GoOnTheWay, now);
      var delivered := Act(onTheWay, o, rider, Deliver, now);
      At(delivered, o, rider, OrderStatus.Delivered, DeliveryStatus.Delivered) && o !in ActiveOrders(delivered, rider)
  {
    hide Act, MerchantStep;
    var accepted := Act(t, o, rider, Accept, now);
    EveryStationIsReached(t, o, rider, now);
    EveryStationIsReached(accepted, o, rider, now);
    var preparing := MerchantStep(accepted, o, Prepare);
    EveryStationIsReached(preparing, o, rider, now);
    var ready := MerchantStep(preparing, o, MarkReady);
    EveryStationIsReached(ready, o, rider, now);
    var pickedUp := Act(ready, o, rider, PickUp, now);
    EveryStationIsReached(pickedUp, o, rider, now);
    EveryStationIsReached(Act(pickedUp, o, rider, GoOnTheWay, now), o, rider, now);
  }

  lemma AssignedFromTheStart(t: Tables, o: Id, rider: Id, matched: seq<Id>, any: seq<Id>, now: int) returns (t1: Tables)
    requires o !in t.orders && o !in t.deliveries && ActiveOrders(t, rider) == {}
    requires FailedCount(t.attempts, o) < 3 && PickRider(matched, any, Tried(t.attempts, o)) == Some(rider)
    ensures t1 == AutoDispatchOrder(MerchantStep(Place(t, o, false, None, now), o, AcceptOrder), o, matched, any, now, true)
    ensures At(t1, o, rider, RiderAssigned, Assigned)
  {
    hide FailedCount, PickRider;
    var accepted := MerchantStep(Place(t, o, false, None, now), o, AcceptOrder);
    assert ActiveOrders(accepted, rider) == ActiveOrders(t, rider);
    assert NeedsRider(accepted, o);
    t1 := AutoDispatchOrder(accepted, o, matched, any, now, true);
  }
}
