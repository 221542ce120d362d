/** The order row and the delivery row agree in every reachable state. */
module OrderDelivery {
  import opened Base
  import opened Dispatch

  function DeliveryOf(t: Tables, o: Id): Option<Delivery> {
    if o in t.deliveries then Some(t.deliveries[o]) else None
  }

  /** Which delivery status goes with which order status. */
  predicate StatusesMatch(order: Order, d: Option<Delivery>) {
    if order.pickup then
      d.None? && !order.status.RiderAssigned? && !order.status.RiderAccepted?
    else
      match order.status
      case Placed => d.None?
      case MerchantRejected => d.None?
      case MerchantAccepted => d.None? || d.value.status.PendingAssignment?
      case Cancelled => d.None? || d.value.status.PendingAssignment?
      case RiderAssigned => d.Some? && d.value.status.Assigned?
      case RiderAccepted => d.Some? && d.value.status.Accepted?
      case Preparing => d.Some? && d.value.status.Accepted?
      case Ready => d.Some? && d.value.status.Accepted?
      case PickedUp => d.Some? && d.value.status.PickedUp?
      case OnTheWay => d.Some? && d.value.status.OnTheWay?
      case Delivered => d.Some? && d.value.status.Delivered?
      case FailedDelivery => d.Some? && d.value.status.Failed?
  }

  /** How far along its course a delivery is. */
  function Progress(status: DeliveryStatus): nat {
    match status
    case PendingAssignment => 0
    case Assigned => 1
    case Accepted => 2
    case PickedUp => 3
    case OnTheWay => 4
    case Delivered => 5
    case Failed => 5
  }

  predicate NoLaterThan(a: Option<int>, b: Option<int>) {
    a.Some? && b.Some? ==> a.value <= b.value
  }

  /** Milestones are set exactly up to the current status and never decrease along it. */
  predicate MilestonesSound(d: Delivery, now: int) {
    && (d.rider.None? <==> d.status.PendingAssignment?)
    && d.assignedAt.Some?
    && (d.acceptedAt.Some? <==> Progress(d.status) >= 2)
    && (d.pickedUpAt.Some? <==> Progress(d.status) >= 3)
    && (d.onTheWayAt.Some? ==> Progress(d.status) >= 4)
    && (d.status.OnTheWay? || d.status.Delivered? ==> d.onTheWayAt.Some?)
    && (d.deliveredAt.Some? <==> d.status.Delivered?)
    && (d.failedAt.Some? <==> d.status.Failed?)
    && (d.cancelledAt.Some? ==> d.status.PendingAssignment?)
    && NoLaterThan(d.assignedAt, d.acceptedAt) && NoLaterThan(d.acceptedAt, d.pickedUpAt)
    && NoLaterThan(d.pickedUpAt, d.onTheWayAt)
    && NoLaterThan(d.pickedUpAt, d.deliveredAt) && NoLaterThan(d.onTheWayAt, d.deliveredAt)
    && NoLaterThan(d.pickedUpAt, d.failedAt) && NoLaterThan(d.onTheWayAt, d.failedAt)
    && NoLaterThan(d.assignedAt, Some(now)) && NoLaterThan(d.acceptedAt, Some(now))
    && NoLaterThan(d.pickedUpAt, Some(now)) && NoLaterThan(d.onTheWayAt, Some(now))
  }

  ghost predicate Agrees(t: Tables, o: Id, now: int) {
    && (o in t.deliveries ==> o in t.orders && MilestonesSound(t.deliveries[o], now))
    && (o in t.orders ==> StatusesMatch(t.orders[o], DeliveryOf(t, o)))
  }

  /** A step changes the order and delivery rows of at most one order. */
  function Subject(t: Tables, e: Event): Id {
    match e
    case PlaceOrder(o, _, _) => o
    case Merchant(o, _) => o
    case CustomerCancels(o) => o
    case AdminCancels(o) => o
    case AdminOverrides(o, _) => o
    case PaymentFails(o, _) => o
    case MerchantTimesOut(o) => o
    case RiderTimesOut(o) => o
    case DispatchOrder(o, _, _, _) => o
    case DispatchForRider(_, _, township, _) => ChooseOrder(t, township).GetOr([])
    case AttemptTimesOut(k, _, _, _) => if k < |t.attempts| then t.attempts[k].order else []
    case RiderActs(o, _, _) => o
  }

  lemma DispatchLeavesOthers(t: Tables, p: Id, matched: seq<Id>, any: seq<Id>, now: int, healthy: bool, o: Id)
    requires o != p
    ensures var t1 := DispatchOrCancel(t, p, matched, any, now, healthy);
      && (o in t1.orders <==> o in t.orders) && (o in t.orders ==> t1.orders[o] == t.orders[o])
      && DeliveryOf(t1, o) == DeliveryOf(t, o)
  {
  }

  lemma OthersAreUntouched(t: Tables, e: Event, now: int, o: Id)
    requires o != Subject(t, e)
    ensures var t1 := Step(t, e, now);
      && (o in t1.orders <==> o in t.orders) && (o in t.orders ==> t1.orders[o] == t.orders[o])
      && DeliveryOf(t1, o) == DeliveryOf(t, o)
  {
    hide DispatchOrCancel;
    match e {
      case DispatchOrder(p, matched, any, healthy) => DispatchLeavesOthers(t, p, matched, any, now, healthy, o);
      case AttemptTimesOut(k, matched, any, healthy) =>
        if k < |t.attempts| {
          DispatchLeavesOthers(ExpireAttempt(t, k), t.attempts[k].order, matched, any, now, healthy, o);
        }
      case _ =>
    }
  }

  /** A cancellation by the customer or an administrator that goes through. */
  predicate Cancels(t: Tables, e: Event, o: Id) {
    o in t.orders
    && ((e == CustomerCancels(o) && CustomerMayCancel(t.orders[o].status))
        || (e == AdminCancels(o) && AdminMayCancel(t.orders[o].status)))
  }

  /** Neither touches the delivery row, so a rider on it is left there. */
  predicate LeavesRider(t: Tables, e: Event, o: Id) {
    Cancels(t, e, o) && HasRider(t, o)
  }

  predicate Overrides(e: Event, o: Id) {
    e.AdminOverrides? && e.order == o
  }

  predicate Regular(t: Tables, e: Event, o: Id) {
    !LeavesRider(t, e, o) && !Overrides(e, o)
  }

  lemma AssignKeepsAgreement(t: Tables, o: Id, rider: Id, now: int, healthy: bool)
    requires Agrees(t, o, now) && InStatus(t, o, MerchantAccepted) && !t.orders[o].pickup
    ensures Agrees(Assign(t, o, rider, now, healthy), o, now)
  {
  }

  lemma DispatchKeepsAgreement(t: Tables, o: Id, matched: seq<Id>, any: seq<Id>, now: int, healthy: bool)
    requires Agrees(t, o, now) && InStatus(t, o, MerchantAccepted) && !t.orders[o].pickup
    ensures Agrees(DispatchOrCancel(t, o, matched, any, now, healthy), o, now)
  {
  }

  lemma TimeoutKeepsAgreement(t: Tables, k: nat, matched: seq<Id>, any: seq<Id>, now: int, healthy: bool)
    requires k < |t.attempts| && Agrees(t, t.attempts[k].order, now)
    ensures Agrees(DispatchTimeout(t, k, matched, any, now, healthy), t.attempts[k].order, now)
  {
    var o := t.attempts[k].order;
    if t.attempts[k].outcome.PendingOutcome? {
      var expired := ExpireAttempt(t, k);
      assert Agrees(expired, o, now);
      if TimeoutApplies(t, o) {
        DispatchKeepsAgreement(expired, o, matched, any, now, healthy);
      }
    }
  }

  /** The row moves on with its milestones; a pick-up needs the acceptance to have been recorded. */
  lemma ActionKeepsMilestones(d: Delivery, order: OrderStatus, action: RiderAction, now: int)
    requires MilestonesSound(d, now) && Permitted(action, order, d.status) && !(action.PickUp? && d.status.Assigned?)
    ensures MilestonesSound(TargetRow(action, d, now), now)
  {
  }

  lemma ActionKeepsStatuses(order: Order, d: Delivery, action: RiderAction, now: int)
    requires StatusesMatch(order, Some(d)) && Permitted(action, order.status, d.status)
    ensures StatusesMatch(order.(status := TargetStatus(action)), Some(TargetRow(action, d, now)))
    ensures !(action.PickUp? && d.status.Assigned?)
  {
  }

  lemma ActKeepsAgreement(t: Tables, o: Id, rider: Id, action: RiderAction, now: int)
    requires Agrees(t, o, now)
    ensures Agrees(Act(t, o, rider, action, now), o, now)
  {
    hide MilestonesSound, StatusesMatch, Permitted, TargetRow, TargetStatus, LatestPending;
    if Succeeds(t, o, rider, action) && !AlreadyDone(t, o, action) {
      ActionKeepsStatuses(t.orders[o], t.deliveries[o], action, now);
      ActionKeepsMilestones(t.deliveries[o], t.orders[o].status, action, now);
    }
  }

  lemma AgreementSurvivesTime(t: Tables, o: Id, before: int, now: int)
    requires Agrees(t, o, before) && before <= now
    ensures Agrees(t, o, now)
  {
  }

  lemma SubjectStaysInAgreement(t: Tables, e: Event, before: int, now: int)
    requires Agrees(t, Subject(t, e), before) && before <= now && Regular(t, e, Subject(t, e))
    ensures Agrees(Step(t, e, now), Subject(t, e), now)
  {
    AgreementSurvivesTime(t, Subject(t, e), before, now);
    match e {
      case DispatchOrder(o, matched, any, healthy) =>
        if NeedsRider(t, o) {
          DispatchKeepsAgreement(t, o, matched, any, now, healthy);
        }
      case DispatchForRider(rider, eligible, township, healthy) =>
        var choice := ChooseOrder(t, township);
        if choice.Some? {
          AssignKeepsAgreement(t, choice.value, rider, now, healthy);
        }
      case AttemptTimesOut(k, matched, any, healthy) =>
        if k < |t.attempts| {
          TimeoutKeepsAgreement(t, k, matched, any, now, healthy);
        }
      case RiderActs(o, rider, action) => ActKeepsAgreement(t, o, rider, action, now);
      case PlaceOrder(o, _, _) =>
      case Merchant(o, _) =>
      case CustomerCancels(o) =>
      case AdminCancels(o) =>
      case AdminOverrides(o, _) =>
      case PaymentFails(o, _) =>
      case MerchantTimesOut(o) =>
      case RiderTimesOut(o) =>
    }
  }

  // ---------------------------------------------------------------------------------------------
  // Where agreement is lost
  // ---------------------------------------------------------------------------------------------

  /** A cancellation keeps an agreeing order in agreement exactly when no rider is on its delivery. */
  lemma CancellationKeepsAgreementExactly(t: Tables, e: Event, o: Id, now: int)
    requires Agrees(t, o, now) && Cancels(t, e, o)
    ensures Agrees(Step(t, e, now), o, now) <==> !HasRider(t, o)
  {
  }

  /** For the customer that means: not a delivery being prepared or ready. */
  lemma CustomerCancelKeepsAgreementExactly(t: Tables, o: Id, now: int)
    requires Agrees(t, o, now) && o in t.orders && CustomerMayCancel(t.orders[o].status)
    ensures Agrees(CustomerCancel(t, o), o, now) <==>
      t.orders[o].pickup || !(t.orders[o].status.Preparing? || t.orders[o].status.Ready?)
  {
  }

  ghost predicate Stranded(t: Tables, o: Id, rider: Id) {
    InStatus(t, o, Cancelled) && o in ActiveOrders(t, rider)
  }

  /** A rider left on a cancelled order stays there unless an administrator overrides the status... */
  lemma StrandedRiderStaysStranded(t: Tables, o: Id, rider: Id, e: Event, now: int)
    requires Stranded(t, o, rider) && !Overrides(e, o)
    ensures Stranded(Step(t, e, now), o, rider)
  {
    if o != Subject(t, e) {
      OthersAreUntouched(t, e, now, o);
    } else {
      StrandedOrderIsLeftAlone(t, o, e, now);
    }
  }

  lemma StrandedOrderIsLeftAlone(t: Tables, o: Id, e: Event, now: int)
    requires InStatus(t, o, Cancelled) && o in t.deliveries && IsActive(t.deliveries[o].status)
    requires o == Subject(t, e) && !Overrides(e, o)
    ensures InStatus(Step(t, e, now), o, Cancelled) && DeliveryOf(Step(t, e, now), o) == DeliveryOf(t, o)
  {
    hide DispatchOrCancel, Assign;
  }

  /** ...so no later assignment of that rider ever commits. */
  lemma StrandedRiderIsNeverAssigned(t: Tables, o: Id, rider: Id, other: Id, healthy: bool)
    requires Stranded(t, o, rider)
    ensures !CanAssign(t, other, rider, healthy)
  {
    assert o in ActiveOrders(t, rider);
  }

  // ---------------------------------------------------------------------------------------------
  // Every run
  // ---------------------------------------------------------------------------------------------

  /** At some point the order was cancelled with a rider on its delivery. */
  predicate CancelledLate(events: seq<Timed>, o: Id) {
    events != [] &&
      var n := |events| - 1;
      CancelledLate(events[..n], o) || LeavesRider(Run(events[..n]), events[n].event, o)
  }

  predicate NeverOverridden(events: seq<Timed>, o: Id) {
    forall i :: 0 <= i < |events| ==> !Overrides(events[i].event, o)
  }

  ghost predicate HasStrandedRider(t: Tables, o: Id) {
    exists rider :: Stranded(t, o, rider)
  }

  lemma StepKeepsAgreement(t: Tables, e: Event, before: int, now: int, o: Id)
    requires Agrees(t, o, before) && before <= now && Regular(t, e, o)
    ensures Agrees(Step(t, e, now), o, now)
  {
    hide Step, MilestonesSound;
    if o == Subject(t, e) {
      SubjectStaysInAgreement(t, e, before, now);
    } else {
      AgreementSurvivesTime(t, o, before, now);
      OthersAreUntouched(t, e, now, o);
    }
  }

  lemma LateCancellationStrands(t: Tables, e: Event, o: Id, before: int, now: int)
    requires Agrees(t, o, before) && LeavesRider(t, e, o)
    ensures HasStrandedRider(Step(t, e, now), o)
  {
    assert Stranded(Step(t, e, now), o, t.deliveries[o].rider.value);
  }

  /**
   * In every reachable state an order whose status no administrator overrode agrees with its
   * delivery, milestones included, exactly when it was never cancelled with a rider on the delivery;
   * where it was, that rider is stranded on it.
   */
  lemma {:induction false} EveryRunAgreesExactly(events: seq<Timed>, now: int, o: Id)
    requires ClockIsMonotone(events) && NeverOverridden(events, o)
    requires forall i :: 0 <= i < |events| ==> events[i].now <= now
    ensures Agrees(Run(events), o, now) <==> !CancelledLate(events, o)
    ensures CancelledLate(events, o) <==> HasStrandedRider(Run(events), o)
  {
    hide Step, MilestonesSound;
    if events != [] {
      var n := |events| - 1;
      var t, e := Run(events[..n]), events[n].event;
      EveryRunAgreesExactly(events[..n], events[n].now, o);
      assert !Overrides(e, o);
      if CancelledLate(events[..n], o) {
        var rider :| Stranded(t, o, rider);
        StrandedRiderStaysStranded(t, o, rider, e, events[n].now);
      } else if LeavesRider(t, e, o) {
        LateCancellationStrands(t, e, o, events[n].now, events[n].now);
      } else {
        StepKeepsAgreement(t, e, events[n].now, events[n].now, o);
        AgreementSurvivesTime(Run(events), o, events[n].now, now);
      }
    }
    StrandedIsDisagreement(Run(events), o, now);
  }

  lemma StrandedIsDisagreement(t: Tables, o: Id, now: int)
    ensures HasStrandedRider(t, o) ==> !Agrees(t, o, now)
  {
  }

  /** The reading a dispatcher relies on: no rider exactly when nothing is assigned. */
  lemma NoRiderMeansUnassigned(events: seq<Timed>, now: int, o: Id)
    requires ClockIsMonotone(events) && NeverOverridden(events, o) && !CancelledLate(events, o)
    requires forall i :: 0 <= i < |events| ==> events[i].now <= now
    ensures var t := Run(events);
      && (!HasRider(t, o) <==> o !in t.deliveries || t.deliveries[o].status.PendingAssignment?)
      && (NeedsRider(t, o) ==> InStatus(t, o, MerchantAccepted))
      && (InStatus(t, o, RiderAssigned) <==> o in t.deliveries && t.deliveries[o].status.Assigned?)
  {
    hide Run;
    EveryRunAgreesExactly(events, now, o);
  }

  // ---------------------------------------------------------------------------------------------
  // Stock is released once for every refusal
  // ---------------------------------------------------------------------------------------------

  predicate IsRefused(status: OrderStatus) {
    status.Cancelled? || status.MerchantRejected?
  }

  /** A status change from an accepted-or-earlier order to a refusal releases its stock. */
  predicate ReleasesStock(from: OrderStatus, to: OrderStatus) {
    from != to && IsRefused(to) && (from.Placed? || from.MerchantAccepted?)
  }

  predicate ReleasesAt(t: Tables, e: Event, now: int, o: Id) {
    var from, to := AfterExpiry(t, e), Step(t, e, now);
    o in from.orders && o in to.orders && ReleasesStock(from.orders[o].status, to.orders[o].status)
  }

  /** By status: cancelling a placed or accepted order, or rejecting it, gives the stock back; from preparing on it stays used. */
  lemma CancellationsReleaseByStatus(t: Tables, o: Id, now: int)
    requires o in t.orders
    ensures var status := t.orders[o].status;
      && (ReleasesAt(t, CustomerCancels(o), now, o) <==> status == Placed || status == MerchantAccepted)
      && (ReleasesAt(t, AdminCancels(o), now, o) <==> status == Placed || status == MerchantAccepted)
      && (ReleasesAt(t, MerchantTimesOut(o), now, o) <==> status == Placed)
      && (ReleasesAt(t, RiderTimesOut(o), now, o) <==> status == MerchantAccepted && !HasRider(t, o))
  {
    hide DispatchTimeout, AutoDispatchOrder, AutoDispatchForRider, Act, ExpireAttempt;
  }

  /** The same for a merchant's moves, failed payments and overrides. */
  lemma OtherRefusalsReleaseByStatus(t: Tables, o: Id, now: int, cash: bool, to: OrderStatus, action: MerchantAction)
    requires o in t.orders
    ensures var status := t.orders[o].status;
      && (ReleasesAt(t, Merchant(o, action), now, o) <==> action == RejectOrder && status == Placed)
      && (ReleasesAt(t, PaymentFails(o, cash), now, o) <==> status == Placed && !cash)
      && (ReleasesAt(t, AdminOverrides(o, to), now, o) <==>
            (status == Placed || status == MerchantAccepted) && (to == Cancelled || to == MerchantRejected))
  {
    assert Step(t, Merchant(o, action), now) == MerchantStep(t, o, action);
    assert Step(t, PaymentFails(o, cash), now) == PaymentFailure(t, o, cash);
    assert Step(t, AdminOverrides(o, to), now) == AdminOverride(t, o, to);
    hide Step;
  }

  function Releases(events: seq<Timed>, o: Id): nat {
    if events == [] then 0
    else
      var n := |events| - 1;
      Releases(events[..n], o) + (if ReleasesAt(Run(events[..n]), events[n].event, events[n].now, o) then 1 else 0)
  }

  predicate Refused(t: Tables, o: Id) {
    o in t.orders && IsRefused(t.orders[o].status)
  }

  /** A cancellation or override that refuses an order from preparing on keeps the stock consumed. */
  predicate ConsumesAt(t: Tables, e: Event, o: Id) {
    && o in t.orders && !IsRefused(t.orders[o].status)
    && !t.orders[o].status.Placed? && !t.orders[o].status.MerchantAccepted?
    && (Cancels(t, e, o) || (Overrides(e, o) && IsRefused(e.status)))
  }

  function Consumptions(events: seq<Timed>, o: Id): nat {
    if events == [] then 0
    else
      var n := |events| - 1;
      Consumptions(events[..n], o) + (if ConsumesAt(Run(events[..n]), events[n].event, o) then 1 else 0)
  }

  /** An override brings a refused order back. */
  predicate RevivesAt(t: Tables, e: Event, o: Id) {
    Refused(t, o) && Overrides(e, o) && !IsRefused(e.status)
  }

  function Revivals(events: seq<Timed>, o: Id): nat {
    if events == [] then 0
    else
      var n := |events| - 1;
      Revivals(events[..n], o) + (if RevivesAt(Run(events[..n]), events[n].event, o) then 1 else 0)
  }

  /** A refusal survives every event but an override to another status, and releases nothing again. */
  lemma RefusalSurvivesExactly(t: Tables, e: Event, now: int, o: Id)
    requires Refused(t, o)
    ensures Refused(Step(t, e, now), o) <==> !RevivesAt(t, e, o)
    ensures !Overrides(e, o) ==> Step(t, e, now).orders[o] == t.orders[o]
    ensures !ReleasesAt(t, e, now, o)
  {
    hide DispatchOrCancel, Assign;
    if o != Subject(t, e) {
      OthersAreUntouched(t, e, now, o);
    }
  }

  lemma RefusalHasOneCause(t: Tables, e: Event, now: int, o: Id)
    requires !Refused(t, o)
    ensures Refused(Step(t, e, now), o) <==> ReleasesAt(t, e, now, o) || ConsumesAt(t, e, o)
    ensures !(ReleasesAt(t, e, now, o) && ConsumesAt(t, e, o))
  {
    hide ChooseOrder, LatestPending, FailedCount;
    if o != Subject(t, e) {
      OthersAreUntouched(t, e, now, o);
    }
  }

  /**
   * Whatever the jobs, riders, merchant, customer, payments and administrators do, an order has
   * released its stock or been cancelled late once for each time it was refused: once if it is
   * refused now, and once for every override that brought it back.
   */
  lemma {:induction false} StockIsReleasedOnce(events: seq<Timed>, o: Id)
    ensures Releases(events, o) + Consumptions(events, o)
      == (if Refused(Run(events), o) then 1 else 0) + Revivals(events, o)
    ensures NeverOverridden(events, o) ==> Releases(events, o) <= 1
  {
    if events != [] {
      var n := |events| - 1;
      StockIsReleasedOnce(events[..n], o);
      var t, e, now := Run(events[..n]), events[n].event, events[n].now;
      if Refused(t, o) {
        RefusalSurvivesExactly(t, e, now, o);
      } else {
        RefusalHasOneCause(t, e, now, o);
      }
    }
    if NeverOverridden(events, o) {
      NoRevivalsWithoutOverride(events, o);
    }
  }

  lemma {:induction false} NoRevivalsWithoutOverride(events: seq<Timed>, o: Id)
    requires NeverOverridden(events, o)
    ensures Revivals(events, o) == 0
  {
    if events != [] {
      NoRevivalsWithoutOverride(events[..|events| - 1], o);
    }
  }

  // ---------------------------------------------------------------------------------------------
  // A concrete run
  // ---------------------------------------------------------------------------------------------

  lemma RunOfAppend(events: seq<Timed>, e: Timed)
    ensures Run(events + [e]) == Step(Run(events), e.event, e.now)
  {
    assert (events + [e])[..|events|] == events;
  }

  /** Placed, accepted by the merchant, offered to a first rider. */
  function Offered(now: int): seq<Timed> {
    [] + [Timed(PlaceOrder("o", false, None), now)] + [Timed(Merchant("o", AcceptOrder), now)]
      + [Timed(DispatchOrder("o", ["r1"], [], true), now)]
  }

  lemma OfferedRun(now: int)
    ensures Run(Offered(now)) == Tables(
      map["o" := Order(RiderAssigned, false, now, None)],
      map["o" := FreshDelivery("r1", now)],
      [Attempt("o", "r1", PendingOutcome)])
  {
    var place, accept := Timed(PlaceOrder("o", false, None), now), Timed(Merchant("o", AcceptOrder), now);
    var t2 := Tables(map["o" := Order(MerchantAccepted, false, now, None)], map[], []);
    RunOfAppend([], place);
    RunOfAppend([] + [place], accept);
    RunOfAppend([] + [place] + [accept], Timed(DispatchOrder("o", ["r1"], [], true), now));
    assert Run([] + [place] + [accept]) == t2;
    assert PickRider(["r1"], [], {}) == Some("r1");
    assert ActiveOrders(t2, "r1") == {};
  }

  lemma AcceptedRun(now: int)
    ensures var t := Run(Offered(now) + [Timed(RiderActs("o", "r1", Accept), now)]);
      && t.orders == map["o" := Order(RiderAccepted, false, now, None)]
      && t.deliveries == map["o" := FreshDelivery("r1", now).(status := Accepted, acceptedAt := Some(now))]
  {
    hide Run, Offered;
    OfferedRun(now);
    RunOfAppend(Offered(now), Timed(RiderActs("o", "r1", Accept), now));
  }

  /** The rider accepts, the merchant starts preparing, the customer cancels. */
  lemma LateCancellationIsReachable(now: int)
    ensures exists events :: NeverOverridden(events, "o") && Stranded(Run(events), "o", "r1")
  {
    var s1 := Offered(now) + [Timed(RiderActs("o", "r1", Accept), now)];
    var prepare, cancel := Timed(Merchant("o", Prepare), now), Timed(CustomerCancels("o"), now);
    AcceptedRun(now);
    RunOfAppend(s1, prepare);
    RunOfAppend(s1 + [prepare], cancel);
    hide Run, Act;
    var t := Run(s1 + [prepare] + [cancel]);
    assert InStatus(t, "o", Cancelled) && "o" in ActiveOrders(t, "r1");
    assert NeverOverridden(s1 + [prepare] + [cancel], "o");
  }
}
