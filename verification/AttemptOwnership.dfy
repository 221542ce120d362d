/**
 * An order whose riders cancel only after accepting has at most one open offer, it belongs to the
 * rider the order is assigned to, and a timeout takes the order from that rider only.
 */
module AttemptOwnership {
  import opened Base
  import opened Dispatch
  import opened DispatchAttempts
  import opened OrderDelivery

  predicate IsOpen(t: Tables, k: int) {
    0 <= k < |t.attempts| && t.attempts[k].outcome.PendingOutcome?
  }

  predicate AssignedTo(t: Tables, o: Id, rider: Id) {
    InStatus(t, o, RiderAssigned) && o in t.deliveries
    && t.deliveries[o].status.Assigned? && t.deliveries[o].rider == Some(rider)
  }

  /** The delivery is the rider's to answer; the order may have been cancelled over the rider's head. */
  predicate HeldBy(t: Tables, o: Id, rider: Id) {
    && (InStatus(t, o, RiderAssigned) || InStatus(t, o, Cancelled)) && o in t.deliveries
    && t.deliveries[o].status.Assigned? && t.deliveries[o].rider == Some(rider)
  }

  /** The one open offer of an order: it names the rider on the delivery and the limit is not reached. */
  ghost predicate OffersMatch(t: Tables, o: Id) {
    && (forall k :: IsOpen(t, k) && t.attempts[k].order == o ==> HeldBy(t, o, t.attempts[k].rider))
    && (forall j, k :: IsOpen(t, j) && IsOpen(t, k) && t.attempts[j].order == o == t.attempts[k].order ==> j == k)
    && (InStatus(t, o, RiderAssigned) ==> HasOpenOffer(t, o))
    && (HasOpenOffer(t, o) ==> FailedCount(t.attempts, o) < MAX_FAILED_ATTEMPTS)
    && FailedCount(t.attempts, o) <= MAX_FAILED_ATTEMPTS
  }

  predicate HasOpenOffer(t: Tables, o: Id) {
    exists k :: 0 <= k < |t.attempts| && t.attempts[k].order == o && IsOpen(t, k)
  }

  /** A rider gives an assignment up by rejecting it, cancelling is for accepted ones; no status override. */
  predicate CancelsOnlyAccepted(t: Tables, e: Event, o: Id) {
    !Overrides(e, o) && (e.RiderActs? && e.order == o && e.action.CancelPrePickup? && o in t.deliveries ==> !t.deliveries[o].status.Assigned?)
  }

  /** Tables that agree on everything about one order. */
  predicate SameOrder(t: Tables, t1: Tables, o: Id) {
    && (o in t.orders <==> o in t1.orders) && (o in t.orders ==> t.orders[o] == t1.orders[o])
    && (o in t.deliveries <==> o in t1.deliveries) && (o in t.deliveries ==> t.deliveries[o] == t1.deliveries[o])
  }

  // ---------------------------------------------------------------------------------------------
  // Attempts of one order
  // ---------------------------------------------------------------------------------------------

  /** Appending or settling attempts of another order is not noticed. */
  lemma OtherAppend(t: Tables, t1: Tables, a: Attempt, o: Id)
    requires OffersMatch(t, o) && SameOrder(t, t1, o) && a.order != o && t1.attempts == t.attempts + [a]
    ensures OffersMatch(t1, o)
  {
    FailedCountOfAppend(t.attempts, a, o);
    if HasOpenOffer(t, o) {
      var k :| 0 <= k < |t.attempts| && t.attempts[k].order == o && IsOpen(t, k);
      assert t1.attempts[k] == t.attempts[k] && IsOpen(t1, k);
    }
    forall k | IsOpen(t1, k) && t1.attempts[k].order == o ensures IsOpen(t, k) && t.attempts[k] == t1.attempts[k] {
    }
  }

  lemma OtherUpdate(t: Tables, t1: Tables, k: nat, a: Attempt, o: Id)
    requires OffersMatch(t, o) && SameOrder(t, t1, o) && k < |t.attempts|
    requires t.attempts[k].order != o && a.order != o && t1.attempts == t.attempts[k := a]
    ensures OffersMatch(t1, o)
  {
    FailedCountOfUpdate(t.attempts, k, a, o);
    if HasOpenOffer(t, o) {
      var j :| 0 <= j < |t.attempts| && t.attempts[j].order == o && IsOpen(t, j);
      assert t1.attempts[j] == t.attempts[j] && IsOpen(t1, j);
    }
    forall j | IsOpen(t1, j) && t1.attempts[j].order == o ensures IsOpen(t, j) && t.attempts[j] == t1.attempts[j] {
    }
  }

  /** An order without an open offer may move freely. */
  lemma MovesKeepOffers(t: Tables, t1: Tables, o: Id)
    requires OffersMatch(t, o) && !HasOpenOffer(t, o)
    requires t1.attempts == t.attempts && !InStatus(t1, o, RiderAssigned)
    ensures OffersMatch(t1, o)
  {
    assert !HasOpenOffer(t1, o);
  }

  lemma OpenMeansHeld(t: Tables, o: Id)
    requires OffersMatch(t, o) && !InStatus(t, o, RiderAssigned) && !InStatus(t, o, Cancelled)
    ensures !HasOpenOffer(t, o)
  {
  }

  /** A cancellation over the rider's head leaves the offer open on the cancelled order. */
  lemma CancellingKeepsOffers(t: Tables, o: Id)
    requires OffersMatch(t, o) && o in t.orders
    ensures OffersMatch(SetStatus(t, o, Cancelled), o)
  {
    var t1 := SetStatus(t, o, Cancelled);
    forall k | IsOpen(t1, k) && t1.attempts[k].order == o ensures HeldBy(t1, o, t1.attempts[k].rider) {
      assert IsOpen(t, k);
    }
    assert HasOpenOffer(t1, o) ==> HasOpenOffer(t, o);
  }

  lemma AssignKeepsOffers(t: Tables, o: Id, rider: Id, now: int, healthy: bool, p: Id)
    requires OffersMatch(t, p)
    requires p == o ==> InStatus(t, o, MerchantAccepted) && FailedCount(t.attempts, o) < MAX_FAILED_ATTEMPTS
    ensures OffersMatch(Assign(t, o, rider, now, healthy), p)
  {
    var t1 := Assign(t, o, rider, now, healthy);
    var a := t1.attempts[|t.attempts|];
    if p != o {
      OtherAppend(t, t1, a, p);
    } else {
      OpenMeansHeld(t, o);
      FailedCountOfAppend(t.attempts, a, o);
      assert t1.attempts[|t.attempts|].order == o;
      forall k | IsOpen(t1, k) && t1.attempts[k].order == o ensures k >= |t.attempts| {
        assert k < |t.attempts| ==> IsOpen(t, k);
      }
      if CanAssign(t, o, rider, healthy) {
        assert IsOpen(t1, |t.attempts|);
      }
    }
  }

  lemma DispatchKeepsOffers(t: Tables, o: Id, matched: seq<Id>, any: seq<Id>, now: int, healthy: bool, p: Id)
    requires OffersMatch(t, p) && (p == o ==> InStatus(t, o, MerchantAccepted))
    ensures OffersMatch(DispatchOrCancel(t, o, matched, any, now, healthy), p)
  {
    var t1 := DispatchOrCancel(t, o, matched, any, now, healthy);
    var rider := PickRider(matched, any, Tried(t.attempts, o));
    if FailedCount(t.attempts, o) >= MAX_FAILED_ATTEMPTS {
      if p == o {
        OpenMeansHeld(t, o);
        MovesKeepOffers(t, t1, o);
      } else {
        UntouchedOrder(t, t1, p);
      }
    } else if rider.Some? {
      AssignKeepsOffers(t, o, rider.value, now, healthy, p);
    }
  }

  lemma UntouchedOrder(t: Tables, t1: Tables, o: Id)
    requires OffersMatch(t, o) && SameOrder(t, t1, o) && t1.attempts == t.attempts
    ensures OffersMatch(t1, o)
  {
  }

  /** Settling the only open offer while the order leaves the assigned status. */
  lemma SettlingTheOffer(t: Tables, t1: Tables, k: nat, outcome: Outcome)
    requires IsOpen(t, k) && OffersMatch(t, t.attempts[k].order) && !outcome.PendingOutcome?
    requires t1.attempts == t.attempts[k := t.attempts[k].(outcome := outcome)]
    requires !InStatus(t1, t.attempts[k].order, RiderAssigned)
    ensures OffersMatch(t1, t.attempts[k].order)
  {
    var o := t.attempts[k].order;
    FailedCountOfUpdate(t.attempts, k, t1.attempts[k], o);
    assert HasOpenOffer(t, o);
    forall j | IsOpen(t1, j) && t1.attempts[j].order == o ensures false {
      assert IsOpen(t, j);
    }
  }

  /** The order's own open offer expires: if it still stands, it is taken back from its rider. */
  lemma ExpiryKeepsOffers(t: Tables, k: nat)
    requires IsOpen(t, k) && OffersMatch(t, t.attempts[k].order)
    ensures HeldBy(t, t.attempts[k].order, t.attempts[k].rider)
    ensures TimeoutApplies(t, t.attempts[k].order) <==> InStatus(t, t.attempts[k].order, RiderAssigned)
    ensures OffersMatch(ExpireAttempt(t, k), t.attempts[k].order)
  {
    assert HeldBy(t, t.attempts[k].order, t.attempts[k].rider);
    SettlingTheOffer(t, ExpireAttempt(t, k), k, TimeoutOutcome);
  }

  // ---------------------------------------------------------------------------------------------
  // Every step
  // ---------------------------------------------------------------------------------------------

  lemma TimeoutKeepsOffers(t: Tables, k: nat, matched: seq<Id>, any: seq<Id>, now: int, healthy: bool, p: Id)
    requires IsOpen(t, k) && OffersMatch(t, p)
    ensures OffersMatch(DispatchTimeout(t, k, matched, any, now, healthy), p)
  {
    var o, expired := t.attempts[k].order, ExpireAttempt(t, k);
    if p == o {
      ExpiryKeepsOffers(t, k);
    } else {
      OtherUpdate(t, expired, k, expired.attempts[k], p);
    }
    if TimeoutApplies(t, o) {
      DispatchKeepsOffers(expired, o, matched, any, now, healthy, p);
    }
  }

  lemma ActKeepsOwnOffers(t: Tables, o: Id, rider: Id, action: RiderAction, now: int)
    requires OffersMatch(t, o)
    requires action.CancelPrePickup? && o in t.deliveries ==> !t.deliveries[o].status.Assigned?
    ensures OffersMatch(Act(t, o, rider, action, now), o)
  {
    var t1 := Act(t, o, rider, action, now);
    if Succeeds(t, o, rider, action) {
      if AssignedTo(t, o, rider) && (action.Accept? || action.Reject?) {
        var outcome := if action.Accept? then AcceptedOutcome else RejectedOutcome;
        var k :| 0 <= k < |t.attempts| && t.attempts[k].order == o && IsOpen(t, k);
        assert AssignedTo(t, o, t.attempts[k].rider);
        LatestPendingIsFound(t.attempts, o, rider);
        var found := LatestPending(t.attempts, o, rider).value;
        assert IsOpen(t, found);
        SettlingTheOffer(t, t1, k, outcome);
      } else {
        if InStatus(t, o, RiderAssigned) {
          assert HasOpenOffer(t, o);
        } else {
          OpenMeansHeld(t, o);
          NothingToSettle(t, o, rider, action, now);
          MovesKeepOffers(t, t1, o);
        }
      }
    }
  }

  lemma ActKeepsOtherOffers(t: Tables, o: Id, rider: Id, action: RiderAction, now: int, p: Id)
    requires OffersMatch(t, p) && p != o
    ensures OffersMatch(Act(t, o, rider, action, now), p)
  {
    var t1 := Act(t, o, rider, action, now);
    LatestPendingIsFound(t.attempts, o, rider);
    var k := LatestPending(t.attempts, o, rider);
    if Succeeds(t, o, rider, action) && k.Some? && (action.Accept? || action.Reject?) {
      OtherUpdate(t, t1, k.value, t1.attempts[k.value], p);
    } else {
      UntouchedOrder(t, t1, p);
    }
  }

  lemma NothingToSettle(t: Tables, o: Id, rider: Id, action: RiderAction, now: int)
    requires OffersMatch(t, o) && Succeeds(t, o, rider, action) && !HasOpenOffer(t, o)
    ensures Act(t, o, rider, action, now).attempts == t.attempts
  {
    LatestPendingIsFound(t.attempts, o, rider);
    assert forall j :: 0 <= j < |t.attempts| && t.attempts[j].order == o ==> !IsOpen(t, j);
  }

  lemma StepKeepsOffers(t: Tables, e: Event, now: int, p: Id)
    requires OffersMatch(t, p) && LogSound(t) && CancelsOnlyAccepted(t, e, p)
    ensures OffersMatch(Step(t, e, now), p)
  {
    hide OffersMatch, DispatchOrCancel, Assign, Act, FailedCount, ChooseOrder;
    match e {
      case DispatchOrder(o, matched, any, healthy) =>
        if NeedsRider(t, o) {
          DispatchKeepsOffers(t, o, matched, any, now, healthy, p);
        }
      case DispatchForRider(rider, eligible, township, healthy) =>
        var choice := ChooseOrder(t, township);
        if eligible && choice.Some? {
          NoFailuresNoCount(t.attempts, choice.value);
          AssignKeepsOffers(t, choice.value, rider, now, healthy, p);
        }
      case AttemptTimesOut(k, matched, any, healthy) =>
        if IsOpen(t, k) {
          TimeoutKeepsOffers(t, k, matched, any, now, healthy, p);
        }
      case RiderActs(o, rider, action) =>
        if p == o {
          ActKeepsOwnOffers(t, o, rider, action, now);
        } else {
          ActKeepsOtherOffers(t, o, rider, action, now, p);
        }
      case PlaceOrder(o, _, _) => StatusMoveKeepsOffers(t, Step(t, e, now), o, p);
      case Merchant(o, _) => StatusMoveKeepsOffers(t, Step(t, e, now), o, p);
      case CustomerCancels(o) => StatusMoveKeepsOffers(t, Step(t, e, now), o, p);
      case AdminCancels(o) => StatusMoveKeepsOffers(t, Step(t, e, now), o, p);
      case AdminOverrides(o, _) => StatusMoveKeepsOffers(t, Step(t, e, now), o, p);
      case PaymentFails(o, _) => StatusMoveKeepsOffers(t, Step(t, e, now), o, p);
      case MerchantTimesOut(o) => StatusMoveKeepsOffers(t, Step(t, e, now), o, p);
      case RiderTimesOut(o) => StatusMoveKeepsOffers(t, Step(t, e, now), o, p);
    }
  }

  /** A change of one order's status: a cancellation, or a move of an order that is not on offer. */
  lemma StatusMoveKeepsOffers(t: Tables, t1: Tables, o: Id, p: Id)
    requires OffersMatch(t, p) && t1.attempts == t.attempts
    requires p == o ==> (
      t1 == t || (o in t.orders && t1 == SetStatus(t, o, Cancelled))
      || (!InStatus(t, o, RiderAssigned) && !InStatus(t, o, Cancelled) && !InStatus(t1, o, RiderAssigned)))
    requires forall q :: q != o ==> SameOrder(t, t1, q)
    ensures OffersMatch(t1, p)
  {
    if p != o {
      UntouchedOrder(t, t1, p);
    } else if o in t.orders && t1 == SetStatus(t, o, Cancelled) {
      CancellingKeepsOffers(t, o);
    } else if t1 != t {
      OpenMeansHeld(t, o);
      MovesKeepOffers(t, t1, o);
    }
  }

  predicate RidersCancelOnlyAccepted(events: seq<Timed>, o: Id) {
    forall i :: 0 <= i < |events| ==> CancelsOnlyAccepted(Run(events[..i]), events[i].event, o)
  }

  lemma {:induction false} EveryRunKeepsOffers(events: seq<Timed>, o: Id)
    requires RidersCancelOnlyAccepted(events, o)
    ensures OffersMatch(Run(events), o)
  {
    if events == [] {
      assert FailedCount([], o) == 0;
    } else {
      var n := |events| - 1;
      var before := events[..n];
      forall i | 0 <= i < n ensures CancelsOnlyAccepted(Run(before[..i]), before[i].event, o) {
        assert before[..i] == events[..i];
      }
      EveryRunKeepsOffers(before, o);
      EveryRunKeepsLog(before);
      StepKeepsOffers(Run(before), events[n].event, events[n].now, o);
    }
  }

  // ---------------------------------------------------------------------------------------------
  // Main results
  // ---------------------------------------------------------------------------------------------

  /**
   * An assigned order has an open offer, an order never has two, and an open offer belongs to the
   * rider on the delivery; only a cancellation over that rider's head leaves it without the order.
   */
  lemma OneOpenOffer(events: seq<Timed>, o: Id)
    requires RidersCancelOnlyAccepted(events, o)
    ensures var t := Run(events);
      && (InStatus(t, o, RiderAssigned) ==> HasOpenOffer(t, o))
      && (HasOpenOffer(t, o) ==> InStatus(t, o, RiderAssigned) || InStatus(t, o, Cancelled))
      && (forall j, k :: IsOpen(t, j) && IsOpen(t, k) && t.attempts[j].order == o == t.attempts[k].order ==> j == k)
      && (forall k :: IsOpen(t, k) && t.attempts[k].order == o ==> HeldBy(t, o, t.attempts[k].rider))
      && FailedCount(t.attempts, o) <= MAX_FAILED_ATTEMPTS
  {
    hide Run, FailedCount;
    EveryRunKeepsOffers(events, o);
  }

  /** A timeout finds its own rider on the delivery: it takes a standing order from that rider only. */
  lemma TimeoutUnassignsItsOwnRider(events: seq<Timed>, k: nat)
    requires IsOpen(Run(events), k) && RidersCancelOnlyAccepted(events, Run(events).attempts[k].order)
    ensures var t := Run(events); var a := t.attempts[k];
      && HeldBy(t, a.order, a.rider)
      && (HasRider(ExpireAttempt(t, k), a.order) <==> InStatus(t, a.order, Cancelled))
      && (InStatus(t, a.order, Cancelled) ==> SameOrder(t, ExpireAttempt(t, k), a.order))
      && forall p :: p != a.order ==> SameOrder(t, ExpireAttempt(t, k), p)
  {
    hide Run, FailedCount;
    EveryRunKeepsOffers(events, Run(events).attempts[k].order);
  }

  /** Matching offers survive a rider's cancellation exactly when it is not of an unanswered one. */
  lemma CancellationKeepsOffersExactly(t: Tables, o: Id, rider: Id, now: int)
    requires OffersMatch(t, o) && OwnedBy(t, o, rider)
    requires CanCancelPrePickup(t.orders[o].status, t.deliveries[o].status)
    requires InStatus(t, o, RiderAssigned) <==> t.deliveries[o].status.Assigned?
    ensures OffersMatch(Act(t, o, rider, CancelPrePickup, now), o) <==> !t.deliveries[o].status.Assigned?
  {
    var t1 := Act(t, o, rider, CancelPrePickup, now);
    if t.deliveries[o].status.Assigned? {
      var k :| 0 <= k < |t.attempts| && t.attempts[k].order == o && IsOpen(t, k);
      assert IsOpen(t1, k) && !OffersMatch(t1, o);
    } else {
      ActKeepsOwnOffers(t, o, rider, CancelPrePickup, now);
    }
  }

  /**
   * A cancelled offer stays open: once the order is offered to another rider, the first rider's
   * timeout takes it away from that other rider.
   */
  lemma StaleTimeoutHitsAnotherRider(t: Tables, o: Id, first: Id, second: Id, k: nat, now: int)
    requires IsOpen(t, k) && t.attempts[k] == Attempt(o, first, PendingOutcome)
    requires AssignedTo(t, o, first) && !t.orders[o].pickup
    requires second !in Tried(t.attempts, o) && ActiveOrders(t, second) == {}
    requires FailedCount(t.attempts, o) < MAX_FAILED_ATTEMPTS
    ensures var cancelled := Act(t, o, first, CancelPrePickup, now);
      var offered := AutoDispatchOrder(cancelled, o, [second], [], now, true);
      && AssignedTo(offered, o, second)
      && IsOpen(offered, k) && offered.attempts[k] == Attempt(o, first, PendingOutcome)
      && !HasRider(ExpireAttempt(offered, k), o)
  {
    var cancelled := Act(t, o, first, CancelPrePickup, now);
    assert cancelled.attempts == t.attempts && NeedsRider(cancelled, o);
    assert ActiveOrders(cancelled, second) <= ActiveOrders(t, second);
    assert PickRider([second], [], Tried(t.attempts, o)) == Some(second);
    var offered := Assign(cancelled, o, second, now, true);
    assert AutoDispatchOrder(cancelled, o, [second], [], now, true) == offered;
    assert AssignedTo(offered, o, second) && offered.attempts[k] == t.attempts[k];
  }

  /** A reachable state from which that happens: the order's first offer is unanswered. */
  lemma StaleTimeoutIsReachable(now: int)
    ensures exists events ::
              var t := Run(events);
              && IsOpen(t, 0) && t.attempts[0] == Attempt("o", "r1", PendingOutcome)
              && AssignedTo(t, "o", "r1") && !t.orders["o"].pickup
              && "r2" !in Tried(t.attempts, "o") && ActiveOrders(t, "r2") == {}
              && FailedCount(t.attempts, "o") < MAX_FAILED_ATTEMPTS
  {
    OfferedRun(now);
    var t := Run(Offered(now));
    assert t.attempts == [] + [Attempt("o", "r1", PendingOutcome)];
    FailedCountOfAppend([], Attempt("o", "r1", PendingOutcome), "o");
    TriedOfAppend([], Attempt("o", "r1", PendingOutcome), "o");
    assert ActiveOrders(t, "r2") == {};
  }

  /** Placed, accepted, and offered to a rider who came free; the transaction failed. */
  function FailedOffer(now: int): seq<Timed> {
    [] + [Timed(PlaceOrder("o", false, None), now)] + [Timed(Merchant("o", AcceptOrder), now)]
      + [Timed(DispatchForRider("r", true, None, false), now)]
  }

  lemma FailedOfferRun(now: int)
    ensures Run(FailedOffer(now)) == Tables(
      map["o" := Order(MerchantAccepted, false, now, None)], map[], [Attempt("o", "r", FailedOutcome)])
  {
    var place, accept := Timed(PlaceOrder("o", false, None), now), Timed(Merchant("o", AcceptOrder), now);
    var accepted := Tables(map["o" := Order(MerchantAccepted, false, now, None)], map[], []);
    RunOfAppend([], place);
    RunOfAppend([] + [place], accept);
    RunOfAppend([] + [place] + [accept], Timed(DispatchForRider("r", true, None, false), now));
    assert Run([] + [place] + [accept]) == accepted;
    assert NeverAssigned(accepted, "o");
    assert ChooseOrder(accepted, None) == Some("o");
  }

  /** The rider comes free again: the same offer fails a second time, and is queued again. */
  lemma RepeatedRetryIsReachable(now: int)
    ensures var t, e := Run(FailedOffer(now)), DispatchForRider("r", true, None, false);
      && RiderTriggers(t, e, "o") && "r" in Tried(t.attempts, "o")
      && Retries(t, e, "o") && Tried(Step(t, e, now).attempts, "o") == Tried(t.attempts, "o")
      && Step(t, e, now).attempts == [Attempt("o", "r", FailedOutcome), Attempt("o", "r", FailedOutcome)]
  {
    hide Run;
    FailedOfferRun(now);
    var t, e := Run(FailedOffer(now)), DispatchForRider("r", true, None, false);
    assert NeverAssigned(t, "o");
    assert ChooseOrder(t, None) == Some("o");
    assert t.attempts[0] == Attempt("o", "r", FailedOutcome);
    RiderTriggeredRetryMayRepeatARider(t, e, now, "o");
  }
}
