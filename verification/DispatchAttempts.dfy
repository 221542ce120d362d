/** What the attempt log guarantees: distinct riders, a bounded retry chain, the limit of three. */
module DispatchAttempts {
  import opened Base
  import opened Dispatch

  // ---------------------------------------------------------------------------------------------
  // The log itself
  // ---------------------------------------------------------------------------------------------

  lemma {:induction false} LatestPendingIsFound(attempts: seq<Attempt>, o: Id, rider: Id)
    ensures var k := LatestPending(attempts, o, rider);
      && (k.Some? ==> k.value < |attempts| && attempts[k.value] == Attempt(o, rider, PendingOutcome))
      && (k.Some? ==> forall j :: k.value < j < |attempts| ==> attempts[j] != attempts[k.value])
      && (k.None? ==> Attempt(o, rider, PendingOutcome) !in attempts)
  {
    if attempts != [] {
      var n := |attempts| - 1;
      LatestPendingIsFound(attempts[..n], o, rider);
      assert attempts == attempts[..n] + [attempts[n]];
    }
  }

  function Weight(a: Attempt, o: Id): nat {
    if a.order == o && CountsAsFailure(a.outcome) then 1 else 0
  }

  lemma FailedCountOfAppend(attempts: seq<Attempt>, a: Attempt, o: Id)
    ensures FailedCount(attempts + [a], o) == FailedCount(attempts, o) + Weight(a, o)
  {
    assert (attempts + [a])[..|attempts|] == attempts;
  }

  lemma {:induction false} FailedCountOfUpdate(attempts: seq<Attempt>, k: nat, a: Attempt, o: Id)
    requires k < |attempts|
    ensures FailedCount(attempts[k := a], o) == FailedCount(attempts, o) - Weight(attempts[k], o) + Weight(a, o)
  {
    var n := |attempts| - 1;
    if k == n {
      assert attempts[k := a][..n] == attempts[..n];
    } else {
      assert attempts[k := a][..n] == attempts[..n][k := a];
      FailedCountOfUpdate(attempts[..n], k, a, o);
    }
  }

  lemma {:induction false} NoFailuresNoCount(attempts: seq<Attempt>, o: Id)
    requires forall k :: 0 <= k < |attempts| && attempts[k].order == o ==> attempts[k].outcome.FailedOutcome?
    ensures FailedCount(attempts, o) == 0
  {
    if attempts != [] {
      NoFailuresNoCount(attempts[..|attempts| - 1], o);
    }
  }

  lemma {:induction false} PickedRiderIsUntried(riders: seq<Id>, tried: set<Id>)
    ensures var r := FirstUntried(riders, tried); r.Some? ==> r.value in riders && r.value !in tried
  {
    if riders != [] && riders[0] in tried {
      PickedRiderIsUntried(riders[1..], tried);
    }
  }

  lemma PickedRiderIsNew(matched: seq<Id>, any: seq<Id>, tried: set<Id>)
    ensures var r := PickRider(matched, any, tried);
      r.Some? ==> (r.value in matched || r.value in any) && r.value !in tried
  {
    PickedRiderIsUntried(matched, tried);
    PickedRiderIsUntried(any, tried);
  }

  // ---------------------------------------------------------------------------------------------
  // Every step only settles pending attempts and appends offers
  // ---------------------------------------------------------------------------------------------

  /** `after` is `before` with some pending attempts settled. */
  predicate Settles(before: seq<Attempt>, after: seq<Attempt>) {
    && |before| == |after|
    && forall k :: 0 <= k < |before| ==>
         after[k] == before[k]
         || (before[k].outcome.PendingOutcome? && !after[k].outcome.FailedOutcome?
             && after[k] == before[k].(outcome := after[k].outcome))
  }

  /** The order for which a step offers the job to a rider, and that rider. */
  function Offer(t: Tables, e: Event): Option<(Id, Id)> {
    match e
    case DispatchOrder(o, matched, any, _) => if NeedsRider(t, o) then NextOffer(t, o, matched, any) else None
    case AttemptTimesOut(k, matched, any, _) =>
      if k < |t.attempts| && t.attempts[k].outcome.PendingOutcome? && TimeoutApplies(t, t.attempts[k].order)
      then NextOffer(ExpireAttempt(t, k), t.attempts[k].order, matched, any) else None
    case DispatchForRider(rider, eligible, township, _) =>
      var choice := ChooseOrder(t, township);
      if eligible && choice.Some? then Some((choice.value, rider)) else None
    case _ => None
  }

  function IsHealthy(e: Event): bool {
    match e
    case DispatchOrder(_, _, _, healthy) => healthy
    case AttemptTimesOut(_, _, _, healthy) => healthy
    case DispatchForRider(_, _, _, healthy) => healthy
    case _ => true
  }

  lemma ResolveSettles(t: Tables, o: Id, rider: Id, outcome: Outcome)
    requires !outcome.FailedOutcome?
    ensures Settles(t.attempts, Resolve(t, o, rider, outcome).attempts)
  {
    LatestPendingIsFound(t.attempts, o, rider);
  }

  lemma ActSettles(t: Tables, o: Id, rider: Id, action: RiderAction, now: int)
    ensures var t1 := Act(t, o, rider, action, now);
      Settles(t.attempts, t1.attempts) && t1.deliveries.Keys == t.deliveries.Keys
  {
    if Succeeds(t, o, rider, action) {
      var moved := if AlreadyDone(t, o, action) then t else Transition(t, o, action, now);
      ResolveSettles(moved, o, rider, AcceptedOutcome);
      ResolveSettles(moved, o, rider, RejectedOutcome);
    }
  }

  /** Without an offer a step settles attempts; with one it then is exactly the assignment. */
  lemma StepShape(t: Tables, e: Event, now: int)
    ensures var t1, offer := Step(t, e, now), Offer(t, e);
      && Settles(t.attempts, AfterExpiry(t, e).attempts)
      && (offer.None? ==> Settles(t.attempts, t1.attempts))
      && (offer.Some? ==> t1 == Assign(AfterExpiry(t, e), offer.value.0, offer.value.1, now, IsHealthy(e)))
      && t.deliveries.Keys <= t1.deliveries.Keys
      && t.deliveries.Keys == AfterExpiry(t, e).deliveries.Keys
  {
    if e.RiderActs? {
      hide Act;
      ActSettles(t, e.order, e.rider, e.action, now);
    }
  }

  // ---------------------------------------------------------------------------------------------
  // Distinct riders
  // ---------------------------------------------------------------------------------------------

  /** No rider is offered an order twice unless an assignment transaction failed. */
  predicate DistinctRiders(attempts: seq<Attempt>) {
    forall i, j :: 0 <= i < j < |attempts| && attempts[i].order == attempts[j].order
      && !attempts[i].outcome.FailedOutcome? && !attempts[j].outcome.FailedOutcome?
      ==> attempts[i].rider != attempts[j].rider
  }

  /** An order that never got a delivery row has only failed assignment transactions behind it. */
  predicate RowlessMeansFailed(t: Tables) {
    forall k :: 0 <= k < |t.attempts| && t.attempts[k].order !in t.deliveries ==> t.attempts[k].outcome.FailedOutcome?
  }

  predicate LogSound(t: Tables) {
    DistinctRiders(t.attempts) && RowlessMeansFailed(t)
  }

  lemma SettlingKeepsLog(t: Tables, t1: Tables)
    requires LogSound(t) && Settles(t.attempts, t1.attempts) && t.deliveries.Keys <= t1.deliveries.Keys
    ensures LogSound(t1)
  {
  }

  /** An offer goes to a rider not tried before, or the order has no live attempt at all. */
  lemma OfferIsNew(t: Tables, e: Event)
    requires LogSound(t) && Offer(t, e).Some?
    ensures var (o, rider) := Offer(t, e).value;
      var log := AfterExpiry(t, e).attempts;
      && FailedCount(log, o) < MAX_FAILED_ATTEMPTS
      && (rider !in Tried(log, o)
          || (o !in t.deliveries && log == t.attempts))
  {
    var (o, rider) := Offer(t, e).value;
    var log := AfterExpiry(t, e).attempts;
    if e.DispatchForRider? {
      NoFailuresNoCount(t.attempts, o);
    } else if e.DispatchOrder? {
      PickedRiderIsNew(e.matched, e.any, Tried(log, o));
    } else {
      PickedRiderIsNew(e.matched, e.any, Tried(log, o));
    }
  }

  lemma AssignKeepsLog(t: Tables, o: Id, rider: Id, now: int, healthy: bool)
    requires LogSound(t) && (rider !in Tried(t.attempts, o) || o !in t.deliveries)
    ensures LogSound(Assign(t, o, rider, now, healthy))
  {
  }

  lemma StepKeepsLog(t: Tables, e: Event, now: int)
    requires LogSound(t)
    ensures LogSound(Step(t, e, now))
  {
    hide *;
    StepShape(t, e, now);
    var base := AfterExpiry(t, e);
    SettlingKeepsLog(t, base);
    if Offer(t, e).None? {
      SettlingKeepsLog(t, Step(t, e, now));
    } else {
      OfferIsNew(t, e);
      AssignKeepsLog(base, Offer(t, e).value.0, Offer(t, e).value.1, now, IsHealthy(e));
    }
  }

  lemma {:induction false} EveryRunKeepsLog(events: seq<Timed>)
    ensures LogSound(Run(events))
  {
    if events != [] {
      var n := |events| - 1;
      EveryRunKeepsLog(events[..n]);
      StepKeepsLog(Run(events[..n]), events[n].event, events[n].now);
    }
  }

  /** In every run, committed assignments of one order go to pairwise distinct riders. */
  lemma AssignmentsGoToDistinctRiders(events: seq<Timed>, i: nat, j: nat)
    requires i < j < |Run(events).attempts|
    requires Run(events).attempts[i].order == Run(events).attempts[j].order
    requires !Run(events).attempts[i].outcome.FailedOutcome? && !Run(events).attempts[j].outcome.FailedOutcome?
    ensures Run(events).attempts[i].rider != Run(events).attempts[j].rider
  {
    EveryRunKeepsLog(events);
  }

  // ---------------------------------------------------------------------------------------------
  // What is counted, and the limit of three
  // ---------------------------------------------------------------------------------------------

  /** The attempts of an order that timed out or were rejected. */
  function FailedIndices(attempts: seq<Attempt>, o: Id): set<nat> {
    set k: nat | k < |attempts| && attempts[k].order == o
      && (attempts[k].outcome == TimeoutOutcome || attempts[k].outcome == RejectedOutcome)
  }

  lemma {:induction false} FailuresAreCounted(attempts: seq<Attempt>, o: Id)
    ensures FailedCount(attempts, o) == |FailedIndices(attempts, o)|
  {
    if attempts != [] {
      var n := |attempts| - 1;
      FailuresAreCounted(attempts[..n], o);
      var before, all := FailedIndices(attempts[..n], o), FailedIndices(attempts, o);
      assert n !in before;
      assert all == before + (if n in all then {n} else {});
    }
  }

  /** A rider who rejects an open offer adds one failure to that order, and to no other. */
  lemma RejectionCounts(t: Tables, o: Id, rider: Id, now: int, p: Id)
    requires OwnedBy(t, o, rider) && t.orders[o].status == RiderAssigned && t.deliveries[o].status == Assigned
    requires Attempt(o, rider, PendingOutcome) in t.attempts
    ensures FailedCount(Act(t, o, rider, Reject, now).attempts, p) == FailedCount(t.attempts, p) + (if p == o then 1 else 0)
  {
    LatestPendingIsFound(t.attempts, o, rider);
    var k := LatestPending(t.attempts, o, rider).value;
    FailedCountOfUpdate(t.attempts, k, Attempt(o, rider, RejectedOutcome), p);
  }

  /** So does the expiry of an open offer. */
  lemma ExpiryCounts(t: Tables, k: nat, p: Id)
    requires k < |t.attempts| && t.attempts[k].outcome == PendingOutcome
    ensures FailedCount(ExpireAttempt(t, k).attempts, p) == FailedCount(t.attempts, p) + (if p == t.attempts[k].order then 1 else 0)
  {
    FailedCountOfUpdate(t.attempts, k, t.attempts[k].(outcome := TimeoutOutcome), p);
  }

  /** An accepted order without a rider: given up at three failures, and otherwise offered to an untried candidate. */
  lemma ThreeFailuresCancel(t: Tables, o: Id, matched: seq<Id>, any: seq<Id>, now: int, healthy: bool)
    requires o in t.orders && t.orders[o].status == MerchantAccepted && !t.orders[o].pickup
    requires o in t.deliveries ==> t.deliveries[o].rider == None
    ensures var t1, failures := AutoDispatchOrder(t, o, matched, any, now, healthy), |FailedIndices(t.attempts, o)|;
      && (failures >= 3 ==> t1.orders == t.orders[o := t.orders[o].(status := Cancelled)])
      && (failures >= 3 ==> t1.deliveries == t.deliveries && t1.attempts == t.attempts)
      && (failures < 3 && (exists r :: r in matched + any && r !in Tried(t.attempts, o)) ==>
            |t1.attempts| == |t.attempts| + 1 && t1.attempts[|t.attempts|].order == o
            && t1.attempts[|t.attempts|].rider in matched + any
            && t1.attempts[|t.attempts|].rider !in Tried(t.attempts, o))
      && (failures < 3 && (forall r :: r in matched + any ==> r in Tried(t.attempts, o)) ==> t1 == t)
  {
    FailuresAreCounted(t.attempts, o);
    PickedRiderIsNew(matched, any, Tried(t.attempts, o));
    NoneIsPickedExactly(matched, any, Tried(t.attempts, o));
  }

  /** A job for any other order does nothing: not accepted, a pickup, or with a rider on its delivery. */
  lemma OthersAreNotDispatched(t: Tables, o: Id, matched: seq<Id>, any: seq<Id>, now: int, healthy: bool)
    requires o !in t.orders || t.orders[o].status != MerchantAccepted || t.orders[o].pickup
          || (o in t.deliveries && t.deliveries[o].rider != None)
    ensures AutoDispatchOrder(t, o, matched, any, now, healthy) == t
  {
  }

  lemma {:induction false} NoneIsUntriedExactly(riders: seq<Id>, tried: set<Id>)
    ensures FirstUntried(riders, tried).None? <==> forall r :: r in riders ==> r in tried
  {
    if riders != [] {
      NoneIsUntriedExactly(riders[1..], tried);
      assert riders == [riders[0]] + riders[1..];
    }
  }

  lemma NoneIsPickedExactly(matched: seq<Id>, any: seq<Id>, tried: set<Id>)
    ensures PickRider(matched, any, tried).None? <==> forall r :: r in matched + any ==> r in tried
  {
    NoneIsUntriedExactly(matched, tried);
    NoneIsUntriedExactly(any, tried);
  }

  /** The third failure, by timeout, cancels the order too. */
  lemma ThirdTimeoutCancels(t: Tables, k: nat, matched: seq<Id>, any: seq<Id>, now: int, healthy: bool)
    requires k < |t.attempts| && t.attempts[k].outcome == PendingOutcome && TimeoutApplies(t, t.attempts[k].order)
    requires |FailedIndices(t.attempts, t.attempts[k].order)| >= 2
    ensures InStatus(DispatchTimeout(t, k, matched, any, now, healthy), t.attempts[k].order, Cancelled)
  {
    FailuresAreCounted(t.attempts, t.attempts[k].order);
    ExpiryCounts(t, k, t.attempts[k].order);
    hide FailedCount;
  }

  /** No assignment is ever made once three attempts have timed out or been rejected. */
  lemma NoOfferAtTheLimit(events: seq<Timed>, e: Event, now: int)
    ensures var t, offer := Run(events), Offer(Run(events), e);
      && (offer.Some? ==> |FailedIndices(Step(t, e, now).attempts, offer.value.0)| < 3)
      && (offer.None? ==> |Step(t, e, now).attempts| == |t.attempts|)
  {
    EveryRunKeepsLog(events);
    var t := Run(events);
    StepShape(t, e, now);
    if Offer(t, e).Some? {
      OfferIsNew(t, e);
      var (o, rider) := Offer(t, e).value;
      FailuresAreCounted(Step(t, e, now).attempts, o);
      var log := AfterExpiry(t, e).attempts;
      FailedCountOfAppend(log, Attempt(o, rider, PendingOutcome), o);
      FailedCountOfAppend(log, Attempt(o, rider, FailedOutcome), o);
    }
  }

  // ---------------------------------------------------------------------------------------------
  // The retry chain ends
  // ---------------------------------------------------------------------------------------------

  /** A job offered the order but the transaction failed: the order is queued again. */
  predicate Retries(t: Tables, e: Event, o: Id) {
    && Offer(t, e).Some? && Offer(t, e).value.0 == o
    && !CanAssign(AfterExpiry(t, e), o, Offer(t, e).value.1, IsHealthy(e))
  }

  /** The order is queued again exactly when the step leaves one more attempt on it, and that one failed. */
  lemma RetriesLeaveAFailedAttempt(t: Tables, e: Event, now: int, o: Id)
    ensures var log, after := t.attempts, Step(t, e, now).attempts;
      Retries(t, e, o) <==> |after| == |log| + 1 && after[|log|].order == o && after[|log|].outcome == FailedOutcome
  {
    StepShape(t, e, now);
  }

  /** A rider who became available was given this order, tried before or not. */
  predicate RiderTriggers(t: Tables, e: Event, o: Id) {
    e.DispatchForRider? && Offer(t, e).Some? && Offer(t, e).value.0 == o
  }

  function RetryCount(events: seq<Timed>, o: Id): nat {
    if events == [] then 0
    else
      var n := |events| - 1;
      RetryCount(events[..n], o) + (if Retries(Run(events[..n]), events[n].event, o) then 1 else 0)
  }

  function RiderTriggerCount(events: seq<Timed>, o: Id): nat {
    if events == [] then 0
    else
      var n := |events| - 1;
      RiderTriggerCount(events[..n], o) + (if RiderTriggers(Run(events[..n]), events[n].event, o) then 1 else 0)
  }

  /** Every rider a step may offer an order to. */
  function Candidates(e: Event): set<Id> {
    match e
    case DispatchOrder(_, matched, any, _) => (set r | r in matched) + (set r | r in any)
    case AttemptTimesOut(_, matched, any, _) => (set r | r in matched) + (set r | r in any)
    case DispatchForRider(rider, _, _, _) => {rider}
    case _ => {}
  }

  lemma SettlingKeepsTried(before: seq<Attempt>, after: seq<Attempt>, o: Id)
    requires Settles(before, after)
    ensures Tried(after, o) == Tried(before, o)
  {
  }

  lemma TriedOfAppend(attempts: seq<Attempt>, a: Attempt, o: Id)
    ensures Tried(attempts + [a], o) == Tried(attempts, o) + (if a.order == o then {a.rider} else {})
  {
    var all := attempts + [a];
    forall r | r in Tried(attempts, o) ensures r in Tried(all, o) {
      var k :| 0 <= k < |attempts| && attempts[k].order == o && attempts[k].rider == r;
      assert all[k].order == o && all[k].rider == r;
    }
    if a.order == o {
      assert all[|attempts|].order == o;
    }
  }

  /** A step forgets no tried rider and tries only candidates; a job's retry tries a new one. */
  lemma StepGrowsTried(t: Tables, e: Event, now: int, o: Id)
    ensures var before, after := Tried(t.attempts, o), Tried(Step(t, e, now).attempts, o);
      && before <= after <= before + Candidates(e)
      && (Retries(t, e, o) && !RiderTriggers(t, e, o) ==> before < after)
  {
    StepShape(t, e, now);
    var t1, base := Step(t, e, now), AfterExpiry(t, e);
    if Offer(t, e).None? {
      SettlingKeepsTried(t.attempts, t1.attempts, o);
    } else {
      SettlingKeepsTried(t.attempts, base.attempts, o);
      var (p, rider) := Offer(t, e).value;
      TriedOfAppend(base.attempts, Attempt(p, rider, PendingOutcome), o);
      TriedOfAppend(base.attempts, Attempt(p, rider, FailedOutcome), o);
      if !e.DispatchForRider? {
        PickedRiderIsNew(e.matched, e.any, Tried(base.attempts, p));
      }
    }
  }

  lemma SubsetIsSmaller(a: set<Id>, b: set<Id>)
    requires a <= b
    ensures |a| <= |b| && (a != b ==> |a| < |b|)
  {
    assert b == a + (b - a) && a !! (b - a);
    assert |b| == |a| + |b - a|;
  }

  lemma {:induction false} RetriesGrowTried(events: seq<Timed>, o: Id, riders: set<Id>)
    requires forall i :: 0 <= i < |events| ==> Candidates(events[i].event) <= riders
    ensures RetryCount(events, o) <= |Tried(Run(events).attempts, o)| + RiderTriggerCount(events, o)
    ensures Tried(Run(events).attempts, o) <= riders
  {
    if events != [] {
      var n := |events| - 1;
      RetriesGrowTried(events[..n], o, riders);
      StepGrowsTried(Run(events[..n]), events[n].event, events[n].now, o);
      SubsetIsSmaller(Tried(Run(events[..n]).attempts, o), Tried(Run(events).attempts, o));
    }
  }

  /**
   * Whatever else happens in between, an order is queued again at most once per rider in the system,
   * and once more for every rider whose becoming available picked it.
   */
  lemma RetryChainTerminates(events: seq<Timed>, o: Id, riders: set<Id>)
    requires forall i :: 0 <= i < |events| ==> Candidates(events[i].event) <= riders
    ensures RetryCount(events, o) <= |riders| + RiderTriggerCount(events, o)
  {
    RetriesGrowTried(events, o, riders);
    SubsetIsSmaller(Tried(Run(events).attempts, o), riders);
  }

  /** The second part is needed: a rider-triggered failure may repeat a tried rider and queue again. */
  lemma RiderTriggeredRetryMayRepeatARider(t: Tables, e: Event, now: int, o: Id)
    requires RiderTriggers(t, e, o) && !e.healthy && e.rider in Tried(t.attempts, o)
    ensures Retries(t, e, o) && Tried(Step(t, e, now).attempts, o) == Tried(t.attempts, o)
  {
    StepShape(t, e, now);
    TriedOfAppend(t.attempts, Attempt(o, e.rider, FailedOutcome), o);
  }
}
