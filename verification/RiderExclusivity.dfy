/**
 * The dispatch handlers taken apart (take an order up, begin, lock, count, write, commit or abort) and
 * interleaved with each other and with every other event: no rider ever holds two active deliveries,
 * and a refused order comes back only by a commit that was already under way, or an override.
 */
module RiderExclusivity {
  import opened Base
  import opened Dispatch
  import opened DispatchAttempts
  import opened OrderDelivery

  datatype Phase = Waiting | Locked | Counted | Written

  /** A handler that has read its order, and then its assignment transaction. */
  datatype Handler =
    | Chosen(order: Id)
    | Assigning(order: Id, rider: Id, attempt: nat, now: int, phase: Phase)

  /** Committed tables, the handlers under way by number, and the next free number. */
  datatype World = World(tables: Tables, open: map<nat, Handler>, next: nat)

  datatype Move =
    | Begin(h: nat, rider: Id, now: int)
    | Lock(h: nat)
    | Count(h: nat)
    | Write(h: nat)
    | Commit(h: nat)
    | Abort(h: nat)
    | GiveUp(h: nat)
    | Other(event: Event, now: int)

  predicate HoldsLock(h: Handler) {
    h.Assigning? && !h.phase.Waiting?
  }

  predicate HasCounted(h: Handler) {
    h.Assigning? && (h.phase.Counted? || h.phase.Written?)
  }

  /** The advisory lock is on a hash of the rider, so different riders may share one. */
  predicate LockIsFree(hash: Id -> int, w: World, rider: Id) {
    forall j :: j in w.open && HoldsLock(w.open[j]) ==> hash(w.open[j].rider) != hash(rider)
  }

  predicate InPhase(w: World, k: nat, phase: Phase) {
    k in w.open && w.open[k].Assigning? && w.open[k].phase == phase
  }

  function SetPhase(w: World, k: nat, phase: Phase): World
    requires k in w.open && w.open[k].Assigning?
  {
    w.(open := w.open[k := w.open[k].(phase := phase)])
  }

  /** The handler ends; if it had recorded an attempt, that attempt failed. */
  function Fail(w: World, k: nat): World
    requires k in w.open
  {
    var h, log := w.open[k], w.tables.attempts;
    if h.Assigning? && h.attempt < |log|
    then w.(tables := w.tables.(attempts := log[h.attempt := log[h.attempt].(outcome := FailedOutcome)]), open := w.open - {k})
    else w.(open := w.open - {k})
  }

  function Publish(t: Tables, o: Id, rider: Id, now: int): Tables
    requires o in t.orders
  {
    SetStatus(t, o, RiderAssigned).(deliveries := t.deliveries[o := FreshDelivery(rider, now)])
  }

  /** The order a job takes up for assignment, as it reads the tables. */
  function TakesUp(t: Tables, e: Event): Option<Id> {
    match e
    case DispatchOrder(o, _, _, _) => if NeedsRider(t, o) then Some(o) else None
    case DispatchForRider(_, eligible, township, _) => if eligible then ChooseOrder(t, township) else None
    case AttemptTimesOut(k, _, _, _) =>
      if k < |t.attempts| && t.attempts[k].outcome.PendingOutcome? && TimeoutApplies(t, t.attempts[k].order)
      then Some(t.attempts[k].order) else None
    case _ => None
  }

  /** A move that is not possible in the present state changes nothing. */
  function Next(hash: Id -> int, w: World, m: Move): World {
    match m
    case Begin(k, rider, now) =>
      if k in w.open && w.open[k].Chosen? then
        w.(tables := w.tables.(attempts := w.tables.attempts + [Attempt(w.open[k].order, rider, PendingOutcome)]),
           open := w.open[k := Assigning(w.open[k].order, rider, |w.tables.attempts|, now, Waiting)])
      else w
    case Lock(k) =>
      if InPhase(w, k, Waiting) && LockIsFree(hash, w, w.open[k].rider) then SetPhase(w, k, Locked) else w
    case Count(k) =>
      if !InPhase(w, k, Locked) then w
      else if ActiveOrders(w.tables, w.open[k].rider) != {} then Fail(w, k)
      else SetPhase(w, k, Counted)
    case Write(k) =>
      if InPhase(w, k, Counted) then SetPhase(w, k, Written) else w
    case Commit(k) =>
      if !InPhase(w, k, Written) then w
      else if w.open[k].order !in w.tables.orders then Fail(w, k)
      else w.(tables := Publish(w.tables, w.open[k].order, w.open[k].rider, w.open[k].now), open := w.open - {k})
    case Abort(k) =>
      if k in w.open then Fail(w, k) else w
    case GiveUp(k) =>
      if k in w.open && w.open[k].Chosen? && FailedCount(w.tables.attempts, w.open[k].order) >= MAX_FAILED_ATTEMPTS
      then w.(tables := CancelForSystem(w.tables, w.open[k].order), open := w.open - {k})
      else w
    case Other(e, now) =>
      var o := TakesUp(w.tables, e);
      if o.None? then w.(tables := Step(w.tables, e, now))
      else World(AfterExpiry(w.tables, e), w.open[w.next := Chosen(o.value)], w.next + 1)
  }

  const START := World(EMPTY, map[], 0)

  function Play(hash: Id -> int, moves: seq<Move>): World {
    if moves == [] then START
    else Next(hash, Play(hash, moves[..|moves| - 1]), moves[|moves| - 1])
  }

  // ---------------------------------------------------------------------------------------------
  // One active delivery per rider
  // ---------------------------------------------------------------------------------------------

  predicate LocksExclude(hash: Id -> int, w: World) {
    forall i, j :: i in w.open && j in w.open && i != j && HoldsLock(w.open[i]) && HoldsLock(w.open[j]) ==>
      hash(w.open[i].rider) != hash(w.open[j].rider)
  }

  /** Once a transaction has counted, its rider stays free until it commits. */
  predicate CountsHold(w: World) {
    forall k :: k in w.open && HasCounted(w.open[k]) ==> ActiveOrders(w.tables, w.open[k].rider) == {}
  }

  ghost predicate AtMostOneEach(t: Tables) {
    forall r, o, p :: o in ActiveOrders(t, r) && p in ActiveOrders(t, r) ==> o == p
  }

  ghost predicate Safe(hash: Id -> int, w: World) {
    && LocksExclude(hash, w) && CountsHold(w) && AtMostOneEach(w.tables)
    && forall k :: k in w.open ==> k < w.next
  }

  /** Only an assignment makes a delivery active. */
  lemma OnlyAssignmentActivates(t: Tables, e: Event, now: int, rider: Id)
    ensures ActiveOrders(AfterExpiry(t, e), rider) <= ActiveOrders(t, rider)
    ensures TakesUp(t, e).None? ==> ActiveOrders(Step(t, e, now), rider) <= ActiveOrders(t, rider)
  {
    hide DispatchOrCancel, Assign;
  }

  lemma FewerActiveIsSafe(hash: Id -> int, w: World, w1: World)
    requires Safe(hash, w) && LocksExclude(hash, w1)
    requires forall k :: k in w1.open ==> k < w1.next
    requires forall r :: ActiveOrders(w1.tables, r) <= ActiveOrders(w.tables, r)
    requires forall k :: k in w1.open && HasCounted(w1.open[k]) ==> ActiveOrders(w.tables, w1.open[k].rider) == {}
    ensures Safe(hash, w1)
  {
  }

  lemma CommitIsSafe(hash: Id -> int, w: World, k: nat)
    requires Safe(hash, w) && InPhase(w, k, Written) && w.open[k].order in w.tables.orders
    ensures Safe(hash, Next(hash, w, Commit(k)))
  {
    var w1, h := Next(hash, w, Commit(k)), w.open[k];
    assert forall r :: r != h.rider ==> ActiveOrders(w1.tables, r) <= ActiveOrders(w.tables, r);
    assert ActiveOrders(w1.tables, h.rider) <= {h.order};
    forall r, o, p | o in ActiveOrders(w1.tables, r) && p in ActiveOrders(w1.tables, r) ensures o == p {
      if r != h.rider {
        assert o in ActiveOrders(w.tables, r) && p in ActiveOrders(w.tables, r);
      }
    }
    forall j | j in w1.open && HasCounted(w1.open[j]) ensures ActiveOrders(w1.tables, w1.open[j].rider) == {} {
      assert w.open[j].rider != h.rider;
    }
  }

  lemma EventIsSafe(hash: Id -> int, w: World, e: Event, now: int)
    requires Safe(hash, w)
    ensures Safe(hash, Next(hash, w, Other(e, now)))
  {
    hide Step, AfterExpiry, TakesUp, ActiveOrders;
    var w1 := Next(hash, w, Other(e, now));
    forall r ensures ActiveOrders(w1.tables, r) <= ActiveOrders(w.tables, r) {
      OnlyAssignmentActivates(w.tables, e, now, r);
    }
    FewerActiveIsSafe(hash, w, w1);
  }

  /** Giving up and failing leave the deliveries alone and close the handler. */
  lemma EndingIsSafe(hash: Id -> int, w: World, m: Move)
    requires Safe(hash, w) && (m.Abort? || m.GiveUp? || m.Commit?)
    requires m.Commit? ==> !(InPhase(w, m.h, Written) && w.open[m.h].order in w.tables.orders)
    ensures Safe(hash, Next(hash, w, m))
  {
    hide FailedCount;
    var w1 := Next(hash, w, m);
    assert forall r :: ActiveOrders(w1.tables, r) == ActiveOrders(w.tables, r);
    FewerActiveIsSafe(hash, w, w1);
  }

  lemma MoveIsSafe(hash: Id -> int, w: World, m: Move)
    requires Safe(hash, w)
    ensures Safe(hash, Next(hash, w, m))
  {
    hide Step, AfterExpiry, TakesUp, Publish, FailedCount, CancelForSystem;
    if m.Commit? && InPhase(w, m.h, Written) && w.open[m.h].order in w.tables.orders {
      CommitIsSafe(hash, w, m.h);
    } else if m.Other? {
      EventIsSafe(hash, w, m.event, m.now);
    } else if m.Abort? || m.GiveUp? || m.Commit? {
      EndingIsSafe(hash, w, m);
    } else {
      FewerActiveIsSafe(hash, w, Next(hash, w, m));
    }
  }

  lemma {:induction false} EveryPlayIsSafe(hash: Id -> int, moves: seq<Move>)
    ensures Safe(hash, Play(hash, moves))
  {
    if moves != [] {
      EveryPlayIsSafe(hash, moves[..|moves| - 1]);
      MoveIsSafe(hash, Play(hash, moves[..|moves| - 1]), moves[|moves| - 1]);
    }
  }

  /** However the handlers interleave and the hashes collide, a rider has one active delivery at most. */
  lemma NoDoubleBooking(hash: Id -> int, moves: seq<Move>, rider: Id)
    ensures |ActiveOrders(Play(hash, moves).tables, rider)| <= 1
  {
    EveryPlayIsSafe(hash, moves);
    var active := ActiveOrders(Play(hash, moves).tables, rider);
    if active != {} {
      var o :| o in active;
      assert active == {o};
    }
  }

  /** Without the lock two counted transactions of one rider would double-book that rider. */
  lemma LockIsNeeded(hash: Id -> int, w: World, i: nat, j: nat)
    requires InPhase(w, i, Written) && InPhase(w, j, Written) && i != j
    requires w.open[i].rider == w.open[j].rider && w.open[i].order != w.open[j].order
    requires w.open[i].order in w.tables.orders && w.open[j].order in w.tables.orders
    ensures !LocksExclude(hash, w)
    ensures |ActiveOrders(Next(hash, Next(hash, w, Commit(i)), Commit(j)).tables, w.open[i].rider)| > 1
  {
    var o, p := w.open[i].order, w.open[j].order;
    var active := ActiveOrders(Next(hash, Next(hash, w, Commit(i)), Commit(j)).tables, w.open[i].rider);
    assert {o, p} <= active;
    SubsetIsSmaller({o, p}, active);
  }

  // ---------------------------------------------------------------------------------------------
  // The atomic assignment is the uninterrupted transaction
  // ---------------------------------------------------------------------------------------------

  /** All moves of one transaction, with nothing in between. */
  function Uninterrupted(hash: Id -> int, w: World, k: nat, rider: Id, now: int): World {
    var counted := Next(hash, Next(hash, Next(hash, w, Begin(k, rider, now)), Lock(k)), Count(k));
    Next(hash, Next(hash, counted, Write(k)), Commit(k))
  }

  function Begun(t: Tables, o: Id, rider: Id, now: int, phase: Phase): World {
    World(t.(attempts := t.attempts + [Attempt(o, rider, PendingOutcome)]),
          map[0 := Assigning(o, rider, |t.attempts|, now, phase)], 1)
  }

  lemma FailingLeavesTheAttempt(t: Tables, o: Id, rider: Id, now: int, phase: Phase)
    ensures Fail(Begun(t, o, rider, now, phase), 0)
      == World(t.(attempts := t.attempts + [Attempt(o, rider, FailedOutcome)]), map[], 1)
  {
    var log := t.attempts + [Attempt(o, rider, PendingOutcome)];
    assert log[|t.attempts| := Attempt(o, rider, FailedOutcome)] == t.attempts + [Attempt(o, rider, FailedOutcome)];
  }

  /** Run alone, the transaction is the atomic step: the attempt is recorded and all or nothing else. */
  lemma UninterruptedIsAtomic(hash: Id -> int, t: Tables, o: Id, rider: Id, now: int)
    ensures Uninterrupted(hash, World(t, map[0 := Chosen(o)], 1), 0, rider, now)
      == World(Assign(t, o, rider, now, true), map[], 1)
  {
    var w1, w2 := Begun(t, o, rider, now, Waiting), Begun(t, o, rider, now, Locked);
    assert Next(hash, World(t, map[0 := Chosen(o)], 1), Begin(0, rider, now)) == w1;
    assert Next(hash, w1, Lock(0)) == w2;
    assert ActiveOrders(w2.tables, rider) == ActiveOrders(t, rider);
    if ActiveOrders(t, rider) != {} {
      FailingLeavesTheAttempt(t, o, rider, now, Locked);
    } else {
      var w4 := Begun(t, o, rider, now, Written);
      assert Next(hash, Next(hash, w2, Count(0)), Write(0)) == w4;
      FailingLeavesTheAttempt(t, o, rider, now, Written);
      assert w4.open - {0} == map[];
    }
  }

  /** Aborted at any point before the commit, it leaves just the failed attempt. */
  lemma AbortedIsFailed(hash: Id -> int, t: Tables, o: Id, rider: Id, now: int, phase: Phase)
    ensures Next(hash, Begun(t, o, rider, now, phase), Abort(0)) == World(Assign(t, o, rider, now, false), map[], 1)
  {
    FailingLeavesTheAttempt(t, o, rider, now, phase);
  }

  /** A whole dispatch job run alone is the atomic step: taken up, then given up or assigned. */
  lemma UninterruptedJobIsAtomic(hash: Id -> int, t: Tables, o: Id, matched: seq<Id>, any: seq<Id>, now: int)
    requires NeedsRider(t, o)
    ensures var e := DispatchOrder(o, matched, any, true);
      var taken := Next(hash, World(t, map[], 0), Other(e, now));
      var rider := PickRider(matched, any, Tried(t.attempts, o));
      && (FailedCount(t.attempts, o) >= MAX_FAILED_ATTEMPTS ==> Next(hash, taken, GiveUp(0)) == World(Step(t, e, now), map[], 1))
      && (FailedCount(t.attempts, o) < MAX_FAILED_ATTEMPTS && rider.Some? ==>
            Uninterrupted(hash, taken, 0, rider.value, now).tables == Step(t, e, now))
      && (FailedCount(t.attempts, o) < MAX_FAILED_ATTEMPTS && rider.None? ==>
            Next(hash, taken, Abort(0)).tables == Step(t, e, now))
  {
    hide Uninterrupted, Assign;
    var taken := World(t, map[0 := Chosen(o)], 1);
    assert Next(hash, World(t, map[], 0), Other(DispatchOrder(o, matched, any, true), now)) == taken;
    var rider := PickRider(matched, any, Tried(t.attempts, o));
    if rider.Some? {
      UninterruptedIsAtomic(hash, t, o, rider.value, now);
    }
  }

  /** The rider-triggered job alone: the order it chose is assigned to the rider who came free. */
  lemma UninterruptedRiderJobIsAtomic(hash: Id -> int, t: Tables, rider: Id, eligible: bool, township: Option<string>, now: int)
    ensures var e := DispatchForRider(rider, eligible, township, true);
      var taken := Next(hash, World(t, map[], 0), Other(e, now));
      && (eligible && ChooseOrder(t, township).Some? ==> Uninterrupted(hash, taken, 0, rider, now).tables == Step(t, e, now))
      && (!eligible || ChooseOrder(t, township).None? ==> taken.tables == Step(t, e, now) && taken.open == map[])
  {
    hide Uninterrupted, Assign, ChooseOrder;
    var choice := ChooseOrder(t, township);
    if eligible && choice.Some? {
      assert Next(hash, World(t, map[], 0), Other(DispatchForRider(rider, eligible, township, true), now))
        == World(t, map[0 := Chosen(choice.value)], 1);
      UninterruptedIsAtomic(hash, t, choice.value, rider, now);
    }
  }

  /** A timeout alone: settled attempts are left alone, an answered one is only settled, an unanswered one is re-offered. */
  lemma UninterruptedTimeoutIsAtomic(hash: Id -> int, t: Tables, k: nat, matched: seq<Id>, any: seq<Id>, now: int)
    requires k < |t.attempts|
    ensures var e, o := AttemptTimesOut(k, matched, any, true), t.attempts[k].order;
      var taken := Next(hash, World(t, map[], 0), Other(e, now));
      && (t.attempts[k].outcome != PendingOutcome ==> taken == World(t, map[], 0))
      && (t.attempts[k].outcome == PendingOutcome && !TimeoutApplies(t, o) ==>
            taken.tables == Step(t, e, now) && taken.open == map[])
      && (t.attempts[k].outcome == PendingOutcome && TimeoutApplies(t, o) ==>
            var expired := ExpireAttempt(t, k);
            var rider := PickRider(matched, any, Tried(expired.attempts, o));
            && (|FailedIndices(expired.attempts, o)| >= 3 ==> Next(hash, taken, GiveUp(0)) == World(Step(t, e, now), map[], 1))
            && (|FailedIndices(expired.attempts, o)| < 3 && rider.Some? ==>
                  Uninterrupted(hash, taken, 0, rider.value, now).tables == Step(t, e, now)))
  {
    hide Uninterrupted, Assign, ExpireAttempt, PickRider, FailedCount;
    var o := t.attempts[k].order;
    if t.attempts[k].outcome == PendingOutcome && TimeoutApplies(t, o) {
      var expired := ExpireAttempt(t, k);
      FailuresAreCounted(expired.attempts, o);
      assert Next(hash, World(t, map[], 0), Other(AttemptTimesOut(k, matched, any, true), now)) == World(expired, map[0 := Chosen(o)], 1);
      var rider := PickRider(matched, any, Tried(expired.attempts, o));
      if rider.Some? {
        UninterruptedIsAtomic(hash, expired, o, rider.value, now);
      }
    }
  }

  /** Each move waits for its turn: for its handler's phase, for the lock, and giving up for three failures. */
  lemma MovesOutOfTurnChangeNothing(hash: Id -> int, w: World, k: nat, rider: Id, now: int)
    ensures !(k in w.open && w.open[k].Chosen?) ==> Next(hash, w, Begin(k, rider, now)) == w
    ensures !(k in w.open && w.open[k].Chosen? && |FailedIndices(w.tables.attempts, w.open[k].order)| >= 3) ==>
      Next(hash, w, GiveUp(k)) == w
    ensures !(k in w.open && w.open[k].Assigning? && w.open[k].phase == Waiting) ==> Next(hash, w, Lock(k)) == w
    ensures (exists j :: j in w.open && k in w.open && w.open[j].Assigning? && w.open[k].Assigning?
               && w.open[j].phase != Waiting && hash(w.open[j].rider) == hash(w.open[k].rider)) ==> Next(hash, w, Lock(k)) == w
    ensures !(k in w.open && w.open[k].Assigning? && w.open[k].phase == Locked) ==> Next(hash, w, Count(k)) == w
    ensures !(k in w.open && w.open[k].Assigning? && w.open[k].phase == Counted) ==> Next(hash, w, Write(k)) == w
    ensures !(k in w.open && w.open[k].Assigning? && w.open[k].phase == Phase.Written) ==> Next(hash, w, Commit(k)) == w
    ensures k !in w.open ==> Next(hash, w, Abort(k)) == w
  {
    hide FailedCount;
    if k in w.open {
      FailuresAreCounted(w.tables.attempts, w.open[k].order);
    }
  }

  // ---------------------------------------------------------------------------------------------
  // Refusals under interleaving
  // ---------------------------------------------------------------------------------------------

  /** The commit of a transaction of this order. */
  predicate CommitsOrder(w: World, m: Move, o: Id) {
    m.Commit? && InPhase(w, m.h, Written) && w.open[m.h].order == o
  }

  predicate OverridesToLive(m: Move, o: Id) {
    m.Other? && Overrides(m.event, o) && !IsRefused(m.event.status)
  }

  /**
   * The transaction does not look at the order's status again: a refused order stays refused unless
   * a transaction of it commits or an administrator overrides it.
   */
  lemma RefusalSurvivesExactly(hash: Id -> int, w: World, m: Move, o: Id)
    requires Refused(w.tables, o)
    ensures Refused(Next(hash, w, m).tables, o) <==> !CommitsOrder(w, m, o) && !OverridesToLive(m, o)
  {
    hide Step, TakesUp, ActiveOrders;
    if m.Other? {
      OrderDelivery.RefusalSurvivesExactly(w.tables, m.event, m.now, o);
      ExpiryKeepsRefusals(w.tables, m.event, o);
    }
  }

  lemma ExpiryKeepsRefusals(t: Tables, e: Event, o: Id)
    requires Refused(t, o)
    ensures Refused(AfterExpiry(t, e), o)
    ensures OverridesToLive(Other(e, 0), o) ==> TakesUp(t, e).None?
    ensures TakesUp(t, e) != Some(o)
  {
  }

  predicate UnderWay(w: World, k: nat, o: Id) {
    k in w.open && w.open[k].order == o
  }

  /** No job takes a refused order up: the handlers of it only become fewer. */
  lemma NoneTakesUpARefusedOrder(hash: Id -> int, w: World, m: Move, o: Id, k: nat)
    requires Refused(w.tables, o) && UnderWay(Next(hash, w, m), k, o)
    ensures UnderWay(w, k, o)
  {
    hide Step, ActiveOrders;
    if m.Other? {
      ExpiryKeepsRefusals(w.tables, m.event, o);
    }
  }

  /** Whatever revives a refused order by committing was under way when the order was refused. */
  lemma {:induction false} RevivalWasUnderWay(hash: Id -> int, moves: seq<Move>, i: nat, o: Id, k: nat)
    requires i <= |moves| && UnderWay(Play(hash, moves), k, o)
    requires forall j :: i <= j <= |moves| ==> Refused(Play(hash, moves[..j]).tables, o)
    ensures UnderWay(Play(hash, moves[..i]), k, o)
    decreases |moves| - i
  {
    assert moves[..|moves|] == moves;
    if i < |moves| {
      var before := moves[..|moves| - 1];
      assert Refused(Play(hash, before).tables, o);
      NoneTakesUpARefusedOrder(hash, Play(hash, before), moves[|moves| - 1], o, k);
      forall j | i <= j <= |before| ensures Refused(Play(hash, before[..j]).tables, o) {
        assert before[..j] == moves[..j];
      }
      RevivalWasUnderWay(hash, before, i, o, k);
      assert before[..i] == moves[..i];
    }
  }

  /** Between two moves, the order's stock is released. */
  predicate ReleasesBetween(before: Tables, after: Tables, o: Id) {
    o in before.orders && o in after.orders && ReleasesStock(before.orders[o].status, after.orders[o].status)
  }

  function StockReleases(hash: Id -> int, moves: seq<Move>, o: Id): nat {
    if moves == [] then 0
    else
      var before := moves[..|moves| - 1];
      StockReleases(hash, before, o)
        + (if ReleasesBetween(Play(hash, before).tables, Play(hash, moves).tables, o) then 1 else 0)
  }

  /** Commits and overrides that find the order refused. */
  function RefusalsUndone(hash: Id -> int, moves: seq<Move>, o: Id): nat {
    if moves == [] then 0
    else
      var before, last := moves[..|moves| - 1], moves[|moves| - 1];
      var w := Play(hash, before);
      RefusalsUndone(hash, before, o)
        + (if Refused(w.tables, o) && (CommitsOrder(w, last, o) || OverridesToLive(last, o)) then 1 else 0)
  }

  /** Stock is released once, and once more at most for every commit or override that undid a refusal. */
  lemma {:induction false} ReleasesAreBounded(hash: Id -> int, moves: seq<Move>, o: Id)
    ensures StockReleases(hash, moves, o)
      <= (if Refused(Play(hash, moves).tables, o) then 1 else 0) + RefusalsUndone(hash, moves, o)
  {
    hide Next;
    if moves != [] {
      var before := moves[..|moves| - 1];
      ReleasesAreBounded(hash, before, o);
      if Refused(Play(hash, before).tables, o) {
        RefusalSurvivesExactly(hash, Play(hash, before), moves[|moves| - 1], o);
      }
    }
  }

  // ---------------------------------------------------------------------------------------------
  // A play that revives a refused order
  // ---------------------------------------------------------------------------------------------

  lemma PlayOfAppend(hash: Id -> int, moves: seq<Move>, m: Move)
    ensures Play(hash, moves + [m]) == Next(hash, Play(hash, moves), m)
    ensures forall o :: StockReleases(hash, moves + [m], o) == StockReleases(hash, moves, o) + (
                          if ReleasesBetween(Play(hash, moves).tables, Next(hash, Play(hash, moves), m).tables, o) then 1 else 0)
  {
    assert (moves + [m])[..|moves|] == moves;
  }

  /** Placed, accepted, taken up by the dispatch job; its transaction has written but not committed. */
  function WrittenMoves(now: int): seq<Move> {
    [] + [Other(PlaceOrder("o", false, None), now)] + [Other(Merchant("o", AcceptOrder), now)]
      + [Other(DispatchOrder("o", [], [], true), now)] + [Begin(0, "r", now)] + [Lock(0)] + [Count(0)] + [Write(0)]
  }

  lemma WrittenPlay(hash: Id -> int, now: int)
    ensures var w := Play(hash, WrittenMoves(now));
      && w == World(
           Tables(map["o" := Order(MerchantAccepted, false, now, None)], map[], [Attempt("o", "r", PendingOutcome)]),
           map[0 := Assigning("o", "r", 0, now, Written)], 1)
      && StockReleases(hash, WrittenMoves(now), "o") == 0
  {
    var m1, m2 := Other(PlaceOrder("o", false, None), now), Other(Merchant("o", AcceptOrder), now);
    var m3 := Other(DispatchOrder("o", [], [], true), now);
    var t1 := Tables(map["o" := Order(Placed, false, now, None)], map[], []);
    var t2 := Tables(map["o" := Order(MerchantAccepted, false, now, None)], map[], []);
    PlayOfAppend(hash, [], m1);
    assert Play(hash, [] + [m1]) == World(t1, map[], 0);
    PlayOfAppend(hash, [] + [m1], m2);
    assert Play(hash, [] + [m1] + [m2]) == World(t2, map[], 0);
    PlayOfAppend(hash, [] + [m1] + [m2], m3);
    var s3 := [] + [m1] + [m2] + [m3];
    assert Play(hash, s3) == World(t2, map[0 := Chosen("o")], 1);
    WrittenAlone(hash, t2, now);
    PlayOfAppend(hash, s3, Begin(0, "r", now));
    PlayOfAppend(hash, s3 + [Begin(0, "r", now)], Lock(0));
    PlayOfAppend(hash, s3 + [Begin(0, "r", now)] + [Lock(0)], Count(0));
    PlayOfAppend(hash, s3 + [Begin(0, "r", now)] + [Lock(0)] + [Count(0)], Write(0));
  }

  lemma WrittenAlone(hash: Id -> int, t: Tables, now: int)
    requires ActiveOrders(t, "r") == {}
    ensures Next(hash, World(t, map[0 := Chosen("o")], 1), Begin(0, "r", now)) == Begun(t, "o", "r", now, Waiting)
    ensures Next(hash, Begun(t, "o", "r", now, Waiting), Lock(0)) == Begun(t, "o", "r", now, Locked)
    ensures Next(hash, Begun(t, "o", "r", now, Locked), Count(0)) == Begun(t, "o", "r", now, Counted)
    ensures Next(hash, Begun(t, "o", "r", now, Counted), Write(0)) == Begun(t, "o", "r", now, Written)
  {
    assert ActiveOrders(Begun(t, "o", "r", now, Locked).tables, "r") == ActiveOrders(t, "r");
  }

  /** The tables once the customer has cancelled, the transaction still open. */
  function CancelledMoves(now: int): seq<Move> {
    WrittenMoves(now) + [Other(CustomerCancels("o"), now)]
  }

  lemma CancelledPlay(hash: Id -> int, now: int)
    ensures Play(hash, CancelledMoves(now)) == World(
      Tables(map["o" := Order(Cancelled, false, now, None)], map[], [Attempt("o", "r", PendingOutcome)]),
      map[0 := Assigning("o", "r", 0, now, Written)], 1)
    ensures StockReleases(hash, CancelledMoves(now), "o") == 1
  {
    hide Play, StockReleases;
    WrittenPlay(hash, now);
    PlayOfAppend(hash, WrittenMoves(now), Other(CustomerCancels("o"), now));
  }

  /** The customer cancels, the stock is released, and the commit assigns the order all the same. */
  lemma CommitRevivesRefusedOrder(hash: Id -> int, now: int)
    ensures var cancelled := CancelledMoves(now);
      && Refused(Play(hash, cancelled).tables, "o") && StockReleases(hash, cancelled, "o") == 1
      && InStatus(Play(hash, cancelled + [Commit(0)]).tables, "o", RiderAssigned)
      && Play(hash, cancelled + [Commit(0)]).tables.deliveries["o"] == FreshDelivery("r", now)
  {
    hide Play, StockReleases, CancelledMoves;
    CancelledPlay(hash, now);
    PlayOfAppend(hash, CancelledMoves(now), Commit(0));
  }
}
