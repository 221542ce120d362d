/**
 * Requests that change an order's status read it before their transaction: what they write, and
 * whether they release the order's stock, follows from what they read, whatever the order has become
 * since. Deciding and carrying out are moves of their own here, interleaved with the dispatch
 * handlers of `RiderExclusivity`.
 */
module StaleDecisions {
  import opened Base
  import opened Dispatch
  import opened DispatchAttempts
  import opened OrderDelivery
  import opened RiderExclusivity

  /** What a request has read and is going to write; an administrator's override takes any status. */
  datatype Decision = Decision(order: Id, from: OrderStatus, to: OrderStatus, forced: bool)

  datatype System = System(world: World, decisions: map<nat, Decision>, next: nat)

  datatype Turn =
    | Dispatching(move: Move)
    | Decide(event: Event)
    | DecideToGiveUp(handler: nat)
    | CarryOut(decision: nat)
    | Abandon(decision: nat)

  /** The decision a request comes to; `None` where it is refused or finds nothing to do. */
  function DecisionOf(t: Tables, e: Event): Option<Decision> {
    match e
    case Merchant(o, action) =>
      if o in t.orders && MerchantMove(t.orders[o], action).Some?
      then Some(Decision(o, t.orders[o].status, MerchantMove(t.orders[o], action).value, false)) else None
    case CustomerCancels(o) => if o in t.orders && CustomerMayCancel(t.orders[o].status) then Cancelling(t, o) else None
    case AdminCancels(o) => if o in t.orders && AdminMayCancel(t.orders[o].status) then Cancelling(t, o) else None
    case AdminOverrides(o, status) =>
      if o in t.orders && t.orders[o].status != status then Some(Decision(o, t.orders[o].status, status, true)) else None
    case PaymentFails(o, cash) => if InStatus(t, o, Placed) && !cash then Cancelling(t, o) else None
    case MerchantTimesOut(o) => if InStatus(t, o, Placed) then Cancelling(t, o) else None
    case RiderTimesOut(o) => if InStatus(t, o, MerchantAccepted) && !HasRider(t, o) then Cancelling(t, o) else None
    case _ => None
  }

  function Cancelling(t: Tables, o: Id): Option<Decision>
    requires o in t.orders
  {
    Some(Decision(o, t.orders[o].status, Cancelled, false))
  }

  /** A dispatch job that gives its order up cancels it unless it finds it cancelled. */
  function GivingUp(w: World, h: nat): Option<Decision> {
    if h in w.open && w.open[h].Chosen? && FailedCount(w.tables.attempts, w.open[h].order) >= MAX_FAILED_ATTEMPTS
       && w.open[h].order in w.tables.orders && w.tables.orders[w.open[h].order].status != Cancelled
    then Cancelling(w.tables, w.open[h].order) else None
  }

  /** The write does not look at the status again. */
  function CarriedOut(t: Tables, d: Decision): Tables {
    if d.order in t.orders then SetStatus(t, d.order, d.to) else t
  }

  function Recorded(s: System, d: Option<Decision>): System {
    if d.None? then s else s.(decisions := s.decisions[s.next := d.value], next := s.next + 1)
  }

  function After(hash: Id -> int, s: System, turn: Turn): System {
    match turn
    case Dispatching(m) => s.(world := Next(hash, s.world, m))
    case Decide(e) => Recorded(s, DecisionOf(s.world.tables, e))
    case DecideToGiveUp(h) =>
      var d := GivingUp(s.world, h);
      if d.None? then s else Recorded(s.(world := s.world.(open := s.world.open - {h})), d)
    case CarryOut(k) =>
      if k !in s.decisions then s
      else s.(world := s.world.(tables := CarriedOut(s.world.tables, s.decisions[k])), decisions := s.decisions - {k})
    case Abandon(k) => s.(decisions := s.decisions - {k})
  }

  function History(hash: Id -> int, turns: seq<Turn>): System {
    if turns == [] then System(START, map[], 0)
    else After(hash, History(hash, turns[..|turns| - 1]), turns[|turns| - 1])
  }

  predicate IsRequest(e: Event) {
    e.Merchant? || e.CustomerCancels? || e.AdminCancels? || e.AdminOverrides? || e.PaymentFails? || e.MerchantTimesOut? || e.RiderTimesOut?
  }

  /** Decided and carried out at once, a request is the atomic step, with the same release. */
  lemma DecidedAtOnceIsAtomic(t: Tables, e: Event, now: int)
    requires IsRequest(e)
    ensures DecisionOf(t, e).None? ==> Step(t, e, now) == t
    ensures DecisionOf(t, e).Some? ==> (
      var d := DecisionOf(t, e).value;
      CarriedOut(t, d) == Step(t, e, now) && (ReleasesStock(d.from, d.to) <==> ReleasesAt(t, e, now, d.order)))
  {
  }

  /** A job decides to give its order up exactly at three failures, unless the order is cancelled already. */
  lemma GivesUpExactly(w: World, h: nat)
    ensures GivingUp(w, h).Some? <==> (
      h in w.open && w.open[h].Chosen? && |FailedIndices(w.tables.attempts, w.open[h].order)| >= 3
      && w.open[h].order in w.tables.orders && w.tables.orders[w.open[h].order].status != Cancelled)
    ensures GivingUp(w, h).Some? ==> (
      var o := w.open[h].order; GivingUp(w, h).value == Decision(o, w.tables.orders[o].status, Cancelled, false))
  {
    if h in w.open {
      FailuresAreCounted(w.tables.attempts, w.open[h].order);
    }
    hide FailedCount;
  }

  /** A decision is kept until it is carried out or abandoned, once; a handler that gives up is done. */
  lemma DecisionsAreKept(hash: Id -> int, s: System, e: Event, h: nat, k: nat)
    ensures var d := DecisionOf(s.world.tables, e);
      After(hash, s, Decide(e)) == if d.None? then s else s.(decisions := s.decisions[s.next := d.value], next := s.next + 1)
    ensures var d, after := GivingUp(s.world, h), After(hash, s, DecideToGiveUp(h));
      && (d.None? ==> after == s)
      && (d.Some? ==> h !in after.world.open && after.world.tables == s.world.tables
                      && after.decisions == s.decisions[s.next := d.value])
    ensures k !in After(hash, s, CarryOut(k)).decisions && k !in After(hash, s, Abandon(k)).decisions
    ensures After(hash, s, Abandon(k)).world == s.world
    ensures k !in s.decisions ==> After(hash, s, CarryOut(k)) == s
    ensures k in s.decisions && s.decisions[k].order in s.world.tables.orders ==> (
      var o, t := s.decisions[k].order, s.world.tables;
      After(hash, s, CarryOut(k)).world.tables == t.(orders := t.orders[o := t.orders[o].(status := s.decisions[k].to)]))
  {
    hide FailedCount;
  }

  // ---------------------------------------------------------------------------------------------
  // Riders
  // ---------------------------------------------------------------------------------------------

  /** Stale decisions touch statuses only: no rider ever has two active deliveries. */
  lemma {:induction false} EveryHistoryIsSafe(hash: Id -> int, turns: seq<Turn>)
    ensures Safe(hash, History(hash, turns).world)
    ensures forall rider :: |ActiveOrders(History(hash, turns).world.tables, rider)| <= 1
  {
    hide Next, FailedCount;
    if turns != [] {
      var s, turn := History(hash, turns[..|turns| - 1]), turns[|turns| - 1];
      EveryHistoryIsSafe(hash, turns[..|turns| - 1]);
      if turn.Dispatching? {
        MoveIsSafe(hash, s.world, turn.move);
      } else {
        FewerHandlersAreSafe(hash, s, turn);
      }
    }
    SafeMeansOneEach(hash, History(hash, turns).world);
  }

  lemma FewerHandlersAreSafe(hash: Id -> int, s: System, turn: Turn)
    requires Safe(hash, s.world) && !turn.Dispatching?
    ensures Safe(hash, After(hash, s, turn).world)
  {
    hide DecisionOf, FailedCount;
    var w, w1 := s.world, After(hash, s, turn).world;
    assert forall rider :: ActiveOrders(w1.tables, rider) == ActiveOrders(w.tables, rider);
    FewerActiveIsSafe(hash, w, w1);
  }

  lemma SafeMeansOneEach(hash: Id -> int, w: World)
    requires Safe(hash, w)
    ensures forall rider :: |ActiveOrders(w.tables, rider)| <= 1
  {
    forall rider ensures |ActiveOrders(w.tables, rider)| <= 1 {
      var active := ActiveOrders(w.tables, rider);
      if active != {} {
        var o :| o in active;
        assert active == {o};
      }
    }
  }

  // ---------------------------------------------------------------------------------------------
  // Releases, refusals, revivals
  // ---------------------------------------------------------------------------------------------

  /** The turn restores the order's stock; a decision does so by the status it has read. */
  predicate RestoresStock(hash: Id -> int, s: System, turn: Turn, o: Id) {
    match turn
    case CarryOut(k) =>
      k in s.decisions && s.decisions[k].order == o && o in s.world.tables.orders
      && ReleasesStock(s.decisions[k].from, s.decisions[k].to)
    case _ => ReleasesBetween(s.world.tables, After(hash, s, turn).world.tables, o)
  }

  /**
   * Turns by what they do to an order: release its stock; refuse it without a release; bring it back
   * from a refusal; release the stock of an order that is refused already.
   */
  datatype Tally = Tally(released: nat, quiet: nat, revived: nat, repeated: nat)

  function One(b: bool): nat {
    if b then 1 else 0
  }

  function Account(hash: Id -> int, turns: seq<Turn>, o: Id): Tally {
    if turns == [] then Tally(0, 0, 0, 0)
    else
      var before, last := turns[..|turns| - 1], turns[|turns| - 1];
      var s, so := History(hash, before), Account(hash, before, o);
      var was, refused := Refused(s.world.tables, o), Refused(After(hash, s, last).world.tables, o);
      var releases := RestoresStock(hash, s, last, o);
      Tally(so.released + One(releases), so.quiet + One(!was && refused && !releases),
            so.revived + One(was && !refused), so.repeated + One(was && releases))
  }

  lemma ReleaseRefuses(hash: Id -> int, s: System, turn: Turn, o: Id)
    requires RestoresStock(hash, s, turn, o)
    ensures Refused(After(hash, s, turn).world.tables, o)
  {
    hide Next;
  }

  /**
   * However requests and handlers interleave, releases and quiet refusals are the present refusal,
   * the revivals, and the releases that found the order refused already.
   */
  lemma {:induction false} ReleasesAreAccountedFor(hash: Id -> int, turns: seq<Turn>, o: Id)
    ensures var a := Account(hash, turns, o);
      a.released + a.quiet == One(Refused(History(hash, turns).world.tables, o)) + a.revived + a.repeated
  {
    hide After, RestoresStock, Refused;
    if turns == [] {
      NothingIsRefusedAtFirst(o);
    } else {
      var s, last := History(hash, turns[..|turns| - 1]), turns[|turns| - 1];
      ReleasesAreAccountedFor(hash, turns[..|turns| - 1], o);
      if RestoresStock(hash, s, last, o) {
        ReleaseRefuses(hash, s, last, o);
      }
    }
  }

  lemma NothingIsRefusedAtFirst(o: Id)
    ensures !Refused(START.tables, o)
  {
  }

  // ---------------------------------------------------------------------------------------------
  // What a refused order has to fear
  // ---------------------------------------------------------------------------------------------

  /** The decision, carried out on a refused order, releases its stock again or brings it back. */
  predicate IsHarmful(d: Decision, o: Id) {
    d.order == o && (ReleasesStock(d.from, d.to) || !IsRefused(d.to))
  }

  predicate CarriesOutHarm(s: System, turn: Turn, o: Id) {
    turn.CarryOut? && turn.decision in s.decisions && IsHarmful(s.decisions[turn.decision], o)
  }

  predicate RevivesAtOnce(s: System, turn: Turn, o: Id) {
    turn.Dispatching? && (CommitsOrder(s.world, turn.move, o) || OverridesToLive(turn.move, o))
  }

  /** A refusal stands, and releases nothing again, except under a harmful decision, a commit or an override. */
  lemma RefusalStandsExactly(hash: Id -> int, s: System, turn: Turn, o: Id)
    requires Refused(s.world.tables, o)
    ensures Refused(After(hash, s, turn).world.tables, o) && !RestoresStock(hash, s, turn, o)
      <==> !CarriesOutHarm(s, turn, o) && !RevivesAtOnce(s, turn, o)
  {
    hide Next, DecisionOf, GivingUp, CommitsOrder, OverridesToLive;
    if turn.Dispatching? {
      RiderExclusivity.RefusalSurvivesExactly(hash, s.world, turn.move, o);
    }
  }

  /** Deciding on a refused order, but for an override, does no harm. */
  lemma DecidingOnRefusedIsHarmless(hash: Id -> int, s: System, turn: Turn, o: Id, k: nat)
    requires Refused(s.world.tables, o) && k in After(hash, s, turn).decisions
    requires IsHarmful(After(hash, s, turn).decisions[k], o)
    requires ReleasesStock(After(hash, s, turn).decisions[k].from, After(hash, s, turn).decisions[k].to)
          || !After(hash, s, turn).decisions[k].forced
    ensures k in s.decisions && s.decisions[k] == After(hash, s, turn).decisions[k]
  {
    hide Next, FailedCount;
  }

  /**
   * A decision that releases a refused order's stock again, or brings it back without an override,
   * had been made when the order was refused.
   */
  lemma {:induction false} HarmWasDecidedBefore(hash: Id -> int, turns: seq<Turn>, i: nat, o: Id, k: nat)
    requires i <= |turns| && k in History(hash, turns).decisions
    requires forall j :: i <= j <= |turns| ==> Refused(History(hash, turns[..j]).world.tables, o)
    requires var d := History(hash, turns).decisions[k]; IsHarmful(d, o) && (ReleasesStock(d.from, d.to) || !d.forced)
    ensures k in History(hash, turns[..i]).decisions && History(hash, turns[..i]).decisions[k] == History(hash, turns).decisions[k]
    decreases |turns| - i
  {
    hide After, Refused, IsHarmful, ReleasesStock;
    assert turns[..|turns|] == turns;
    if i < |turns| {
      var before := turns[..|turns| - 1];
      assert Refused(History(hash, before).world.tables, o);
      DecidingOnRefusedIsHarmless(hash, History(hash, before), turns[|turns| - 1], o, k);
      forall j | i <= j <= |before| ensures Refused(History(hash, before[..j]).world.tables, o) {
        assert before[..j] == turns[..j];
      }
      HarmWasDecidedBefore(hash, before, i, o, k);
      assert before[..i] == turns[..i];
    }
  }

  // ---------------------------------------------------------------------------------------------
  // Released once, unless requests overlap
  // ---------------------------------------------------------------------------------------------

  /** Nothing under way can harm the order: no harmful decision, and no dispatch handler of it. */
  predicate IsLeftAlone(s: System, o: Id) {
    && (forall k :: k in s.decisions ==> !IsHarmful(s.decisions[k], o))
    && (forall h :: h in s.world.open ==> s.world.open[h].order != o)
  }

  predicate Forces(turn: Turn, o: Id) {
    (turn.Decide? && Overrides(turn.event, o)) || (turn.Dispatching? && turn.move.Other? && Overrides(turn.move.event, o))
  }

  /** The turn refuses the order while something harmful to it is under way. */
  predicate RefusesInTheMiddle(hash: Id -> int, s: System, turn: Turn, o: Id) {
    !Refused(s.world.tables, o) && Refused(After(hash, s, turn).world.tables, o) && !IsLeftAlone(After(hash, s, turn), o)
  }

  predicate NoneOverlaps(hash: Id -> int, turns: seq<Turn>, o: Id) {
    forall i :: 0 <= i < |turns| ==>
      !RefusesInTheMiddle(hash, History(hash, turns[..i]), turns[i], o) && !Forces(turns[i], o)
  }

  lemma LeftAloneStays(hash: Id -> int, s: System, turn: Turn, o: Id)
    requires Refused(s.world.tables, o) && IsLeftAlone(s, o) && !Forces(turn, o)
    ensures Refused(After(hash, s, turn).world.tables, o) && !RestoresStock(hash, s, turn, o)
    ensures IsLeftAlone(After(hash, s, turn), o)
  {
    hide Next, Refused, RestoresStock, ReleasesStock, IsRefused, FailedCount;
    RefusalStandsExactly(hash, s, turn, o);
    var s1 := After(hash, s, turn);
    forall k | k in s1.decisions && IsHarmful(s1.decisions[k], o) ensures false {
      NoForcedDecision(hash, s, turn, o, k);
      DecidingOnRefusedIsHarmless(hash, s, turn, o, k);
    }
    forall h | h in s1.world.open && s1.world.open[h].order == o ensures false {
      if turn.Dispatching? {
        NoneTakesUpARefusedOrder(hash, s.world, turn.move, o, h);
      }
    }
  }

  lemma NoForcedDecision(hash: Id -> int, s: System, turn: Turn, o: Id, k: nat)
    requires IsLeftAlone(s, o) && !Forces(turn, o)
    requires k in After(hash, s, turn).decisions && IsHarmful(After(hash, s, turn).decisions[k], o)
    ensures !After(hash, s, turn).decisions[k].forced
  {
    hide Next, FailedCount;
  }

  /**
   * An order that is refused only while nothing harmful to it is under way, and never overridden,
   * releases its stock once at most, and a refusal of it stands.
   */
  lemma {:induction false} ReleasedOnceUnlessOverlapped(hash: Id -> int, turns: seq<Turn>, o: Id)
    requires NoneOverlaps(hash, turns, o)
    ensures var a, refused := Account(hash, turns, o), Refused(History(hash, turns).world.tables, o);
      && a.released + a.quiet == One(refused) && a.revived == a.repeated == 0
      && (refused ==> IsLeftAlone(History(hash, turns), o))
  {
    hide After, RestoresStock, Refused, IsLeftAlone, Forces;
    if turns == [] {
      NothingIsRefusedAtFirst(o);
    } else {
      var n := |turns| - 1;
      var before := turns[..n];
      forall i | 0 <= i < n ensures !RefusesInTheMiddle(hash, History(hash, before[..i]), before[i], o) && !Forces(before[i], o) {
        assert before[..i] == turns[..i];
      }
      ReleasedOnceUnlessOverlapped(hash, before, o);
      var s := History(hash, before);
      assert !RefusesInTheMiddle(hash, s, turns[n], o) && !Forces(turns[n], o);
      if Refused(s.world.tables, o) {
        LeftAloneStays(hash, s, turns[n], o);
      }
    }
    ReleasesAreAccountedFor(hash, turns, o);
  }

  // ---------------------------------------------------------------------------------------------
  // Two overlaps
  // ---------------------------------------------------------------------------------------------

  lemma HistoryOfAppend(hash: Id -> int, turns: seq<Turn>, turn: Turn, o: Id)
    ensures History(hash, turns + [turn]) == After(hash, History(hash, turns), turn)
    ensures var so, s := Account(hash, turns, o), History(hash, turns);
      var was, refused := Refused(s.world.tables, o), Refused(After(hash, s, turn).world.tables, o);
      var releases := RestoresStock(hash, s, turn, o);
      Account(hash, turns + [turn], o) == Tally(
        so.released + One(releases), so.quiet + One(!was && refused && !releases),
        so.revived + One(was && !refused), so.repeated + One(was && releases))
  {
    assert (turns + [turn])[..|turns|] == turns;
  }

  const PLACE := Dispatching(Other(PlaceOrder("o", false, None), 0))

  function Standing(status: OrderStatus): World {
    World(Tables(map["o" := Order(status, false, 0, None)], map[], []), map[], 0)
  }

  const CANCELLING := Decision("o", Placed, Cancelled, false)

  /** An order just placed, and the customer has decided to cancel it. */
  lemma CustomerDecided(hash: Id -> int)
    ensures var turns := [] + [PLACE] + [Decide(CustomerCancels("o"))];
      && History(hash, [] + [PLACE]) == System(Standing(Placed), map[], 0)
      && History(hash, turns) == System(Standing(Placed), map[0 := CANCELLING], 1)
      && Account(hash, turns, "o") == Tally(0, 0, 0, 0)
  {
    HistoryOfAppend(hash, [], PLACE, "o");
    assert History(hash, [] + [PLACE]) == System(Standing(Placed), map[], 0);
    hide History, Account;
    HistoryOfAppend(hash, [] + [PLACE], Decide(CustomerCancels("o")), "o");
  }

  /** Then a second request decides on it. */
  lemma BothDecided(hash: Id -> int, second: Event, d: Decision)
    requires DecisionOf(Standing(Placed).tables, second) == Some(d)
    ensures var turns := [] + [PLACE] + [Decide(CustomerCancels("o"))] + [Decide(second)];
      && History(hash, turns) == System(Standing(Placed), map[0 := CANCELLING, 1 := d], 2)
      && Account(hash, turns, "o") == Tally(0, 0, 0, 0)
  {
    CustomerDecided(hash);
    hide History, Account;
    HistoryOfAppend(hash, [] + [PLACE] + [Decide(CustomerCancels("o"))], Decide(second), "o");
  }

  /** The customer's cancellation is carried out first. */
  lemma FirstCarriedOut(hash: Id -> int, second: Event, d: Decision)
    requires DecisionOf(Standing(Placed).tables, second) == Some(d)
    ensures var turns := [] + [PLACE] + [Decide(CustomerCancels("o"))] + [Decide(second)] + [CarryOut(0)];
      && History(hash, turns) == System(Standing(Cancelled), map[1 := d], 2)
      && Account(hash, turns, "o") == Tally(1, 0, 0, 0)
  {
    BothDecided(hash, second, d);
    var turns := [] + [PLACE] + [Decide(CustomerCancels("o"))] + [Decide(second)];
    HistoryOfAppend(hash, turns, CarryOut(0), "o");
    assert map[0 := CANCELLING, 1 := d] - {0} == map[1 := d];
    assert CarriedOut(Standing(Placed).tables, CANCELLING) == Standing(Cancelled).tables;
  }

  /** The customer and the merchant timeout cancel at the same time: the stock comes back twice. */
  lemma OverlappingCancellationsReleaseTwice(hash: Id -> int)
    ensures var turns := [] + [PLACE] + [Decide(CustomerCancels("o"))] + [Decide(MerchantTimesOut("o"))]
              + [CarryOut(0)] + [CarryOut(1)];
      Account(hash, turns, "o") == Tally(2, 0, 0, 1) && InStatus(History(hash, turns).world.tables, "o", Cancelled)
  {
    var turns := [] + [PLACE] + [Decide(CustomerCancels("o"))] + [Decide(MerchantTimesOut("o"))] + [CarryOut(0)];
    FirstCarriedOut(hash, MerchantTimesOut("o"), CANCELLING);
    HistoryOfAppend(hash, turns, CarryOut(1), "o");
  }

  /** The merchant accepts while the customer cancels: the stock is back, and the order accepted. */
  lemma OverlappingAcceptanceRevives(hash: Id -> int)
    ensures var turns := [] + [PLACE] + [Decide(CustomerCancels("o"))] + [Decide(Merchant("o", AcceptOrder))]
              + [CarryOut(0)] + [CarryOut(1)];
      Account(hash, turns, "o") == Tally(1, 0, 1, 0) && InStatus(History(hash, turns).world.tables, "o", MerchantAccepted)
  {
    var turns := [] + [PLACE] + [Decide(CustomerCancels("o"))] + [Decide(Merchant("o", AcceptOrder))] + [CarryOut(0)];
    FirstCarriedOut(hash, Merchant("o", AcceptOrder), Decision("o", Placed, MerchantAccepted, false));
    HistoryOfAppend(hash, turns, CarryOut(1), "o");
  }

  /** A cancellation with nothing else under way: the stock comes back once, and that is no overlap. */
  lemma OrdinaryCancellationReleasesOnce(hash: Id -> int)
    ensures var turns := [] + [PLACE] + [Decide(CustomerCancels("o"))] + [CarryOut(0)];
      && NoneOverlaps(hash, turns, "o")
      && Account(hash, turns, "o") == Tally(1, 0, 0, 0)
      && InStatus(History(hash, turns).world.tables, "o", Cancelled)
  {
    var decided := [] + [PLACE] + [Decide(CustomerCancels("o"))];
    var turns := decided + [CarryOut(0)];
    CustomerDecided(hash);
    HistoryOfAppend(hash, [], PLACE, "o");
    HistoryOfAppend(hash, decided, CarryOut(0), "o");
    assert map[0 := CANCELLING] - {0} == map[];
    assert History(hash, turns) == System(Standing(Cancelled), map[], 1);
    assert turns[..0] == [] && turns[..1] == [] + [PLACE] && turns[..2] == decided;
    ReleasedOnceUnlessOverlapped(hash, turns, "o");
  }
}
