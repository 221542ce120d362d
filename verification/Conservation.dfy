/**
 * Conservation of stock over any run of reservations, at-most-once restorations and merchant
 * adjustments, with the tracking flags and the set of lots fixed. `LotCreation` adds new lots and
 * merchants' updates, `StaleDecisions` says when a restoration can come twice.
 */
module Conservation {
  import opened Base
  import opened Lots
  import opened Inventory
  import opened Reservation
  import opened Restoration
  import opened InventoryStore

  datatype Order = Order(lines: seq<OrderLine>, outstanding: bool)

  /** The tables, the orders placed so far, and the net merchant adjustment per row and per lot. */
  datatype Ledger = Ledger(store: Store, orders: seq<Order>, net: map<Resource, int>, lotNet: map<Id, int>)

  datatype Event =
    | Reserve(lines: seq<Line>)
    | Restore(index: nat)
    | AdjustStock(resource: Resource, delta: int)
    | AdjustInventoryLot(lot: Id, delta: int)

  function NetOf<K>(net: map<K, int>, key: K): int {
    if key in net then net[key] else 0
  }

  ghost function ReserveStep(l: Ledger, lines: seq<Line>): Ledger {
    var after := ApplyAll(l.store, Takes(lines));
    if after.None? || !DistinctKeys(lines) then l
    else l.(store := after.value, orders := l.orders + [Order(PlacedOrder(l.store, lines), true)])
  }

  /** The status change that releases an order's stock happens once; later attempts do nothing. */
  function RestoreStep(l: Ledger, k: nat): Ledger {
    if k < |l.orders| && l.orders[k].outstanding
    then l.(store := RestoreAll(l.store, l.orders[k].lines),
            orders := l.orders[k := l.orders[k].(outstanding := false)])
    else l
  }

  function AdjustStockStep(l: Ledger, r: Resource, delta: int): Ledger {
    var after := ItemAdjustment(l.store, r, delta);
    if after.None? then l else l.(store := after.value, net := l.net[r := NetOf(l.net, r) + delta])
  }

  function AdjustLotStep(l: Ledger, id: Id, delta: int): Ledger {
    var after := LotAdjustment(l.store, id, delta);
    if after.None? then l
    else
      var r := MenuItem(l.store.lots[id].item);
      l.(store := after.value,
         net := l.net[r := NetOf(l.net, r) + delta],
         lotNet := l.lotNet[id := NetOf(l.lotNet, id) + delta])
  }

  ghost function Step(l: Ledger, e: Event): Ledger {
    match e
    case Reserve(lines) => ReserveStep(l, lines)
    case Restore(k) => RestoreStep(l, k)
    case AdjustStock(r, delta) => AdjustStockStep(l, r, delta)
    case AdjustInventoryLot(id, delta) => AdjustLotStep(l, id, delta)
  }

  ghost function Run(l: Ledger, events: seq<Event>): Ledger
    decreases |events|
  {
    if events == [] then l else Step(Run(l, events[..|events| - 1]), events[|events| - 1])
  }

  /** What the outstanding orders hold of a row, and of a lot. */
  function Held(orders: seq<Order>, r: Resource): nat {
    if orders == [] then 0
    else (if orders[0].outstanding then Demand(OrderTakes(orders[0].lines), r) else 0) + Held(orders[1..], r)
  }

  function HeldInLot(orders: seq<Order>, id: Id): nat {
    if orders == [] then 0
    else (if orders[0].outstanding then GivenToLot(orders[0].lines, id) else 0) + HeldInLot(orders[1..], id)
  }

  lemma {:induction false} HeldWithOneMore(orders: seq<Order>, lines: seq<OrderLine>, r: Resource, id: Id)
    ensures Held(orders + [Order(lines, true)], r) == Held(orders, r) + Demand(OrderTakes(lines), r)
    ensures HeldInLot(orders + [Order(lines, true)], id) == HeldInLot(orders, id) + GivenToLot(lines, id)
  {
    if orders == [] {
      assert (orders + [Order(lines, true)])[1..] == [];
    } else {
      assert (orders + [Order(lines, true)])[1..] == orders[1..] + [Order(lines, true)];
      HeldWithOneMore(orders[1..], lines, r, id);
    }
  }

  lemma {:induction false} HeldWithOneReleased(orders: seq<Order>, k: nat, r: Resource, id: Id)
    requires k < |orders| && orders[k].outstanding
    ensures var after := orders[k := orders[k].(outstanding := false)];
      && Held(after, r) == Held(orders, r) - Demand(OrderTakes(orders[k].lines), r)
      && HeldInLot(after, id) == HeldInLot(orders, id) - GivenToLot(orders[k].lines, id)
  {
    var after := orders[k := orders[k].(outstanding := false)];
    if k == 0 {
      assert after[1..] == orders[1..];
    } else {
      assert after[1..] == orders[1..][k - 1 := orders[k].(outstanding := false)];
      HeldWithOneReleased(orders[1..], k - 1, r, id);
    }
  }

  // ---------------------------------------------------------------------------------------------
  // The invariant
  // ---------------------------------------------------------------------------------------------

  ghost predicate SoundStart(s: Store) {
    && (forall r :: r in s.stock && s.stock[r].stock.Some? ==> s.stock[r].stock.value >= 0)
    && (forall id :: id in s.lots ==> 0 <= s.lots[id].remaining <= s.lots[id].received)
  }

  /** One row: flags as at the start; quantity = initial + adjustments - held, never negative. */
  ghost predicate RowConserved(start: StockRow, now: StockRow, net: int, held: nat) {
    && now == start.(stock := now.stock)
    && (now.stock.Some? <==> start.stock.Some?)
    && (now.stock.Some? ==> now.stock.value == start.stock.value + net - held && now.stock.value >= 0)
  }

  /** One lot: quantities move, nothing else; what is held can come back without exceeding what was received. */
  ghost predicate LotConserved(start: Lot, now: Lot, net: int, held: nat) {
    && now == start.(received := now.received, remaining := now.remaining)
    && now.remaining == start.remaining + net - held
    && 0 <= now.remaining && now.remaining + held <= now.received
  }

  /** Outstanding orders hold only rows that exist and carry a quantity. */
  ghost predicate HoldsRealRows(s: Store, orders: seq<Order>) {
    forall k :: 0 <= k < |orders| && orders[k].outstanding ==> TouchesRealRows(s, OrderTakes(orders[k].lines))
  }

  ghost predicate TouchesRealRows(s: Store, takes: seq<Take>) {
    forall r :: Touches(takes, r) ==> r in s.stock && s.stock[r].stock.Some?
  }

  ghost predicate RowsConserved(start: Store, l: Ledger) {
    && l.store.stock.Keys == start.stock.Keys
    && forall r :: r in start.stock ==>
         RowConserved(start.stock[r], l.store.stock[r], NetOf(l.net, r), Held(l.orders, r))
  }

  ghost predicate LotsConserved(start: Store, l: Ledger) {
    && l.store.lots.Keys == start.lots.Keys
    && forall id :: id in start.lots ==>
         LotConserved(start.lots[id], l.store.lots[id], NetOf(l.lotNet, id), HeldInLot(l.orders, id))
  }

  ghost predicate Conserved(start: Store, l: Ledger) {
    RowsConserved(start, l) && LotsConserved(start, l) && HoldsRealRows(l.store, l.orders)
  }

  lemma ReserveConserves(start: Store, l: Ledger, lines: seq<Line>)
    requires Conserved(start, l)
    ensures Conserved(start, ReserveStep(l, lines))
  {
    if ApplyAll(l.store, Takes(lines)).Some? && DistinctKeys(lines) {
      var next := ReserveStep(l, lines);
      ReservationKeepsKeys(l.store, Takes(lines));
      assert RowsConserved(start, next) by {
        forall r | r in start.stock
          ensures RowConserved(start.stock[r], next.store.stock[r], NetOf(next.net, r), Held(next.orders, r))
        {
          ReservedRowIsConserved(start, l, lines, r);
        }
      }
      assert LotsConserved(start, next) by {
        forall id | id in start.lots
          ensures LotConserved(start.lots[id], next.store.lots[id], NetOf(next.lotNet, id), HeldInLot(next.orders, id))
        {
          ReservedLotIsConserved(start, l, lines, id);
        }
      }
      ReservedRowsAreReal(l, lines);
    }
  }

  lemma ReservedRowsAreReal(l: Ledger, lines: seq<Line>)
    requires ApplyAll(l.store, Takes(lines)).Some? && DistinctKeys(lines) && HoldsRealRows(l.store, l.orders)
    ensures HoldsRealRows(ReserveStep(l, lines).store, ReserveStep(l, lines).orders)
  {
    hide TouchesRealRows, PlacedOrder;
    var next := ReserveStep(l, lines);
    PlacedOrderMatchesLines(l.store, lines, []);
    TakenIsReal(l.store, Takes(lines));
    forall k | 0 <= k < |next.orders| && next.orders[k].outstanding
      ensures TouchesRealRows(next.store, OrderTakes(next.orders[k].lines))
    {
      if k < |l.orders| {
        assert next.orders[k] == l.orders[k];
        StaysReal(l.store, Takes(lines), OrderTakes(l.orders[k].lines));
      }
    }
  }

  lemma StaysReal(s: Store, takes: seq<Take>, others: seq<Take>)
    requires ApplyAll(s, takes).Some? && TouchesRealRows(s, others)
    ensures TouchesRealRows(ApplyAll(s, takes).value, others)
  {
    ReservationFollowsDemand(s, takes);
  }

  lemma TakenIsReal(s: Store, takes: seq<Take>)
    requires ApplyAll(s, takes).Some?
    ensures TouchesRealRows(ApplyAll(s, takes).value, takes)
  {
    ReservationFollowsDemand(s, takes);
    forall r | Touches(takes, r) ensures r in Served(s, takes).stock && Served(s, takes).stock[r].stock.Some? {
      assert Fits(s, takes, r);
    }
  }

  lemma ReservedRowIsConserved(start: Store, l: Ledger, lines: seq<Line>, r: Resource)
    requires Conserved(start, l) && r in start.stock
    requires ApplyAll(l.store, Takes(lines)).Some? && DistinctKeys(lines)
    requires r in ReserveStep(l, lines).store.stock
    ensures var next := ReserveStep(l, lines);
      RowConserved(start.stock[r], next.store.stock[r], NetOf(next.net, r), Held(next.orders, r))
  {
    assert RowConserved(start.stock[r], l.store.stock[r], NetOf(l.net, r), Held(l.orders, r));
    PlacedOrderMatchesLines(l.store, lines, []);
    HeldWithOneMore(l.orders, PlacedOrder(l.store, lines), r, []);
    UntouchedIsUndemanded(Takes(lines), r);
    ReservationFollowsDemand(l.store, Takes(lines));
    if Touches(Takes(lines), r) {
      assert Fits(l.store, Takes(lines), r);
    }
  }

  lemma ReservedLotIsConserved(start: Store, l: Ledger, lines: seq<Line>, id: Id)
    requires Conserved(start, l) && id in start.lots
    requires ApplyAll(l.store, Takes(lines)).Some? && DistinctKeys(lines)
    requires id in ReserveStep(l, lines).store.lots
    ensures var next := ReserveStep(l, lines);
      LotConserved(start.lots[id], next.store.lots[id], NetOf(next.lotNet, id), HeldInLot(next.orders, id))
  {
    assert LotConserved(start.lots[id], l.store.lots[id], NetOf(l.lotNet, id), HeldInLot(l.orders, id));
    PlacedOrderMatchesLines(l.store, lines, id);
    HeldWithOneMore(l.orders, PlacedOrder(l.store, lines), MenuItem([]), id);
    RecordsAccountForLots(l.store, lines, id);
    TakingLeavesNoDebt(l.store, Takes(lines), id);
  }

  /** A reservation never takes a lot below zero. */
  lemma TakingLeavesNoDebt(s: Store, takes: seq<Take>, id: Id)
    requires ApplyAll(s, takes).Some? && id in s.lots && s.lots[id].remaining >= 0
    ensures id in ApplyAll(s, takes).value.lots && ApplyAll(s, takes).value.lots[id].remaining >= 0
  {
    var item := s.lots[id].item;
    ReservationFollowsDemand(s, takes);
    ItemOrderIsOrdered(s.lots, item);
    TakenIsHeld(s.lots, ItemOrder(s.lots, item), Demand(takes, MenuItem(item)), id);
  }

  lemma RestoredRowIsConserved(start: Store, l: Ledger, k: nat, r: Resource)
    requires Conserved(start, l) && k < |l.orders| && l.orders[k].outstanding && r in start.stock
    ensures var next := RestoreStep(l, k);
      && r in next.store.stock
      && RowConserved(start.stock[r], next.store.stock[r], NetOf(next.net, r), Held(next.orders, r))
      && (next.store.stock[r].stock.Some? <==> l.store.stock[r].stock.Some?)
  {
    var lines := l.orders[k].lines;
    assert RowConserved(start.stock[r], l.store.stock[r], NetOf(l.net, r), Held(l.orders, r));
    assert TouchesRealRows(l.store, OrderTakes(lines));
    RestorationAddsBackStock(l.store, lines, r);
    HeldWithOneReleased(l.orders, k, r, []);
    UntouchedIsUndemanded(OrderTakes(lines), r);
  }

  lemma RestoredLotIsConserved(start: Store, l: Ledger, k: nat, id: Id)
    requires LotsConserved(start, l) && k < |l.orders| && l.orders[k].outstanding && id in start.lots
    ensures var next := RestoreStep(l, k);
      && id in next.store.lots
      && LotConserved(start.lots[id], next.store.lots[id], NetOf(next.lotNet, id), HeldInLot(next.orders, id))
  {
    assert LotConserved(start.lots[id], l.store.lots[id], NetOf(l.lotNet, id), HeldInLot(l.orders, id));
    RestorationAddsBackLots(l.store, l.orders[k].lines, id);
    HeldWithOneReleased(l.orders, k, MenuItem([]), id);
  }

  lemma RestoreConserves(start: Store, l: Ledger, k: nat)
    requires Conserved(start, l)
    ensures Conserved(start, RestoreStep(l, k))
  {
    if k < |l.orders| && l.orders[k].outstanding {
      hide RowConserved, LotConserved;
      var next := RestoreStep(l, k);
      RestorationKeepsKeys(l.store, l.orders[k].lines);
      assert RowsConserved(start, next) && HoldsRealRows(next.store, next.orders) by {
        forall r | r in start.stock
          ensures RowConserved(start.stock[r], next.store.stock[r], NetOf(next.net, r), Held(next.orders, r))
          ensures next.store.stock[r].stock.Some? <==> l.store.stock[r].stock.Some?
        {
          RestoredRowIsConserved(start, l, k, r);
        }
      }
      assert LotsConserved(start, next) by {
        forall id | id in start.lots
          ensures LotConserved(start.lots[id], next.store.lots[id], NetOf(next.lotNet, id), HeldInLot(next.orders, id))
        {
          RestoredLotIsConserved(start, l, k, id);
        }
      }
    }
  }

  lemma AdjustStockConserves(start: Store, l: Ledger, r: Resource, delta: int)
    requires Conserved(start, l)
    ensures Conserved(start, AdjustStockStep(l, r, delta))
  {
    AdjustedRowsAreConserved(start, l, r, delta);
    AdjustedRowsStayReal(l, r, delta);
    hide RowsConserved, HoldsRealRows;
  }

  lemma AdjustedRowsAreConserved(start: Store, l: Ledger, r: Resource, delta: int)
    requires RowsConserved(start, l)
    ensures RowsConserved(start, AdjustStockStep(l, r, delta))
  {
    hide Held;
    if r in start.stock {
      assert RowConserved(start.stock[r], l.store.stock[r], NetOf(l.net, r), Held(l.orders, r));
    }
  }

  lemma AdjustedRowsStayReal(l: Ledger, r: Resource, delta: int)
    requires HoldsRealRows(l.store, l.orders)
    ensures HoldsRealRows(AdjustStockStep(l, r, delta).store, AdjustStockStep(l, r, delta).orders)
  {
    hide Touches, OrderTakes;
  }

  lemma AdjustLotConserves(start: Store, l: Ledger, id: Id, delta: int)
    requires Conserved(start, l)
    ensures Conserved(start, AdjustLotStep(l, id, delta))
  {
    var next := AdjustLotStep(l, id, delta);
    if next != l {
      forall x | x in start.stock
        ensures RowConserved(start.stock[x], next.store.stock[x], NetOf(next.net, x), Held(next.orders, x))
      {
        assert RowConserved(start.stock[x], l.store.stock[x], NetOf(l.net, x), Held(l.orders, x));
      }
      AdjustedLotIsConserved(start, l, id, delta);
      assert HoldsRealRows(next.store, next.orders);
    }
  }

  lemma AdjustedLotIsConserved(start: Store, l: Ledger, id: Id, delta: int)
    requires LotsConserved(start, l)
    ensures LotsConserved(start, AdjustLotStep(l, id, delta))
  {
  }

  /** The ledger before anything happened. */
  function Opening(start: Store): Ledger {
    Ledger(start, [], map[], map[])
  }

  /**
   * In every run, each quantity is its initial value plus the adjustments minus what outstanding
   * orders hold, never negative; every lot keeps 0 <= remaining <= received.
   */
  lemma {:induction false} EveryRunConserves(start: Store, events: seq<Event>)
    requires SoundStart(start)
    ensures Conserved(start, Run(Opening(start), events))
    decreases |events|
  {
    if events != [] {
      var l := Run(Opening(start), events[..|events| - 1]);
      EveryRunConserves(start, events[..|events| - 1]);
      match events[|events| - 1]
      case Reserve(lines) => ReserveConserves(start, l, lines);
      case Restore(k) => RestoreConserves(start, l, k);
      case AdjustStock(r, delta) => AdjustStockConserves(start, l, r, delta);
      case AdjustInventoryLot(id, delta) => AdjustLotConserves(start, l, id, delta);
    }
  }

  // ---------------------------------------------------------------------------------------------
  // Items and their lots
  // ---------------------------------------------------------------------------------------------

  /** A lot-using item's stock is the total left in its lots. */
  ghost predicate Balanced(s: Store, item: Id) {
    UsesLots(s.lots, item) ==>
      var r := MenuItem(item);
      r in s.stock && s.stock[r].stock == Some(Available(s.lots, ItemOrder(s.lots, item)))
  }

  function GivenToLots(order: seq<Id>, lines: seq<OrderLine>): nat {
    if order == [] then 0 else GivenToLot(lines, order[0]) + GivenToLots(order[1..], lines)
  }

  /** What an order gives back to an item's lots is what it gives back to the item. */
  ghost predicate GivesEvenly(lots: LotTable, lines: seq<OrderLine>, item: Id) {
    UsesLots(lots, item) ==>
      GivenToLots(ItemOrder(lots, item), lines) == Demand(OrderTakes(lines), MenuItem(item))
  }

  ghost predicate OrdersGiveEvenly(lots: LotTable, orders: seq<Order>, item: Id) {
    forall k :: 0 <= k < |orders| && orders[k].outstanding ==> GivesEvenly(lots, orders[k].lines, item)
  }

  lemma {:induction false} GivingRaisesAvailable(
      lots: LotTable, after: LotTable, order: seq<Id>, lines: seq<OrderLine>)
    requires forall x :: x in order ==> x in lots && x in after && 0 <= lots[x].remaining
    requires forall x :: x in order ==> after[x].remaining == lots[x].remaining + GivenToLot(lines, x)
    ensures Available(after, order) == Available(lots, order) + GivenToLots(order, lines)
  {
    if order != [] {
      assert order[0] in order && forall x :: x in order[1..] ==> x in order;
      GivingRaisesAvailable(lots, after, order[1..], lines);
    }
  }

  lemma {:induction false} ReservationLowersAvailable(s: Store, takes: seq<Take>, item: Id)
    requires ApplyAll(s, takes).Some? && UsesLots(s.lots, item)
    ensures SameLotKeys(s.lots, ApplyAll(s, takes).value.lots)
    ensures Available(ApplyAll(s, takes).value.lots, ItemOrder(s.lots, item))
      == Available(s.lots, ItemOrder(s.lots, item)) - Demand(takes, MenuItem(item))
    decreases |takes|
  {
    if takes != [] {
      var s1 := Apply(s, takes[0]).value;
      ApplyActsOnOneItem(s, takes[0], item);
      ReservationLowersAvailable(s1, takes[1..], item);
      DemandOfOne(takes[0], MenuItem(item));
    }
  }

  /** A placed order took from the item's lots exactly what it took from the item. */
  lemma PlacedOrdersGiveEvenly(s: Store, lines: seq<Line>, item: Id)
    requires ApplyAll(s, Takes(lines)).Some? && DistinctKeys(lines)
    requires NoDebts(s.lots)
    ensures GivesEvenly(s.lots, PlacedOrder(s, lines), item)
  {
    if UsesLots(s.lots, item) {
      var s1, order := ApplyAll(s, Takes(lines)).value, ItemOrder(s.lots, item);
      ReservationLowersAvailable(s, Takes(lines), item);
      PlacedOrderMatchesLines(s, lines, []);
      forall x | x in order
        ensures x in s1.lots && 0 <= s1.lots[x].remaining
        ensures s.lots[x].remaining == s1.lots[x].remaining + GivenToLot(PlacedOrder(s, lines), x)
      {
        RecordsAccountForLots(s, lines, x);
        PlacedOrderMatchesLines(s, lines, x);
        TakingLeavesNoDebt(s, Takes(lines), x);
      }
      GivingRaisesAvailable(s1.lots, s.lots, order, PlacedOrder(s, lines));
    }
  }

  lemma ReserveKeepsBalance(s: Store, takes: seq<Take>, item: Id)
    requires ApplyAll(s, takes).Some? && Balanced(s, item)
    ensures Balanced(ApplyAll(s, takes).value, item)
  {
    var s1 := ApplyAll(s, takes).value;
    ReservationKeepsKeys(s, takes);
    OrderIgnoresQuantities(s.lots, s1.lots, item);
    if UsesLots(s.lots, item) {
      ReservationLowersAvailable(s, takes, item);
      ReservedRow(s, takes, MenuItem(item));
      UntouchedIsUndemanded(takes, MenuItem(item));
    }
  }

  /**
   * Restoring an order keeps a balanced item balanced exactly when the order gives evenly. An order
   * placed before the item's first lot existed does not: it gives to the item and to no lot.
   */
  lemma RestoreKeepsBalanceExactly(s: Store, lines: seq<OrderLine>, item: Id)
    requires Balanced(s, item) && NoDebts(s.lots)
    ensures Balanced(RestoreAll(s, lines), item) <==> GivesEvenly(s.lots, lines, item)
  {
    hide RestoreAll, OrderTakes, GivenToLots;
    RestorationRaisesAvailable(s, lines, item);
    if UsesLots(s.lots, item) {
      RestorationAddsBackStock(s, lines, MenuItem(item));
      UntouchedIsUndemanded(OrderTakes(lines), MenuItem(item));
    }
  }

  lemma RestorationRaisesAvailable(s: Store, lines: seq<OrderLine>, item: Id)
    requires NoDebts(s.lots)
    ensures var s1, order := RestoreAll(s, lines), ItemOrder(s.lots, item);
      && LotIds(s1.lots, item) == LotIds(s.lots, item) && ItemOrder(s1.lots, item) == order
      && Available(s1.lots, order) == Available(s.lots, order) + GivenToLots(order, lines)
  {
    var s1, order := RestoreAll(s, lines), ItemOrder(s.lots, item);
    RestorationKeepsLotKeys(s, lines);
    OrderIgnoresQuantities(s.lots, s1.lots, item);
    forall id | id in order
      ensures id in s1.lots && s1.lots[id].remaining == s.lots[id].remaining + GivenToLot(lines, id)
    {
      RestorationAddsBackLots(s, lines, id);
    }
    GivingRaisesAvailable(s.lots, s1.lots, order, lines);
  }

  /** An item without lots reserves 2, gets its first lot, and the order is then cancelled. */
  lemma LotsCreatedAfterReservationUnbalance()
    ensures var line := Line(None, "soup", 2, true, None, false, []);
      var s := Store(
        map[MenuItem("soup") := StockRow(true, Some(5), None)],
        map["lot" := Lot("soup", None, 0, 0, 5, 5)]);
      Balanced(s, "soup") && !Balanced(RestoreAll(s, [OrderLine(line, [])]), "soup")
  {
    var line := Line(None, "soup", 2, true, None, false, []);
    var s := Store(
      map[MenuItem("soup") := StockRow(true, Some(5), None)],
      map["lot" := Lot("soup", None, 0, 0, 5, 5)]);
    var order := ItemOrder(s.lots, "soup");
    assert "lot" in LotIds(s.lots, "soup");
    ItemOrderIsOrdered(s.lots, "soup");
    OrderIsUnique(s.lots, order, ["lot"]);
    assert Available(s.lots, ["lot"]) == 5 by { assert ["lot"][1..] == []; }
    var lines := [OrderLine(line, [])];
    assert lines[1..] == [];
    assert OrderTakes(lines) == [Take(MenuItem("soup"), 2)];
    DemandOfOne(Take(MenuItem("soup"), 2), MenuItem("soup"));
    assert GivenToLot(lines, "lot") == 0;
    assert GivenToLots(["lot"], lines) == 0 by { assert ["lot"][1..] == []; }
    RestoreKeepsBalanceExactly(s, lines, "soup");
  }

  ghost predicate Level(l: Ledger, item: Id) {
    Balanced(l.store, item) && OrdersGiveEvenly(l.store.lots, l.orders, item)
  }

  lemma GivesEvenlyIgnoresQuantities(a: LotTable, b: LotTable, lines: seq<OrderLine>, item: Id)
    requires SameLotKeys(a, b)
    ensures GivesEvenly(a, lines, item) <==> GivesEvenly(b, lines, item)
  {
    OrderIgnoresQuantities(a, b, item);
  }

  ghost predicate NoDebts(lots: LotTable) {
    forall id :: id in lots ==> lots[id].remaining >= 0
  }

  lemma ReserveKeepsLevel(l: Ledger, lines: seq<Line>, item: Id)
    requires Level(l, item) && NoDebts(l.store.lots)
    ensures Level(ReserveStep(l, lines), item)
  {
    hide GivesEvenly, PlacedOrder;
    if ApplyAll(l.store, Takes(lines)).Some? && DistinctKeys(lines) {
      ReserveKeepsBalance(l.store, Takes(lines), item);
      PlacedOrdersGiveEvenly(l.store, lines, item);
      ReservationKeepsKeys(l.store, Takes(lines));
      OrdersStayEven(l, ReserveStep(l, lines), item);
    }
  }

  lemma RestoreKeepsLevel(l: Ledger, k: nat, item: Id)
    requires Level(l, item) && NoDebts(l.store.lots)
    ensures Level(RestoreStep(l, k), item)
  {
    hide GivesEvenly;
    if k < |l.orders| && l.orders[k].outstanding {
      RestoreKeepsBalanceExactly(l.store, l.orders[k].lines, item);
      RestorationKeepsLotKeys(l.store, l.orders[k].lines);
      OrdersStayEven(l, RestoreStep(l, k), item);
    }
  }

  lemma AdjustStockKeepsLevel(l: Ledger, r: Resource, delta: int, item: Id)
    requires Level(l, item)
    ensures Level(AdjustStockStep(l, r, delta), item)
  {
    hide GivesEvenly, Available;
  }

  lemma AdjustLotKeepsLevel(l: Ledger, id: Id, delta: int, item: Id)
    requires Level(l, item) && NoDebts(l.store.lots)
    ensures Level(AdjustLotStep(l, id, delta), item)
  {
    hide GivesEvenly, LotAdjustment, Balanced;
    AdjustLotKeepsBalance(l, id, delta, item);
    OrdersStayEven(l, AdjustLotStep(l, id, delta), item);
  }

  lemma StepKeepsLevel(start: Store, l: Ledger, e: Event, item: Id)
    requires Conserved(start, l) && Level(l, item)
    ensures Level(Step(l, e), item)
  {
    assert NoDebts(l.store.lots);
    match e
    case Reserve(lines) => ReserveKeepsLevel(l, lines, item);
    case Restore(k) => RestoreKeepsLevel(l, k, item);
    case AdjustStock(r, delta) => AdjustStockKeepsLevel(l, r, delta, item);
    case AdjustInventoryLot(id, delta) => AdjustLotKeepsLevel(l, id, delta, item);
  }

  lemma RestorationKeepsLotKeys(s: Store, lines: seq<OrderLine>)
    ensures SameLotKeys(s.lots, RestoreAll(s, lines).lots)
  {
    RestorationKeepsKeys(s, lines);
    forall id | id in s.lots
      ensures RestoreAll(s, lines).lots[id] == s.lots[id].(remaining := s.lots[id].remaining + GivenToLot(lines, id))
    {
      RestorationAddsBackLots(s, lines, id);
    }
  }

  lemma OrdersStayEven(l: Ledger, next: Ledger, item: Id)
    requires OrdersGiveEvenly(l.store.lots, l.orders, item) && SameLotKeys(l.store.lots, next.store.lots)
    requires forall k :: 0 <= k < |next.orders| && next.orders[k].outstanding ==>
      (k < |l.orders| && l.orders[k] == next.orders[k]) || GivesEvenly(l.store.lots, next.orders[k].lines, item)
    ensures OrdersGiveEvenly(next.store.lots, next.orders, item)
  {
    forall k | 0 <= k < |next.orders| && next.orders[k].outstanding
      ensures GivesEvenly(next.store.lots, next.orders[k].lines, item)
    {
      GivesEvenlyIgnoresQuantities(l.store.lots, next.store.lots, next.orders[k].lines, item);
    }
  }

  lemma {:induction false} AvailableWithOneMoved(lots: LotTable, order: seq<Id>, id: Id, lot: Lot)
    requires NoDuplicates(order) && id in lots && forall x :: x in order ==> x in lots
    requires lots[id].remaining >= 0 && lot.remaining >= 0
    ensures Available(lots[id := lot], order)
      == Available(lots, order) + (if id in order then lot.remaining - lots[id].remaining else 0)
  {
    if order != [] {
      assert order[0] in order && forall x :: x in order[1..] ==> x in order && x != order[0];
      AvailableWithOneMoved(lots, order[1..], id, lot);
    }
  }

  lemma MovingALotMovesAvailable(lots: LotTable, id: Id, lot: Lot, item: Id)
    requires id in lots && lots[id].remaining >= 0 && lot.remaining >= 0
    requires lot == lots[id].(received := lot.received, remaining := lot.remaining)
    ensures var after := lots[id := lot];
      && SameLotKeys(lots, after) && LotIds(after, item) == LotIds(lots, item)
      && Available(after, ItemOrder(after, item)) == Available(lots, ItemOrder(lots, item))
         + (if lot.item == item then lot.remaining - lots[id].remaining else 0)
  {
    var after := lots[id := lot];
    assert SameLotKeys(lots, after);
    OrderIgnoresQuantities(lots, after, item);
    ItemOrderIsOrdered(lots, item);
    AvailableWithOneMoved(lots, ItemOrder(lots, item), id, lot);
  }

  lemma AdjustLotKeepsBalance(l: Ledger, id: Id, delta: int, item: Id)
    requires Balanced(l.store, item) && NoDebts(l.store.lots)
    ensures Balanced(AdjustLotStep(l, id, delta).store, item)
    ensures SameLotKeys(l.store.lots, AdjustLotStep(l, id, delta).store.lots)
  {
    hide Available, SameLotKeys;
    var next := AdjustLotStep(l, id, delta);
    if next == l {
      SameAsItself(l.store.lots);
    } else {
      var lot := next.store.lots[id];
      assert next.store.lots == l.store.lots[id := lot];
      MovingALotMovesAvailable(l.store.lots, id, lot, item);
    }
  }

  lemma SameAsItself(lots: LotTable)
    ensures SameLotKeys(lots, lots)
  {
  }

  /** Over any run, an item whose stock equals its lots' total keeps it equal. */
  lemma {:induction false} EveryRunKeepsBalance(start: Store, events: seq<Event>, item: Id)
    requires SoundStart(start) && Balanced(start, item)
    ensures Level(Run(Opening(start), events), item)
    decreases |events|
  {
    if events != [] {
      var before := events[..|events| - 1];
      EveryRunKeepsBalance(start, before, item);
      EveryRunConserves(start, before);
      StepKeepsLevel(start, Run(Opening(start), before), events[|events| - 1], item);
    }
  }
}
