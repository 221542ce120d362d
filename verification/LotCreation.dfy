/**
 * Runs in which items also get lots, and merchants create, update and delete rows and change lots'
 * dates. Two things part a lot-using item's stock from its lots' total: an order placed before the
 * first lot, which gives its stock back to the item and to no lot, and an update of the item that
 * writes another stock than that total.
 */
module LotCreation {
  import opened Base
  import opened Lots
  import opened Inventory
  import opened Reservation
  import opened Restoration
  import opened InventoryStore
  import opened Conservation

  /** The ledger, and for every order the items that had lots when it was placed. */
  datatype Book = Book(ledger: Ledger, lotted: seq<set<Id>>)

  datatype Happening =
    | Known(event: Event)
    | CreateLot(id: Id, lot: Lot)
    | UpdateLot(id: Id, expiry: Option<Option<int>>, receivedAt: Option<int>)
    | CreateStock(resource: Resource, fields: StockFields)
    | UpdateStock(resource: Resource, wasTracked: bool, fields: StockFields)
    | DeleteStock(resource: Resource)

  function LottedItems(lots: LotTable): set<Id> {
    set id | id in lots :: lots[id].item
  }

  ghost function Turn(b: Book, h: Happening): Book {
    match h
    case Known(e) =>
      var next := Conservation.Step(b.ledger, e);
      Book(next, if |next.orders| > |b.ledger.orders| then b.lotted + [LottedItems(b.ledger.store.lots)] else b.lotted)
    case _ => b.(ledger := b.ledger.(store := Managed(b.ledger.store, h).GetOr(b.ledger.store)))
  }

  /** What a merchant's action leaves, or `None` where it is refused. */
  function Managed(s: Store, h: Happening): Option<Store> {
    match h
    case Known(_) => None
    case CreateLot(id, lot) => LotCreation(s, id, lot)
    case UpdateLot(id, expiry, receivedAt) => LotUpdate(s, id, expiry, receivedAt)
    case CreateStock(r, fields) => StockCreation(s, r, fields)
    case UpdateStock(r, wasTracked, fields) => StockUpdate(s, r, wasTracked, fields)
    case DeleteStock(r) => StockDeletion(s, r)
  }

  ghost function Play(start: Store, happenings: seq<Happening>): Book
    decreases |happenings|
  {
    if happenings == [] then Book(Opening(start), [])
    else Turn(Play(start, happenings[..|happenings| - 1]), happenings[|happenings| - 1])
  }

  /** New lots arrive whole. */
  predicate Sensible(h: Happening) {
    h.CreateLot? ==> h.lot.received == h.lot.remaining >= 0
  }

  // ---------------------------------------------------------------------------------------------
  // What an order gives to lots
  // ---------------------------------------------------------------------------------------------

  function Without(ids: seq<Id>, id: Id): (r: seq<Id>)
    ensures forall x :: x in r <==> x in ids && x != id
  {
    if ids == [] then []
    else (if ids[0] == id then [] else [ids[0]]) + Without(ids[1..], id)
  }

  lemma {:induction false} GivenWithout(ids: seq<Id>, lines: seq<OrderLine>, id: Id)
    requires NoDuplicates(ids)
    ensures GivenToLots(ids, lines) == GivenToLots(Without(ids, id), lines) + (if id in ids then GivenToLot(lines, id) else 0)
    ensures NoDuplicates(Without(ids, id))
  {
    if ids != [] {
      GivenWithout(ids[1..], lines, id);
      assert forall x :: x in ids[1..] ==> x != ids[0];
      if ids[0] == id {
        assert Without(ids, id) == Without(ids[1..], id);
        NothingToRemove(ids[1..], id);
      } else {
        assert ids[0] !in Without(ids[1..], id);
        assert Without(ids, id) == [ids[0]] + Without(ids[1..], id);
        assert Without(ids, id)[1..] == Without(ids[1..], id);
      }
    }
  }

  lemma {:induction false} NothingToRemove(ids: seq<Id>, id: Id)
    requires id !in ids
    ensures Without(ids, id) == ids
  {
    if ids != [] {
      NothingToRemove(ids[1..], id);
    }
  }

  /** Lots an order gives nothing to do not count. */
  lemma {:induction false} GivenToMore(some: seq<Id>, all: seq<Id>, lines: seq<OrderLine>)
    requires NoDuplicates(some) && NoDuplicates(all)
    requires forall id :: id in some ==> id in all
    requires forall id :: id in all && id !in some ==> GivenToLot(lines, id) == 0
    ensures GivenToLots(some, lines) == GivenToLots(all, lines)
    decreases |all|
  {
    if all != [] {
      GivenWithout(some, lines, all[0]);
      assert forall id :: id in all[1..] <==> id in all && id != all[0];
      GivenToMore(Without(some, all[0]), all[1..], lines);
    }
  }

  lemma {:induction false} RecordedLotsExist(s: Store, lines: seq<Line>, id: Id)
    requires ApplyAll(s, Takes(lines)).Some? && id !in s.lots
    ensures TakenFromLot(Recorded(s, lines), id) == 0
    decreases |lines|
  {
    if lines != [] {
      RecordedFromFirst(s, lines);
      var s1 := ApplyAll(s, LineTakes(lines[0])).value;
      ItemRecordsWhatItTakes(s, lines[0].item, lines[0].quantity, id);
      TakenFromOthersIsNothing(s.lots, ItemOrder(s.lots, lines[0].item), lines[0].quantity, id);
      ReservationKeepsKeys(s, LineTakes(lines[0]));
      RecordedLotsExist(s1, lines[1..], id);
    }
  }

  // ---------------------------------------------------------------------------------------------
  // The invariant
  // ---------------------------------------------------------------------------------------------

  /** Nothing is in debt. */
  ghost predicate Solvent(s: Store) {
    NoDebts(s.lots) && forall r :: r in s.stock && s.stock[r].stock.Some? ==> s.stock[r].stock.value >= 0
  }

  /** An order gives to existing lots only, and to the item's lots what it took from the item, if there were any. */
  ghost predicate RecordedAgainst(lots: LotTable, lines: seq<OrderLine>, lotted: set<Id>, item: Id) {
    && (forall id :: id !in lots ==> GivenToLot(lines, id) == 0)
    && GivenToLots(ItemOrder(lots, item), lines) == (if item in lotted then Demand(OrderTakes(lines), MenuItem(item)) else 0)
  }

  ghost predicate BookSound(b: Book, item: Id) {
    && |b.lotted| == |b.ledger.orders| && Solvent(b.ledger.store)
    && forall k :: 0 <= k < |b.lotted| ==> RecordedAgainst(b.ledger.store.lots, b.ledger.orders[k].lines, b.lotted[k], item)
  }

  lemma RecordedIgnoresQuantities(a: LotTable, b: LotTable, lines: seq<OrderLine>, lotted: set<Id>, item: Id)
    requires SameLotKeys(a, b) && RecordedAgainst(a, lines, lotted, item)
    ensures RecordedAgainst(b, lines, lotted, item)
  {
    OrderIgnoresQuantities(a, b, item);
  }

  lemma PlacedOrderIsRecorded(s: Store, lines: seq<Line>, item: Id)
    requires ApplyAll(s, Takes(lines)).Some? && DistinctKeys(lines) && NoDebts(s.lots)
    ensures RecordedAgainst(s.lots, PlacedOrder(s, lines), LottedItems(s.lots), item)
  {
    hide PlacedOrder;
    forall id | id !in s.lots ensures GivenToLot(PlacedOrder(s, lines), id) == 0 {
      PlacedOrderMatchesLines(s, lines, id);
      RecordedLotsExist(s, lines, id);
    }
    PlacedOrdersGiveEvenly(s, lines, item);
    if UsesLots(s.lots, item) {
      var id :| id in LotIds(s.lots, item);
      assert s.lots[id].item in LottedItems(s.lots);
    } else {
      assert forall x :: x !in ItemOrder(s.lots, item);
      forall id | id in s.lots ensures s.lots[id].item != item {
        assert id !in LotIds(s.lots, item);
      }
    }
  }

  /** Other lots of an item, or lots in another order, change nothing if the order gave them nothing. */
  lemma RecordedWithMoreLots(lots: LotTable, after: LotTable, lines: seq<OrderLine>, lotted: set<Id>, item: Id)
    requires RecordedAgainst(lots, lines, lotted, item)
    requires forall x :: x in lots ==> x in after && after[x].item == lots[x].item
    ensures RecordedAgainst(after, lines, lotted, item)
  {
    ItemOrderIsOrdered(lots, item);
    ItemOrderIsOrdered(after, item);
    forall x | x in ItemOrder(after, item) && x !in ItemOrder(lots, item) ensures GivenToLot(lines, x) == 0 {
      assert x in LotIds(after, item) && x !in LotIds(lots, item);
    }
    forall x | x in ItemOrder(lots, item) ensures x in ItemOrder(after, item) {
      assert x in LotIds(lots, item) && x in LotIds(after, item);
    }
    GivenToMore(ItemOrder(lots, item), ItemOrder(after, item), lines);
  }

  // ---------------------------------------------------------------------------------------------
  // Every event
  // ---------------------------------------------------------------------------------------------

  lemma ReserveKeepsSolvent(s: Store, takes: seq<Take>)
    requires ApplyAll(s, takes).Some? && Solvent(s)
    ensures Solvent(ApplyAll(s, takes).value)
  {
    var s1 := ApplyAll(s, takes).value;
    ReservationKeepsKeys(s, takes);
    forall id | id in s1.lots ensures s1.lots[id].remaining >= 0 {
      TakingLeavesNoDebt(s, takes, id);
    }
    forall r | r in s1.stock && s1.stock[r].stock.Some? ensures s1.stock[r].stock.value >= 0 {
      ReservationFollowsDemand(s, takes);
      if Touches(takes, r) {
        assert Fits(s, takes, r);
      }
    }
  }

  lemma RestoreKeepsSolvent(s: Store, lines: seq<OrderLine>)
    requires Solvent(s)
    ensures Solvent(RestoreAll(s, lines))
  {
    var s1 := RestoreAll(s, lines);
    RestorationKeepsKeys(s, lines);
    forall id | id in s1.lots ensures s1.lots[id].remaining >= 0 {
      RestorationAddsBackLots(s, lines, id);
    }
    forall r | r in s1.stock && s1.stock[r].stock.Some? ensures s1.stock[r].stock.value >= 0 {
      RestorationAddsBackStock(s, lines, r);
    }
  }

  /** What every known event keeps: solvency, the lots and the lines of the orders so far. */
  lemma KnownEventsKeep(l: Ledger, e: Event)
    requires Solvent(l.store)
    ensures var next := Conservation.Step(l, e);
      && Solvent(next.store) && SameLotKeys(l.store.lots, next.store.lots)
      && |l.orders| <= |next.orders| <= |l.orders| + 1
      && (forall k :: 0 <= k < |l.orders| ==> next.orders[k].lines == l.orders[k].lines)
      && (|next.orders| > |l.orders| ==>
            e.Reserve? && ApplyAll(l.store, Takes(e.lines)).Some? && DistinctKeys(e.lines)
            && next.orders[|l.orders|].lines == PlacedOrder(l.store, e.lines))
  {
    hide PlacedOrder, RestoreAll, ApplyAll;
    SameAsItself(l.store.lots);
    match e
    case Reserve(lines) =>
      if ApplyAll(l.store, Takes(lines)).Some? {
        ReserveKeepsSolvent(l.store, Takes(lines));
        ReservationKeepsKeys(l.store, Takes(lines));
      }
    case Restore(k) =>
      if k < |l.orders| {
        RestoreKeepsSolvent(l.store, l.orders[k].lines);
        RestorationKeepsLotKeys(l.store, l.orders[k].lines);
      }
    case AdjustStock(r, delta) =>
    case AdjustInventoryLot(id, delta) =>
  }

  lemma KnownEventsKeepBook(b: Book, e: Event, item: Id)
    requires BookSound(b, item)
    ensures BookSound(Turn(b, Known(e)), item)
  {
    hide Conservation.Step, RecordedAgainst, Solvent, PlacedOrder, ApplyAll;
    KnownEventsKeep(b.ledger, e);
    var next, lots := Turn(b, Known(e)), b.ledger.store.lots;
    forall k | 0 <= k < |next.lotted| ensures RecordedAgainst(next.ledger.store.lots, next.ledger.orders[k].lines, next.lotted[k], item) {
      if k == |b.lotted| {
        assert NoDebts(lots) by { SolventMeansNoDebts(b.ledger.store); }
        PlacedOrderIsRecorded(b.ledger.store, e.lines, item);
      }
      RecordedIgnoresQuantities(lots, next.ledger.store.lots, next.ledger.orders[k].lines, next.lotted[k], item);
    }
  }

  lemma SolventMeansNoDebts(s: Store)
    requires Solvent(s)
    ensures NoDebts(s.lots)
  {
  }

  lemma ManagementKeepsSolvent(s: Store, h: Happening)
    requires Solvent(s) && Sensible(h) && Managed(s, h).Some?
    ensures Solvent(Managed(s, h).value)
    ensures forall x :: x in s.lots ==> x in Managed(s, h).value.lots && Managed(s, h).value.lots[x].item == s.lots[x].item
  {
  }

  lemma ManagementKeepsBook(b: Book, h: Happening, item: Id)
    requires BookSound(b, item) && Sensible(h) && !h.Known?
    ensures BookSound(Turn(b, h), item)
  {
    hide RecordedAgainst, Managed, Solvent;
    var next := Turn(b, h);
    if Managed(b.ledger.store, h).Some? {
      ManagementKeepsSolvent(b.ledger.store, h);
      forall k | 0 <= k < |next.lotted| ensures RecordedAgainst(next.ledger.store.lots, next.ledger.orders[k].lines, next.lotted[k], item) {
        RecordedWithMoreLots(b.ledger.store.lots, next.ledger.store.lots, b.ledger.orders[k].lines, b.lotted[k], item);
      }
    }
  }

  // ---------------------------------------------------------------------------------------------
  // Balance
  // ---------------------------------------------------------------------------------------------

  /** The order was placed when its item had no lots, took some of it, and comes back when it has. */
  ghost predicate ComesBackUneven(b: Book, h: Happening, item: Id) {
    && h.Known? && h.event.Restore?
    && var k := h.event.index;
      k < |b.ledger.orders| && k < |b.lotted| && b.ledger.orders[k].outstanding
      && item !in b.lotted[k] && Demand(OrderTakes(b.ledger.orders[k].lines), MenuItem(item)) > 0
      && UsesLots(b.ledger.store.lots, item)
  }

  lemma {:induction false} AvailableWithOneMore(lots: LotTable, some: seq<Id>, all: seq<Id>, id: Id)
    requires NoDuplicates(some) && NoDuplicates(all) && id !in some
    requires forall x :: x in all <==> x in some || x == id
    requires forall x :: x in all ==> x in lots && lots[x].remaining >= 0
    ensures Available(lots, all) == Available(lots, some) + lots[id].remaining
    decreases |all|
  {
    assert id in all;
    if all[0] == id {
      forall x ensures x in all[1..] <==> x in some {
        assert x in all[1..] ==> x != id;
      }
      SameMembersSameAvailable(lots, all[1..], some);
    } else {
      assert all[0] in some;
      AvailableWithout(lots, some, all[0]);
      forall x ensures x in all[1..] <==> x in Without(some, all[0]) || x == id {
        assert x in all[1..] ==> x != all[0];
      }
      AvailableWithOneMore(lots, Without(some, all[0]), all[1..], id);
    }
  }

  lemma {:induction false} AvailableWithout(lots: LotTable, ids: seq<Id>, id: Id)
    requires NoDuplicates(ids) && id in ids && forall x :: x in ids ==> x in lots && lots[x].remaining >= 0
    ensures NoDuplicates(Without(ids, id))
    ensures Available(lots, ids) == Available(lots, Without(ids, id)) + lots[id].remaining
  {
    assert forall x :: x in ids[1..] ==> x != ids[0] && x in ids;
    if ids[0] == id {
      NothingToRemove(ids[1..], id);
      assert Without(ids, id) == ids[1..];
    } else {
      AvailableWithout(lots, ids[1..], id);
      assert Without(ids, id) == [ids[0]] + Without(ids[1..], id);
      var rest := Without(ids[1..], id);
      assert Without(ids, id)[1..] == rest;
      forall j | 0 <= j < |rest| ensures rest[j] != ids[0] {
        assert rest[j] in rest;
      }
    }
  }

  lemma {:induction false} SameMembersSameAvailable(lots: LotTable, a: seq<Id>, b: seq<Id>)
    requires NoDuplicates(a) && NoDuplicates(b) && forall x :: x in a <==> x in b
    requires forall x :: x in a ==> x in lots && lots[x].remaining >= 0
    ensures Available(lots, a) == Available(lots, b)
    decreases |a|
  {
    if a != [] {
      AvailableWithout(lots, b, a[0]);
      assert forall x :: x in a[1..] ==> x != a[0] && x in a;
      SameMembersSameAvailable(lots, a[1..], Without(b, a[0]));
    }
  }

  lemma {:induction false} AvailableIgnoresOthers(lots: LotTable, id: Id, lot: Lot, order: seq<Id>)
    requires id !in order && forall x :: x in order ==> x in lots
    ensures Available(lots[id := lot], order) == Available(lots, order)
  {
    if order != [] {
      AvailableIgnoresOthers(lots, id, lot, order[1..]);
    }
  }

  lemma AvailableAfterNewLot(lots: LotTable, id: Id, lot: Lot, item: Id)
    requires NoDebts(lots) && id !in lots && lot.remaining >= 0
    ensures var after := lots[id := lot];
      && (UsesLots(after, item) <==> UsesLots(lots, item) || lot.item == item)
      && Available(after, ItemOrder(after, item))
         == Available(lots, ItemOrder(lots, item)) + (if lot.item == item then lot.remaining else 0)
  {
    var after := lots[id := lot];
    var some, all := ItemOrder(lots, item), ItemOrder(after, item);
    ItemOrderIsOrdered(lots, item);
    ItemOrderIsOrdered(after, item);
    assert LotIds(after, item) == LotIds(lots, item) + (if lot.item == item then {id} else {});
    AvailableIgnoresOthers(lots, id, lot, some);
    if lot.item == item {
      AvailableWithOneMore(after, some, all, id);
    } else {
      SameMembersSameAvailable(after, all, some);
    }
  }

  lemma NoLotsNothingAvailable(lots: LotTable, item: Id)
    requires !UsesLots(lots, item)
    ensures Available(lots, ItemOrder(lots, item)) == 0
  {
    assert forall x :: x !in ItemOrder(lots, item);
  }

  /** Creating a lot keeps every item balanced; for a first lot because the direct stock is used up. */
  lemma NewLotsKeepBalance(s: Store, id: Id, lot: Lot, item: Id)
    requires Solvent(s) && Balanced(s, item) && lot.remaining >= 0 && LotCreation(s, id, lot).Some?
    ensures Balanced(LotCreation(s, id, lot).value, item)
  {
    hide Available, ItemOrder, LotIds;
    AvailableAfterNewLot(s.lots, id, lot, item);
    if !UsesLots(s.lots, item) {
      NoLotsNothingAvailable(s.lots, item);
    }
  }

  /** Changing a lot's dates may change the order of the lots, but not what is left in them. */
  lemma DatesKeepBalance(s: Store, id: Id, expiry: Option<Option<int>>, receivedAt: Option<int>, item: Id)
    requires Solvent(s) && Balanced(s, item) && id in s.lots
    ensures Balanced(LotUpdate(s, id, expiry, receivedAt).value, item)
  {
    hide Available, ItemOrder;
    var after := LotUpdate(s, id, expiry, receivedAt).value.lots;
    ItemOrderIsOrdered(s.lots, item);
    ItemOrderIsOrdered(after, item);
    assert LotIds(after, item) == LotIds(s.lots, item);
    AvailableWithOneMoved(s.lots, ItemOrder(s.lots, item), id, after[id]);
    SameMembersSameAvailable(after, ItemOrder(s.lots, item), ItemOrder(after, item));
  }

  /** The update goes through and writes another stock than the item's lots hold. */
  ghost predicate Overwrites(s: Store, h: Happening, item: Id) {
    && h.UpdateStock? && h.resource == MenuItem(item) && IsWhole(h.fields) && UsesLots(s.lots, item)
    && WrittenStock(h.wasTracked, h.fields).Some?
    && WrittenStock(h.wasTracked, h.fields).value != Some(Available(s.lots, ItemOrder(s.lots, item)))
  }

  ghost predicate Parts(b: Book, h: Happening, item: Id) {
    ComesBackUneven(b, h, item) || Overwrites(b.ledger.store, h, item)
  }

  lemma ManagementKeepsBalanceExactly(s: Store, h: Happening, item: Id)
    requires Solvent(s) && Balanced(s, item) && Sensible(h) && Managed(s, h).Some?
    ensures Balanced(Managed(s, h).value, item) <==> !Overwrites(s, h, item)
  {
    hide Available, ItemOrder, LotUpdate, LotCreation;
    match h
    case CreateLot(id, lot) => NewLotsKeepBalance(s, id, lot, item);
    case UpdateLot(id, expiry, receivedAt) =>
      LotUpdateNeedsTheLot(s, id, expiry, receivedAt);
      DatesKeepBalance(s, id, expiry, receivedAt, item);
    case CreateStock(r, fields) =>
    case UpdateStock(r, wasTracked, fields) =>
    case DeleteStock(r) =>
  }

  lemma LotUpdateNeedsTheLot(s: Store, id: Id, expiry: Option<Option<int>>, receivedAt: Option<int>)
    ensures LotUpdate(s, id, expiry, receivedAt).Some? <==> id in s.lots
  {
  }

  /**
   * A balanced item stays balanced exactly unless an order comes back uneven (one placed when the
   * item had no lots, taking some of it, now that it has lots) or an update overwrites its stock.
   */
  lemma BalanceIsKeptExactly(b: Book, h: Happening, item: Id)
    requires BookSound(b, item) && Balanced(b.ledger.store, item) && Sensible(h)
    ensures Balanced(Turn(b, h).ledger.store, item) <==> !Parts(b, h, item)
  {
    hide Available, ItemOrder, LotIds;
    if h.Known? {
      KnownEventsKeepBalanceExactly(b, h.event, item);
    } else {
      hide Managed, Balanced, Solvent;
      if Managed(b.ledger.store, h).Some? {
        ManagementKeepsBalanceExactly(b.ledger.store, h, item);
      } else {
        RefusedWritesNothing(b.ledger.store, h, item);
      }
    }
  }

  lemma RefusedWritesNothing(s: Store, h: Happening, item: Id)
    requires Balanced(s, item) && !h.Known? && Managed(s, h).None?
    ensures !Overwrites(s, h, item)
  {
    hide Available, ItemOrder, LotIds;
  }

  lemma KnownEventsKeepBalanceExactly(b: Book, e: Event, item: Id)
    requires BookSound(b, item) && Balanced(b.ledger.store, item)
    ensures Balanced(Conservation.Step(b.ledger, e).store, item) <==> !ComesBackUneven(b, Known(e), item)
  {
    hide Available;
    var l := b.ledger;
    SolventMeansNoDebts(l.store);
    match e
    case Reserve(lines) =>
      if ApplyAll(l.store, Takes(lines)).Some? {
        ReserveKeepsBalance(l.store, Takes(lines), item);
      }
    case Restore(k) =>
      if k < |l.orders| && l.orders[k].outstanding {
        assert RecordedAgainst(l.store.lots, l.orders[k].lines, b.lotted[k], item);
        RestoreKeepsBalanceExactly(l.store, l.orders[k].lines, item);
      }
    case AdjustStock(r, delta) => AdjustmentKeepsBalance(l, r, delta, item);
    case AdjustInventoryLot(id, delta) => AdjustLotKeepsBalance(l, id, delta, item);
  }

  lemma AdjustmentKeepsBalance(l: Ledger, r: Resource, delta: int, item: Id)
    requires Balanced(l.store, item)
    ensures Balanced(AdjustStockStep(l, r, delta).store, item)
  {
    hide Available;
  }

  /** In every run every order is recorded against the lots there were. */
  lemma {:induction false} EveryRunIsRecorded(start: Store, happenings: seq<Happening>, item: Id)
    requires Solvent(start) && forall i :: 0 <= i < |happenings| ==> Sensible(happenings[i])
    ensures BookSound(Play(start, happenings), item)
    decreases |happenings|
  {
    if happenings != [] {
      var n := |happenings| - 1;
      EveryRunIsRecorded(start, happenings[..n], item);
      match happenings[n]
      case Known(e) => KnownEventsKeepBook(Play(start, happenings[..n]), e, item);
      case _ => ManagementKeepsBook(Play(start, happenings[..n]), happenings[n], item);
    }
  }

  ghost predicate BalancedAt(start: Store, happenings: seq<Happening>, i: int, item: Id) {
    0 <= i <= |happenings| && Balanced(Play(start, happenings[..i]).ledger.store, item)
  }

  ghost predicate PartedAt(start: Store, happenings: seq<Happening>, i: int, item: Id) {
    0 <= i < |happenings| && Parts(Play(start, happenings[..i]), happenings[i], item)
  }

  ghost predicate BalancedThroughout(start: Store, happenings: seq<Happening>, item: Id) {
    forall i :: 0 <= i <= |happenings| ==> BalancedAt(start, happenings, i, item)
  }

  ghost predicate NeverParted(start: Store, happenings: seq<Happening>, item: Id) {
    forall i :: 0 <= i < |happenings| ==> !PartedAt(start, happenings, i, item)
  }

  lemma BalancedOneFurther(start: Store, happenings: seq<Happening>, item: Id)
    requires |happenings| > 0
    ensures var n := |happenings| - 1;
      && (BalancedThroughout(start, happenings, item)
          <==> BalancedThroughout(start, happenings[..n], item) && BalancedAt(start, happenings, n + 1, item))
      && (NeverParted(start, happenings, item)
          <==> NeverParted(start, happenings[..n], item) && !PartedAt(start, happenings, n, item))
  {
    hide Play, Balanced, Parts;
    var n := |happenings| - 1;
    var before := happenings[..n];
    forall i | 0 <= i <= n
      ensures BalancedAt(start, happenings, i, item) <==> BalancedAt(start, before, i, item)
      ensures i < n ==> (PartedAt(start, happenings, i, item) <==> PartedAt(start, before, i, item))
    {
      assert before[..i] == happenings[..i];
    }
  }

  /**
   * A run from a balanced start stays balanced all the way exactly when no order comes back uneven
   * and no update overwrites the item's stock.
   */
  lemma {:induction false} EveryRunStaysBalanced(start: Store, happenings: seq<Happening>, item: Id)
    requires Solvent(start) && Balanced(start, item) && forall i :: 0 <= i < |happenings| ==> Sensible(happenings[i])
    ensures BalancedThroughout(start, happenings, item) <==> NeverParted(start, happenings, item)
    decreases |happenings|
  {
    hide Turn, Balanced, BookSound, Parts;
    if happenings == [] {
      assert happenings[..0] == [];
    } else {
      hide BalancedThroughout, NeverParted;
      var n := |happenings| - 1;
      var before := happenings[..n];
      EveryRunStaysBalanced(start, before, item);
      BalancedOneFurther(start, happenings, item);
      EveryRunIsRecorded(start, before, item);
      if BalancedThroughout(start, before, item) {
        BalancedAtTheEnd(start, before, item);
        assert happenings[..n + 1] == happenings;
        BalanceIsKeptExactly(Play(start, before), happenings[n], item);
      }
    }
  }

  lemma BalancedAtTheEnd(start: Store, happenings: seq<Happening>, item: Id)
    requires BalancedThroughout(start, happenings, item)
    ensures Balanced(Play(start, happenings).ledger.store, item)
  {
    hide Play, Balanced;
    assert happenings[..|happenings|] == happenings;
    assert BalancedAt(start, happenings, |happenings|, item);
  }

  // ---------------------------------------------------------------------------------------------
  // A run that parts an item from its lots
  // ---------------------------------------------------------------------------------------------

  const POT := Store(map[MenuItem("soup") := StockRow(true, Some(2), None)], map[])
  const EMPTY_POT := Store(map[MenuItem("soup") := StockRow(true, Some(0), None)], map[])
  const ORDERED := [Line(Some("l"), "soup", 2, true, None, false, [])]
  const DELIVERED := NewLot("soup", None, 0, 0, 5)

  lemma OrderEmptiesThePot()
    ensures ApplyAll(POT, Takes(ORDERED)) == Some(EMPTY_POT) && Demand(Takes(ORDERED), MenuItem("soup")) == 2
  {
    var take := Take(MenuItem("soup"), 2);
    assert ORDERED[1..] == [] && LineTakes(ORDERED[0]) == [take];
    assert Takes(ORDERED) == [take];
    DemandOfOne(take, MenuItem("soup"));
    ApplyAllOfOne(POT, take);
    assert LotIds(POT.lots, "soup") == {};
    assert Increment(POT.stock, MenuItem("soup"), -2) == EMPTY_POT.stock;
  }

  /** The book after the order: nothing had lots. */
  lemma PotOrdered()
    ensures var b := Turn(Book(Opening(POT), []), Known(Reserve(ORDERED)));
      && b.ledger.store == EMPTY_POT && |b.ledger.orders| == 1 && b.ledger.orders[0].outstanding
      && OrderTakes(b.ledger.orders[0].lines) == Takes(ORDERED) && b.lotted == [{}]
  {
    hide ApplyAll, Takes, PlacedOrder;
    OrderEmptiesThePot();
    PlacedOrderMatchesLines(POT, ORDERED, []);
    assert DistinctKeys(ORDERED);
    assert LottedItems(POT.lots) == {};
  }

  function Delivered(): seq<Happening> {
    [] + [Known(Reserve(ORDERED))] + [CreateLot("lot", DELIVERED)]
  }

  /** The first lot arrives while the order is outstanding. */
  lemma PotDelivered()
    ensures var b := Play(POT, Delivered());
      && UsesLots(b.ledger.store.lots, "soup") && b.lotted == [{}]
      && |b.ledger.orders| == 1 && b.ledger.orders[0].outstanding
      && OrderTakes(b.ledger.orders[0].lines) == Takes(ORDERED)
  {
    hide Takes, OrderTakes, ReserveStep;
    assert Delivered()[..1] == [Known(Reserve(ORDERED))] && [Known(Reserve(ORDERED))][..0] == [];
    PotOrdered();
    assert LotIds(EMPTY_POT.lots, "soup") == {};
    var b1 := Turn(Book(Opening(POT), []), Known(Reserve(ORDERED)));
    assert Play(POT, [Known(Reserve(ORDERED))]) == b1;
    var b := Play(POT, Delivered());
    assert b == Turn(b1, CreateLot("lot", DELIVERED));
    assert LotCreation(EMPTY_POT, "lot", DELIVERED).Some?;
    assert "lot" in LotIds(b.ledger.store.lots, "soup");
  }

  /** The pot is ordered empty, the first lot arrives, and the order is cancelled: seven in stock, five in lots. */
  lemma UnevenReturnIsReachable()
    ensures var b := Play(POT, Delivered());
      && Balanced(b.ledger.store, "soup") && UsesLots(b.ledger.store.lots, "soup")
      && ComesBackUneven(b, Known(Restore(0)), "soup")
      && !Balanced(Turn(b, Known(Restore(0))).ledger.store, "soup")
  {
    hide Turn, Play, Balanced, Takes, OrderTakes;
    PotDelivered();
    OrderEmptiesThePot();
    assert Balanced(POT, "soup") by { PotIsBalanced(); }
    EveryRunStaysBalanced(POT, Delivered(), "soup");
    BalancedAtTheEnd(POT, Delivered(), "soup");
    EveryRunIsRecorded(POT, Delivered(), "soup");
    BalanceIsKeptExactly(Play(POT, Delivered()), Known(Restore(0)), "soup");
  }

  /** Refilling the empty pot by an update instead: nine in stock, five in the lot. */
  const REFILL := UpdateStock(MenuItem("soup"), true, StockFields(None, Some(9), None))

  lemma OverwriteIsReachable()
    ensures var b := Play(EMPTY_POT, [] + [CreateLot("lot", DELIVERED)]);
      && Balanced(b.ledger.store, "soup") && UsesLots(b.ledger.store.lots, "soup")
      && Overwrites(b.ledger.store, REFILL, "soup")
      && !Balanced(Turn(b, REFILL).ledger.store, "soup")
  {
    hide Play, Balanced, Available, ItemOrder;
    var run := [] + [CreateLot("lot", DELIVERED)];
    assert Balanced(EMPTY_POT, "soup") by { EmptyPotIsBalanced(); }
    EveryRunIsRecorded(EMPTY_POT, [], "soup");
    EveryRunIsRecorded(EMPTY_POT, run, "soup");
    var b := Play(EMPTY_POT, run);
    assert b == Turn(Book(Opening(EMPTY_POT), []), run[0]) by { PlayOfOne(EMPTY_POT, run[0]); }
    BalanceIsKeptExactly(Book(Opening(EMPTY_POT), []), run[0], "soup");
    assert LotIds(EMPTY_POT.lots, "soup") == {};
    assert "lot" in LotIds(b.ledger.store.lots, "soup");
    StockIsTheLots(b.ledger.store, "soup");
    BalanceIsKeptExactly(b, REFILL, "soup");
  }

  lemma StockIsTheLots(s: Store, item: Id)
    requires Balanced(s, item) && UsesLots(s.lots, item)
    ensures MenuItem(item) in s.stock && s.stock[MenuItem(item)].stock == Some(Available(s.lots, ItemOrder(s.lots, item)))
  {
  }

  lemma PlayOfOne(start: Store, h: Happening)
    ensures Play(start, []) == Book(Opening(start), []) && Play(start, [] + [h]) == Turn(Book(Opening(start), []), h)
  {
    assert ([] + [h])[..0] == [];
  }

  lemma EmptyPotIsBalanced()
    ensures Balanced(EMPTY_POT, "soup")
  {
    assert LotIds(EMPTY_POT.lots, "soup") == {};
  }

  lemma PotIsBalanced()
    ensures Balanced(POT, "soup")
  {
    assert LotIds(POT.lots, "soup") == {};
  }
}
