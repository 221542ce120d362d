/**
 * The stock tables as mutable state: the conditional row updates of the repository and the loops of
 * the lifecycle service, proved against the closed forms.
 */
module InventoryStore {
  import opened Base
  import opened Lots
  import opened Inventory
  import opened Reservation
  import opened Restoration
  import opened Alerts

  /** Alerts by resource, and lot allocations by line key. */
  datatype ReservationResult = ReservationResult(
    alerts: map<Resource, Alert>, allocations: map<string, seq<Allocation>>)

  datatype Compensation = Compensation(
    resource: Resource, restored: int, stock: Option<int>, threshold: Option<int>)

  /** The stock table after a merchant adjustment, or `None` where its condition fails. */
  function Adjusted(stock: StockTable, r: Resource, delta: int): Option<StockTable> {
    if delta == 0 then Some(stock)
    else if r in stock && stock[r].tracked && stock[r].stock.Some? && (delta < 0 ==> stock[r].stock.value >= -delta)
    then Some(Increment(stock, r, delta))
    else None
  }

  /** A lot adjustment moves the remaining quantity; a positive one also counts as received. */
  function AdjustedLot(lots: LotTable, id: Id, delta: int): Option<LotTable> {
    if delta == 0 then Some(lots)
    else if id in lots && (delta < 0 ==> lots[id].remaining >= -delta)
    then Some(lots[id := lots[id].(
      remaining := lots[id].remaining + delta,
      received := lots[id].received + (if delta > 0 then delta else 0))])
    else None
  }

  /**
   * Item- or option-level adjustment: the row must be tracked, and a menu item with lots is adjusted
   * through its lots only. Variant combinations have no adjustment of their own.
   */
  function ItemAdjustment(s: Store, r: Resource, delta: int): Option<Store> {
    if r.Variant? || r !in s.stock || !s.stock[r].tracked || (r.MenuItem? && UsesLots(s.lots, r.id)) then None
    else
      var after := Adjusted(s.stock, r, delta);
      if after.None? then None else Some(s.(stock := after.value))
  }

  /** A lot adjustment moves the lot and its item together or not at all. */
  function LotAdjustment(s: Store, id: Id, delta: int): Option<Store> {
    if id !in s.lots then None
    else
      var r := MenuItem(s.lots[id].item);
      var lots, stock := AdjustedLot(s.lots, id, delta), Adjusted(s.stock, r, delta);
      if r !in s.stock || !s.stock[r].tracked || lots.None? || stock.None? then None
      else Some(Store(stock.value, lots.value))
  }

  /** A lot as it arrives. */
  function NewLot(item: Id, expiry: Option<int>, receivedAt: int, createdAt: int, quantity: nat): Lot {
    Lot(item, expiry, receivedAt, createdAt, quantity, quantity)
  }

  /** A new lot adds to its item too; an item's first lot needs the item's direct stock to be used up. */
  function LotCreation(s: Store, id: Id, lot: Lot): Option<Store> {
    var r := MenuItem(lot.item);
    if id in s.lots || r !in s.stock || !s.stock[r].tracked then None
    else if !UsesLots(s.lots, lot.item) && s.stock[r].stock.GetOr(0) > 0 then None
    else Some(Store(Increment(s.stock, r, lot.remaining), s.lots[id := lot]))
  }

  /** The stock fields of a merchant's create or update request; a field that was not sent is `None`. */
  datatype StockFields = StockFields(tracked: Option<bool>, stock: Option<int>, threshold: Option<int>)

  predicate IsWhole(f: StockFields) {
    (f.stock.Some? ==> f.stock.value >= 0) && (f.threshold.Some? ==> f.threshold.value >= 0)
  }

  /** Whether the row is tracked afterwards: as asked, or else if a quantity came or it was before. */
  predicate IsTrackedAfter(wasTracked: bool, f: StockFields) {
    f.tracked.GetOr(f.stock.Some? || f.threshold.Some? || wasTracked)
  }

  /** What an update writes into the stock column; `None` leaves the column alone. */
  function WrittenStock(wasTracked: bool, f: StockFields): Option<Option<int>> {
    if f == StockFields(None, None, None) then None
    else if !IsTrackedAfter(wasTracked, f) then Some(None)
    else if f.stock.Some? then Some(f.stock)
    else if wasTracked then None
    else Some(Some(0))
  }

  function UpdatedRow(row: StockRow, wasTracked: bool, f: StockFields): StockRow {
    if f == StockFields(None, None, None) then row
    else
      var tracked := IsTrackedAfter(wasTracked, f);
      StockRow(tracked, WrittenStock(wasTracked, f).GetOr(row.stock),
        if !tracked then None else if f.threshold.Some? then f.threshold else row.threshold)
  }

  /**
   * A merchant's update overwrites the stock columns without looking at lots. `wasTracked` is the
   * flag as read before the transaction, so it need not be the row's own any more.
   */
  function StockUpdate(s: Store, r: Resource, wasTracked: bool, f: StockFields): Option<Store> {
    if r !in s.stock || !IsWhole(f) then None
    else Some(s.(stock := s.stock[r := UpdatedRow(s.stock[r], wasTracked, f)]))
  }

  /** A new row; one that is not tracked carries no quantities. */
  function StockCreation(s: Store, r: Resource, f: StockFields): Option<Store> {
    if r in s.stock || !IsWhole(f) then None
    else Some(s.(stock := s.stock[r :=
      if IsTrackedAfter(false, f) then StockRow(true, Some(f.stock.GetOr(0)), f.threshold) else StockRow(false, None, None)]))
  }

  /** Deleting a row; lots refer to their item, so an item with lots stays. */
  function StockDeletion(s: Store, r: Resource): Option<Store> {
    if r !in s.stock || (r.MenuItem? && UsesLots(s.lots, r.id)) then None else Some(s.(stock := s.stock - {r}))
  }

  /**
   * New and deleted rows by their fields: a row is tracked if asked to be, or if a quantity came and
   * nothing was asked; a menu item with lots cannot be deleted, anything else that exists can.
   */
  lemma RowsComeAndGo(s: Store, r: Resource, f: StockFields)
    ensures var created, deleted := StockCreation(s, r, f), StockDeletion(s, r);
      && (created.Some? <==> (
            r !in s.stock && (f.stock.None? || f.stock.value >= 0) && (f.threshold.None? || f.threshold.value >= 0)))
      && (created.Some? ==>
            && created.value.lots == s.lots && r in created.value.stock && created.value.stock - {r} == s.stock
            && (created.value.stock[r].tracked <==>
                  f.tracked == Some(true) || (f.tracked.None? && (f.stock.Some? || f.threshold.Some?)))
            && (created.value.stock[r].tracked ==>
                  created.value.stock[r] == StockRow(true, Some(if f.stock.Some? then f.stock.value else 0), f.threshold))
            && (!created.value.stock[r].tracked ==> created.value.stock[r] == StockRow(false, None, None)))
      && (deleted.Some? <==> r in s.stock && !(r.MenuItem? && exists id :: id in s.lots && s.lots[id].item == r.id))
      && (deleted.Some? ==> deleted.value == Store(s.stock - {r}, s.lots))
  {
    if r.MenuItem? {
      assert forall id :: id in s.lots && s.lots[id].item == r.id <==> id in LotIds(s.lots, r.id);
    }
  }

  /** Changing a lot's dates; dates that were not sent stay, and the expiry may be removed. */
  function LotUpdate(s: Store, id: Id, expiry: Option<Option<int>>, receivedAt: Option<int>): Option<Store> {
    if id !in s.lots then None
    else
      var lot := s.lots[id];
      Some(s.(lots := s.lots[id := lot.(expiry := expiry.GetOr(lot.expiry), receivedAt := receivedAt.GetOr(lot.receivedAt))]))
  }

  ghost predicate ListedIn(events: seq<Compensation>, r: Resource) {
    exists i :: 0 <= i < |events| && events[i].resource == r
  }

  /** One event per restored row, quoting the row and the summed quantity given back to it. */
  ghost predicate EventsMatch(stock: StockTable, totals: map<Resource, nat>, events: seq<Compensation>) {
    && (forall i, j :: 0 <= i < j < |events| ==> events[i].resource != events[j].resource)
    && (forall i :: 0 <= i < |events| ==>
          var r := events[i].resource;
          r in totals && totals[r] > 0 && r in stock
          && events[i] == Compensation(r, totals[r], stock[r].stock, stock[r].threshold))
    && (forall r :: r in totals && totals[r] > 0 && r in stock ==> ListedIn(events, r))
  }

  predicate Selects(forItems: bool, r: Resource) {
    if forItems then r.MenuItem? else r.ItemOption?
  }

  /** `totals` holds the summed demand of the touched menu items, or of the touched options. */
  ghost predicate TotalsOf(takes: seq<Take>, totals: map<Resource, nat>, forItems: bool) {
    && (forall r :: r in totals <==> Selects(forItems, r) && Touches(takes, r))
    && (forall r :: r in totals ==> totals[r] == Demand(takes, r))
  }

  /** Every restored row of the kind is reported once, with exactly the amount restored to it. */
  ghost predicate Reports(stock: StockTable, takes: seq<Take>, forItems: bool, events: seq<Compensation>) {
    && (forall i, j :: 0 <= i < j < |events| ==> events[i].resource != events[j].resource)
    && (forall i :: 0 <= i < |events| ==>
          var r := events[i].resource;
          Selects(forItems, r) && r in stock && Demand(takes, r) > 0
          && events[i] == Compensation(r, Demand(takes, r), stock[r].stock, stock[r].threshold))
    && (forall r :: Selects(forItems, r) && r in stock && Demand(takes, r) > 0 ==> ListedIn(events, r))
  }

  lemma TotalsAreReported(
      stock: StockTable, takes: seq<Take>, forItems: bool, totals: map<Resource, nat>, events: seq<Compensation>)
    requires TotalsOf(takes, totals, forItems) && EventsMatch(stock, totals, events)
    ensures Reports(stock, takes, forItems, events)
  {
    forall r | Selects(forItems, r) && r in stock && Demand(takes, r) > 0 ensures ListedIn(events, r) {
      UntouchedIsUndemanded(takes, r);
      assert r in totals;
    }
  }

  function Accumulate(totals: map<Resource, nat>, r: Resource, quantity: nat): map<Resource, nat> {
    totals[r := (if r in totals then totals[r] else 0) + quantity]
  }

  lemma TotalsGrow(takes: seq<Take>, totals: map<Resource, nat>, forItems: bool, take: Take)
    requires TotalsOf(takes, totals, forItems)
    ensures TotalsOf(takes + [take],
      if Selects(forItems, take.resource) then Accumulate(totals, take.resource, take.quantity) else totals, forItems)
  {
    forall r
      ensures Demand(takes + [take], r) == Demand(takes, r) + (if take.resource == r then take.quantity else 0)
      ensures Touches(takes + [take], r) <==> Touches(takes, r) || take.resource == r
      ensures !Touches(takes, r) ==> Demand(takes, r) == 0
    {
      DemandOfConcatenation(takes, [take], r);
      DemandOfOne(take, r);
      UntouchedIsUndemanded(takes, r);
    }
  }

  class InventoryDatabase {
    var stock: StockTable
    var lots: LotTable

    ghost function Snapshot(): Store
      reads this
    {
      Store(stock, lots)
    }

    constructor (stock: StockTable, lots: LotTable)
      ensures Snapshot() == Store(stock, lots)
    {
      this.stock, this.lots := stock, lots;
    }

    // -------------------------------------------------------------------------------------------
    // Repository primitives
    // -------------------------------------------------------------------------------------------

    method DecrementTracked(r: Resource, quantity: nat) returns (ok: bool)
      modifies this`stock
      ensures ok == CanDecrement(old(stock), r, quantity)
      ensures stock == if ok then Increment(old(stock), r, -(quantity as int)) else old(stock)
    {
      ok := r in stock && stock[r].tracked && stock[r].stock.Some? && stock[r].stock.value >= quantity;
      if ok {
        stock := stock[r := stock[r].(stock := Some(stock[r].stock.value - quantity))];
      }
    }

    method IncrementStock(r: Resource, quantity: nat)
      modifies this`stock
      ensures stock == Increment(old(stock), r, quantity)
    {
      if r in stock {
        stock := stock[r := stock[r].(stock := Some(stock[r].stock.GetOr(0) + quantity))];
      }
    }

    method AdjustTracked(r: Resource, delta: int) returns (ok: bool)
      modifies this`stock
      ensures ok == Adjusted(old(stock), r, delta).Some?
      ensures stock == Adjusted(old(stock), r, delta).GetOr(old(stock))
    {
      if delta == 0 {
        return true;
      }
      ok := r in stock && stock[r].tracked && stock[r].stock.Some?;
      if ok && delta < 0 {
        ok := stock[r].stock.value >= -delta;
      }
      if ok {
        stock := stock[r := stock[r].(stock := Some(stock[r].stock.value + delta))];
      }
    }

    method DecrementLot(id: Id, quantity: nat) returns (ok: bool)
      modifies this`lots
      ensures ok == (id in old(lots) && old(lots)[id].remaining >= quantity)
      ensures lots == if ok then IncrementLot(old(lots), id, -(quantity as int)) else old(lots)
    {
      ok := id in lots && lots[id].remaining >= quantity;
      if ok {
        lots := lots[id := lots[id].(remaining := lots[id].remaining - quantity)];
      }
    }

    method IncrementLotRemaining(id: Id, quantity: nat)
      modifies this`lots
      ensures lots == IncrementLot(old(lots), id, quantity)
    {
      if id in lots {
        lots := lots[id := lots[id].(remaining := lots[id].remaining + quantity)];
      }
    }

    method AdjustLot(id: Id, delta: int) returns (ok: bool)
      modifies this`lots
      ensures ok == AdjustedLot(old(lots), id, delta).Some?
      ensures lots == AdjustedLot(old(lots), id, delta).GetOr(old(lots))
    {
      if delta == 0 {
        return true;
      }
      ok := id in lots;
      if ok && delta < 0 {
        ok := lots[id].remaining >= -delta;
      }
      if ok {
        var lot := lots[id].(remaining := lots[id].remaining + delta);
        if delta > 0 {
          lot := lot.(received := lot.received + delta);
        }
        lots := lots[id := lot];
      }
    }

    /** A merchant's stock adjustment; a refusal changes nothing. */
    method AdjustItemInventory(r: Resource, delta: int) returns (ok: bool)
      modifies this`stock
      ensures ok == ItemAdjustment(old(Snapshot()), r, delta).Some?
      ensures Snapshot() == ItemAdjustment(old(Snapshot()), r, delta).GetOr(old(Snapshot()))
    {
      if r.Variant? || r !in stock || !stock[r].tracked {
        return false;
      }
      if r.MenuItem? && |LotIds(lots, r.id)| > 0 {
        return false;
      }
      ok := AdjustTracked(r, delta);
    }

    /** A merchant's lot adjustment, rolled back when either half is refused. */
    method AdjustItemInventoryLot(id: Id, delta: int) returns (ok: bool)
      modifies this
      ensures ok == LotAdjustment(old(Snapshot()), id, delta).Some?
      ensures Snapshot() == LotAdjustment(old(Snapshot()), id, delta).GetOr(old(Snapshot()))
    {
      if id !in lots || MenuItem(lots[id].item) !in stock || !stock[MenuItem(lots[id].item)].tracked {
        return false;
      }
      var savedLots, item := lots, lots[id].item;
      ok := AdjustLot(id, delta);
      if ok {
        ok := AdjustTracked(MenuItem(item), delta);
        if !ok {
          lots := savedLots;
        }
      }
    }

    /** Creates a lot and raises its item's stock by the same quantity, or refuses. */
    method CreateItemInventoryLot(id: Id, item: Id, expiry: Option<int>, receivedAt: int, createdAt: int, quantity: nat)
      returns (ok: bool)
      requires id !in lots
      modifies this
      ensures var lot := Lot(item, expiry, receivedAt, createdAt, quantity, quantity);
        && ok == LotCreation(old(Snapshot()), id, lot).Some?
        && Snapshot() == LotCreation(old(Snapshot()), id, lot).GetOr(old(Snapshot()))
    {
      var r := MenuItem(item);
      if r !in stock || !stock[r].tracked {
        return false;
      }
      var existingLotCount := |LotIds(lots, item)|;
      if existingLotCount == 0 && stock[r].stock.GetOr(0) > 0 {
        return false;
      }
      lots := lots[id := NewLot(item, expiry, receivedAt, createdAt, quantity)];
      IncrementStock(r, quantity);
      return true;
    }

    /** A merchant's update of the stock fields of an item, a variant combination or an option. */
    method UpdateInventory(r: Resource, wasTracked: bool, fields: StockFields) returns (ok: bool)
      modifies this`stock
      ensures ok == StockUpdate(old(Snapshot()), r, wasTracked, fields).Some?
      ensures Snapshot() == StockUpdate(old(Snapshot()), r, wasTracked, fields).GetOr(old(Snapshot()))
    {
      if r !in stock || (fields.stock.Some? && fields.stock.value < 0) || (fields.threshold.Some? && fields.threshold.value < 0) {
        return false;
      }
      if fields.tracked.None? && fields.stock.None? && fields.threshold.None? {
        return true;
      }
      var row := stock[r];
      var isStockTracked := fields.tracked.GetOr(fields.stock.Some? || fields.threshold.Some? || wasTracked);
      if !isStockTracked {
        row := StockRow(false, None, None);
      } else {
        row := row.(tracked := true);
        if fields.stock.Some? {
          row := row.(stock := fields.stock);
        } else if !wasTracked {
          row := row.(stock := Some(0));
        }
        if fields.threshold.Some? {
          row := row.(threshold := fields.threshold);
        }
      }
      stock := stock[r := row];
      return true;
    }

    /** A merchant's change of a lot's dates; quantities are not touched. */
    method UpdateItemInventoryLot(id: Id, expiry: Option<Option<int>>, receivedAt: Option<int>) returns (ok: bool)
      modifies this`lots
      ensures ok == LotUpdate(old(Snapshot()), id, expiry, receivedAt).Some?
      ensures Snapshot() == LotUpdate(old(Snapshot()), id, expiry, receivedAt).GetOr(old(Snapshot()))
    {
      if id !in lots {
        return false;
      }
      var lot := lots[id];
      if expiry.Some? {
        lot := lot.(expiry := expiry.value);
      }
      if receivedAt.Some? {
        lot := lot.(receivedAt := receivedAt.value);
      }
      lots := lots[id := lot];
      return true;
    }

    /** The lots of an item, in whatever order the table yields them. */
    method ListLots(item: Id) returns (ids: seq<Id>)
      ensures NoDuplicates(ids)
      ensures forall x :: x in ids <==> x in LotIds(lots, item)
    {
      ids := [];
      var rest := LotIds(lots, item);
      while rest != {}
        invariant NoDuplicates(ids)
        invariant forall x :: x in ids ==> x !in rest
        invariant forall x :: x in ids || x in rest <==> x in LotIds(lots, item)
        decreases rest
      {
        var x :| x in rest;
        ids, rest := ids + [x], rest - {x};
      }
    }

    // -------------------------------------------------------------------------------------------
    // Reservation
    // -------------------------------------------------------------------------------------------

    /** The available lots of an item, sorted by the lot comparator. */
    method ListAvailableLots(item: Id) returns (order: seq<Id>)
      ensures forall x :: x in order ==> x in lots && lots[x].remaining > 0
      ensures NoDuplicates(order)
      ensures order == OnlyAvailable(lots, ItemOrder(lots, item))
    {
      var listed := ListLots(item);
      order := SortLots(lots, OnlyAvailable(lots, listed));
      OnlyAvailableHasNoDuplicates(lots, listed);
      SortedIsInOrder(lots, OnlyAvailable(lots, listed));
      ItemOrderIsOrdered(lots, item);
      OnlyAvailableKeepsOrder(lots, ItemOrder(lots, item));
      OrderIsUnique(lots, order, OnlyAvailable(lots, ItemOrder(lots, item)));
      OrderHasNoDuplicates(lots, order);
    }

    /** Greedy first-expiry-first-out allocation; refused before anything is taken. */
    method ReserveLots(item: Id, quantity: nat) returns (ok: bool, allocations: seq<Allocation>)
      modifies this`lots
      ensures ok == (quantity <= Available(old(lots), ItemOrder(old(lots), item)))
      ensures lots == if ok then Drain(old(lots), ItemOrder(old(lots), item), quantity) else old(lots)
      ensures ok ==>
        allocations == Allocations(old(lots), OnlyAvailable(old(lots), ItemOrder(old(lots), item)), quantity)
    {
      var order := ListAvailableLots(item);
      OnlyAvailableMatters(lots, ItemOrder(lots, item), quantity, []);
      DrainingSkipsEmptyLots(lots, ItemOrder(lots, item), quantity);
      if Available(lots, order) < quantity {
        return false, [];
      }
      allocations := WalkLots(order, quantity);
      ok := true;
    }

    /** The allocation loop over the sorted available lots. */
    method WalkLots(order: seq<Id>, quantity: nat) returns (allocations: seq<Allocation>)
      requires NoDuplicates(order) && forall x :: x in order ==> x in lots && lots[x].remaining > 0
      requires quantity <= Available(lots, order)
      modifies this`lots
      ensures lots == Drain(old(lots), order, quantity)
      ensures allocations == Allocations(old(lots), order, quantity)
    {
      ghost var before := lots;
      hide WalkedTo, TakenFrom, Available, Allocations, Drain;
      var left: nat := quantity;
      var k := 0;
      allocations := [];
      WalkStarts(before, order, quantity);
      while k < |order| && left > 0
        invariant 0 <= k <= |order|
        invariant WalkedTo(before, lots, order, quantity, k, left)
        invariant allocations + Allocations(before, order[k..], left) == Allocations(before, order, quantity)
      {
        WalkOneLot(before, lots, order, quantity, k, left);
        var portion: nat := Min(lots[order[k]].remaining, left);
        var reserved := DecrementLot(order[k], portion);
        assert reserved;
        allocations := allocations + [Allocation(order[k], portion)];
        left := left - portion;
        k := k + 1;
      }
      WalkIsOver(before, lots, order, quantity, k, left);
    }

    method ReserveItem(item: Id, quantity: nat, alerts: map<Resource, Alert>, ghost base: StockTable)
      returns (ok: bool, allocations: seq<Allocation>, newAlerts: map<Resource, Alert>)
      requires AlertsMatch(base, stock, alerts)
      modifies this
      ensures ok == Apply(old(Snapshot()), Take(MenuItem(item), quantity)).Some?
      ensures ok ==> Snapshot() == Apply(old(Snapshot()), Take(MenuItem(item), quantity)).value
      ensures ok ==> allocations == if UsesLots(old(lots), item)
        then Allocations(old(lots), OnlyAvailable(old(lots), ItemOrder(old(lots), item)), quantity) else []
      ensures ok ==> AlertsMatch(base, stock, newAlerts)
    {
      hide AlertsMatch;
      var r := MenuItem(item);
      var previous := if r in stock then Some(stock[r]) else None;
      var usesLots := |LotIds(lots, item)| > 0;
      allocations, newAlerts := [], alerts;
      if usesLots {
        ok, allocations := ReserveLots(item, quantity);
        if !ok {
          return;
        }
      }
      ghost var mid := stock;
      ok := DecrementTracked(r, quantity);
      if ok {
        StepwiseAlertsMatchEndpoints(base, mid, alerts, r, quantity);
        newAlerts := Record(alerts, r, BuildAlert(previous.value, stock[r]));
      }
    }

    method ReserveOption(option: Id, quantity: nat, alerts: map<Resource, Alert>, ghost base: StockTable)
      returns (ok: bool, newAlerts: map<Resource, Alert>)
      requires AlertsMatch(base, stock, alerts)
      modifies this`stock
      ensures ok == Apply(old(Snapshot()), Take(ItemOption(option), quantity)).Some?
      ensures ok ==> Snapshot() == Apply(old(Snapshot()), Take(ItemOption(option), quantity)).value
      ensures ok ==> AlertsMatch(base, stock, newAlerts)
    {
      hide AlertsMatch;
      var r := ItemOption(option);
      var previous := if r in stock then Some(stock[r]) else None;
      newAlerts := alerts;
      ghost var mid := stock;
      ok := DecrementTracked(r, quantity);
      if ok {
        StepwiseAlertsMatchEndpoints(base, mid, alerts, r, quantity);
        newAlerts := Record(alerts, r, BuildAlert(previous.value, stock[r]));
      }
    }

    method ReserveVariant(line: Line, alerts: map<Resource, Alert>, ghost base: StockTable) returns (ok: bool)
      requires AlertsMatch(base, stock, alerts)
      modifies this`stock
      ensures ok == ApplyAll(old(Snapshot()), VariantTakes(line)).Some?
      ensures ok ==> Snapshot() == ApplyAll(old(Snapshot()), VariantTakes(line)).value
      ensures ok ==> AlertsMatch(base, stock, alerts)
    {
      hide AlertsMatch;
      ok := true;
      if line.variantTracked && line.variant.Some? {
        var r := Variant(line.variant.value);
        ApplyAllOfOne(Snapshot(), Take(r, line.quantity));
        ghost var mid := stock;
        ok := DecrementTracked(r, line.quantity);
        if ok {
          StepwiseAlertsMatchEndpoints(base, mid, alerts, r, line.quantity);
        }
      }
    }

    method ReserveChoices(choices: seq<Choice>, quantity: nat, alerts: map<Resource, Alert>, ghost base: StockTable)
      returns (ok: bool, newAlerts: map<Resource, Alert>)
      requires AlertsMatch(base, stock, alerts)
      modifies this`stock
      ensures ok == ApplyAll(old(Snapshot()), ChoiceTakes(choices, quantity)).Some?
      ensures ok ==> Snapshot() == ApplyAll(old(Snapshot()), ChoiceTakes(choices, quantity)).value
      ensures ok ==> AlertsMatch(base, stock, newAlerts)
    {
      hide AlertsMatch;
      newAlerts := alerts;
      ghost var goal := ApplyAll(Snapshot(), ChoiceTakes(choices, quantity));
      assert choices[0..] == choices;
      for i := 0 to |choices|
        invariant goal == ApplyAll(Snapshot(), ChoiceTakes(choices[i..], quantity))
        invariant AlertsMatch(base, stock, newAlerts)
      {
        ChoicesFromFirst(Snapshot(), choices[i..], quantity);
        assert choices[i..][0] == choices[i] && choices[i..][1..] == choices[i + 1..];
        if choices[i].tracked {
          ok, newAlerts := ReserveOption(choices[i].option, quantity, newAlerts, base);
          if !ok {
            return;
          }
        }
      }
      ok := true;
    }

    method ReserveLine(line: Line, alerts: map<Resource, Alert>, ghost base: StockTable)
      returns (ok: bool, allocations: seq<Allocation>, newAlerts: map<Resource, Alert>)
      requires AlertsMatch(base, stock, alerts)
      modifies this
      ensures ok == ApplyAll(old(Snapshot()), LineTakes(line)).Some?
      ensures ok ==> Snapshot() == ApplyAll(old(Snapshot()), LineTakes(line)).value
      ensures ok ==> allocations == LineAllocations(old(Snapshot()), line)
      ensures ok ==> AlertsMatch(base, stock, newAlerts)
    {
      hide AlertsMatch;
      LineInParts(Snapshot(), line);
      ok, allocations, newAlerts := true, [], alerts;
      if line.itemTracked {
        ok, allocations, newAlerts := ReserveItem(line.item, line.quantity, alerts, base);
        if !ok {
          return;
        }
      }
      ok := ReserveVariant(line, newAlerts, base);
      if !ok {
        return;
      }
      ok, newAlerts := ReserveChoices(line.choices, line.quantity, newAlerts, base);
    }

    /** The loop over the order lines; a refusal leaves the rows half done for the caller to roll back. */
    method ReserveLines(lines: seq<Line>) returns (ok: bool, result: ReservationResult)
      modifies this
      ensures ok == ApplyAll(old(Snapshot()), Takes(lines)).Some?
      ensures ok ==> Snapshot() == ApplyAll(old(Snapshot()), Takes(lines)).value
      ensures ok ==> AlertsMatch(old(stock), stock, result.alerts)
      ensures ok ==> result.allocations == KeyedAllocations(lines, Recorded(old(Snapshot()), lines))
    {
      hide AlertsMatch, ApplyAll, Takes, Recorded, LineAllocations, KeyedAllocations;
      ghost var start := Snapshot();
      ghost var goal := ApplyAll(start, Takes(lines));
      NothingEmittedAtStart(stock);
      var alerts: map<Resource, Alert> := map[];
      var byKey: map<string, seq<Allocation>> := map[];
      result := ReservationResult(alerts, byKey);
      ghost var recorded: seq<seq<Allocation>> := [];
      NoLinesReserveNothing(start);
      assert lines[0..] == lines && lines[..0] == [];
      for i := 0 to |lines|
        invariant goal == ApplyAll(Snapshot(), Takes(lines[i..]))
        invariant AlertsMatch(start.stock, stock, alerts)
        invariant |recorded| == i && byKey == KeyedAllocations(lines[..i], recorded)
        invariant goal.Some? ==> Recorded(start, lines) == recorded + Recorded(Snapshot(), lines[i..])
      {
        RecordedFromFirst(Snapshot(), lines[i..]);
        assert lines[i..][0] == lines[i] && lines[i..][1..] == lines[i + 1..];
        var allocations, nextAlerts;
        ok, allocations, nextAlerts := ReserveLine(lines[i], alerts, start.stock);
        if !ok {
          return;
        }
        alerts := nextAlerts;
        if lines[i].key.Some? && |allocations| > 0 {
          byKey := byKey[lines[i].key.value := allocations];
        }
        KeyedAllocationsToNext(lines, recorded, i, allocations);
        recorded := recorded + [allocations];
      }
      NoLinesReserveNothing(Snapshot());
      assert lines[..|lines|] == lines && lines[|lines|..] == [] && recorded + [] == recorded;
      ok, result := true, ReservationResult(alerts, byKey);
    }

    /**
     * Reserves a whole order inside one transaction: all of it, exactly when the summed demand fits,
     * or nothing. The alerts are the level differences between the two endpoints.
     */
    method ReserveForOrder(lines: seq<Line>) returns (r: Option<ReservationResult>)
      modifies this
      ensures r.Some? <==> AllFit(old(Snapshot()), Takes(lines))
      ensures r.None? ==> Snapshot() == old(Snapshot())
      ensures r.Some? ==> Snapshot() == Served(old(Snapshot()), Takes(lines))
      ensures r.Some? ==> SoonestFirst(old(lots), lots)
      ensures r.Some? ==> AlertsMatch(old(stock), stock, r.value.alerts)
      ensures r.Some? ==> ApplyAll(old(Snapshot()), Takes(lines)).Some?
      ensures r.Some? ==> r.value.allocations == KeyedAllocations(lines, Recorded(old(Snapshot()), lines))
    {
      ReservationFollowsDemand(Snapshot(), Takes(lines));
      var savedStock, savedLots := stock, lots;
      var ok, result := ReserveLines(lines);
      if ok {
        r := Some(result);
        ReservationUsesSoonestFirst(Store(savedStock, savedLots), Takes(lines));
      } else {
        stock, lots := savedStock, savedLots;
        r := None;
      }
    }

    // -------------------------------------------------------------------------------------------
    // Restoration
    // -------------------------------------------------------------------------------------------

    method RestoreForOrder(order: seq<OrderLine>)
      modifies this
      ensures Snapshot() == RestoreAll(old(Snapshot()), order)
    {
      ghost var goal := RestoreAll(Snapshot(), order);
      assert order[0..] == order;
      for i := 0 to |order|
        invariant goal == RestoreAll(Snapshot(), order[i..])
      {
        ghost var here := Snapshot();
        assert order[i..][0] == order[i] && order[i..][1..] == order[i + 1..];
        RestoreOne(order[i]);
      }
    }

    method RestoreOne(order: OrderLine)
      modifies this
      ensures Snapshot() == RestoreLine(old(Snapshot()), order)
    {
      var line := order.line;
      GiftsInParts(stock, line);
      if line.itemTracked {
        IncrementStock(MenuItem(line.item), line.quantity);
        RestoreLots(order.allocations);
      }
      GiftsInParts(stock, line);
      if line.variantTracked && line.variant.Some? {
        IncrementStock(Variant(line.variant.value), line.quantity);
      }
      RestoreChoices(line.choices, line.quantity);
    }

    /** Reports what a restoration gave back: each menu item and each option once, items first. */
    method CollectRestorationAlerts(lines: seq<Line>)
      returns (itemEvents: seq<Compensation>, optionEvents: seq<Compensation>)
      ensures Reports(stock, Takes(lines), true, itemEvents)
      ensures Reports(stock, Takes(lines), false, optionEvents)
    {
      var items: map<Resource, nat>, options: map<Resource, nat> := map[], map[];
      for i := 0 to |lines|
        invariant TotalsOf(Takes(lines[..i]), items, true)
        invariant TotalsOf(Takes(lines[..i]), options, false)
      {
        items, options := AccumulateLine(lines[i], items, options, Takes(lines[..i]));
        TakesToNext(lines, i);
      }
      assert lines[..|lines|] == lines;
      itemEvents := BuildEvents(items);
      optionEvents := BuildEvents(options);
      TotalsAreReported(stock, Takes(lines), true, items, itemEvents);
      TotalsAreReported(stock, Takes(lines), false, options, optionEvents);
    }

    method AccumulateLine(
        line: Line, items: map<Resource, nat>, options: map<Resource, nat>, ghost before: seq<Take>)
      returns (newItems: map<Resource, nat>, newOptions: map<Resource, nat>)
      requires TotalsOf(before, items, true) && TotalsOf(before, options, false)
      ensures TotalsOf(before + LineTakes(line), newItems, true)
      ensures TotalsOf(before + LineTakes(line), newOptions, false)
    {
      hide TotalsOf;
      newItems, newOptions := items, options;
      ghost var done := before;
      if line.itemTracked {
        ghost var take := Take(MenuItem(line.item), line.quantity);
        TotalsGrow(done, newItems, true, take);
        TotalsGrow(done, newOptions, false, take);
        newItems := Accumulate(newItems, MenuItem(line.item), line.quantity);
        done := done + [take];
      }
      assert done == before + ItemTakes(line);
      if line.variantTracked && line.variant.Some? {
        ghost var take := Take(Variant(line.variant.value), line.quantity);
        TotalsGrow(done, newItems, true, take);
        TotalsGrow(done, newOptions, false, take);
        done := done + [take];
      }
      assert done == before + (ItemTakes(line) + VariantTakes(line));
      newOptions := AccumulateChoices(line.choices, line.quantity, newItems, newOptions, done);
      assert done + ChoiceTakes(line.choices, line.quantity) == before + LineTakes(line);
    }

    method AccumulateChoices(
        choices: seq<Choice>, quantity: nat, ghost items: map<Resource, nat>, options: map<Resource, nat>,
        ghost before: seq<Take>)
      returns (newOptions: map<Resource, nat>)
      requires TotalsOf(before, items, true) && TotalsOf(before, options, false)
      ensures TotalsOf(before + ChoiceTakes(choices, quantity), items, true)
      ensures TotalsOf(before + ChoiceTakes(choices, quantity), newOptions, false)
    {
      hide TotalsOf;
      newOptions := options;
      assert before + ChoiceTakes(choices[..0], quantity) == before;
      for i := 0 to |choices|
        invariant TotalsOf(before + ChoiceTakes(choices[..i], quantity), items, true)
        invariant TotalsOf(before + ChoiceTakes(choices[..i], quantity), newOptions, false)
      {
        ChoiceTakesToNext(choices, quantity, i);
        ghost var done := before + ChoiceTakes(choices[..i], quantity);
        ghost var take := Take(ItemOption(choices[i].option), quantity);
        assert before + (ChoiceTakes(choices[..i], quantity) + [take]) == done + [take];
        assert before + (ChoiceTakes(choices[..i], quantity) + []) == done;
        if choices[i].tracked {
          TotalsGrow(done, items, true, take);
          TotalsGrow(done, newOptions, false, take);
          newOptions := Accumulate(newOptions, ItemOption(choices[i].option), quantity);
        }
      }
      assert choices[..|choices|] == choices;
    }

    method BuildEvents(totals: map<Resource, nat>) returns (events: seq<Compensation>)
      ensures EventsMatch(stock, totals, events)
    {
      events := [];
      var rest := totals.Keys;
      while rest != {}
        invariant rest <= totals.Keys
        invariant EventsMatch(stock, totals - rest, events)
        decreases rest
      {
        var r :| r in rest;
        ghost var before := events;
        rest := rest - {r};
        if r in stock && totals[r] > 0 {
          events := events + [Compensation(r, totals[r], stock[r].stock, stock[r].threshold)];
          assert events[|before|].resource == r;
        }
        forall x | x in totals - rest && totals[x] > 0 && x in stock ensures ListedIn(events, x) {
          if x != r {
            assert ListedIn(before, x);
            var k :| 0 <= k < |before| && before[k].resource == x;
            assert events[k].resource == x;
          }
        }
      }
      assert totals - rest == totals;
    }

    method RestoreLots(allocations: seq<Allocation>)
      modifies this`lots
      ensures lots == GiveLots(old(lots), allocations)
    {
      ghost var goal := GiveLots(lots, allocations);
      assert allocations[0..] == allocations;
      for k := 0 to |allocations|
        invariant goal == GiveLots(lots, allocations[k..])
      {
        assert allocations[k..][0] == allocations[k] && allocations[k..][1..] == allocations[k + 1..];
        IncrementLotRemaining(allocations[k].lot, allocations[k].quantity);
      }
    }

    method RestoreChoices(choices: seq<Choice>, quantity: nat)
      modifies this`stock
      ensures stock == GiveStock(old(stock), ChoiceTakes(choices, quantity))
    {
      ghost var goal := GiveStock(stock, ChoiceTakes(choices, quantity));
      assert choices[0..] == choices;
      for i := 0 to |choices|
        invariant goal == GiveStock(stock, ChoiceTakes(choices[i..], quantity))
      {
        GiftsFromFirstChoice(stock, choices[i..], quantity);
        assert choices[i..][0] == choices[i] && choices[i..][1..] == choices[i + 1..];
        if choices[i].tracked {
          IncrementStock(ItemOption(choices[i].option), quantity);
        }
      }
    }
  }

  lemma DrainingSkipsEmptyLots(lots: LotTable, order: seq<Id>, quantity: nat)
    requires forall x :: x in order ==> x in lots
    ensures Drain(lots, OnlyAvailable(lots, order), quantity) == Drain(lots, order, quantity)
  {
    forall id | id in lots
      ensures TakenFrom(lots, OnlyAvailable(lots, order), quantity, id) == TakenFrom(lots, order, quantity, id)
    {
      OnlyAvailableMatters(lots, order, quantity, id);
    }
  }

  /**
   * The allocation loop at lot `k` with `left` still wanted: the rest of the order can serve it, and
   * what is taken so far plus what the rest of the walk will take is what the whole walk takes.
   */
  ghost predicate WalkedTo(before: LotTable, now: LotTable, order: seq<Id>, quantity: nat, k: nat, left: nat)
    requires k <= |order| && forall x :: x in order ==> x in before
  {
    && left <= Available(before, order[k..])
    && now.Keys == before.Keys
    && (forall i :: k <= i < |order| ==> now[order[i]] == before[order[i]])
    && (forall id :: id in before ==>
          now[id] == before[id].(remaining := before[id].remaining
            - TakenFrom(before, order, quantity, id) + TakenFrom(before, order[k..], left, id)))
  }

  lemma WalkStarts(before: LotTable, order: seq<Id>, quantity: nat)
    requires (forall x :: x in order ==> x in before) && quantity <= Available(before, order)
    ensures WalkedTo(before, before, order, quantity, 0, quantity)
    ensures order[0..] == order
  {
    assert order[0..] == order;
  }

  lemma WalkOneLot(before: LotTable, now: LotTable, order: seq<Id>, quantity: nat, k: nat, left: nat)
    requires k < |order| && NoDuplicates(order) && forall x :: x in order ==> x in before
    requires WalkedTo(before, now, order, quantity, k, left) && before[order[k]].remaining > 0 && left > 0
    ensures order[k] in now && now[order[k]] == before[order[k]]
    ensures var portion := Min(before[order[k]].remaining, left);
      && WalkedTo(before, IncrementLot(now, order[k], -portion), order, quantity, k + 1, left - portion)
      && Allocations(before, order[k..], left)
         == [Allocation(order[k], portion)] + Allocations(before, order[k + 1..], left - portion)
  {
    assert order[k..][0] == order[k] && order[k..][1..] == order[k + 1..];
  }

  lemma WalkIsOver(before: LotTable, now: LotTable, order: seq<Id>, quantity: nat, k: nat, left: nat)
    requires k <= |order| && forall x :: x in order ==> x in before
    requires WalkedTo(before, now, order, quantity, k, left) && (k == |order| || left == 0)
    ensures now == Drain(before, order, quantity)
    ensures Allocations(before, order[k..], left) == []
  {
    assert left == 0;
    forall id | id in before ensures now[id] == Drain(before, order, quantity)[id] {
      TakenFromOthersIsNothing(before, order[k..], 0, id);
    }
  }

  lemma {:induction false} OnlyAvailableHasNoDuplicates(lots: LotTable, order: seq<Id>)
    requires NoDuplicates(order) && forall x :: x in order ==> x in lots
    ensures NoDuplicates(OnlyAvailable(lots, order))
  {
    if order != [] {
      var rest := OnlyAvailable(lots, order[1..]);
      OnlyAvailableHasNoDuplicates(lots, order[1..]);
      assert order[0] !in order[1..];
      forall j | 0 <= j < |rest| ensures rest[j] != order[0] {
        assert rest[j] in order[1..];
      }
    }
  }
}
