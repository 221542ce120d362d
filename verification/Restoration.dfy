/**
 * Giving back what an order took: the recorded lot allocations, the order lines as they are stored
 * and mapped back by the cancellation paths, and the exact inverse of a reservation.
 */
module Restoration {
  import opened Base
  import opened Lots
  import opened Inventory
  import opened Reservation

  /** An order line as stored: no line key, and the lot allocations of that line. */
  datatype OrderLine = OrderLine(line: Line, allocations: seq<Allocation>)

  /** What a reservation records per line, in line order. */
  ghost function LineAllocations(s: Store, line: Line): seq<Allocation> {
    if line.itemTracked && UsesLots(s.lots, line.item)
    then Allocations(s.lots, OnlyAvailable(s.lots, ItemOrder(s.lots, line.item)), line.quantity)
    else []
  }

  ghost function Recorded(s: Store, lines: seq<Line>): (r: seq<seq<Allocation>>)
    requires ApplyAll(s, Takes(lines)).Some?
    ensures |r| == |lines|
    decreases |lines|
  {
    if lines == [] then []
    else
      ApplyAllComposes(s, LineTakes(lines[0]), Takes(lines[1..]));
      [LineAllocations(s, lines[0])] + Recorded(ApplyAll(s, LineTakes(lines[0])).value, lines[1..])
  }

  lemma RecordedFromFirst(s: Store, lines: seq<Line>)
    requires lines != []
    ensures ApplyAll(s, Takes(lines)) == Then(ApplyAll(s, LineTakes(lines[0])), Takes(lines[1..]))
    ensures ApplyAll(s, Takes(lines)).Some? ==>
      Recorded(s, lines) == [LineAllocations(s, lines[0])]
        + Recorded(ApplyAll(s, LineTakes(lines[0])).value, lines[1..])
  {
    ApplyAllComposes(s, LineTakes(lines[0]), Takes(lines[1..]));
  }

  lemma NoLinesReserveNothing(s: Store)
    ensures ApplyAll(s, Takes([])) == Some(s) && Recorded(s, []) == [] && KeyedAllocations([], []) == map[]
  {
  }

  function TakenFromLot(recorded: seq<seq<Allocation>>, id: Id): nat {
    if recorded == [] then 0 else AllocatedTo(recorded[0], id) + TakenFromLot(recorded[1..], id)
  }

  /** Allocations by line key; a line without a key or without allocations records nothing. */
  function KeyedAllocations(lines: seq<Line>, recorded: seq<seq<Allocation>>): map<string, seq<Allocation>>
    requires |lines| == |recorded|
  {
    if lines == [] then map[]
    else
      var n := |lines| - 1;
      var before := KeyedAllocations(lines[..n], recorded[..n]);
      if lines[n].key.Some? && recorded[n] != [] then before[lines[n].key.value := recorded[n]] else before
  }

  lemma KeyedAllocationsToNext(
      lines: seq<Line>, recorded: seq<seq<Allocation>>, i: nat, allocations: seq<Allocation>)
    requires i < |lines| && |recorded| == i
    ensures KeyedAllocations(lines[..i + 1], recorded + [allocations]) ==
      if lines[i].key.Some? && allocations != []
      then KeyedAllocations(lines[..i], recorded)[lines[i].key.value := allocations]
      else KeyedAllocations(lines[..i], recorded)
  {
    assert lines[..i + 1][..i] == lines[..i] && (recorded + [allocations])[..i] == recorded;
  }

  /** The order line stored for a cart line: looked up by its key, the key itself is not stored. */
  function StoredLine(line: Line, byKey: map<string, seq<Allocation>>): OrderLine {
    OrderLine(
      line.(key := None),
      if line.key.Some? && line.key.value in byKey then byKey[line.key.value] else [])
  }

  function StoredLines(lines: seq<Line>, byKey: map<string, seq<Allocation>>): seq<OrderLine> {
    seq(|lines|, i requires 0 <= i < |lines| => StoredLine(lines[i], byKey))
  }

  predicate DistinctKeys(lines: seq<Line>) {
    && (forall i :: 0 <= i < |lines| ==> lines[i].key.Some?)
    && (forall i, j :: 0 <= i < j < |lines| ==> lines[i].key != lines[j].key)
  }

  // ---------------------------------------------------------------------------------------------
  // Restoring
  // ---------------------------------------------------------------------------------------------

  function GiveStock(stock: StockTable, takes: seq<Take>): StockTable
    decreases |takes|
  {
    if takes == [] then stock
    else GiveStock(Increment(stock, takes[0].resource, takes[0].quantity), takes[1..])
  }

  function GiveLots(lots: LotTable, allocations: seq<Allocation>): LotTable
    decreases |allocations|
  {
    if allocations == [] then lots
    else GiveLots(IncrementLot(lots, allocations[0].lot, allocations[0].quantity), allocations[1..])
  }

  function RestoreLine(s: Store, order: OrderLine): Store {
    Store(
      GiveStock(s.stock, LineTakes(order.line)),
      if order.line.itemTracked then GiveLots(s.lots, order.allocations) else s.lots)
  }

  function RestoreAll(s: Store, order: seq<OrderLine>): Store
    decreases |order|
  {
    if order == [] then s else RestoreAll(RestoreLine(s, order[0]), order[1..])
  }

  function OrderTakes(order: seq<OrderLine>): seq<Take> {
    if order == [] then [] else LineTakes(order[0].line) + OrderTakes(order[1..])
  }

  /** What an order gives back to a lot. */
  function GivenToLot(order: seq<OrderLine>, id: Id): nat {
    if order == [] then 0
    else (if order[0].line.itemTracked then AllocatedTo(order[0].allocations, id) else 0)
         + GivenToLot(order[1..], id)
  }

  /** A row with what a list of takes asks of it put back; untouched rows are as they were. */
  function PutBack(row: StockRow, takes: seq<Take>, r: Resource): StockRow {
    if Touches(takes, r) then row.(stock := Some(row.stock.GetOr(0) + Demand(takes, r))) else row
  }

  lemma {:induction false} GivenStock(stock: StockTable, takes: seq<Take>, r: Resource)
    requires r in stock
    ensures GiveStock(stock, takes).Keys == stock.Keys
    ensures GiveStock(stock, takes)[r] == PutBack(stock[r], takes, r)
    decreases |takes|
  {
    if takes != [] {
      var next := Increment(stock, takes[0].resource, takes[0].quantity);
      GivenStock(next, takes[1..], r);
      assert takes == [takes[0]] + takes[1..];
      DemandOfConcatenation([takes[0]], takes[1..], r);
      DemandOfOne(takes[0], r);
      UntouchedIsUndemanded(takes[1..], r);
    }
  }

  lemma {:induction false} GivenStockComposes(stock: StockTable, a: seq<Take>, b: seq<Take>)
    ensures GiveStock(stock, a + b) == GiveStock(GiveStock(stock, a), b)
    decreases |a|
  {
    if a == [] {
      assert a + b == b;
    } else {
      assert (a + b)[1..] == a[1..] + b;
      GivenStockComposes(Increment(stock, a[0].resource, a[0].quantity), a[1..], b);
    }
  }

  /** A line gives back its item, then its variant combination, then its options. */
  lemma GiftsInParts(stock: StockTable, line: Line)
    ensures GiveStock(stock, LineTakes(line)) ==
      GiveStock(GiveStock(GiveStock(stock, ItemTakes(line)), VariantTakes(line)), ChoiceTakes(line.choices, line.quantity))
    ensures GiveStock(stock, ItemTakes(line)) ==
      if line.itemTracked then Increment(stock, MenuItem(line.item), line.quantity) else stock
    ensures GiveStock(stock, VariantTakes(line)) ==
      if line.variantTracked && line.variant.Some?
      then Increment(stock, Variant(line.variant.value), line.quantity) else stock
  {
    GivenStockComposes(stock, ItemTakes(line) + VariantTakes(line), ChoiceTakes(line.choices, line.quantity));
    GivenStockComposes(stock, ItemTakes(line), VariantTakes(line));
    GiftOfOne(stock, Take(MenuItem(line.item), line.quantity));
    if line.variant.Some? {
      GiftOfOne(stock, Take(Variant(line.variant.value), line.quantity));
    }
  }

  lemma GiftOfOne(stock: StockTable, take: Take)
    ensures GiveStock(stock, [take]) == Increment(stock, take.resource, take.quantity)
  {
    assert [take][1..] == [] && [take][0] == take;
  }

  lemma GiftsFromFirstChoice(stock: StockTable, choices: seq<Choice>, quantity: nat)
    requires choices != []
    ensures GiveStock(stock, ChoiceTakes(choices, quantity)) == GiveStock(
      if choices[0].tracked then Increment(stock, ItemOption(choices[0].option), quantity) else stock,
      ChoiceTakes(choices[1..], quantity))
  {
    var rest := ChoiceTakes(choices[1..], quantity);
    if choices[0].tracked {
      GivenStockComposes(stock, [Take(ItemOption(choices[0].option), quantity)], rest);
      GiftOfOne(stock, Take(ItemOption(choices[0].option), quantity));
    } else {
      assert [] + rest == rest;
    }
  }

  lemma {:induction false} GivenLots(lots: LotTable, allocations: seq<Allocation>)
    ensures GiveLots(lots, allocations).Keys == lots.Keys
    ensures forall id :: id in lots ==>
      GiveLots(lots, allocations)[id].remaining == lots[id].remaining + AllocatedTo(allocations, id)
    ensures SameLotKeys(lots, GiveLots(lots, allocations))
    ensures forall id :: id in lots ==> GiveLots(lots, allocations)[id].received == lots[id].received
    decreases |allocations|
  {
    if allocations != [] {
      GivenLots(IncrementLot(lots, allocations[0].lot, allocations[0].quantity), allocations[1..]);
    }
  }

  lemma {:induction false} RestorationIsOneListOfGifts(s: Store, order: seq<OrderLine>)
    ensures RestoreAll(s, order).stock == GiveStock(s.stock, OrderTakes(order))
    decreases |order|
  {
    if order != [] {
      RestorationIsOneListOfGifts(RestoreLine(s, order[0]), order[1..]);
      GivenStockComposes(s.stock, LineTakes(order[0].line), OrderTakes(order[1..]));
    }
  }

  /** A restoration adds to every touched row what the order took there. */
  lemma RestorationAddsBackStock(s: Store, order: seq<OrderLine>, r: Resource)
    requires r in s.stock
    ensures RestoreAll(s, order).stock.Keys == s.stock.Keys
    ensures RestoreAll(s, order).stock[r] == PutBack(s.stock[r], OrderTakes(order), r)
  {
    RestorationIsOneListOfGifts(s, order);
    GivenStock(s.stock, OrderTakes(order), r);
  }

  /** A restoration adds to every lot what the order lines record for it. */
  lemma {:induction false} RestorationAddsBackLots(s: Store, order: seq<OrderLine>, id: Id)
    requires id in s.lots
    ensures RestoreAll(s, order).lots.Keys == s.lots.Keys
    ensures RestoreAll(s, order).lots[id] == s.lots[id].(remaining := s.lots[id].remaining + GivenToLot(order, id))
    decreases |order|
  {
    if order != [] {
      GivenLots(s.lots, order[0].allocations);
      RestorationAddsBackLots(RestoreLine(s, order[0]), order[1..], id);
    }
  }

  lemma {:induction false} RestorationKeepsKeys(s: Store, order: seq<OrderLine>)
    ensures RestoreAll(s, order).stock.Keys == s.stock.Keys
    ensures RestoreAll(s, order).lots.Keys == s.lots.Keys
    decreases |order|
  {
    if order != [] {
      GivenLots(s.lots, order[0].allocations);
      GivenStockKeepsKeys(s.stock, LineTakes(order[0].line));
      RestorationKeepsKeys(RestoreLine(s, order[0]), order[1..]);
    }
  }

  lemma {:induction false} GivenStockKeepsKeys(stock: StockTable, takes: seq<Take>)
    ensures GiveStock(stock, takes).Keys == stock.Keys
    decreases |takes|
  {
    if takes != [] {
      GivenStockKeepsKeys(Increment(stock, takes[0].resource, takes[0].quantity), takes[1..]);
    }
  }

  // ---------------------------------------------------------------------------------------------
  // Reserve, store, restore
  // ---------------------------------------------------------------------------------------------

  lemma {:induction false} OtherTakesKeepLots(s: Store, takes: seq<Take>)
    requires forall i :: 0 <= i < |takes| ==> !takes[i].resource.MenuItem?
    ensures ApplyAll(s, takes).Some? ==> ApplyAll(s, takes).value.lots == s.lots
    decreases |takes|
  {
    if takes != [] && Apply(s, takes[0]).Some? {
      OtherTakesKeepLots(Apply(s, takes[0]).value, takes[1..]);
    }
  }

  lemma {:induction false} ChoicesAreOptions(choices: seq<Choice>, quantity: nat)
    ensures forall i :: 0 <= i < |ChoiceTakes(choices, quantity)| ==>
      ChoiceTakes(choices, quantity)[i].resource.ItemOption?
  {
    if choices != [] {
      ChoicesAreOptions(choices[1..], quantity);
    }
  }

  /** What one line takes from a lot is what it records for that lot. */
  lemma LineRecordsWhatItTakes(s: Store, line: Line, id: Id)
    requires ApplyAll(s, LineTakes(line)).Some? && id in s.lots
    ensures var s1 := ApplyAll(s, LineTakes(line)).value;
      && s1.lots.Keys == s.lots.Keys
      && s1.lots[id] == s.lots[id].(remaining := s.lots[id].remaining - AllocatedTo(LineAllocations(s, line), id))
  {
    hide ApplyAll, LineTakes;
    OnlyTheItemTakesLots(s, line);
    if line.itemTracked {
      ItemRecordsWhatItTakes(s, line.item, line.quantity, id);
    }
  }

  lemma OnlyTheItemTakesLots(s: Store, line: Line)
    requires ApplyAll(s, LineTakes(line)).Some?
    ensures var s1 := ApplyAll(s, LineTakes(line)).value;
      if line.itemTracked
      then Apply(s, Take(MenuItem(line.item), line.quantity)).Some?
        && s1.lots == Apply(s, Take(MenuItem(line.item), line.quantity)).value.lots
      else s1.lots == s.lots
  {
    var others := VariantTakes(line) + ChoiceTakes(line.choices, line.quantity);
    ChoicesAreOptions(line.choices, line.quantity);
    assert LineTakes(line) == ItemTakes(line) + others;
    ApplyAllComposes(s, ItemTakes(line), others);
    OtherTakesKeepLots(ApplyAll(s, ItemTakes(line)).value, others);
    if line.itemTracked {
      ApplyAllOfOne(s, Take(MenuItem(line.item), line.quantity));
    }
  }

  lemma ItemRecordsWhatItTakes(s: Store, item: Id, quantity: nat, id: Id)
    ensures AllocatedTo(Allocations(s.lots, OnlyAvailable(s.lots, ItemOrder(s.lots, item)), quantity), id)
      == TakenFrom(s.lots, ItemOrder(s.lots, item), quantity, id)
  {
    var order := ItemOrder(s.lots, item);
    AllocationsRecordTheWalk(s.lots, OnlyAvailable(s.lots, order), quantity, id);
    OnlyAvailableMatters(s.lots, order, quantity, id);
  }

  lemma {:induction false} RecordsAccountForLots(s: Store, lines: seq<Line>, id: Id)
    requires ApplyAll(s, Takes(lines)).Some? && id in s.lots
    ensures var s1 := ApplyAll(s, Takes(lines)).value;
      && s1.lots.Keys == s.lots.Keys
      && s1.lots[id] == s.lots[id].(remaining := s.lots[id].remaining - TakenFromLot(Recorded(s, lines), id))
    decreases |lines|
  {
    if lines != [] {
      ApplyAllComposes(s, LineTakes(lines[0]), Takes(lines[1..]));
      LineRecordsWhatItTakes(s, lines[0], id);
      RecordsAccountForLots(ApplyAll(s, LineTakes(lines[0])).value, lines[1..], id);
    }
  }

  /** With distinct keys, every line is stored with exactly the allocations recorded for it. */
  lemma {:induction false} KeysFindTheirAllocations(lines: seq<Line>, recorded: seq<seq<Allocation>>, i: nat)
    requires |lines| == |recorded| && DistinctKeys(lines)
    ensures forall k :: k in KeyedAllocations(lines, recorded) ==>
      exists j :: 0 <= j < |lines| && lines[j].key == Some(k)
    ensures i < |lines| ==> StoredLine(lines[i], KeyedAllocations(lines, recorded)).allocations == recorded[i]
  {
    if lines != [] {
      var n := |lines| - 1;
      var before := KeyedAllocations(lines[..n], recorded[..n]);
      KeysFindTheirAllocations(lines[..n], recorded[..n], i);
      forall k | k in before ensures exists j :: 0 <= j < |lines| && lines[j].key == Some(k) {
        var j :| 0 <= j < n && lines[..n][j].key == Some(k);
        assert lines[j].key == Some(k);
      }
      assert lines[n].key.value !in before;
    }
  }

  lemma {:induction false} StoredOrderTakesTheSame(
      lines: seq<Line>, recorded: seq<seq<Allocation>>, order: seq<OrderLine>, s: Store, id: Id)
    requires |lines| == |order| && ApplyAll(s, Takes(lines)).Some? && recorded == Recorded(s, lines)
    requires forall i :: 0 <= i < |lines| ==>
      order[i].line == lines[i].(key := None) && order[i].allocations == recorded[i]
    ensures OrderTakes(order) == Takes(lines)
    ensures GivenToLot(order, id) == TakenFromLot(recorded, id)
    decreases |lines|
  {
    if lines != [] {
      ApplyAllComposes(s, LineTakes(lines[0]), Takes(lines[1..]));
      var s1 := ApplyAll(s, LineTakes(lines[0])).value;
      assert recorded[1..] == Recorded(s1, lines[1..]);
      assert LineTakes(order[0].line) == LineTakes(lines[0]);
      StoredOrderTakesTheSame(lines[1..], recorded[1..], order[1..], s1, id);
    }
  }

  /** The order that a successful reservation stores. */
  ghost function PlacedOrder(s: Store, lines: seq<Line>): seq<OrderLine>
    requires ApplyAll(s, Takes(lines)).Some?
  {
    StoredLines(lines, KeyedAllocations(lines, Recorded(s, lines)))
  }

  lemma PlacedOrderMatchesLines(s: Store, lines: seq<Line>, id: Id)
    requires ApplyAll(s, Takes(lines)).Some? && DistinctKeys(lines)
    ensures OrderTakes(PlacedOrder(s, lines)) == Takes(lines)
    ensures GivenToLot(PlacedOrder(s, lines), id) == TakenFromLot(Recorded(s, lines), id)
  {
    var recorded := Recorded(s, lines);
    forall i | 0 <= i < |lines|
      ensures PlacedOrder(s, lines)[i].line == lines[i].(key := None)
      ensures PlacedOrder(s, lines)[i].allocations == recorded[i]
    {
      KeysFindTheirAllocations(lines, recorded, i);
    }
    StoredOrderTakesTheSame(lines, recorded, PlacedOrder(s, lines), s, id);
  }

  lemma ReservedRow(s: Store, takes: seq<Take>, r: Resource)
    requires ApplyAll(s, takes).Some? && r in s.stock
    ensures r in ApplyAll(s, takes).value.stock
    ensures Touches(takes, r) ==>
      s.stock[r].stock.Some? && ApplyAll(s, takes).value.stock[r].stock.Some?
      && PutBack(ApplyAll(s, takes).value.stock[r], takes, r) == s.stock[r]
    ensures !Touches(takes, r) ==> ApplyAll(s, takes).value.stock[r] == s.stock[r]
  {
    ReservationFollowsDemand(s, takes);
    if Touches(takes, r) {
      assert Fits(s, takes, r);
    }
  }

  lemma RowComesBack(s: Store, lines: seq<Line>, r: Resource)
    requires ApplyAll(s, Takes(lines)).Some? && DistinctKeys(lines) && r in s.stock
    ensures var back := RestoreAll(ApplyAll(s, Takes(lines)).value, PlacedOrder(s, lines));
      r in back.stock && back.stock[r] == s.stock[r]
  {
    var takes := Takes(lines);
    var s1 := ApplyAll(s, takes).value;
    var order := PlacedOrder(s, lines);
    ReservedRow(s, takes, r);
    assert OrderTakes(order) == takes by { PlacedOrderMatchesLines(s, lines, []); }
    RestorationAddsBackStock(s1, order, r);
  }

  lemma LotComesBack(s: Store, lines: seq<Line>, id: Id)
    requires ApplyAll(s, Takes(lines)).Some? && DistinctKeys(lines) && id in s.lots
    ensures var back := RestoreAll(ApplyAll(s, Takes(lines)).value, PlacedOrder(s, lines));
      id in back.lots && back.lots[id] == s.lots[id]
  {
    var s1 := ApplyAll(s, Takes(lines)).value;
    RecordsAccountForLots(s, lines, id);
    PlacedOrderMatchesLines(s, lines, id);
    RestorationAddsBackLots(s1, PlacedOrder(s, lines), id);
  }

  lemma {:induction false} ReservationKeepsKeys(s: Store, takes: seq<Take>)
    requires ApplyAll(s, takes).Some?
    ensures ApplyAll(s, takes).value.stock.Keys == s.stock.Keys
    ensures SameLotKeys(s.lots, ApplyAll(s, takes).value.lots)
    decreases |takes|
  {
    if takes != [] {
      ReservationKeepsKeys(Apply(s, takes[0]).value, takes[1..]);
    }
  }

  /** Reserving an order, storing it and restoring what was stored changes nothing at all. */
  lemma RestorationUndoesReservation(s: Store, lines: seq<Line>)
    requires ApplyAll(s, Takes(lines)).Some? && DistinctKeys(lines)
    ensures RestoreAll(ApplyAll(s, Takes(lines)).value, PlacedOrder(s, lines)) == s
  {
    var s1 := ApplyAll(s, Takes(lines)).value;
    var back := RestoreAll(s1, PlacedOrder(s, lines));
    ReservationKeepsKeys(s, Takes(lines));
    RestorationKeepsKeys(s1, PlacedOrder(s, lines));
    assert back.stock == s.stock by {
      forall r | r in s.stock ensures back.stock[r] == s.stock[r] { RowComesBack(s, lines, r); }
    }
    assert back.lots == s.lots by {
      forall id | id in s.lots ensures back.lots[id] == s.lots[id] { LotComesBack(s, lines, id); }
    }
  }
}
