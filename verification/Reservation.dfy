/**
 * Reserving the stock of an order. The lifecycle service takes it resource by resource and gives up
 * at the first refusal; the closed form here says when that succeeds and what it leaves.
 */
module Reservation {
  import opened Base
  import opened Lots
  import opened Inventory

  /** One take against the tables: lots first where a menu item has any, then the guarded decrement. */
  ghost function Apply(s: Store, take: Take): Option<Store> {
    var r, q: int := take.resource, take.quantity;
    if r.MenuItem? && UsesLots(s.lots, r.id) then
      var order := ItemOrder(s.lots, r.id);
      if Available(s.lots, order) < q || !CanDecrement(s.stock, r, q) then None
      else Some(Store(Increment(s.stock, r, -q), Drain(s.lots, order, q)))
    else if !CanDecrement(s.stock, r, q) then None
    else Some(s.(stock := Increment(s.stock, r, -q)))
  }

  ghost function ApplyAll(s: Store, takes: seq<Take>): Option<Store>
    decreases |takes|
  {
    if takes == [] then Some(s)
    else
      var next := Apply(s, takes[0]);
      if next.None? then None else ApplyAll(next.value, takes[1..])
  }

  /** Every touched row is tracked and its starting stock covers the summed demand; so do its lots. */
  ghost predicate Fits(s: Store, takes: seq<Take>, r: Resource) {
    && CanDecrement(s.stock, r, Demand(takes, r))
    && (r.MenuItem? && UsesLots(s.lots, r.id) ==>
          Demand(takes, r) <= Available(s.lots, ItemOrder(s.lots, r.id)))
  }

  ghost predicate AllFit(s: Store, takes: seq<Take>) {
    forall r :: Touches(takes, r) ==> Fits(s, takes, r)
  }

  ghost function ServedLot(s: Store, takes: seq<Take>, id: Id): Lot
    requires id in s.lots
  {
    var item := s.lots[id].item;
    var taken := TakenFrom(s.lots, ItemOrder(s.lots, item), Demand(takes, MenuItem(item)), id);
    s.lots[id].(remaining := s.lots[id].remaining - taken)
  }

  /** The tables after all takes, each resource and lot computed from its summed demand alone. */
  ghost function Served(s: Store, takes: seq<Take>): Store {
    Store(
      map r | r in s.stock ::
        if Touches(takes, r) then s.stock[r].(stock := Some(s.stock[r].stock.GetOr(0) - Demand(takes, r)))
        else s.stock[r],
      map id | id in s.lots :: ServedLot(s, takes, id))
  }

  /** What one successful take does to the order and availability of every item's lots. */
  lemma ApplyActsOnOneItem(s: Store, take: Take, item: Id)
    requires Apply(s, take).Some?
    ensures var s1 := Apply(s, take).value;
      && SameLotKeys(s.lots, s1.lots)
      && ItemOrder(s1.lots, item) == ItemOrder(s.lots, item)
      && NoDuplicates(ItemOrder(s.lots, item))
      && LotIds(s1.lots, item) == LotIds(s.lots, item)
      && (forall x :: x in ItemOrder(s.lots, item) ==>
            s1.lots[x] == s.lots[x].(remaining := s.lots[x].remaining
              - TakenFrom(s.lots, ItemOrder(s.lots, item), Demand([take], MenuItem(item)), x)))
      && Available(s1.lots, ItemOrder(s.lots, item))
         == Available(s.lots, ItemOrder(s.lots, item)) - (if UsesLots(s.lots, item) then Demand([take], MenuItem(item)) else 0)
  {
    var s1 := Apply(s, take).value;
    var order := ItemOrder(s.lots, item);
    OrderIgnoresQuantities(s.lots, s1.lots, item);
    ItemOrderIsOrdered(s.lots, item);
    var q := Demand([take], MenuItem(item));
    DemandOfOne(take, MenuItem(item));
    forall id | id in order
      ensures s1.lots[id] == s.lots[id].(remaining := s.lots[id].remaining - TakenFrom(s.lots, order, q, id))
    {
      TakenFromOthersIsNothing(s.lots, order, q, id);
      if take.resource.MenuItem? {
        TakenFromOthersIsNothing(s.lots, ItemOrder(s.lots, take.resource.id), take.quantity, id);
      }
    }
    DrainingReducesAvailable(s.lots, s1.lots, order, q);
    if order == [] {
      assert forall x :: x !in LotIds(s.lots, item);
      assert LotIds(s.lots, item) == {};
    }
  }

  lemma FitsAfterFirst(s: Store, takes: seq<Take>, r: Resource)
    requires takes != [] && Apply(s, takes[0]).Some?
    ensures var s1 := Apply(s, takes[0]).value;
      Fits(s, takes, r) <==> Fits(s1, takes[1..], r)
  {
    if r.MenuItem? {
      ApplyActsOnOneItem(s, takes[0], r.id);
    }
  }

  lemma ServedAfterFirst(s: Store, takes: seq<Take>)
    requires takes != [] && Apply(s, takes[0]).Some?
    ensures Served(Apply(s, takes[0]).value, takes[1..]) == Served(s, takes)
  {
    hide Apply, ServedLot;
    var s1 := Apply(s, takes[0]).value;
    var a, b := Served(s1, takes[1..]), Served(s, takes);
    ApplyKeepsKeys(s, takes[0]);
    forall id | id in s.lots ensures a.lots[id] == b.lots[id] {
      ServedLotAfterFirst(s, takes, id);
    }
    forall r | r in s.stock ensures a.stock[r] == b.stock[r] {
      ServedRowAfterFirst(s, takes, r);
    }
    assert a.stock == b.stock && a.lots == b.lots;
  }

  lemma ApplyKeepsKeys(s: Store, take: Take)
    requires Apply(s, take).Some?
    ensures SameLotKeys(s.lots, Apply(s, take).value.lots)
    ensures Apply(s, take).value.stock == Increment(s.stock, take.resource, -(take.quantity as int))
  {
  }

  lemma ServedRowAfterFirst(s: Store, takes: seq<Take>, r: Resource)
    requires takes != [] && Apply(s, takes[0]).Some? && r in s.stock
    requires r in Apply(s, takes[0]).value.stock
    ensures Served(Apply(s, takes[0]).value, takes[1..]).stock[r] == Served(s, takes).stock[r]
  {
    hide Apply, ServedLot;
    assert takes == [takes[0]] + takes[1..];
    DemandOfConcatenation([takes[0]], takes[1..], r);
    assert Touches([takes[0]], r) <==> [takes[0]][0].resource == r;
    UntouchedIsUndemanded(takes[1..], r);
    ApplyKeepsKeys(s, takes[0]);
  }

  lemma ServedLotAfterFirst(s: Store, takes: seq<Take>, id: Id)
    requires takes != [] && Apply(s, takes[0]).Some? && id in s.lots
    requires id in Apply(s, takes[0]).value.lots
    ensures ServedLot(Apply(s, takes[0]).value, takes[1..], id) == ServedLot(s, takes, id)
  {
    hide Apply, TakenFrom, Available;
    var s1 := Apply(s, takes[0]).value;
    var item := s.lots[id].item;
    ApplyActsOnOneItem(s, takes[0], item);
    assert takes == [takes[0]] + takes[1..];
    DemandOfConcatenation([takes[0]], takes[1..], MenuItem(item));
    LotTakenTwice(s.lots, s1.lots, ItemOrder(s.lots, item),
      Demand([takes[0]], MenuItem(item)), Demand(takes[1..], MenuItem(item)), id);
  }

  lemma LotTakenTwice(lots: LotTable, after: LotTable, order: seq<Id>, first: nat, second: nat, id: Id)
    requires NoDuplicates(order) && forall x :: x in order ==> x in lots && x in after
    requires forall x :: x in order ==>
      after[x] == lots[x].(remaining := lots[x].remaining - TakenFrom(lots, order, first, x))
    requires id in order
    ensures after[id].(remaining := after[id].remaining - TakenFrom(after, order, second, id))
         == lots[id].(remaining := lots[id].remaining - TakenFrom(lots, order, first + second, id))
  {
    WalksCompose(lots, after, order, first, second, id);
  }

  /**
   * A reservation succeeds exactly when every touched resource fits its summed demand, and then
   * leaves exactly the starting stock less that demand, lots drained first-expiry-first-out.
   */
  lemma {:induction false} ReservationFollowsDemand(s: Store, takes: seq<Take>)
    ensures ApplyAll(s, takes).Some? <==> AllFit(s, takes)
    ensures AllFit(s, takes) ==> ApplyAll(s, takes).value == Served(s, takes)
    decreases |takes|
  {
    if takes == [] {
      ServedNothing(s, takes);
    } else {
      var first := takes[0];
      assert Touches(takes, first.resource);
      if Apply(s, first).None? {
        assert Demand(takes, first.resource) >= first.quantity;
        assert !Fits(s, takes, first.resource);
      } else {
        var s1 := Apply(s, first).value;
        ReservationFollowsDemand(s1, takes[1..]);
        ServedAfterFirst(s, takes);
        AllFitAfterFirst(s, takes);
      }
    }
  }

  lemma AllFitAfterFirst(s: Store, takes: seq<Take>)
    requires takes != [] && Apply(s, takes[0]).Some?
    ensures AllFit(s, takes) <==> AllFit(Apply(s, takes[0]).value, takes[1..])
  {
    var s1, rest := Apply(s, takes[0]).value, takes[1..];
    forall r ensures Touches(rest, r) ==> Touches(takes, r) {
      if Touches(rest, r) {
        var i :| 0 <= i < |rest| && rest[i].resource == r;
        assert takes[i + 1].resource == r;
      }
      FitsAfterFirst(s, takes, r);
    }
    forall r | Touches(takes, r) ensures Touches(rest, r) || (r == takes[0].resource && Fits(s1, rest, r)) {
      var i :| 0 <= i < |takes| && takes[i].resource == r;
      if i > 0 { assert rest[i - 1].resource == r; }
      UntouchedIsUndemanded(rest, r);
    }
    forall r ensures Fits(s, takes, r) <==> Fits(s1, rest, r) {
      FitsAfterFirst(s, takes, r);
    }
  }

  lemma ServedNothing(s: Store, takes: seq<Take>)
    requires takes == []
    ensures Served(s, takes) == s
  {
    forall id | id in s.lots ensures ServedLot(s, takes, id) == s.lots[id] {
      TakenFromOthersIsNothing(s.lots, ItemOrder(s.lots, s.lots[id].item), 0, id);
    }
  }

  /** Whatever was reserved, lots were used soonest expiry first. */
  lemma ReservationUsesSoonestFirst(s: Store, takes: seq<Take>)
    requires AllFit(s, takes)
    ensures SoonestFirst(s.lots, Served(s, takes).lots)
  {
    var after := Served(s, takes).lots;
    forall x, y | x in s.lots && y in s.lots && GivesAheadOf(s.lots, after, x, y)
      ensures after[x].remaining == 0
    {
      var item := s.lots[x].item;
      WalkIsSoonestFirst(s.lots, item, Demand(takes, MenuItem(item)), x, y);
    }
  }

  /**
   * The same on the columns of two lots of one item with stock left: a lot with an expiry date gives
   * before any with a later one or none; of equal dates the earlier received, then the earlier created.
   */
  lemma LotsAreUsedByTheirDates(s: Store, takes: seq<Take>, x: Id, y: Id)
    requires ApplyAll(s, takes).Some? && x in s.lots && y in s.lots
    requires var a, b := s.lots[x], s.lots[y];
      && a.item == b.item && a.remaining > 0
      && ((a.expiry.Some? && b.expiry.None?)
          || (a.expiry.Some? && b.expiry.Some? && a.expiry.value < b.expiry.value)
          || (a.expiry == b.expiry && a.receivedAt < b.receivedAt)
          || (a.expiry == b.expiry && a.receivedAt == b.receivedAt && a.createdAt < b.createdAt))
    ensures var after := ApplyAll(s, takes).value.lots;
      x in after && y in after && (after[y].remaining != s.lots[y].remaining ==> after[x].remaining == 0)
  {
    ReservationFollowsDemand(s, takes);
    ReservationUsesSoonestFirst(s, takes);
    var after := Served(s, takes).lots;
    assert after[y].remaining <= s.lots[y].remaining;
    assert after[y].remaining < s.lots[y].remaining ==> GivesAheadOf(s.lots, after, x, y);
  }

  ghost predicate SameDemand(a: seq<Take>, b: seq<Take>) {
    forall r :: Demand(a, r) == Demand(b, r) && (Touches(a, r) <==> Touches(b, r))
  }

  lemma SameDemandFits(s: Store, a: seq<Take>, b: seq<Take>)
    requires SameDemand(a, b) && AllFit(s, a)
    ensures AllFit(s, b)
  {
  }

  lemma SameDemandServes(s: Store, a: seq<Take>, b: seq<Take>)
    requires SameDemand(a, b)
    ensures Served(s, a) == Served(s, b)
  {
    forall id | id in s.lots ensures ServedLot(s, a, id) == ServedLot(s, b, id) {
      assert Demand(a, MenuItem(s.lots[id].item)) == Demand(b, MenuItem(s.lots[id].item));
    }
    assert Served(s, a).lots == Served(s, b).lots;
    assert Served(s, a).stock == Served(s, b).stock;
  }

  /** Neither the outcome nor the stock left depends on the order of the lines. */
  lemma LineOrderDoesNotMatter(s: Store, a: seq<Line>, b: seq<Line>)
    requires multiset(a) == multiset(b)
    ensures ApplyAll(s, Takes(a)) == ApplyAll(s, Takes(b))
  {
    forall r
      ensures Demand(Takes(a), r) == Demand(Takes(b), r) && (Touches(Takes(a), r) <==> Touches(Takes(b), r))
    {
      DemandIgnoresLineOrder(a, b, r);
    }
    ReservationFollowsDemand(s, Takes(a));
    ReservationFollowsDemand(s, Takes(b));
    if AllFit(s, Takes(a)) { SameDemandFits(s, Takes(a), Takes(b)); }
    if AllFit(s, Takes(b)) { SameDemandFits(s, Takes(b), Takes(a)); }
    SameDemandServes(s, Takes(a), Takes(b));
  }

  /** Reserving two lists of takes one after the other is reserving them together. */
  lemma {:induction false} ApplyAllComposes(s: Store, a: seq<Take>, b: seq<Take>)
    ensures ApplyAll(s, a + b)
         == if ApplyAll(s, a).None? then None else ApplyAll(ApplyAll(s, a).value, b)
    decreases |a|
  {
    if a == [] {
      assert a + b == b;
    } else {
      assert (a + b)[1..] == a[1..] + b;
      if Apply(s, a[0]).Some? {
        ApplyAllComposes(Apply(s, a[0]).value, a[1..], b);
      }
    }
  }

  /** Going on with more takes after an outcome. */
  ghost function Then(outcome: Option<Store>, takes: seq<Take>): Option<Store> {
    if outcome.None? then None else ApplyAll(outcome.value, takes)
  }

  /** A line takes its item, then its variant combination, then its options. */
  lemma LineInParts(s: Store, line: Line)
    ensures ApplyAll(s, LineTakes(line)) ==
      Then(Then(ApplyAll(s, ItemTakes(line)), VariantTakes(line)), ChoiceTakes(line.choices, line.quantity))
    ensures line.itemTracked ==> ApplyAll(s, ItemTakes(line)) == Apply(s, Take(MenuItem(line.item), line.quantity))
    ensures !line.itemTracked ==> ApplyAll(s, ItemTakes(line)) == Some(s)
  {
    ApplyAllComposes(s, ItemTakes(line) + VariantTakes(line), ChoiceTakes(line.choices, line.quantity));
    ApplyAllComposes(s, ItemTakes(line), VariantTakes(line));
    ApplyAllOfOne(s, Take(MenuItem(line.item), line.quantity));
  }

  lemma ApplyAllOfOne(s: Store, take: Take)
    ensures ApplyAll(s, [take]) == Apply(s, take)
  {
    assert [take][1..] == [] && [take][0] == take;
  }

  /** The first of several choices, then the rest. */
  lemma ChoicesFromFirst(s: Store, choices: seq<Choice>, quantity: nat)
    requires choices != []
    ensures ApplyAll(s, ChoiceTakes(choices, quantity)) ==
      (if choices[0].tracked
       then Then(Apply(s, Take(ItemOption(choices[0].option), quantity)), ChoiceTakes(choices[1..], quantity))
       else ApplyAll(s, ChoiceTakes(choices[1..], quantity)))
  {
    var rest := ChoiceTakes(choices[1..], quantity);
    if choices[0].tracked {
      ApplyAllComposes(s, [Take(ItemOption(choices[0].option), quantity)], rest);
      ApplyAllOfOne(s, Take(ItemOption(choices[0].option), quantity));
    } else {
      assert [] + rest == rest;
    }
  }
}
