/**
 * Expiry-ordered inventory lots of a menu item: the comparator, the order it induces, and the
 * greedy allocation of a requested quantity along that order.
 */
module Lots {
  import opened Base

  /** One row of the inventory-lot table, keyed by lot id. Dates are instants; no expiry is `None`. */
  datatype Lot = Lot(
    item: Id, expiry: Option<int>, receivedAt: int, createdAt: int, received: int, remaining: int)

  /** What an order line records about one lot it took stock from. */
  datatype Allocation = Allocation(lot: Id, quantity: nat)

  type LotTable = map<Id, Lot>

  function LotIds(lots: LotTable, item: Id): set<Id> {
    set id | id in lots && lots[id].item == item
  }

  /** A lot without an expiry date sorts after every lot that has one. */
  function CompareOptionalDates(left: Option<int>, right: Option<int>): int {
    if left.None? && right.None? then 0
    else if left.None? then 1
    else if right.None? then -1
    else left.value - right.value
  }

  /** `localeCompare` on ids: any strict total order does; this one is lexicographic. */
  function CompareIds(left: Id, right: Id): int {
    if left == right then 0 else if Less(left, right) then -1 else 1
  }

  function OrElse(first: int, second: int): int {
    if first != 0 then first else second
  }

  function CompareLots(a: Id, left: Lot, b: Id, right: Lot): int {
    OrElse(CompareOptionalDates(left.expiry, right.expiry),
    OrElse(left.receivedAt - right.receivedAt,
    OrElse(left.createdAt - right.createdAt, CompareIds(a, b))))
  }

  /** `a` is used before `b`. */
  predicate Sooner(lots: LotTable, a: Id, b: Id)
    requires a in lots && b in lots
  {
    CompareLots(a, lots[a], b, lots[b]) < 0
  }

  /** The comparator is a strict total order, so sorting by it has exactly one outcome. */
  lemma ComparatorIsStrictTotalOrder(lots: LotTable, a: Id, b: Id, c: Id)
    requires a in lots && b in lots && c in lots
    ensures !Sooner(lots, a, a)
    ensures Sooner(lots, a, b) ==> !Sooner(lots, b, a)
    ensures Sooner(lots, a, b) && Sooner(lots, b, c) ==> Sooner(lots, a, c)
    ensures a != b ==> Sooner(lots, a, b) || Sooner(lots, b, a)
  {
    if a != b { LessIsTotal(a, b); }
    if Less(a, b) {
      LessIsAsymmetric(a, b);
      if Less(b, c) { LessIsTransitive(a, b, c); LessIsAsymmetric(a, c); }
    }
  }

  /** First-expiry-first-out order of a set of lots. */
  ghost predicate InFefoOrder(lots: LotTable, order: seq<Id>) {
    && (forall id :: id in order ==> id in lots)
    && (forall i, j :: 0 <= i < j < |order| ==> Sooner(lots, order[i], order[j]))
  }

  /** Inserts a lot at its place in an ordered list. */
  function Insert(lots: LotTable, id: Id, order: seq<Id>): (r: seq<Id>)
    requires id in lots && forall x :: x in order ==> x in lots
    ensures forall x :: x in r <==> x == id || x in order
  {
    if order == [] then [id]
    else if Sooner(lots, id, order[0]) then [id] + order
    else [order[0]] + Insert(lots, id, order[1..])
  }

  /** The library sort with the lot comparator. */
  function SortLots(lots: LotTable, ids: seq<Id>): (r: seq<Id>)
    requires forall x :: x in ids ==> x in lots
    ensures forall x :: x in r <==> x in ids
  {
    if ids == [] then [] else Insert(lots, ids[0], SortLots(lots, ids[1..]))
  }

  lemma {:induction false} InsertKeepsOrder(lots: LotTable, id: Id, order: seq<Id>)
    requires id in lots && id !in order && InFefoOrder(lots, order)
    ensures InFefoOrder(lots, Insert(lots, id, order))
  {
    if order != [] {
      ComparatorIsStrictTotalOrder(lots, id, order[0], id);
      if Sooner(lots, id, order[0]) {
        forall j | 0 <= j < |order| ensures Sooner(lots, id, order[j]) {
          ComparatorIsStrictTotalOrder(lots, id, order[0], order[j]);
        }
      } else {
        InsertKeepsOrder(lots, id, order[1..]);
        var r := Insert(lots, id, order[1..]);
        forall j | 0 <= j < |r| ensures Sooner(lots, order[0], r[j]) {
          assert r[j] in r;
          if r[j] != id {
            var k :| 0 <= k < |order[1..]| && order[1..][k] == r[j];
            assert order[k + 1] == r[j];
          }
        }
      }
    }
  }

  lemma {:induction false} SortedIsInOrder(lots: LotTable, ids: seq<Id>)
    requires NoDuplicates(ids) && forall x :: x in ids ==> x in lots
    ensures InFefoOrder(lots, SortLots(lots, ids))
  {
    if ids != [] {
      assert forall x :: x in ids[1..] ==> x in ids;
      SortedIsInOrder(lots, ids[1..]);
      InsertKeepsOrder(lots, ids[0], SortLots(lots, ids[1..]));
    }
  }

  /** Two ordered lists of the same lots are the same list. */
  lemma {:induction false} OrderIsUnique(lots: LotTable, a: seq<Id>, b: seq<Id>)
    requires InFefoOrder(lots, a) && InFefoOrder(lots, b)
    requires forall x :: x in a <==> x in b
    ensures a == b
  {
    FirstIsMember(a);
    FirstIsMember(b);
    if a != [] {
      var i :| 0 <= i < |b| && b[i] == a[0];
      var j :| 0 <= j < |a| && a[j] == b[0];
      ComparatorIsStrictTotalOrder(lots, a[0], b[0], a[0]);
      assert i == 0;
      TailHasTheRest(lots, a);
      TailHasTheRest(lots, b);
      OrderIsUnique(lots, a[1..], b[1..]);
      assert a == [a[0]] + a[1..] && b == [b[0]] + b[1..];
    }
  }

  lemma FirstIsMember(s: seq<Id>)
    ensures s != [] ==> s[0] in s
  {
  }

  lemma TailHasTheRest(lots: LotTable, a: seq<Id>)
    requires InFefoOrder(lots, a) && a != []
    ensures forall x :: x in a[1..] <==> x in a && x != a[0]
  {
  }

  /** All lots of an item, in the order they are used, however the table lists them. */
  ghost function ItemOrder(lots: LotTable, item: Id): (order: seq<Id>)
    ensures forall x :: x in order <==> x in LotIds(lots, item)
  {
    SortLots(lots, Listing(LotIds(lots, item)))
  }

  lemma ItemOrderIsOrdered(lots: LotTable, item: Id)
    ensures InFefoOrder(lots, ItemOrder(lots, item))
    ensures NoDuplicates(ItemOrder(lots, item))
  {
    SortedIsInOrder(lots, Listing(LotIds(lots, item)));
    OrderHasNoDuplicates(lots, ItemOrder(lots, item));
  }

  ghost function Listing(ids: set<Id>): (s: seq<Id>)
    ensures NoDuplicates(s)
    ensures forall x :: x in s <==> x in ids
  {
    if ids == {} then [] else
      var x :| x in ids;
      [x] + Listing(ids - {x})
  }

  /** Tables that agree on everything but the quantities have the same order. */
  ghost predicate SameLotKeys(a: LotTable, b: LotTable) {
    && a.Keys == b.Keys
    && forall id :: id in a ==>
         b[id] == a[id].(received := b[id].received, remaining := b[id].remaining)
  }

  lemma OrderIgnoresQuantities(a: LotTable, b: LotTable, item: Id)
    requires SameLotKeys(a, b)
    ensures LotIds(a, item) == LotIds(b, item) && ItemOrder(a, item) == ItemOrder(b, item)
  {
    assert LotIds(a, item) == LotIds(b, item);
    ItemOrderIsOrdered(a, item);
    ItemOrderIsOrdered(b, item);
    assert InFefoOrder(a, ItemOrder(b, item));
    OrderIsUnique(a, ItemOrder(a, item), ItemOrder(b, item));
  }

  // ---------------------------------------------------------------------------------------------
  // Greedy allocation
  // ---------------------------------------------------------------------------------------------

  /** What one lot gives towards a wanted quantity; a lot that is not available gives nothing. */
  function Portion(remaining: int, wanted: nat): nat {
    if remaining <= 0 then 0 else Min(remaining, wanted)
  }

  /** Total quantity that the lots of a list can still give. */
  function Available(lots: LotTable, order: seq<Id>): nat
    requires forall x :: x in order ==> x in lots
  {
    if order == [] then 0
    else (if lots[order[0]].remaining > 0 then lots[order[0]].remaining else 0) + Available(lots, order[1..])
  }

  /** How much of `wanted` the greedy walk along `order` takes from lot `id`. */
  function TakenFrom(lots: LotTable, order: seq<Id>, wanted: nat, id: Id): nat
    requires forall x :: x in order ==> x in lots
  {
    if order == [] then 0
    else
      var portion := Portion(lots[order[0]].remaining, wanted);
      (if order[0] == id then portion else 0) + TakenFrom(lots, order[1..], wanted - portion, id)
  }

  /** The table after the greedy walk. */
  function Drain(lots: LotTable, order: seq<Id>, wanted: nat): (r: LotTable)
    requires forall x :: x in order ==> x in lots
  {
    map id | id in lots :: lots[id].(remaining := lots[id].remaining - TakenFrom(lots, order, wanted, id))
  }

  /** The allocations the greedy walk records: one per lot it takes from, stopping when served. */
  function Allocations(lots: LotTable, order: seq<Id>, wanted: nat): seq<Allocation>
    requires forall x :: x in order ==> x in lots
  {
    if order == [] || wanted == 0 then []
    else
      var portion := Portion(lots[order[0]].remaining, wanted);
      [Allocation(order[0], portion)] + Allocations(lots, order[1..], wanted - portion)
  }

  /** The lots with something left, in the same order. */
  function OnlyAvailable(lots: LotTable, order: seq<Id>): (r: seq<Id>)
    requires forall x :: x in order ==> x in lots
    ensures forall x :: x in r <==> x in order && lots[x].remaining > 0
  {
    if order == [] then []
    else if lots[order[0]].remaining > 0 then [order[0]] + OnlyAvailable(lots, order[1..])
    else OnlyAvailable(lots, order[1..])
  }

  function TotalAllocated(allocations: seq<Allocation>): nat {
    if allocations == [] then 0 else allocations[0].quantity + TotalAllocated(allocations[1..])
  }

  function AllocatedTo(allocations: seq<Allocation>, id: Id): nat {
    if allocations == [] then 0
    else (if allocations[0].lot == id then allocations[0].quantity else 0) + AllocatedTo(allocations[1..], id)
  }

  lemma {:induction false} TakenFromOthersIsNothing(lots: LotTable, order: seq<Id>, wanted: nat, id: Id)
    requires forall x :: x in order ==> x in lots
    ensures id !in order || wanted == 0 ==> TakenFrom(lots, order, wanted, id) == 0
  {
    if order != [] {
      TakenFromOthersIsNothing(lots, order[1..], wanted - Portion(lots[order[0]].remaining, wanted), id);
    }
  }

  /** The walk never takes more than a lot holds. */
  lemma {:induction false} TakenIsHeld(lots: LotTable, order: seq<Id>, wanted: nat, id: Id)
    requires (forall x :: x in order ==> x in lots) && NoDuplicates(order) && id in order
    ensures TakenFrom(lots, order, wanted, id) <= Portion(lots[id].remaining, wanted)
  {
    var portion := Portion(lots[order[0]].remaining, wanted);
    if order[0] == id {
      TakenFromOthersIsNothing(lots, order[1..], wanted - portion, id);
    } else {
      TakenIsHeld(lots, order[1..], wanted - portion, id);
    }
  }

  lemma OrderHasNoDuplicates(lots: LotTable, order: seq<Id>)
    requires InFefoOrder(lots, order)
    ensures NoDuplicates(order)
  {
  }

  /** Skipping the lots with nothing left changes neither the walk nor the total. */
  lemma {:induction false} OnlyAvailableMatters(lots: LotTable, order: seq<Id>, wanted: nat, id: Id)
    requires forall x :: x in order ==> x in lots
    ensures Available(lots, OnlyAvailable(lots, order)) == Available(lots, order)
    ensures TakenFrom(lots, OnlyAvailable(lots, order), wanted, id) == TakenFrom(lots, order, wanted, id)
  {
    if order != [] {
      OnlyAvailableMatters(lots, order[1..], wanted - Portion(lots[order[0]].remaining, wanted), id);
    }
  }

  lemma {:induction false} OnlyAvailableKeepsOrder(lots: LotTable, order: seq<Id>)
    requires InFefoOrder(lots, order)
    ensures InFefoOrder(lots, OnlyAvailable(lots, order))
  {
    if order != [] {
      var rest := OnlyAvailable(lots, order[1..]);
      OnlyAvailableKeepsOrder(lots, order[1..]);
      forall j | 0 <= j < |rest| ensures Sooner(lots, order[0], rest[j]) {
        assert rest[j] in order[1..];
      }
    }
  }

  /** What a line records for a lot is what the walk takes from it. */
  lemma {:induction false} AllocationsRecordTheWalk(lots: LotTable, order: seq<Id>, wanted: nat, id: Id)
    requires forall x :: x in order ==> x in lots
    ensures AllocatedTo(Allocations(lots, order, wanted), id) == TakenFrom(lots, order, wanted, id)
  {
    if order != [] {
      if wanted == 0 {
        TakenFromOthersIsNothing(lots, order, wanted, id);
      } else {
        var portion := Portion(lots[order[0]].remaining, wanted);
        AllocationsRecordTheWalk(lots, order[1..], wanted - portion, id);
        assert Allocations(lots, order, wanted)[1..] == Allocations(lots, order[1..], wanted - portion);
      }
    }
  }

  lemma AllocationsStepByStep(lots: LotTable, order: seq<Id>, wanted: nat)
    requires order != [] && wanted > 0 && forall x :: x in order ==> x in lots
    requires lots[order[0]].remaining > 0
    ensures var portion := Min(lots[order[0]].remaining, wanted);
      var rest := Allocations(lots, order[1..], wanted - portion);
      && Allocations(lots, order, wanted) == [Allocation(order[0], portion)] + rest
      && TotalAllocated(Allocations(lots, order, wanted)) == portion + TotalAllocated(rest)
      && Available(lots, order) == lots[order[0]].remaining + Available(lots, order[1..])
      && (wanted == portion ==> rest == [])
  {
    var portion := Min(lots[order[0]].remaining, wanted);
    assert Allocations(lots, order, wanted)[1..] == Allocations(lots, order[1..], wanted - portion);
  }

  /** The allocations go to the first lots of the order, and use up all but the last of them. */
  ghost predicate DrainsPrefix(lots: LotTable, order: seq<Id>, a: seq<Allocation>)
    requires forall x :: x in order ==> x in lots
  {
    && |a| <= |order|
    && (forall k :: 0 <= k < |a| ==> a[k].lot == order[k] && 0 < a[k].quantity <= lots[order[k]].remaining)
    && (forall k :: 0 <= k < |a| - 1 ==> a[k].quantity == lots[order[k]].remaining)
  }

  lemma DrainsOneMore(lots: LotTable, order: seq<Id>, first: Allocation, rest: seq<Allocation>)
    requires order != [] && (forall x :: x in order ==> x in lots) && DrainsPrefix(lots, order[1..], rest)
    requires first.lot == order[0] && 0 < first.quantity <= lots[order[0]].remaining
    requires rest != [] ==> first.quantity == lots[order[0]].remaining
    ensures DrainsPrefix(lots, order, [first] + rest)
  {
    var a := [first] + rest;
    forall k | 0 < k < |a|
      ensures a[k].lot == order[k] && 0 < a[k].quantity <= lots[order[k]].remaining
      ensures k < |a| - 1 ==> a[k].quantity == lots[order[k]].remaining
    {
      assert a[k] == rest[k - 1] && order[k] == order[1..][k - 1];
    }
  }

  /**
   * First expiry, first out: over the available lots in order, a quantity they can serve is
   * allocated exactly, from a prefix of the order, draining every lot used except perhaps the last.
   */
  lemma {:induction false} AllocationIsFirstExpiryFirstOut(lots: LotTable, order: seq<Id>, wanted: nat)
    requires forall x :: x in order ==> x in lots && lots[x].remaining > 0
    requires wanted <= Available(lots, order)
    ensures var a := Allocations(lots, order, wanted); TotalAllocated(a) == wanted && DrainsPrefix(lots, order, a)
  {
    if order == [] || wanted == 0 {
      assert Allocations(lots, order, wanted) == [];
    } else {
      hide DrainsPrefix, Allocations, Available, TotalAllocated;
      var head, tail := order[0], order[1..];
      assert order == [head] + tail;
      var portion := Min(lots[head].remaining, wanted);
      AllocationsStepByStep(lots, order, wanted);
      AllocationIsFirstExpiryFirstOut(lots, tail, wanted - portion);
      assert Allocations(lots, tail, wanted - portion) != [] ==> portion == lots[head].remaining;
      DrainsOneMore(lots, order, Allocation(head, portion), Allocations(lots, tail, wanted - portion));
    }
  }

  /**
   * For an item's lots as they stand: the quantity is allocated exactly, and any available lot that
   * comes before one that was used (earlier expiry first, undated lots last) has been used up.
   */
  lemma EarlierLotsAreUsedUp(lots: LotTable, item: Id, wanted: nat)
    requires wanted <= Available(lots, ItemOrder(lots, item))
    ensures var a := Allocations(lots, OnlyAvailable(lots, ItemOrder(lots, item)), wanted);
      && TotalAllocated(a) == wanted
      && forall k, x :: 0 <= k < |a| && x in LotIds(lots, item) && lots[x].remaining > 0
           && a[k].lot in lots && Sooner(lots, x, a[k].lot)
           ==> exists j :: 0 <= j < k && a[j] == Allocation(x, lots[x].remaining)
  {
    var full := ItemOrder(lots, item);
    var order := OnlyAvailable(lots, full);
    OnlyAvailableMatters(lots, full, wanted, []);
    ItemOrderIsOrdered(lots, item);
    OnlyAvailableKeepsOrder(lots, full);
    AllocationIsFirstExpiryFirstOut(lots, order, wanted);
    var a := Allocations(lots, order, wanted);
    forall k, x | 0 <= k < |a| && x in LotIds(lots, item) && lots[x].remaining > 0
      && a[k].lot in lots && Sooner(lots, x, a[k].lot)
      ensures exists j :: 0 <= j < k && a[j] == Allocation(x, lots[x].remaining)
    {
      assert x in order;
      var j :| 0 <= j < |order| && order[j] == x;
      ComparatorIsStrictTotalOrder(lots, x, order[k], x);
      assert j < k;
      assert a[j] == Allocation(x, lots[x].remaining);
    }
  }

  /** The walk takes from a lot only when it has taken all there was in every lot before it. */
  lemma {:induction false} EarlierInTheWalkIsUsedUp(lots: LotTable, order: seq<Id>, wanted: nat, i: nat, j: nat)
    requires NoDuplicates(order) && (forall x :: x in order ==> x in lots) && i < j < |order|
    requires lots[order[i]].remaining > 0 && TakenFrom(lots, order, wanted, order[j]) > 0
    ensures TakenFrom(lots, order, wanted, order[i]) == lots[order[i]].remaining
  {
    var head, rest := order[0], order[1..];
    var portion := Portion(lots[head].remaining, wanted);
    assert order[j] == rest[j - 1];
    if i > 0 {
      assert order[i] == rest[i - 1];
      EarlierInTheWalkIsUsedUp(lots, rest, wanted - portion, i - 1, j - 1);
    } else {
      TakenFromOthersIsNothing(lots, rest, wanted - portion, head);
      if portion == wanted {
        NothingWantedNothingTaken(lots, rest, order[j]);
      }
    }
  }

  lemma {:induction false} NothingWantedNothingTaken(lots: LotTable, order: seq<Id>, id: Id)
    requires forall x :: x in order ==> x in lots
    ensures TakenFrom(lots, order, 0, id) == 0
  {
    if order != [] {
      NothingWantedNothingTaken(lots, order[1..], id);
    }
  }

  /**
   * One lot is to be used before another, on their columns: a date before a later one and before
   * none; on equal dates the one received earlier, then the one created earlier, then by id.
   */
  predicate DueBefore(x: Id, a: Lot, y: Id, b: Lot) {
    || (a.expiry.Some? && (b.expiry.None? || a.expiry.value < b.expiry.value))
    || (a.expiry == b.expiry
        && (a.receivedAt < b.receivedAt
            || (a.receivedAt == b.receivedAt
                && (a.createdAt < b.createdAt || (a.createdAt == b.createdAt && Less(x, y))))))
  }

  /** The comparator is just that order. */
  lemma SoonerIsDueBefore(lots: LotTable, x: Id, y: Id)
    requires x in lots && y in lots
    ensures Sooner(lots, x, y) <==> DueBefore(x, lots[x], y, lots[y])
  {
    LessIsNotReflexive(x);
  }

  lemma {:induction false} LessIsNotReflexive(x: Id)
    ensures !Less(x, x)
  {
    if x != [] {
      LessIsNotReflexive(x[1..]);
    }
  }

  /** Of two lots of an item with something left, the one due later gives only when the other is used up. */
  ghost predicate SoonestFirst(before: LotTable, after: LotTable) {
    before.Keys == after.Keys
    && forall x, y :: x in before && y in before && GivesAheadOf(before, after, x, y) ==> after[x].remaining == 0
  }

  /** `y` has given something although `x` was due before it and had something left. */
  predicate GivesAheadOf(before: LotTable, after: LotTable, x: Id, y: Id)
    requires x in before && y in before && y in after
  {
    && before[x].item == before[y].item && before[x].remaining > 0 && DueBefore(x, before[x], y, before[y])
    && after[y].remaining < before[y].remaining
  }

  lemma WalkIsSoonestFirst(lots: LotTable, item: Id, wanted: nat, x: Id, y: Id)
    requires x in LotIds(lots, item) && y in LotIds(lots, item)
    requires lots[x].remaining > 0 && DueBefore(x, lots[x], y, lots[y])
    requires TakenFrom(lots, ItemOrder(lots, item), wanted, y) > 0
    ensures TakenFrom(lots, ItemOrder(lots, item), wanted, x) == lots[x].remaining
  {
    var order := ItemOrder(lots, item);
    ItemOrderIsOrdered(lots, item);
    var i :| 0 <= i < |order| && order[i] == x;
    var j :| 0 <= j < |order| && order[j] == y;
    SoonerIsDueBefore(lots, x, y);
    ComparatorIsStrictTotalOrder(lots, x, y, x);
    EarlierInTheWalkIsUsedUp(lots, order, wanted, i, j);
  }

  lemma TakenStepByStep(lots: LotTable, order: seq<Id>, wanted: nat, id: Id)
    requires order != [] && forall x :: x in order ==> x in lots
    ensures var portion := Portion(lots[order[0]].remaining, wanted);
      TakenFrom(lots, order, wanted, id) == (if order[0] == id then portion else 0) + TakenFrom(lots, order[1..], wanted - portion, id)
  {
  }

  /** Every lot of the order has given what the walk for the quantity takes from it. */
  ghost predicate HasGiven(lots: LotTable, after: LotTable, order: seq<Id>, wanted: nat)
    requires forall x :: x in order ==> x in lots && x in after
  {
    forall x :: x in order ==> after[x].remaining == lots[x].remaining - TakenFrom(lots, order, wanted, x)
  }

  lemma RestHasGiven(lots: LotTable, after: LotTable, order: seq<Id>, wanted: nat)
    requires order != [] && NoDuplicates(order) && forall x :: x in order ==> x in lots && x in after
    requires HasGiven(lots, after, order, wanted)
    ensures var head, rest := order[0], order[1..];
      var portion := Portion(lots[head].remaining, wanted);
      && after[head].remaining == lots[head].remaining - portion
      && HasGiven(lots, after, rest, wanted - portion) && NoDuplicates(rest)
  {
    var head, rest := order[0], order[1..];
    TakenFromOthersIsNothing(lots, rest, wanted - Portion(lots[head].remaining, wanted), head);
    assert head in order && forall x :: x in rest ==> x in order && x != head;
  }

  /** Allocating `first` and then `second` takes, lot by lot, what allocating both at once takes. */
  lemma {:induction false} WalksCompose(
      lots: LotTable, after: LotTable, order: seq<Id>, first: nat, second: nat, id: Id)
    requires NoDuplicates(order) && forall x :: x in order ==> x in lots && x in after
    requires HasGiven(lots, after, order, first)
    ensures TakenFrom(lots, order, first + second, id)
         == TakenFrom(lots, order, first, id) + TakenFrom(after, order, second, id)
  {
    if order != [] {
      hide HasGiven, NoDuplicates, TakenFrom;
      var head, rest := order[0], order[1..];
      assert order == [head] + rest;
      RestHasGiven(lots, after, order, first);
      var p, q := Portion(lots[head].remaining, first), Portion(after[head].remaining, second);
      assert p + q == Portion(lots[head].remaining, first + second);
      assert (first + second) - (p + q) == (first - p) + (second - q);
      hide Portion;
      WalksCompose(lots, after, rest, first - p, second - q, id);
      TakenStepByStep(lots, order, first, id);
      TakenStepByStep(after, order, second, id);
      TakenStepByStep(lots, order, first + second, id);
    }
  }

  /** Draining twice leaves the table that draining the sum leaves. */
  lemma DrainingComposes(lots: LotTable, order: seq<Id>, first: nat, second: nat)
    requires NoDuplicates(order) && forall x :: x in order ==> x in lots
    ensures Drain(Drain(lots, order, first), order, second) == Drain(lots, order, first + second)
  {
    var after := Drain(lots, order, first);
    forall id | id in lots
      ensures Drain(after, order, second)[id] == Drain(lots, order, first + second)[id]
    {
      WalksCompose(lots, after, order, first, second, id);
    }
  }

  /** A served quantity leaves exactly that much less available. */
  lemma {:induction false} DrainingReducesAvailable(
      lots: LotTable, after: LotTable, order: seq<Id>, wanted: nat)
    requires NoDuplicates(order) && forall x :: x in order ==> x in lots && x in after
    requires forall x :: x in order ==>
      after[x].remaining == lots[x].remaining - TakenFrom(lots, order, wanted, x)
    ensures Available(after, order) == if wanted <= Available(lots, order) then Available(lots, order) - wanted else 0
  {
    if order != [] {
      var head, rest := order[0], order[1..];
      var p := Portion(lots[head].remaining, wanted);
      TakenFromOthersIsNothing(lots, rest, wanted - p, head);
      assert after[head].remaining == lots[head].remaining - p by { assert head in order; }
      forall x | x in rest
        ensures after[x].remaining == lots[x].remaining - TakenFrom(lots, rest, wanted - p, x)
      {
        assert x in order && x != head;
      }
      DrainingReducesAvailable(lots, after, rest, wanted - p);
    }
  }
}
