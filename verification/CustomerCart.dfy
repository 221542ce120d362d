/**
 * The cart: every mutation reprices the line it touches and recomputes the totals. Prices are exact
 * decimals; the base price a line was last priced with is kept on the side, for the invariant.
 */
module CustomerCart {
  import opened Base
  import opened OptionSelection
  import opened CheckoutPricing

  datatype Row = Row(id: Id, item: Id, quantity: int, unitPrice: real, lineTotal: real)

  datatype Snapshot = Snapshot(option: Id, priceDelta: real)

  /** A menu item as a mutation reads it. */
  datatype Offer = Offer(menu: Menu, basePrice: real, available: bool)

  /** Cart rows, the option rows of each, the base price each was priced with, and the stored totals. */
  datatype Cart = Cart(
    rows: seq<Row>, options: map<Id, seq<Snapshot>>, bases: map<Id, real>,
    totalQuantity: int, subtotal: real, total: real)

  datatype Operation =
    | Add(id: Id, offer: Offer, ids: seq<Id>, quantity: int)
    | Update(id: Id, offer: Offer, newIds: Option<seq<Id>>, quantity: int)
    | Remove(id: Id)
    | Clear

  const EMPTY := Cart([], map[], map[], 0, 0.0, 0.0)

  function DeltaSum(options: seq<Snapshot>): real {
    if options == [] then 0.0 else DeltaSum(options[..|options| - 1]) + options[|options| - 1].priceDelta
  }

  function QuantitySum(rows: seq<Row>): int {
    if rows == [] then 0 else QuantitySum(rows[..|rows| - 1]) + rows[|rows| - 1].quantity
  }

  function LineSum(rows: seq<Row>): real {
    if rows == [] then 0.0 else LineSum(rows[..|rows| - 1]) + rows[|rows| - 1].lineTotal
  }

  function Recomputed(c: Cart): Cart {
    c.(totalQuantity := QuantitySum(c.rows), subtotal := LineSum(c.rows), total := LineSum(c.rows))
  }

  function OptionIds(options: seq<Snapshot>): seq<Id> {
    seq(|options|, i requires 0 <= i < |options| => options[i].option)
  }

  /** The option rows stored for a selection, with the deltas of the moment. */
  function Snapshots(menu: Menu, ids: seq<Id>): seq<Snapshot>
    requires AllCurrent(CurrentOptions(menu), ids)
  {
    seq(|ids|, i requires 0 <= i < |ids| =>
      Snapshot(CurrentOptions(menu)[ids[i]].option.id, CurrentOptions(menu)[ids[i]].option.priceDelta))
  }

  predicate Selectable(offer: Offer, ids: seq<Id>, quantity: int) {
    quantity >= 1 && offer.available && NoDuplicates(ids) && Acceptable(offer.menu, ids, quantity)
  }

  predicate HasRow(c: Cart, id: Id) {
    exists i :: 0 <= i < |c.rows| && c.rows[i].id == id
  }

  function PricedRow(id: Id, item: Id, quantity: int, unitPrice: real): Row {
    Row(id, item, quantity, unitPrice, unitPrice * quantity as real)
  }

  function WithRow(rows: seq<Row>, row: Row): seq<Row> {
    seq(|rows|, i requires 0 <= i < |rows| => if rows[i].id == row.id then row else rows[i])
  }

  function WithoutRow(rows: seq<Row>, id: Id): seq<Row> {
    if rows == [] then []
    else
      var n := |rows| - 1;
      WithoutRow(rows[..n], id) + (if rows[n].id == id then [] else [rows[n]])
  }

  function FindRow(rows: seq<Row>, id: Id): Row
    requires exists i :: 0 <= i < |rows| && rows[i].id == id
  {
    if rows[|rows| - 1].id == id then rows[|rows| - 1] else FindRow(rows[..|rows| - 1], id)
  }

  predicate Succeeds(c: Cart, op: Operation) {
    match op
    case Add(id, offer, ids, quantity) => !HasRow(c, id) && Selectable(offer, ids, quantity)
    case Update(id, offer, newIds, quantity) =>
      HasRow(c, id) && id in c.options && Selectable(offer, newIds.GetOr(OptionIds(c.options[id])), quantity)
    case Remove(id) => HasRow(c, id)
    case Clear => true
  }

  /** A mutation that fails changes nothing. */
  function Step(c: Cart, op: Operation): Cart {
    if !Succeeds(c, op) then c
    else
      match op
      case Add(id, offer, ids, quantity) =>
        var options := Snapshots(offer.menu, ids);
        var row := PricedRow(id, offer.menu.item, quantity, offer.basePrice + DeltaSum(options));
        Recomputed(c.(rows := c.rows + [row], options := c.options[id := options], bases := c.bases[id := offer.basePrice]))
      case Update(id, offer, newIds, quantity) =>
        var row := FindRow(c.rows, id);
        if newIds.None? then
          Recomputed(c.(rows := WithRow(c.rows, PricedRow(id, row.item, quantity, row.unitPrice))))
        else
          var options := Snapshots(offer.menu, newIds.value);
          var repriced := PricedRow(id, row.item, quantity, offer.basePrice + DeltaSum(options));
          Recomputed(c.(rows := WithRow(c.rows, repriced), options := c.options[id := options],
                        bases := c.bases[id := offer.basePrice]))
      case Remove(id) => Recomputed(c.(rows := WithoutRow(c.rows, id), options := c.options - {id}))
      case Clear => Recomputed(c.(rows := [], options := map[]))
  }

  function Run(operations: seq<Operation>): Cart {
    if operations == [] then EMPTY else Step(Run(operations[..|operations| - 1]), operations[|operations| - 1])
  }

  // ---------------------------------------------------------------------------------------------
  // Prices and totals
  // ---------------------------------------------------------------------------------------------

  /** Line total is quantity times unit price; unit price is the base plus the stored deltas. */
  predicate RowPriced(c: Cart, row: Row) {
    && row.quantity >= 1 && row.lineTotal == row.unitPrice * row.quantity as real
    && row.id in c.options && row.id in c.bases
    && row.unitPrice == c.bases[row.id] + DeltaSum(c.options[row.id])
  }

  predicate Priced(c: Cart) {
    && DistinctRows(c.rows)
    && (forall row :: row in c.rows ==> RowPriced(c, row))
    && c == Recomputed(c)
  }

  lemma {:induction false} FoundRowIsThere(rows: seq<Row>, id: Id)
    requires exists i :: 0 <= i < |rows| && rows[i].id == id
    ensures FindRow(rows, id) in rows && FindRow(rows, id).id == id
  {
    if rows[|rows| - 1].id != id {
      var i :| 0 <= i < |rows| && rows[i].id == id;
      assert rows[..|rows| - 1][i].id == id;
      FoundRowIsThere(rows[..|rows| - 1], id);
    }
  }

  predicate DistinctRows(rows: seq<Row>) {
    forall i, j :: 0 <= i < j < |rows| ==> rows[i].id != rows[j].id
  }

  lemma {:induction false} RestOfTheRows(rows: seq<Row>, id: Id)
    ensures forall row :: row in WithoutRow(rows, id) <==> row in rows && row.id != id
    ensures DistinctRows(rows) ==> DistinctRows(WithoutRow(rows, id))
  {
    if rows != [] {
      var n := |rows| - 1;
      RestOfTheRows(rows[..n], id);
      var before, last := WithoutRow(rows[..n], id), rows[n];
      assert WithoutRow(rows, id) == before + (if last.id == id then [] else [last]);
      assert rows == rows[..n] + [last];
      hide WithoutRow;
      if DistinctRows(rows) {
        AppendingKeepsDistinct(rows[..n], before, last);
      }
    }
  }

  lemma AppendingKeepsDistinct(rows: seq<Row>, some: seq<Row>, last: Row)
    requires DistinctRows(rows + [last]) && DistinctRows(some) && forall row :: row in some ==> row in rows
    ensures DistinctRows(some + [last])
  {
    forall i | 0 <= i < |some| ensures some[i].id != last.id {
      assert some[i] in some;
      var j :| 0 <= j < |rows| && rows[j] == some[i];
      assert (rows + [last])[j] == some[i] && (rows + [last])[|rows|] == last;
    }
  }

  lemma AddKeepsPriced(c: Cart, id: Id, offer: Offer, ids: seq<Id>, quantity: int)
    requires Priced(c) && Succeeds(c, Add(id, offer, ids, quantity))
    ensures Priced(Step(c, Add(id, offer, ids, quantity)))
  {
    hide Acceptable, LineSum, QuantitySum, DeltaSum;
    var c1 := Step(c, Add(id, offer, ids, quantity));
    forall row | row in c1.rows ensures RowPriced(c1, row) {
      if row in c.rows {
        assert RowPriced(c, row);
      }
    }
  }

  lemma UpdateKeepsPriced(c: Cart, id: Id, offer: Offer, newIds: Option<seq<Id>>, quantity: int)
    requires Priced(c) && Succeeds(c, Update(id, offer, newIds, quantity))
    ensures Priced(Step(c, Update(id, offer, newIds, quantity)))
  {
    hide Acceptable, LineSum, QuantitySum, DeltaSum;
    var c1 := Step(c, Update(id, offer, newIds, quantity));
    FoundRowIsThere(c.rows, id);
    var row := FindRow(c.rows, id);
    assert RowPriced(c, row);
    forall i | 0 <= i < |c1.rows| ensures RowPriced(c1, c1.rows[i]) && c1.rows[i].id == c.rows[i].id {
      assert c.rows[i] in c.rows && RowPriced(c, c.rows[i]);
    }
  }

  lemma StepKeepsPriced(c: Cart, op: Operation)
    requires Priced(c)
    ensures Priced(Step(c, op))
  {
    if Succeeds(c, op) {
      match op {
        case Add(id, offer, ids, quantity) => AddKeepsPriced(c, id, offer, ids, quantity);
        case Update(id, offer, newIds, quantity) => UpdateKeepsPriced(c, id, offer, newIds, quantity);
        case Remove(id) =>
          RestOfTheRows(c.rows, id);
          forall row | row in WithoutRow(c.rows, id) ensures RowPriced(Step(c, op), row) {
            assert RowPriced(c, row);
          }
        case Clear =>
      }
    }
  }

  /** After any sequence of mutations every line and every total adds up. */
  lemma {:induction false} EveryCartIsPriced(operations: seq<Operation>)
    ensures Priced(Run(operations))
    ensures forall row :: row in Run(operations).rows ==> (
      row.quantity >= 1 && row.lineTotal == row.unitPrice * row.quantity as real)
  {
    if operations != [] {
      EveryCartIsPriced(operations[..|operations| - 1]);
      StepKeepsPriced(Run(operations[..|operations| - 1]), operations[|operations| - 1]);
    }
  }

  // ---------------------------------------------------------------------------------------------
  // What each mutation stores
  // ---------------------------------------------------------------------------------------------

  predicate IsActiveOption(menu: Menu, id: Id, delta: real) {
    exists i, j :: 0 <= i < |menu.groups| && 0 <= j < |menu.groups[i].options| && IsPricedOption(menu, i, j, id, delta)
  }

  predicate IsPricedOption(menu: Menu, i: nat, j: nat, id: Id, delta: real)
    requires i < |menu.groups| && j < |menu.groups[i].options|
  {
    var option := menu.groups[i].options[j];
    menu.groups[i].active && option.active && option.id == id && option.priceDelta == delta
  }

  /** An entry of the index is an active option of an active group, with its price difference. */
  predicate IndexIsPriced(menu: Menu, index: map<Id, Entry>) {
    forall id :: id in index ==> index[id].option.id == id && IsActiveOption(menu, id, index[id].option.priceDelta)
  }

  lemma {:induction false} OptionsArePriced(menu: Menu, index: map<Id, Entry>, i: nat, n: nat)
    requires i < |menu.groups| && menu.groups[i].active && n <= |menu.groups[i].options| && IndexIsPriced(menu, index)
    ensures IndexIsPriced(menu, WithOptions(index, menu.groups[i], menu.groups[i].options[..n]))
  {
    if n > 0 {
      var options := menu.groups[i].options;
      assert options[..n][..n - 1] == options[..n - 1];
      OptionsArePriced(menu, index, i, n - 1);
      if options[n - 1].active {
        assert IsPricedOption(menu, i, n - 1, options[n - 1].id, options[n - 1].priceDelta);
      }
    }
  }

  lemma {:induction false} CurrentOptionsArePriced(menu: Menu, n: nat)
    requires n <= |menu.groups|
    ensures IndexIsPriced(menu, Index(ActiveGroups(menu.groups[..n])))
  {
    if n > 0 {
      var before := ActiveGroups(menu.groups[..n - 1]);
      assert menu.groups[..n][..n - 1] == menu.groups[..n - 1];
      CurrentOptionsArePriced(menu, n - 1);
      var group := menu.groups[n - 1];
      if group.active {
        assert (before + [group])[..|before|] == before;
        assert group.options[..|group.options|] == group.options;
        OptionsArePriced(menu, Index(before), n - 1, |group.options|);
      } else {
        assert before + [] == before;
      }
    }
  }

  /** The stored option rows are the chosen options in order, at the menu's price differences. */
  predicate StoresSelection(menu: Menu, ids: seq<Id>, options: seq<Snapshot>) {
    |options| == |ids|
    && forall j :: 0 <= j < |ids| ==> options[j].option == ids[j] && IsActiveOption(menu, ids[j], options[j].priceDelta)
  }

  lemma SelectionIsStored(menu: Menu, ids: seq<Id>)
    requires AllCurrent(CurrentOptions(menu), ids)
    ensures StoresSelection(menu, ids, Snapshots(menu, ids))
  {
    assert menu.groups[..|menu.groups|] == menu.groups;
    CurrentOptionsArePriced(menu, |menu.groups|);
  }

  lemma SumsOfOneMore(rows: seq<Row>, row: Row)
    ensures LineSum(rows + [row]) == LineSum(rows) + row.lineTotal
    ensures QuantitySum(rows + [row]) == QuantitySum(rows) + row.quantity
  {
    assert (rows + [row])[..|rows|] == rows;
  }

  /** Adding appends one row: the item, the quantity asked for, the base price and the chosen options' prices. */
  lemma AddStoresTheRequest(c: Cart, id: Id, offer: Offer, ids: seq<Id>, quantity: int)
    requires Priced(c) && Succeeds(c, Add(id, offer, ids, quantity))
    ensures var c1 := Step(c, Add(id, offer, ids, quantity));
      && |c1.rows| == |c.rows| + 1 && c1.rows[..|c.rows|] == c.rows
      && id in c1.options && StoresSelection(offer.menu, ids, c1.options[id])
      && (var price := offer.basePrice + DeltaSum(c1.options[id]);
          && c1.rows[|c.rows|] == Row(id, offer.menu.item, quantity, price, price * quantity as real)
          && c1.subtotal == c1.total == c.subtotal + price * quantity as real
          && c1.totalQuantity == c.totalQuantity + quantity)
      && (forall other :: other != id && other in c.options ==> other in c1.options && c1.options[other] == c.options[other])
  {
    SelectionIsStored(offer.menu, ids);
    var price := offer.basePrice + DeltaSum(Snapshots(offer.menu, ids));
    SumsOfOneMore(c.rows, PricedRow(id, offer.menu.item, quantity, price));
    hide LineSum, QuantitySum, DeltaSum, Acceptable, StoresSelection;
  }

  lemma {:induction false} SumsOfOneChanged(rows: seq<Row>, k: nat, row: Row)
    requires DistinctRows(rows) && k < |rows| && rows[k].id == row.id
    ensures LineSum(rows[k := row]) == LineSum(rows) - rows[k].lineTotal + row.lineTotal
    ensures QuantitySum(rows[k := row]) == QuantitySum(rows) - rows[k].quantity + row.quantity
  {
    var n := |rows| - 1;
    if k == n {
      assert rows[k := row][..n] == rows[..n];
    } else {
      assert rows[k := row][..n] == rows[..n][k := row];
      SumsOfOneChanged(rows[..n], k, row);
    }
  }

  /** The unit price an update leaves. */
  function UpdatedPrice(was: Row, offer: Offer, newIds: Option<seq<Id>>): real
    requires newIds.Some? ==> AllCurrent(CurrentOptions(offer.menu), newIds.value)
  {
    if newIds.None? then was.unitPrice else offer.basePrice + DeltaSum(Snapshots(offer.menu, newIds.value))
  }

  lemma UpdatePutsOneRow(c: Cart, k: nat, offer: Offer, newIds: Option<seq<Id>>, quantity: int)
    requires Priced(c) && k < |c.rows| && Succeeds(c, Update(c.rows[k].id, offer, newIds, quantity))
    ensures var was := c.rows[k];
      var c1 := Step(c, Update(was.id, offer, newIds, quantity));
      && c1.rows == c.rows[k := PricedRow(was.id, was.item, quantity, UpdatedPrice(was, offer, newIds))]
      && c1 == Recomputed(c1)
      && was.id in c1.options
      && (newIds.None? ==> c1.options == c.options)
      && (newIds.Some? ==> c1.options[was.id] == Snapshots(offer.menu, newIds.value))
  {
    hide LineSum, QuantitySum, DeltaSum, Snapshots, RowPriced, PricedRow, CurrentOptions;
    var was := c.rows[k];
    FoundRowIsThere(c.rows, was.id);
    assert FindRow(c.rows, was.id) == was;
    WithRowIsOneChange(c.rows, k, PricedRow(was.id, was.item, quantity, UpdatedPrice(was, offer, newIds))) by {
      PricedRowKeepsTheId(was.id, was.item, quantity, UpdatedPrice(was, offer, newIds));
    }
  }

  lemma PricedRowKeepsTheId(id: Id, item: Id, quantity: int, unitPrice: real)
    ensures PricedRow(id, item, quantity, unitPrice).id == id
  {
  }

  lemma WithRowIsOneChange(rows: seq<Row>, k: nat, row: Row)
    requires DistinctRows(rows) && k < |rows| && rows[k].id == row.id
    ensures WithRow(rows, row) == rows[k := row]
  {
  }

  /** Exchanging one row moves the totals by the difference. */
  lemma TotalsOfOneChanged(c: Cart, k: nat, row: Row, c1: Cart)
    requires DistinctRows(c.rows) && k < |c.rows| && c.rows[k].id == row.id
    requires c == Recomputed(c) && c1 == Recomputed(c1) && c1.rows == c.rows[k := row]
    ensures c1.subtotal == c1.total == c.subtotal - c.rows[k].lineTotal + row.lineTotal
    ensures c1.totalQuantity == c.totalQuantity - c.rows[k].quantity + row.quantity
  {
    SumsOfOneChanged(c.rows, k, row);
    hide LineSum, QuantitySum, DistinctRows;
  }

  /** Updating changes the one row: the new quantity, and with new options the price of the moment. */
  lemma UpdateStoresTheRequest(c: Cart, k: nat, offer: Offer, newIds: Option<seq<Id>>, quantity: int)
    requires Priced(c) && k < |c.rows| && Succeeds(c, Update(c.rows[k].id, offer, newIds, quantity))
    ensures var was, c1 := c.rows[k], Step(c, Update(c.rows[k].id, offer, newIds, quantity));
      && was.id in c1.options && |c1.rows| == |c.rows|
      && (var row := c1.rows[k];
          && c1.rows == c.rows[k := row]
          && row.id == was.id && row.item == was.item && row.quantity == quantity
          && row.unitPrice == (if newIds.None? then was.unitPrice else offer.basePrice + DeltaSum(c1.options[was.id]))
          && row.lineTotal == row.unitPrice * quantity as real
          && c1.subtotal == c1.total == c.subtotal - was.lineTotal + row.lineTotal
          && c1.totalQuantity == c.totalQuantity - was.quantity + quantity)
      && (newIds.None? ==> c1.options == c.options)
      && (newIds.Some? ==> StoresSelection(offer.menu, newIds.value, c1.options[was.id]))
  {
    var was, c1 := c.rows[k], Step(c, Update(c.rows[k].id, offer, newIds, quantity));
    UpdatePutsOneRow(c, k, offer, newIds, quantity);
    var price := UpdatedPrice(was, offer, newIds);
    if newIds.Some? {
      SelectionIsStored(offer.menu, newIds.value);
    }
    hide Step, Succeeds, DeltaSum, Snapshots, StoresSelection, RowPriced, CurrentOptions, Recomputed, DistinctRows;
    assert price == if newIds.None? then was.unitPrice else offer.basePrice + DeltaSum(c1.options[was.id]);
    hide UpdatedPrice;
    TotalsOfOneChanged(c, k, PricedRow(was.id, was.item, quantity, price), c1);
  }

  /** Removing takes the one row and its option rows away, and keeps the others. */
  lemma RemoveDropsTheRow(c: Cart, id: Id, row: Row)
    requires Priced(c) && Succeeds(c, Remove(id))
    ensures var c1 := Step(c, Remove(id));
      && (row in c1.rows <==> row in c.rows && row.id != id) && id !in c1.options
      && (forall other :: other != id && other in c.options ==> other in c1.options && c1.options[other] == c.options[other])
  {
    RestOfTheRows(c.rows, id);
  }

  /** What the customer pays, from the lines themselves. */
  function Worth(c: Cart, rows: seq<Row>): real
    requires forall row :: row in rows ==> RowPriced(c, row)
  {
    if rows == [] then 0.0
    else
      var last := rows[|rows| - 1];
      assert last in rows && RowPriced(c, last);
      Worth(c, rows[..|rows| - 1]) + (c.bases[last.id] + DeltaSum(c.options[last.id])) * last.quantity as real
  }

  lemma {:induction false} LinesAreTheirWorth(c: Cart, rows: seq<Row>)
    requires forall row :: row in rows ==> RowPriced(c, row)
    ensures LineSum(rows) == Worth(c, rows)
  {
    if rows != [] {
      LinesAreTheirWorth(c, rows[..|rows| - 1]);
      assert RowPriced(c, rows[|rows| - 1]);
    }
  }

  /** The quote of a cart for a resolved checkout context. */
  function QuoteOf(c: Cart, promotion: Option<Promotion>, pickup: bool): Quote {
    Quote(c.subtotal, promotion, !pickup, pickup)
  }

  /** From cart to payment: quantities times prices, less the discount, plus the recorded fee. */
  lemma PaymentFollowsTheLines(operations: seq<Operation>, promotion: Option<Promotion>, pickup: bool)
    ensures var c := Run(operations);
      && (forall row :: row in c.rows ==> RowPriced(c, row))
      && (var q := QuoteOf(c, promotion, pickup);
          PaymentAmount(q) == OrderTotal(q) == Worth(c, c.rows) - Discount(q) + OrderFee(q)
          && OrderFee(q) == (if pickup || (promotion.Some? && promotion.value.kind == FreeDelivery) then 0.0 else 1500.0))
  {
    EveryCartIsPriced(operations);
    var c := Run(operations);
    LinesAreTheirWorth(c, c.rows);
    AmountsAgreeExactly(QuoteOf(c, promotion, pickup));
  }

  // ---------------------------------------------------------------------------------------------
  // The mutation service
  // ---------------------------------------------------------------------------------------------

  class CartTables {
    var rows: seq<Row>
    var options: map<Id, seq<Snapshot>>
    var totalQuantity: int
    var subtotal: real
    var total: real
    ghost var bases: map<Id, real>

    constructor ()
      ensures Contents() == EMPTY
    {
      rows, options, totalQuantity, subtotal, total, bases := [], map[], 0, 0.0, 0.0, map[];
    }

    ghost function Contents(): Cart
      reads this
    {
      Cart(rows, options, bases, totalQuantity, subtotal, total)
    }

    method ComputeUnitPrice(basePrice: real, selected: seq<Snapshot>) returns (price: real)
      ensures price == basePrice + DeltaSum(selected)
    {
      price := basePrice;
      for i := 0 to |selected|
        invariant price == basePrice + DeltaSum(selected[..i])
      {
        assert selected[..i + 1][..i] == selected[..i];
        price := price + selected[i].priceDelta;
      }
      assert selected[..|selected|] == selected;
    }

    method RecomputeTotals()
      modifies `totalQuantity, `subtotal, `total
      ensures Contents() == Recomputed(old(Contents()))
    {
      var quantity, amount := 0, 0.0;
      for i := 0 to |rows|
        invariant quantity == QuantitySum(rows[..i]) && amount == LineSum(rows[..i])
        invariant Contents() == old(Contents())
      {
        assert rows[..i + 1][..i] == rows[..i];
        quantity, amount := quantity + rows[i].quantity, amount + rows[i].lineTotal;
      }
      assert rows[..|rows|] == rows;
      totalQuantity, subtotal, total := quantity, amount, amount;
    }

    /** The selection checks shared by adding and updating. */
    method ResolveOptions(offer: Offer, ids: seq<Id>, quantity: int) returns (ok: bool, selected: seq<Snapshot>)
      requires quantity >= 1
      ensures ok <==> Selectable(offer, ids, quantity)
      ensures ok ==> selected == Snapshots(offer.menu, ids)
    {
      if !offer.available {
        return false, [];
      }
      var verdict, entries := ResolveSelectedOptions(offer.menu, ids, quantity);
      if !verdict.Valid? {
        return false, [];
      }
      selected := seq(|entries|, i requires 0 <= i < |entries| => Snapshot(entries[i].option.id, entries[i].option.priceDelta));
      ok := true;
    }

    method AddItem(id: Id, offer: Offer, ids: seq<Id>, quantity: int) returns (ok: bool)
      requires !HasRow(Contents(), id)
      modifies this
      ensures ok == Succeeds(old(Contents()), Add(id, offer, ids, quantity))
      ensures Contents() == Step(old(Contents()), Add(id, offer, ids, quantity))
    {
      if quantity < 1 {
        return false;
      }
      var selected;
      ok, selected := ResolveOptions(offer, ids, quantity);
      if !ok {
        return;
      }
      var unitPrice := ComputeUnitPrice(offer.basePrice, selected);
      rows := rows + [PricedRow(id, offer.menu.item, quantity, unitPrice)];
      options := options[id := selected];
      bases := bases[id := offer.basePrice];
      RecomputeTotals();
    }

    method UpdateItem(id: Id, offer: Offer, newIds: Option<seq<Id>>, quantity: int) returns (ok: bool)
      requires Priced(Contents())
      modifies this
      ensures ok == Succeeds(old(Contents()), Update(id, offer, newIds, quantity))
      ensures Contents() == Step(old(Contents()), Update(id, offer, newIds, quantity))
    {
      hide LineSum, QuantitySum, Acceptable, DistinctRows;
      if quantity < 1 {
        return false;
      }
      var found, row := FindCartItem(id);
      if !found {
        return false;
      }
      assert RowPriced(Contents(), row);
      var selected;
      ok, selected := ResolveOptions(offer, newIds.GetOr(OptionIds(options[id])), quantity);
      if !ok {
        return;
      }
      var unitPrice := row.unitPrice;
      if newIds.Some? {
        unitPrice := ComputeUnitPrice(offer.basePrice, selected);
        options := options[id := selected];
        bases := bases[id := offer.basePrice];
      }
      rows := WithRow(rows, PricedRow(id, row.item, quantity, unitPrice));
      RecomputeTotals();
    }

    method FindCartItem(id: Id) returns (found: bool, row: Row)
      ensures found <==> HasRow(Contents(), id)
      ensures found ==> row == FindRow(rows, id) && row in rows && row.id == id
    {
      var n := |rows|;
      assert rows[..n] == rows;
      while n > 0
        invariant 0 <= n <= |rows|
        invariant forall i :: n <= i < |rows| ==> rows[i].id != id
        invariant (exists i :: 0 <= i < n && rows[i].id == id) ==> FindRow(rows, id) == FindRow(rows[..n], id)
      {
        assert rows[..n][..n - 1] == rows[..n - 1];
        if rows[n - 1].id == id {
          return true, rows[n - 1];
        }
        n := n - 1;
      }
      return false, Row([], [], 0, 0.0, 0.0);
    }

    method RemoveItem(id: Id) returns (ok: bool)
      modifies this
      ensures ok == Succeeds(old(Contents()), Remove(id))
      ensures Contents() == Step(old(Contents()), Remove(id))
    {
      var found, row := FindCartItem(id);
      if !found {
        return false;
      }
      options := options - {id};
      rows := WithoutRow(rows, id);
      RecomputeTotals();
      return true;
    }

    method ClearCart()
      modifies this
      ensures Contents() == Step(old(Contents()), Clear)
      ensures rows == [] && subtotal == total == 0.0 && totalQuantity == 0
    {
      options := map[];
      rows := [];
      RecomputeTotals();
    }
  }
}
