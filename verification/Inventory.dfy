/**
 * The stock tables and what one order asks of them. Menu items, variant combinations and item
 * options carry the same stock columns, so one table indexed by the kind of resource holds them.
 */
module Inventory {
  import opened Base
  import opened Lots

  datatype Resource = MenuItem(id: Id) | Variant(id: Id) | ItemOption(id: Id)

  /** The stock columns of a row: tracking flag, nullable quantity, nullable low-stock threshold. */
  datatype StockRow = StockRow(tracked: bool, stock: Option<int>, threshold: Option<int>)

  type StockTable = map<Resource, StockRow>

  datatype Store = Store(stock: StockTable, lots: LotTable)

  datatype Choice = Choice(option: Id, tracked: bool)

  /** One order line as the lifecycle service receives it (tracking flags are snapshots). */
  datatype Line = Line(
    key: Option<string>, item: Id, quantity: nat, itemTracked: bool,
    variant: Option<Id>, variantTracked: bool, choices: seq<Choice>)

  /** A quantity wanted of one resource. */
  datatype Take = Take(resource: Resource, quantity: nat)

  function ChoiceTakes(choices: seq<Choice>, quantity: nat): seq<Take> {
    if choices == [] then []
    else (if choices[0].tracked then [Take(ItemOption(choices[0].option), quantity)] else [])
         + ChoiceTakes(choices[1..], quantity)
  }

  function ItemTakes(line: Line): seq<Take> {
    if line.itemTracked then [Take(MenuItem(line.item), line.quantity)] else []
  }

  function VariantTakes(line: Line): seq<Take> {
    if line.variantTracked && line.variant.Some? then [Take(Variant(line.variant.value), line.quantity)] else []
  }

  /** Everything a line takes, in the order it is taken. */
  function LineTakes(line: Line): seq<Take> {
    ItemTakes(line) + VariantTakes(line) + ChoiceTakes(line.choices, line.quantity)
  }

  function Takes(lines: seq<Line>): seq<Take> {
    if lines == [] then [] else LineTakes(lines[0]) + Takes(lines[1..])
  }

  predicate Touches(takes: seq<Take>, r: Resource) {
    exists i :: 0 <= i < |takes| && takes[i].resource == r
  }

  /** The summed demand of a list of takes for one resource. */
  function Demand(takes: seq<Take>, r: Resource): nat {
    if takes == [] then 0
    else (if takes[0].resource == r then takes[0].quantity else 0) + Demand(takes[1..], r)
  }

  lemma {:induction false} DemandOfConcatenation(a: seq<Take>, b: seq<Take>, r: Resource)
    ensures Demand(a + b, r) == Demand(a, r) + Demand(b, r)
    ensures Touches(a + b, r) <==> Touches(a, r) || Touches(b, r)
  {
    if a == [] {
      assert a + b == b;
    } else {
      assert (a + b)[1..] == a[1..] + b;
      DemandOfConcatenation(a[1..], b, r);
    }
    forall i | 0 <= i < |b| && b[i].resource == r ensures Touches(a + b, r) {
      assert (a + b)[|a| + i].resource == r;
    }
    forall i | 0 <= i < |a| && a[i].resource == r ensures Touches(a + b, r) {
      assert (a + b)[i].resource == r;
    }
  }

  lemma DemandOfOne(take: Take, r: Resource)
    ensures Demand([take], r) == if take.resource == r then take.quantity else 0
    ensures Touches([take], r) <==> take.resource == r
  {
    assert [take][1..] == [];
    assert [take][0] == take;
  }

  lemma {:induction false} UntouchedIsUndemanded(takes: seq<Take>, r: Resource)
    ensures !Touches(takes, r) ==> Demand(takes, r) == 0
  {
    if takes != [] {
      UntouchedIsUndemanded(takes[1..], r);
      if Touches(takes[1..], r) {
        var i :| 0 <= i < |takes[1..]| && takes[1..][i].resource == r;
        assert takes[i + 1].resource == r;
      }
    }
  }

  lemma {:induction false} TakesOfConcatenation(a: seq<Line>, b: seq<Line>)
    ensures Takes(a + b) == Takes(a) + Takes(b)
  {
    if a == [] {
      assert a + b == b;
    } else {
      assert (a + b)[1..] == a[1..] + b;
      TakesOfConcatenation(a[1..], b);
    }
  }

  lemma TakesToNext(lines: seq<Line>, i: nat)
    requires i < |lines|
    ensures Takes(lines[..i + 1]) == Takes(lines[..i]) + LineTakes(lines[i])
  {
    assert lines[..i + 1] == lines[..i] + [lines[i]];
    TakesOfConcatenation(lines[..i], [lines[i]]);
    assert [lines[i]][0] == lines[i] && [lines[i]][1..] == [];
    assert Takes([lines[i]]) == LineTakes(lines[i]);
  }

  lemma {:induction false} ChoiceTakesToNext(choices: seq<Choice>, quantity: nat, i: nat)
    requires i < |choices|
    ensures ChoiceTakes(choices[..i + 1], quantity) == ChoiceTakes(choices[..i], quantity)
      + (if choices[i].tracked then [Take(ItemOption(choices[i].option), quantity)] else [])
  {
    if i == 0 {
      assert choices[..1] == [choices[0]];
    } else {
      ChoiceTakesToNext(choices[1..], quantity, i - 1);
      assert choices[..i + 1][1..] == choices[1..][..i] && choices[..i][1..] == choices[1..][..i - 1];
    }
  }

  lemma DemandSplits(a: seq<Line>, b: seq<Line>, r: Resource)
    ensures Demand(Takes(a + b), r) == Demand(Takes(a), r) + Demand(Takes(b), r)
    ensures Touches(Takes(a + b), r) <==> Touches(Takes(a), r) || Touches(Takes(b), r)
  {
    TakesOfConcatenation(a, b);
    DemandOfConcatenation(Takes(a), Takes(b), r);
  }

  lemma WithoutOneOccurrence(a: seq<Line>, b: seq<Line>, k: nat)
    requires multiset(a) == multiset(b) && a != [] && k < |b| && b[k] == a[0]
    ensures multiset(a[1..]) == multiset(b[..k] + b[k + 1..])
  {
    assert multiset(a) == multiset{a[0]} + multiset(a[1..]) by { assert a == [a[0]] + a[1..]; }
    assert multiset(b) == multiset(b[..k]) + multiset{b[k]} + multiset(b[k + 1..]) by {
      assert b == b[..k] + [b[k]] + b[k + 1..];
    }
    assert multiset(a[1..]) == multiset(a) - multiset{a[0]};
    assert multiset(b[..k] + b[k + 1..]) == multiset(b) - multiset{b[k]};
  }

  lemma DemandWithOneMoved(b: seq<Line>, k: nat, r: Resource)
    requires k < |b|
    ensures Demand(Takes(b), r) == Demand(LineTakes(b[k]), r) + Demand(Takes(b[..k] + b[k + 1..]), r)
    ensures Touches(Takes(b), r) <==> Touches(LineTakes(b[k]), r) || Touches(Takes(b[..k] + b[k + 1..]), r)
  {
    var tail := b[k..];
    assert b == b[..k] + tail && tail[1..] == b[k + 1..];
    DemandSplits(b[..k], tail, r);
    DemandOfConcatenation(LineTakes(b[k]), Takes(b[k + 1..]), r);
    DemandSplits(b[..k], b[k + 1..], r);
  }

  /** Demand does not depend on the order of the lines. */
  lemma {:induction false} DemandIgnoresLineOrder(a: seq<Line>, b: seq<Line>, r: Resource)
    requires multiset(a) == multiset(b)
    ensures Demand(Takes(a), r) == Demand(Takes(b), r)
    ensures Touches(Takes(a), r) <==> Touches(Takes(b), r)
    decreases |a|
  {
    if a == [] {
      assert |multiset(b)| == 0;
    } else {
      var k := FindOccurrence(a, b);
      WithoutOneOccurrence(a, b, k);
      DemandIgnoresLineOrder(a[1..], b[..k] + b[k + 1..], r);
      DemandWithOneMoved(b, k, r);
      DemandOfConcatenation(LineTakes(a[0]), Takes(a[1..]), r);
    }
  }

  lemma FindOccurrence(a: seq<Line>, b: seq<Line>) returns (k: nat)
    requires multiset(a) == multiset(b) && a != []
    ensures k < |b| && b[k] == a[0]
  {
    assert a[0] in multiset(a) && a[0] in multiset(b);
    k :| 0 <= k < |b| && b[k] == a[0];
  }

  // ---------------------------------------------------------------------------------------------
  // Row updates
  // ---------------------------------------------------------------------------------------------

  /** The condition of a guarded decrement: tracked, not null, and enough left. */
  predicate CanDecrement(stock: StockTable, r: Resource, quantity: nat) {
    r in stock && stock[r].tracked && stock[r].stock.Some? && stock[r].stock.value >= quantity
  }

  /** Adds to a quantity, counting a missing one as zero; absent rows are left alone. */
  function Increment(stock: StockTable, r: Resource, quantity: int): StockTable {
    if r in stock then stock[r := stock[r].(stock := Some(stock[r].stock.GetOr(0) + quantity))] else stock
  }

  function IncrementLot(lots: LotTable, id: Id, quantity: int): LotTable {
    if id in lots then lots[id := lots[id].(remaining := lots[id].remaining + quantity)] else lots
  }

  predicate UsesLots(lots: LotTable, item: Id) {
    LotIds(lots, item) != {}
  }
}
