/**
 * Turning cart lines into order lines. The submission loads everything in three queries and looks
 * lines up in maps; that gives each line what looking it up on its own would give.
 */
module OrderCartItems {
  import opened Base
  import opened Inventory
  import opened VariantSignature

  datatype OptionKind = VariantSelector | AddOn

  datatype ItemRow = ItemRow(id: Id, tracked: bool)

  datatype OptionRow = OptionRow(id: Id, kind: OptionKind, tracked: bool)

  /** A variant combination of a menu item; its signature is unique within the item. */
  datatype Combination = Combination(
    id: Id, item: Id, options: seq<Id>, signature: string, active: bool, tracked: bool,
    stock: Option<int>)

  datatype MenuTables = MenuTables(items: seq<ItemRow>, options: seq<OptionRow>, combinations: seq<Combination>)

  datatype CartLine = CartLine(key: string, item: Id, quantity: nat, options: seq<Id>)

  datatype Result<+T> = Ok(value: T) | NoSuchCombination(item: Id)

  // ---------------------------------------------------------------------------------------------
  // One line on its own
  // ---------------------------------------------------------------------------------------------

  function FindItem(items: seq<ItemRow>, id: Id): Option<ItemRow> {
    if items == [] then None
    else if items[|items| - 1].id == id then Some(items[|items| - 1])
    else FindItem(items[..|items| - 1], id)
  }

  function FindOption(options: seq<OptionRow>, id: Id): Option<OptionRow> {
    if options == [] then None
    else if options[|options| - 1].id == id then Some(options[|options| - 1])
    else FindOption(options[..|options| - 1], id)
  }

  /** The first active row of an item with a signature. */
  function FindCombination(combinations: seq<Combination>, item: Id, signature: string): Option<Combination> {
    if combinations == [] then None
    else if combinations[0].item == item && combinations[0].signature == signature && combinations[0].active
    then Some(combinations[0])
    else FindCombination(combinations[1..], item, signature)
  }

  /** Ids that all trim to nothing have no signature to look up. */
  function FindByOptions(combinations: seq<Combination>, item: Id, ids: seq<Id>): Option<Combination> {
    if Signature(ids) == [] then None else FindCombination(combinations, item, Signature(ids))
  }

  function IsVariantOption(row: Option<OptionRow>): bool {
    row.Some? && row.value.kind.VariantSelector?
  }

  function VariantOptions(t: MenuTables, ids: seq<Id>): seq<Id> {
    if ids == [] then []
    else (if IsVariantOption(FindOption(t.options, ids[0])) then [ids[0]] else []) + VariantOptions(t, ids[1..])
  }

  function ChoicesOf(t: MenuTables, ids: seq<Id>): seq<Choice> {
    if ids == [] then []
    else
      var row := FindOption(t.options, ids[0]);
      [Choice(ids[0], row.Some? && row.value.tracked)] + ChoicesOf(t, ids[1..])
  }

  function OrderLineOf(line: CartLine, item: Option<ItemRow>, variant: Option<Combination>, choices: seq<Choice>): Line {
    Line(Some(line.key), line.item, line.quantity, item.Some? && item.value.tracked,
         if variant.Some? then Some(variant.value.id) else None, variant.Some? && variant.value.tracked, choices)
  }

  function BuildLine(t: MenuTables, line: CartLine): Result<Line> {
    var selected := VariantOptions(t, line.options);
    var variant := if selected == [] then None else FindByOptions(t.combinations, line.item, selected);
    if selected != [] && variant.None? then NoSuchCombination(line.item)
    else Ok(OrderLineOf(line, FindItem(t.items, line.item), variant, ChoicesOf(t, line.options)))
  }

  function BuildEach(t: MenuTables, lines: seq<CartLine>): Result<seq<Line>> {
    if lines == [] then Ok([])
    else
      var first, rest := BuildLine(t, lines[0]), BuildEach(t, lines[1..]);
      if first.NoSuchCombination? then NoSuchCombination(first.item)
      else if rest.NoSuchCombination? then rest
      else Ok([first.value] + rest.value)
  }

  // ---------------------------------------------------------------------------------------------
  // All lines from three lists
  // ---------------------------------------------------------------------------------------------

  /** The maps the submission builds; a later entry replaces an earlier one with the same key. */
  datatype Indexes = Indexes(items: map<Id, ItemRow>, options: map<Id, OptionRow>, combinations: map<string, Combination>)

  function ItemsById(items: seq<ItemRow>): map<Id, ItemRow> {
    if items == [] then map[]
    else ItemsById(items[..|items| - 1])[items[|items| - 1].id := items[|items| - 1]]
  }

  function OptionsById(options: seq<OptionRow>): map<Id, OptionRow> {
    if options == [] then map[]
    else OptionsById(options[..|options| - 1])[options[|options| - 1].id := options[|options| - 1]]
  }

  const KEY_SEPARATOR := ':'

  function CombinationKey(item: Id, signature: string): string {
    item + [KEY_SEPARATOR] + signature
  }

  function CombinationsByKey(combinations: seq<Combination>): map<string, Combination> {
    if combinations == [] then map[]
    else
      var last := combinations[|combinations| - 1];
      CombinationsByKey(combinations[..|combinations| - 1])[CombinationKey(last.item, last.signature) := last]
  }

  function ItemsOf(lines: seq<CartLine>): set<Id> {
    set i | 0 <= i < |lines| :: lines[i].item
  }

  function ListItems(items: seq<ItemRow>, ids: set<Id>): seq<ItemRow> {
    if items == [] then []
    else ListItems(items[..|items| - 1], ids) + (if items[|items| - 1].id in ids then [items[|items| - 1]] else [])
  }

  /** The active combinations of some items. */
  function ListCombinations(combinations: seq<Combination>, ids: set<Id>): seq<Combination> {
    if combinations == [] then []
    else (if combinations[0].item in ids && combinations[0].active then [combinations[0]] else [])
         + ListCombinations(combinations[1..], ids)
  }

  function Load(t: MenuTables, ids: set<Id>): Indexes {
    Indexes(ItemsById(ListItems(t.items, ids)), OptionsById(t.options),
            CombinationsByKey(ListCombinations(t.combinations, ids)))
  }

  function Get<V>(m: map<string, V>, key: string): Option<V> {
    if key in m then Some(m[key]) else None
  }

  function BatchedVariantOptions(x: Indexes, ids: seq<Id>): seq<Id> {
    if ids == [] then []
    else (if IsVariantOption(Get(x.options, ids[0])) then [x.options[ids[0]].id] else [])
         + BatchedVariantOptions(x, ids[1..])
  }

  function BatchedChoices(x: Indexes, ids: seq<Id>): seq<Choice> {
    if ids == [] then []
    else [Choice(ids[0], ids[0] in x.options && x.options[ids[0]].tracked)] + BatchedChoices(x, ids[1..])
  }

  function BatchedLine(x: Indexes, line: CartLine): Result<Line> {
    var selected := BatchedVariantOptions(x, line.options);
    var variant := if selected == [] then None else Get(x.combinations, CombinationKey(line.item, Signature(selected)));
    if selected != [] && variant.None? then NoSuchCombination(line.item)
    else Ok(OrderLineOf(line, Get(x.items, line.item), variant, BatchedChoices(x, line.options)))
  }

  function BatchedLines(x: Indexes, lines: seq<CartLine>): Result<seq<Line>> {
    if lines == [] then Ok([])
    else
      var first, rest := BatchedLine(x, lines[0]), BatchedLines(x, lines[1..]);
      if first.NoSuchCombination? then NoSuchCombination(first.item)
      else if rest.NoSuchCombination? then rest
      else Ok([first.value] + rest.value)
  }

  function BuildOrderCartItems(t: MenuTables, lines: seq<CartLine>): Result<seq<Line>> {
    BatchedLines(Load(t, ItemsOf(lines)), lines)
  }

  // ---------------------------------------------------------------------------------------------
  // The maps agree with the lookups
  // ---------------------------------------------------------------------------------------------

  lemma {:induction false} OptionsAreFound(options: seq<OptionRow>, id: Id)
    ensures Get(OptionsById(options), id) == FindOption(options, id)
    ensures id in OptionsById(options) ==> OptionsById(options)[id].id == id
  {
    if options != [] {
      OptionsAreFound(options[..|options| - 1], id);
    }
  }

  lemma {:induction false} ItemsAreFound(items: seq<ItemRow>, ids: set<Id>, id: Id)
    requires id in ids
    ensures Get(ItemsById(ListItems(items, ids)), id) == FindItem(items, id)
  {
    if items != [] {
      var n := |items| - 1;
      ItemsAreFound(items[..n], ids, id);
      var listed := ListItems(items[..n], ids);
      assert (listed + [items[n]])[..|listed|] == listed;
      assert listed + [] == listed;
    }
  }

  /** The key of a combination tells item and signature apart, as long as item ids have no colon. */
  lemma KeysTellApart(item: Id, signature: string, other: Id, otherSignature: string)
    requires KEY_SEPARATOR !in item && KEY_SEPARATOR !in other
    requires CombinationKey(item, signature) == CombinationKey(other, otherSignature)
    ensures item == other && signature == otherSignature
  {
    var u, v := [KEY_SEPARATOR] + signature, [KEY_SEPARATOR] + otherSignature;
    assert item + u == CombinationKey(item, signature) && other + v == CombinationKey(other, otherSignature);
    HeadsAgree(item, other, u, v, KEY_SEPARATOR);
    assert u[1..] == signature && v[1..] == otherSignature;
  }

  predicate Matches(c: Combination, item: Id, signature: string) {
    c.item == item && c.signature == signature
  }

  /** One combination per item and signature, none for no options, and item ids without a colon. */
  predicate SoundCombinations(combinations: seq<Combination>) {
    && (forall c :: c in combinations ==> KEY_SEPARATOR !in c.item && c.signature != [])
    && (forall i, j :: 0 <= i < j < |combinations| ==>
          !Matches(combinations[j], combinations[i].item, combinations[i].signature))
  }

  lemma {:induction false} IndexHoldsTheList(combinations: seq<Combination>, item: Id, signature: string)
    requires SoundCombinations(combinations) && KEY_SEPARATOR !in item
    ensures var found := Get(CombinationsByKey(combinations), CombinationKey(item, signature));
      && (found.Some? ==> found.value in combinations && Matches(found.value, item, signature))
      && (found.None? ==> forall c :: c in combinations ==> !Matches(c, item, signature))
  {
    if combinations != [] {
      var n := |combinations| - 1;
      var last := combinations[n];
      assert combinations == combinations[..n] + [last];
      IndexHoldsTheList(combinations[..n], item, signature);
      if CombinationKey(last.item, last.signature) == CombinationKey(item, signature) {
        KeysTellApart(last.item, last.signature, item, signature);
      }
    }
  }

  lemma {:induction false} ListingKeepsSound(combinations: seq<Combination>, ids: set<Id>)
    requires SoundCombinations(combinations)
    ensures SoundCombinations(ListCombinations(combinations, ids))
    ensures forall c :: c in ListCombinations(combinations, ids) <==> c in combinations && c.item in ids && c.active
  {
    if combinations != [] {
      ListingKeepsSound(combinations[1..], ids);
      assert combinations == [combinations[0]] + combinations[1..];
    }
  }

  lemma {:induction false} FindCombinationFinds(combinations: seq<Combination>, item: Id, signature: string)
    requires SoundCombinations(combinations)
    ensures var found := FindCombination(combinations, item, signature);
      && (found.Some? ==> found.value in combinations && Matches(found.value, item, signature) && found.value.active)
      && (forall c :: c in combinations && Matches(c, item, signature) && c.active ==> found == Some(c))
  {
    if combinations != [] {
      FindCombinationFinds(combinations[1..], item, signature);
      assert combinations == [combinations[0]] + combinations[1..];
    }
  }

  lemma CombinationsAreFound(combinations: seq<Combination>, ids: set<Id>, item: Id, signature: string)
    requires SoundCombinations(combinations) && item in ids && KEY_SEPARATOR !in item
    ensures Get(CombinationsByKey(ListCombinations(combinations, ids)), CombinationKey(item, signature))
      == if signature == [] then None else FindCombination(combinations, item, signature)
  {
    ListingKeepsSound(combinations, ids);
    IndexHoldsTheList(ListCombinations(combinations, ids), item, signature);
    FindCombinationFinds(combinations, item, signature);
  }

  lemma {:induction false} SelectedOptionsAgree(t: MenuTables, x: Indexes, ids: seq<Id>)
    requires x.options == OptionsById(t.options)
    ensures BatchedVariantOptions(x, ids) == VariantOptions(t, ids)
    ensures BatchedChoices(x, ids) == ChoicesOf(t, ids)
  {
    if ids != [] {
      OptionsAreFound(t.options, ids[0]);
      SelectedOptionsAgree(t, x, ids[1..]);
    }
  }

  lemma LineAgrees(t: MenuTables, ids: set<Id>, line: CartLine)
    requires SoundCombinations(t.combinations) && line.item in ids && KEY_SEPARATOR !in line.item
    ensures BatchedLine(Load(t, ids), line) == BuildLine(t, line)
  {
    var x := Load(t, ids);
    SelectedOptionsAgree(t, x, line.options);
    ItemsAreFound(t.items, ids, line.item);
    CombinationsAreFound(t.combinations, ids, line.item, Signature(VariantOptions(t, line.options)));
  }

  lemma {:induction false} LinesAgree(t: MenuTables, ids: set<Id>, lines: seq<CartLine>)
    requires SoundCombinations(t.combinations)
    requires forall i :: 0 <= i < |lines| ==> lines[i].item in ids && KEY_SEPARATOR !in lines[i].item
    ensures BatchedLines(Load(t, ids), lines) == BuildEach(t, lines)
  {
    if lines != [] {
      LineAgrees(t, ids, lines[0]);
      LinesAgree(t, ids, lines[1..]);
    }
  }

  /** Three queries for the whole cart give what looking every line up on its own gives. */
  lemma BatchingChangesNothing(t: MenuTables, lines: seq<CartLine>)
    requires SoundCombinations(t.combinations)
    requires forall i :: 0 <= i < |lines| ==> KEY_SEPARATOR !in lines[i].item
    ensures BuildOrderCartItems(t, lines) == BuildEach(t, lines)
  {
    LinesAgree(t, ItemsOf(lines), lines);
  }

  /** With a colon in an item id the index can hand a line another item's combination. */
  lemma ColonInAnIdMixesItems()
    ensures CombinationKey("a:b", "c") == CombinationKey("a", "b:c")
  {
    assert "a:b" + ":" + "c" == "a" + ":" + "b:c";
  }

  // ---------------------------------------------------------------------------------------------
  // What the chosen variant means
  // ---------------------------------------------------------------------------------------------

  predicate SignaturesAreCanonical(combinations: seq<Combination>) {
    forall c :: c in combinations ==> HaveNoSeparator(c.options) && c.signature == Signature(c.options)
  }

  /** An active combination of the item for exactly the chosen set of variant options. */
  predicate Offers(t: MenuTables, c: Combination, line: CartLine) {
    c in t.combinations && c.active && c.item == line.item
    && Selection(c.options) == Selection(VariantOptions(t, line.options))
  }

  predicate Gives(t: MenuTables, c: Combination, line: CartLine) {
    var built := BuildLine(t, line);
    built.Ok? && built.value.variant == Some(c.id) && built.value.variantTracked == c.tracked
  }

  /** A line with variant options gets the combination of exactly those options, or is refused for want of one. */
  lemma VariantIsTheChosenSet(t: MenuTables, line: CartLine)
    requires SoundCombinations(t.combinations) && SignaturesAreCanonical(t.combinations)
    requires HaveNoSeparator(VariantOptions(t, line.options)) && VariantOptions(t, line.options) != []
    ensures BuildLine(t, line).Ok? ==> exists c :: c in t.combinations && Offers(t, c, line) && Gives(t, c, line)
    ensures forall c :: c in t.combinations && Offers(t, c, line) ==> Gives(t, c, line)
  {
    var selected := VariantOptions(t, line.options);
    FindCombinationFinds(t.combinations, line.item, Signature(selected));
    forall c | c in t.combinations
      ensures Signature(c.options) == Signature(selected) <==> Selection(c.options) == Selection(selected)
    {
      SignatureIdentifiesSelection(c.options, selected);
    }
  }

  // ---------------------------------------------------------------------------------------------
  // What the built lines say
  // ---------------------------------------------------------------------------------------------

  /** Item and option rows have ids of their own. */
  predicate PrimaryKeys(t: MenuTables) {
    && (forall i, j :: 0 <= i < j < |t.items| ==> t.items[i].id != t.items[j].id)
    && (forall i, j :: 0 <= i < j < |t.options| ==> t.options[i].id != t.options[j].id)
  }

  predicate TracksItem(t: MenuTables, item: Id) {
    exists i :: 0 <= i < |t.items| && t.items[i].id == item && t.items[i].tracked
  }

  predicate TracksOption(t: MenuTables, option: Id) {
    exists i :: 0 <= i < |t.options| && t.options[i].id == option && t.options[i].tracked
  }

  /** The order line repeats the cart line, with the tracking flags of the tables' own rows. */
  predicate SaysTheSame(t: MenuTables, line: CartLine, built: Line) {
    && built.key == Some(line.key) && built.item == line.item && built.quantity == line.quantity
    && (built.itemTracked <==> TracksItem(t, line.item))
    && |built.choices| == |line.options|
    && forall j :: 0 <= j < |line.options| ==>
         built.choices[j].option == line.options[j] && (built.choices[j].tracked <==> TracksOption(t, line.options[j]))
  }

  lemma {:induction false} FoundItemIsTheRow(t: MenuTables, items: seq<ItemRow>, id: Id)
    requires items <= t.items && PrimaryKeys(t)
    ensures var row := FindItem(items, id);
      (row.Some? && row.value.tracked) <==> exists i :: 0 <= i < |items| && items[i].id == id && items[i].tracked
  {
    if items != [] {
      var n := |items| - 1;
      FoundItemIsTheRow(t, items[..n], id);
      assert forall i :: 0 <= i < |items| ==> items[i] == t.items[i];
    }
  }

  lemma {:induction false} FoundOptionIsTheRow(t: MenuTables, options: seq<OptionRow>, id: Id)
    requires options <= t.options && PrimaryKeys(t)
    ensures var row := FindOption(options, id);
      (row.Some? && row.value.tracked) <==> exists i :: 0 <= i < |options| && options[i].id == id && options[i].tracked
  {
    if options != [] {
      var n := |options| - 1;
      FoundOptionIsTheRow(t, options[..n], id);
      assert forall i :: 0 <= i < |options| ==> options[i] == t.options[i];
    }
  }

  lemma {:induction false} ChoicesSayTheSame(t: MenuTables, ids: seq<Id>)
    requires PrimaryKeys(t)
    ensures var choices := ChoicesOf(t, ids);
      && |choices| == |ids|
      && forall j :: 0 <= j < |ids| ==>
           choices[j].option == ids[j] && (choices[j].tracked <==> TracksOption(t, ids[j]))
  {
    if ids != [] {
      FoundOptionIsTheRow(t, t.options, ids[0]);
      ChoicesSayTheSame(t, ids[1..]);
    }
  }

  /** The variant options of a selection: those whose row selects a variant, and no add-ons. */
  lemma {:induction false} VariantOptionsAreSelectors(t: MenuTables, ids: seq<Id>, id: Id)
    requires PrimaryKeys(t)
    ensures id in VariantOptions(t, ids) <==> (
      id in ids && exists i :: 0 <= i < |t.options| && t.options[i].id == id && t.options[i].kind == VariantSelector)
  {
    if ids != [] {
      VariantOptionsAreSelectors(t, ids[1..], id);
      SelectorIsTheRow(t, t.options, ids[0]);
    }
  }

  lemma {:induction false} SelectorIsTheRow(t: MenuTables, options: seq<OptionRow>, id: Id)
    requires options <= t.options && PrimaryKeys(t)
    ensures IsVariantOption(FindOption(options, id))
      <==> exists i :: 0 <= i < |options| && options[i].id == id && options[i].kind == VariantSelector
  {
    if options != [] {
      SelectorIsTheRow(t, options[..|options| - 1], id);
      assert forall i :: 0 <= i < |options| ==> options[i] == t.options[i];
    }
  }

  lemma LineSaysTheSame(t: MenuTables, line: CartLine)
    requires PrimaryKeys(t) && BuildLine(t, line).Ok?
    ensures SaysTheSame(t, line, BuildLine(t, line).value)
    ensures VariantOptions(t, line.options) == [] ==>
      BuildLine(t, line).value.variant == None && !BuildLine(t, line).value.variantTracked
  {
    FoundItemIsTheRow(t, t.items, line.item);
    ChoicesSayTheSame(t, line.options);
  }

  lemma {:induction false} EachSaysTheSame(t: MenuTables, lines: seq<CartLine>)
    requires PrimaryKeys(t) && BuildEach(t, lines).Ok?
    ensures var built := BuildEach(t, lines).value;
      |built| == |lines| && forall i :: 0 <= i < |lines| ==> SaysTheSame(t, lines[i], built[i])
  {
    if lines != [] {
      LineSaysTheSame(t, lines[0]);
      EachSaysTheSame(t, lines[1..]);
    }
  }

  /** Every line the submission builds says what its cart line and the menu's rows say. */
  lemma BuiltLinesFollowTheCart(t: MenuTables, lines: seq<CartLine>)
    requires SoundCombinations(t.combinations) && PrimaryKeys(t)
    requires forall i :: 0 <= i < |lines| ==> KEY_SEPARATOR !in lines[i].item
    requires BuildOrderCartItems(t, lines).Ok?
    ensures var built := BuildOrderCartItems(t, lines).value;
      |built| == |lines| && forall i :: 0 <= i < |lines| ==> SaysTheSame(t, lines[i], built[i])
  {
    BatchingChangesNothing(t, lines);
    EachSaysTheSame(t, lines);
  }

  /** How much of an item a cart holds, and how often its lines, by quantity, choose an option. */
  function QuantityOf(lines: seq<CartLine>, item: Id): nat {
    if lines == [] then 0 else (if lines[0].item == item then lines[0].quantity else 0) + QuantityOf(lines[1..], item)
  }

  function Occurrences(ids: seq<Id>, id: Id): nat {
    if ids == [] then 0 else (if ids[0] == id then 1 else 0) + Occurrences(ids[1..], id)
  }

  function QuantityChosen(lines: seq<CartLine>, option: Id): nat {
    if lines == [] then 0
    else lines[0].quantity * Occurrences(lines[0].options, option) + QuantityChosen(lines[1..], option)
  }

  lemma FirstChoiceDemand(choices: seq<Choice>, quantity: nat, r: Resource)
    requires choices != []
    ensures Demand(ChoiceTakes(choices, quantity), r)
      == (if choices[0].tracked && r == ItemOption(choices[0].option) then quantity else 0)
         + Demand(ChoiceTakes(choices[1..], quantity), r)
  {
    var first := if choices[0].tracked then [Take(ItemOption(choices[0].option), quantity)] else [];
    DemandOfConcatenation(first, ChoiceTakes(choices[1..], quantity), r);
    DemandOfOne(Take(ItemOption(choices[0].option), quantity), r);
  }

  lemma {:induction false} ChoicesDemand(choices: seq<Choice>, quantity: nat, ids: seq<Id>, tracks: bool, option: Id)
    requires |choices| == |ids| && forall j :: 0 <= j < |ids| ==> choices[j].option == ids[j]
    requires forall j :: 0 <= j < |ids| && ids[j] == option ==> choices[j].tracked == tracks
    ensures Demand(ChoiceTakes(choices, quantity), ItemOption(option)) == if tracks then quantity * Occurrences(ids, option) else 0
  {
    if choices != [] {
      hide Demand, ChoiceTakes;
      ChoicesDemand(choices[1..], quantity, ids[1..], tracks, option);
      FirstChoiceDemand(choices, quantity, ItemOption(option));
      var rest := Occurrences(ids[1..], option);
      assert quantity * (1 + rest) == quantity + quantity * rest;
    }
  }

  lemma {:induction false} ChoicesDemandOptionsOnly(choices: seq<Choice>, quantity: nat, r: Resource)
    requires !r.ItemOption?
    ensures Demand(ChoiceTakes(choices, quantity), r) == 0
  {
    if choices != [] {
      FirstChoiceDemand(choices, quantity, r);
      ChoicesDemandOptionsOnly(choices[1..], quantity, r);
    }
  }

  lemma LineDemand(t: MenuTables, line: CartLine, built: Line, item: Id, option: Id)
    requires SaysTheSame(t, line, built)
    ensures Demand(LineTakes(built), MenuItem(item)) == if line.item == item && TracksItem(t, item) then line.quantity else 0
    ensures Demand(LineTakes(built), ItemOption(option))
      == if TracksOption(t, option) then line.quantity * Occurrences(line.options, option) else 0
  {
    ChoicesDemand(built.choices, built.quantity, line.options, TracksOption(t, option), option);
    ChoicesDemandOptionsOnly(built.choices, built.quantity, MenuItem(item));
    forall r ensures Demand(LineTakes(built), r) == Demand(ItemTakes(built), r) + Demand(VariantTakes(built), r)
                     + Demand(ChoiceTakes(built.choices, built.quantity), r)
    {
      DemandOfConcatenation(ItemTakes(built) + VariantTakes(built), ChoiceTakes(built.choices, built.quantity), r);
      DemandOfConcatenation(ItemTakes(built), VariantTakes(built), r);
    }
  }

  lemma {:induction false} LinesDemand(t: MenuTables, lines: seq<CartLine>, built: seq<Line>, item: Id, option: Id)
    requires |built| == |lines| && forall i :: 0 <= i < |lines| ==> SaysTheSame(t, lines[i], built[i])
    ensures Demand(Takes(built), MenuItem(item)) == if TracksItem(t, item) then QuantityOf(lines, item) else 0
    ensures Demand(Takes(built), ItemOption(option)) == if TracksOption(t, option) then QuantityChosen(lines, option) else 0
  {
    hide SaysTheSame, LineTakes, TracksItem, TracksOption;
    if lines != [] {
      LineDemand(t, lines[0], built[0], item, option);
      LinesDemand(t, lines[1..], built[1..], item, option);
      DemandOfConcatenation(LineTakes(built[0]), Takes(built[1..]), MenuItem(item));
      DemandOfConcatenation(LineTakes(built[0]), Takes(built[1..]), ItemOption(option));
    }
  }

  /**
   * What the submission asks of the stock is the cart: of a tracked item the summed quantities, of a
   * tracked option the quantities of the lines that choose it, and of untracked rows nothing.
   */
  lemma DemandIsTheCart(t: MenuTables, lines: seq<CartLine>, item: Id, option: Id)
    requires SoundCombinations(t.combinations) && PrimaryKeys(t)
    requires forall i :: 0 <= i < |lines| ==> KEY_SEPARATOR !in lines[i].item
    requires BuildOrderCartItems(t, lines).Ok?
    ensures var takes := Takes(BuildOrderCartItems(t, lines).value);
      && Demand(takes, MenuItem(item)) == (if TracksItem(t, item) then QuantityOf(lines, item) else 0)
      && Demand(takes, ItemOption(option)) == (if TracksOption(t, option) then QuantityChosen(lines, option) else 0)
  {
    BuiltLinesFollowTheCart(t, lines);
    LinesDemand(t, lines, BuildOrderCartItems(t, lines).value, item, option);
  }
}
