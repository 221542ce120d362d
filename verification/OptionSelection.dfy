/**
 * The rule an option selection must meet, and the two checks of it that were written separately:
 * the cart's, when a line is added or changed, and the checkout's, when the cart is submitted.
 */
module OptionSelection {
  import opened Base
  import opened VariantSignature
  import opened OrderCartItems

  datatype GroupOption = GroupOption(id: Id, active: bool, tracked: bool, stock: Option<int>, priceDelta: real)

  datatype Group = Group(
    id: Id, kind: OptionKind, active: bool, minSelect: nat, maxSelect: nat, options: seq<GroupOption>)

  /** A menu item as both checks read it. */
  datatype Menu = Menu(item: Id, groups: seq<Group>, combinations: seq<Combination>)

  /** An active option with the group it is listed under. */
  datatype Entry = Entry(option: GroupOption, group: Id, kind: OptionKind)

  datatype Verdict = Valid | Duplicate | UnknownOption | GroupRule | OptionStock | NoCombination | VariantStock

  // ---------------------------------------------------------------------------------------------
  // The rule
  // ---------------------------------------------------------------------------------------------

  function ActiveGroups(groups: seq<Group>): seq<Group> {
    if groups == [] then []
    else
      var n := |groups| - 1;
      ActiveGroups(groups[..n]) + (if groups[n].active then [groups[n]] else [])
  }

  function WithOptions(index: map<Id, Entry>, group: Group, options: seq<GroupOption>): map<Id, Entry> {
    if options == [] then index
    else
      var last := options[|options| - 1];
      var before := WithOptions(index, group, options[..|options| - 1]);
      if last.active then before[last.id := Entry(last, group.id, group.kind)] else before
  }

  /** The active options of a list of groups, by id. */
  function Index(groups: seq<Group>): map<Id, Entry> {
    if groups == [] then map[]
    else
      var last := groups[|groups| - 1];
      WithOptions(Index(groups[..|groups| - 1]), last, last.options)
  }

  function CurrentOptions(menu: Menu): map<Id, Entry> {
    Index(ActiveGroups(menu.groups))
  }

  predicate AllCurrent(index: map<Id, Entry>, ids: seq<Id>) {
    forall i :: 0 <= i < |ids| ==> ids[i] in index
  }

  function CountIn(index: map<Id, Entry>, ids: seq<Id>, group: Id): nat
    requires AllCurrent(index, ids)
  {
    if ids == [] then 0
    else CountIn(index, ids[..|ids| - 1], group) + (if index[ids[|ids| - 1]].group == group then 1 else 0)
  }

  predicate GroupsSatisfied(groups: seq<Group>, index: map<Id, Entry>, ids: seq<Id>)
    requires AllCurrent(index, ids)
  {
    forall i :: 0 <= i < |groups| ==> groups[i].minSelect <= CountIn(index, ids, groups[i].id) <= groups[i].maxSelect
  }

  predicate Suffices(tracked: bool, stock: Option<int>, quantity: nat) {
    !tracked || stock.GetOr(0) >= quantity
  }

  predicate OptionsSuffice(index: map<Id, Entry>, ids: seq<Id>, quantity: nat)
    requires AllCurrent(index, ids)
  {
    forall i :: 0 <= i < |ids| ==> Suffices(index[ids[i]].option.tracked, index[ids[i]].option.stock, quantity)
  }

  function VariantIds(index: map<Id, Entry>, ids: seq<Id>): seq<Id>
    requires AllCurrent(index, ids)
  {
    if ids == [] then []
    else
      var n := |ids| - 1;
      VariantIds(index, ids[..n]) + (if index[ids[n]].kind.VariantSelector? then [ids[n]] else [])
  }

  predicate VariantSuffices(menu: Menu, variants: seq<Id>, quantity: nat) {
    variants != [] ==>
      var c := FindByOptions(menu.combinations, menu.item, variants);
      c.Some? && Suffices(c.value.tracked, c.value.stock, quantity)
  }

  /** Active options, each group's limits, option stock, and an active variant in stock. */
  predicate Acceptable(menu: Menu, ids: seq<Id>, quantity: nat) {
    var index := CurrentOptions(menu);
    && AllCurrent(index, ids)
    && GroupsSatisfied(ActiveGroups(menu.groups), index, ids)
    && OptionsSuffice(index, ids, quantity)
    && VariantSuffices(menu, VariantIds(index, ids), quantity)
  }

  predicate ListsActive(group: Group, id: Id) {
    exists j :: 0 <= j < |group.options| && group.options[j].id == id && group.options[j].active
  }

  lemma {:induction false} WithOptionsAddsActive(index: map<Id, Entry>, group: Group, options: seq<GroupOption>, id: Id)
    ensures id in WithOptions(index, group, options)
      <==> id in index || exists j :: 0 <= j < |options| && options[j].id == id && options[j].active
  {
    if options != [] {
      WithOptionsAddsActive(index, group, options[..|options| - 1], id);
    }
  }

  /** The index holds exactly the active options of the active groups. */
  lemma {:induction false} IndexHoldsActiveOptions(groups: seq<Group>, id: Id)
    ensures id in Index(ActiveGroups(groups))
      <==> exists i :: 0 <= i < |groups| && groups[i].active && ListsActive(groups[i], id)
  {
    if groups != [] {
      var n := |groups| - 1;
      IndexHoldsActiveOptions(groups[..n], id);
      var before := ActiveGroups(groups[..n]);
      if groups[n].active {
        assert (before + [groups[n]])[..|before|] == before;
        WithOptionsAddsActive(Index(before), groups[n], groups[n].options, id);
      } else {
        assert before + [] == before;
      }
      forall i | 0 <= i < n ensures groups[i] == groups[..n][i] {
      }
    }
  }

  // ---------------------------------------------------------------------------------------------
  // The cart's check
  // ---------------------------------------------------------------------------------------------

  method HasDuplicates(ids: seq<Id>) returns (found: bool)
    ensures found <==> !NoDuplicates(ids)
  {
    var seen: set<Id> := {};
    for i := 0 to |ids|
      invariant NoDuplicates(ids[..i])
      invariant forall id :: id in seen <==> id in ids[..i]
    {
      if ids[i] in seen {
        var j :| 0 <= j < i && ids[j] == ids[i];
        return true;
      }
      seen := seen + {ids[i]};
    }
    assert ids[..|ids|] == ids;
    return false;
  }

  function ActiveOptions(options: seq<GroupOption>): seq<GroupOption> {
    if options == [] then []
    else
      var n := |options| - 1;
      ActiveOptions(options[..n]) + (if options[n].active then [options[n]] else [])
  }

  lemma {:induction false} FilteringFirstIsTheSame(index: map<Id, Entry>, group: Group, options: seq<GroupOption>)
    ensures WithOptions(index, group, ActiveOptions(options)) == WithOptions(index, group, options)
    ensures forall option :: option in ActiveOptions(options) ==> option.active
  {
    if options != [] {
      var n := |options| - 1;
      FilteringFirstIsTheSame(index, group, options[..n]);
      var before := ActiveOptions(options[..n]);
      if options[n].active {
        var all := before + [options[n]];
        assert ActiveOptions(options) == all && all[..|before|] == before;
      } else {
        assert ActiveOptions(options) == before;
      }
    }
  }

  function GetCount(counts: map<Id, nat>, group: Id): nat {
    if group in counts then counts[group] else 0
  }

  predicate AllZero(counts: map<Id, nat>) {
    forall g :: g in counts ==> counts[g] == 0
  }

  /** The cart filters each group's options first, then enters them. */
  method LoadCartOptions(groups: seq<Group>) returns (optionMap: map<Id, Entry>, counts: map<Id, nat>)
    ensures optionMap == Index(groups) && AllZero(counts)
  {
    optionMap, counts := map[], map[];
    for i := 0 to |groups|
      invariant optionMap == Index(groups[..i]) && AllZero(counts)
    {
      var options := ActiveOptions(groups[i].options);
      FilteringFirstIsTheSame(optionMap, groups[i], groups[i].options);
      ghost var before := optionMap;
      for j := 0 to |options|
        invariant optionMap == WithOptions(before, groups[i], options[..j])
      {
        assert options[..j + 1][..j] == options[..j];
        optionMap := optionMap[options[j].id := Entry(options[j], groups[i].id, groups[i].kind)];
      }
      assert options[..|options|] == options && groups[..i + 1][..i] == groups[..i];
      counts := counts[groups[i].id := 0];
    }
    assert groups[..|groups|] == groups;
  }

  /** Looks every selected option up and counts it towards its group. */
  method TakeSelections(ids: seq<Id>, optionMap: map<Id, Entry>, zeros: map<Id, nat>)
    returns (known: bool, selected: seq<Entry>, counts: map<Id, nat>)
    requires AllZero(zeros)
    ensures known <==> AllCurrent(optionMap, ids)
    ensures known ==> |selected| == |ids| && forall i :: 0 <= i < |ids| ==> selected[i] == optionMap[ids[i]]
    ensures known ==> forall g :: GetCount(counts, g) == CountIn(optionMap, ids, g)
  {
    selected, counts := [], zeros;
    for k := 0 to |ids|
      invariant AllCurrent(optionMap, ids[..k]) && |selected| == k
      invariant forall i :: 0 <= i < k ==> selected[i] == optionMap[ids[i]]
      invariant forall g :: GetCount(counts, g) == CountIn(optionMap, ids[..k], g)
    {
      if ids[k] !in optionMap {
        return false, selected, counts;
      }
      var entry := optionMap[ids[k]];
      assert ids[..k + 1][..k] == ids[..k];
      counts := counts[entry.group := GetCount(counts, entry.group) + 1];
      selected := selected + [entry];
    }
    assert ids[..|ids|] == ids;
    known := true;
  }

  method WithinLimits(groups: seq<Group>, counts: map<Id, nat>) returns (ok: bool)
    ensures ok <==> forall i :: 0 <= i < |groups| ==>
      groups[i].minSelect <= GetCount(counts, groups[i].id) <= groups[i].maxSelect
  {
    for i := 0 to |groups|
      invariant forall j :: 0 <= j < i ==>
        groups[j].minSelect <= GetCount(counts, groups[j].id) <= groups[j].maxSelect
    {
      var selectedCount := GetCount(counts, groups[i].id);
      if selectedCount < groups[i].minSelect || selectedCount > groups[i].maxSelect {
        return false;
      }
    }
    return true;
  }

  /** Accepts exactly the duplicate-free acceptable selections, and hands out the options selected. */
  method ResolveSelectedOptions(menu: Menu, ids: seq<Id>, quantity: nat) returns (verdict: Verdict, selected: seq<Entry>)
    ensures verdict.Valid? <==> NoDuplicates(ids) && Acceptable(menu, ids, quantity)
    ensures verdict.Duplicate? <==> !NoDuplicates(ids)
    ensures verdict.Valid? ==> |selected| == |ids|
    ensures verdict.Valid? ==> forall i :: 0 <= i < |ids| ==> selected[i] == CurrentOptions(menu)[ids[i]]
  {
    selected := [];
    var duplicated := HasDuplicates(ids);
    if duplicated {
      return Duplicate, [];
    }
    var groups := ActiveGroups(menu.groups);
    var optionMap, zeros := LoadCartOptions(groups);
    var known, options, counts := TakeSelections(ids, optionMap, zeros);
    if !known {
      return UnknownOption, [];
    }
    selected := options;
    var limited := WithinLimits(groups, counts);
    if !limited {
      return GroupRule, [];
    }
    for k := 0 to |ids|
      invariant forall i :: 0 <= i < k ==> Suffices(selected[i].option.tracked, selected[i].option.stock, quantity)
    {
      if selected[k].option.tracked && selected[k].option.stock.GetOr(0) < quantity {
        return OptionStock, [];
      }
    }
    verdict := CheckCartVariant(menu, optionMap, ids, selected, quantity);
  }

  method CheckCartVariant(menu: Menu, index: map<Id, Entry>, ids: seq<Id>, selected: seq<Entry>, quantity: nat)
    returns (verdict: Verdict)
    requires AllCurrent(index, ids) && |selected| == |ids|
    requires forall i :: 0 <= i < |ids| ==> selected[i] == index[ids[i]]
    ensures verdict.Valid? <==> VariantSuffices(menu, VariantIds(index, ids), quantity)
    ensures verdict.Valid? || verdict.NoCombination? || verdict.VariantStock?
  {
    var variants: seq<Id> := [];
    for k := 0 to |ids|
      invariant variants == VariantIds(index, ids[..k])
    {
      assert ids[..k + 1][..k] == ids[..k];
      if selected[k].kind.VariantSelector? {
        variants := variants + [ids[k]];
      }
    }
    assert ids[..|ids|] == ids;
    if |variants| == 0 {
      return Valid;
    }
    var combination := FindByOptions(menu.combinations, menu.item, variants);
    if combination.None? {
      return NoCombination;
    }
    if combination.value.tracked && combination.value.stock.GetOr(0) < quantity {
      return VariantStock;
    }
    return Valid;
  }

  // ---------------------------------------------------------------------------------------------
  // The checkout's check
  // ---------------------------------------------------------------------------------------------

  /** The checkout enters the active options as it goes. */
  method LoadCheckoutOptions(groups: seq<Group>) returns (counts: map<Id, nat>, optionsById: map<Id, Entry>)
    ensures optionsById == Index(groups) && AllZero(counts)
  {
    counts, optionsById := map[], map[];
    for i := 0 to |groups|
      invariant optionsById == Index(groups[..i]) && AllZero(counts)
    {
      counts := counts[groups[i].id := 0];
      var options := groups[i].options;
      ghost var before := optionsById;
      for j := 0 to |options|
        invariant optionsById == WithOptions(before, groups[i], options[..j])
      {
        assert options[..j + 1][..j] == options[..j];
        if options[j].active {
          optionsById := optionsById[options[j].id := Entry(options[j], groups[i].id, groups[i].kind)];
        }
      }
      assert options[..|options|] == options && groups[..i + 1][..i] == groups[..i];
    }
    assert groups[..|groups|] == groups;
  }

  /** Checks the stock of each option together with its existence, counting as it goes. */
  method CountSelections(ids: seq<Id>, optionsById: map<Id, Entry>, zeros: map<Id, nat>, quantity: nat)
    returns (verdict: Verdict, counts: map<Id, nat>)
    requires AllZero(zeros)
    ensures verdict.Valid? <==> AllCurrent(optionsById, ids) && OptionsSuffice(optionsById, ids, quantity)
    ensures verdict.Valid? || verdict.UnknownOption? || verdict.OptionStock?
    ensures verdict.Valid? ==> forall g :: GetCount(counts, g) == CountIn(optionsById, ids, g)
  {
    counts := zeros;
    for k := 0 to |ids|
      invariant AllCurrent(optionsById, ids[..k]) && OptionsSuffice(optionsById, ids[..k], quantity)
      invariant forall g :: GetCount(counts, g) == CountIn(optionsById, ids[..k], g)
    {
      if ids[k] !in optionsById {
        return UnknownOption, counts;
      }
      var entry := optionsById[ids[k]];
      if entry.option.tracked && entry.option.stock.GetOr(0) < quantity {
        return OptionStock, counts;
      }
      assert ids[..k + 1][..k] == ids[..k];
      counts := counts[entry.group := GetCount(counts, entry.group) + 1];
    }
    assert ids[..|ids|] == ids;
    verdict := Valid;
  }

  /** Accepts exactly the acceptable selections; duplicates it does not look for. */
  method AssertSelectionsRemainValid(menu: Menu, ids: seq<Id>, quantity: nat) returns (verdict: Verdict)
    ensures verdict.Valid? <==> Acceptable(menu, ids, quantity)
    ensures !verdict.Duplicate?
  {
    var groups := ActiveGroups(menu.groups);
    var zeros, optionsById := LoadCheckoutOptions(groups);
    var counts;
    verdict, counts := CountSelections(ids, optionsById, zeros, quantity);
    if !verdict.Valid? {
      return;
    }
    var limited := WithinLimits(groups, counts);
    if !limited {
      return GroupRule;
    }
    verdict := CheckCheckoutVariant(menu, optionsById, ids, quantity);
  }

  method CheckCheckoutVariant(menu: Menu, index: map<Id, Entry>, ids: seq<Id>, quantity: nat) returns (verdict: Verdict)
    requires AllCurrent(index, ids)
    ensures verdict.Valid? <==> VariantSuffices(menu, VariantIds(index, ids), quantity)
    ensures verdict.Valid? || verdict.NoCombination? || verdict.VariantStock?
  {
    var variants: seq<Id> := [];
    for k := 0 to |ids|
      invariant variants == VariantIds(index, ids[..k])
    {
      assert ids[..k + 1][..k] == ids[..k];
      if ids[k] in index && index[ids[k]].kind.VariantSelector? {
        variants := variants + [ids[k]];
      }
    }
    assert ids[..|ids|] == ids;
    if |variants| == 0 {
      return Valid;
    }
    var combination := FindByOptions(menu.combinations, menu.item, variants);
    if combination.None? {
      return NoCombination;
    }
    if combination.value.tracked && combination.value.stock.GetOr(0) < quantity {
      return VariantStock;
    }
    return Valid;
  }

  /** On one snapshot both checks say the same of every selection without duplicates. */
  method BothChecksAgree(menu: Menu, ids: seq<Id>, quantity: nat) returns (cart: bool, checkout: bool)
    ensures cart <==> checkout && NoDuplicates(ids)
  {
    var verdict, _ := ResolveSelectedOptions(menu, ids, quantity);
    var again := AssertSelectionsRemainValid(menu, ids, quantity);
    cart, checkout := verdict.Valid?, again.Valid?;
  }

  // ---------------------------------------------------------------------------------------------
  // The order of the selection does not matter
  // ---------------------------------------------------------------------------------------------

  function MembersOf(index: map<Id, Entry>, ids: seq<Id>, group: Id): set<Id>
    requires AllCurrent(index, ids)
  {
    set i | 0 <= i < |ids| && index[ids[i]].group == group :: ids[i]
  }

  lemma MembersWithOneMore(index: map<Id, Entry>, ids: seq<Id>, group: Id)
    requires AllCurrent(index, ids) && NoDuplicates(ids) && ids != []
    ensures var n := |ids| - 1; var before := MembersOf(index, ids[..n], group);
      ids[n] !in before
      && MembersOf(index, ids, group) == before + (if index[ids[n]].group == group then {ids[n]} else {})
  {
  }

  lemma {:induction false} CountInByMembership(index: map<Id, Entry>, ids: seq<Id>, group: Id)
    requires AllCurrent(index, ids) && NoDuplicates(ids)
    ensures CountIn(index, ids, group) == |MembersOf(index, ids, group)|
  {
    if ids != [] {
      CountInByMembership(index, ids[..|ids| - 1], group);
      MembersWithOneMore(index, ids, group);
    }
  }

  lemma {:induction false} VariantIdsByMembership(index: map<Id, Entry>, ids: seq<Id>, id: Id)
    requires AllCurrent(index, ids)
    ensures id in VariantIds(index, ids) <==> id in ids && index[id].kind.VariantSelector?
  {
    if ids != [] {
      VariantIdsByMembership(index, ids[..|ids| - 1], id);
      assert ids == ids[..|ids| - 1] + [ids[|ids| - 1]];
    }
  }

  lemma {:induction false} TrimmedByMembership(ids: seq<Id>, id: Id)
    ensures id in Trimmed(ids) <==> id != [] && exists i :: 0 <= i < |ids| && Trim(ids[i]) == id
  {
    if ids != [] {
      TrimmedByMembership(ids[1..], id);
      if id in Trimmed(ids[1..]) {
        var i :| 0 <= i < |ids[1..]| && Trim(ids[1..][i]) == id;
        assert Trim(ids[i + 1]) == id;
      }
      if i :| 0 < i < |ids| && Trim(ids[i]) == id {
        assert Trim(ids[1..][i - 1]) == id;
      }
    }
  }

  lemma SameIdsSameSignature(a: seq<Id>, b: seq<Id>)
    requires forall id :: id in a <==> id in b
    ensures Signature(a) == Signature(b)
  {
    forall x ensures x in Selection(a) <==> x in Selection(b) {
      TrimmedByMembership(a, x);
      TrimmedByMembership(b, x);
      forall i | 0 <= i < |a| && Trim(a[i]) == x ensures exists j :: 0 <= j < |b| && Trim(b[j]) == x {
        assert a[i] in b;
        var j :| 0 <= j < |b| && b[j] == a[i];
        assert Trim(b[j]) == x;
      }
      forall i | 0 <= i < |b| && Trim(b[i]) == x ensures exists j :: 0 <= j < |a| && Trim(a[j]) == x {
        assert b[i] in a;
        var j :| 0 <= j < |a| && a[j] == b[i];
        assert Trim(a[j]) == x;
      }
    }
    CanonicalIsTheSelection(a);
    CanonicalIsTheSelection(b);
    AscendingIsUnique(Canonical(a), Canonical(b));
  }

  lemma SameMembers(index: map<Id, Entry>, a: seq<Id>, b: seq<Id>, group: Id)
    requires AllCurrent(index, a) && AllCurrent(index, b) && forall id :: id in a ==> id in b
    ensures MembersOf(index, a, group) <= MembersOf(index, b, group)
  {
    forall id | id in MembersOf(index, a, group) ensures id in MembersOf(index, b, group) {
      assert id in a && id in b;
    }
  }

  lemma ReorderingKeepsAcceptable(menu: Menu, a: seq<Id>, b: seq<Id>, quantity: nat)
    requires NoDuplicates(a) && NoDuplicates(b) && forall id :: id in a <==> id in b
    requires Acceptable(menu, a, quantity)
    ensures Acceptable(menu, b, quantity)
  {
    var index := CurrentOptions(menu);
    forall i | 0 <= i < |b| ensures b[i] in index && b[i] in a {
      assert b[i] in b;
    }
    forall g ensures CountIn(index, a, g) == CountIn(index, b, g) {
      CountInByMembership(index, a, g);
      CountInByMembership(index, b, g);
      SameMembers(index, a, b, g);
      SameMembers(index, b, a, g);
      assert MembersOf(index, a, g) == MembersOf(index, b, g);
    }
    forall id ensures id in VariantIds(index, a) <==> id in VariantIds(index, b) {
      VariantIdsByMembership(index, a, id);
      VariantIdsByMembership(index, b, id);
    }
    var va, vb := VariantIds(index, a), VariantIds(index, b);
    SameIdsSameSignature(va, vb);
    if vb != [] { assert vb[0] in va; }
  }

  /** Only the set of options counts, not the order they are listed in. */
  lemma SelectionOrderDoesNotMatter(menu: Menu, a: seq<Id>, b: seq<Id>, quantity: nat)
    requires NoDuplicates(a) && NoDuplicates(b) && forall id :: id in a <==> id in b
    ensures Acceptable(menu, a, quantity) <==> Acceptable(menu, b, quantity)
  {
    if Acceptable(menu, a, quantity) { ReorderingKeepsAcceptable(menu, a, b, quantity); }
    if Acceptable(menu, b, quantity) { ReorderingKeepsAcceptable(menu, b, a, quantity); }
  }
}
