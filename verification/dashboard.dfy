/**
 * The menu projection of the admin dashboard (`groupedAndFilteredItems`): either a
 * flat list of search results, or the items partitioned by category (Snacks a
 * second time by subcategory), the categories in priority order, every list
 * sorted by name, together with the display details of each Snacks subgroup.
 *
 * A JavaScript object or `Map` is modelled as its key sequence (insertion order)
 * and a Dafny `map` from key to value.
 */
module AdminDashboardPage {
  import opened Optional
  import opened Seqs
  import opened Text
  import opened Sorting
  import opened Menu
  import ImageUrl

  /** `API_ROOT_URL` when `VITE_API_URL` is unset. */
  const FALLBACK_ROOT := "http://localhost:5000"

  const SNACKS := "Snacks"
  const UNCATEGORIZED := "Uncategorized"
  const OTHER := "other"
  const OTHER_SNACKS := "Other Snacks"

  /** `categoryOrder`: the categories shown first, in this order. */
  function CategoryOrder(): seq<string> {
    ["Meals", "Breakfast", "Lunch", "Dinner", "Snacks", "Drinks", "Beverages",
     "Stationery", "Essentials", "Uncategorized"]
  }

  /** An entry of `subCategoryDetailsMap`; `imageUrl` is `None` for `null`. */
  datatype SubDetail = SubDetail(id: string, name: string, imageUrl: Option<string>)

  /** One Snacks subgroup: its key and its items. */
  datatype SnackGroup = SnackGroup(key: string, items: seq<MenuItem>)

  /** One category of the grouped view: a list of items, or Snacks with its subgroups. */
  datatype Group =
    | ItemGroup(category: string, items: seq<MenuItem>)
    | SnackGroups(subgroups: seq<SnackGroup>)
  {
    function Category(): string {
      if ItemGroup? then category else SNACKS
    }
  }

  /** `{ searchResults }` in search mode, otherwise the sorted groups and `subCategoryDetails`. */
  datatype DashboardView =
    | SearchResults(results: seq<MenuItem>)
    | Grouped(groups: seq<Group>, details: map<string, SubDetail>)

  // ---- Classification of one item ----

  /** `item.category || 'Uncategorized'` */
  function CategoryOf(item: MenuItem): (c: string)
    ensures c != ""
  {
    if item.category != "" then item.category else UNCATEGORIZED
  }

  /** `item.subCategory?._id || 'other'` */
  function SubKeyOf(item: MenuItem): (k: string)
    ensures k != ""
  {
    if item.subCategory.Some? && item.subCategory.value.id != "" then item.subCategory.value.id else OTHER
  }

  /** The details entry the first Snacks item with a given key contributes. */
  function DetailFor(item: MenuItem, root: string): SubDetail {
    match item.subCategory
    case Some(sc) =>
      SubDetail(SubKeyOf(item), if sc.name != "" then sc.name else OTHER_SNACKS,
                Some(ImageUrl.FullImageUrl(root, sc.imageUrl)))
    case None => SubDetail(OTHER, OTHER_SNACKS, None)
  }

  function InCategory(c: string): MenuItem -> bool {
    (item: MenuItem) => CategoryOf(item) == c
  }

  function InSubgroup(k: string): MenuItem -> bool {
    (item: MenuItem) => CategoryOf(item) == SNACKS && SubKeyOf(item) == k
  }

  /** The search filter: lower-cased name includes the lower-cased (untrimmed) term. */
  function NameMatches(searchTerm: string): MenuItem -> bool {
    (item: MenuItem) => Includes(ToLower(item.name), ToLower(searchTerm))
  }

  const ByName: MenuItem -> string := (item: MenuItem) => item.name

  // ---- Reference definitions of the projection ----

  /** The category of each item, in item order. */
  function CategoryList(items: seq<MenuItem>): (r: seq<string>)
    ensures |r| == |items|
    ensures forall i :: 0 <= i < |items| ==> r[i] == CategoryOf(items[i])
  {
    seq(|items|, i requires 0 <= i < |items| => CategoryOf(items[i]))
  }

  /** The subgroup key of each Snacks item, in item order. */
  function SnackKeyList(items: seq<MenuItem>): seq<string> {
    if items == [] then []
    else
      var last := items[|items| - 1];
      SnackKeyList(items[..|items| - 1]) + if CategoryOf(last) == SNACKS then [SubKeyOf(last)] else []
  }

  /** `subCategoryDetailsMap` after visiting `items` in turn. */
  function Details(items: seq<MenuItem>, root: string): map<string, SubDetail> {
    if items == [] then map[]
    else
      var d := Details(items[..|items| - 1], root);
      var last := items[|items| - 1];
      if CategoryOf(last) == SNACKS && SubKeyOf(last) !in d then d[SubKeyOf(last) := DetailFor(last, root)] else d
  }

  /** Priority rank of a category: its position in `order`, or after all of them. */
  function Rank(order: seq<string>, c: string): nat {
    if c in order then FirstIndex(order, c) else |order|
  }

  function InKeys(keys: seq<string>): string -> bool {
    (c: string) => c in keys
  }

  function NotIn(order: seq<string>): string -> bool {
    (c: string) => c !in order
  }

  /**
   * The `sortedGroups` key order for the priority list `order`: the present
   * priority categories, then the other keys in key order.
   */
  function PriorityOrder(order: seq<string>, keys: seq<string>): seq<string> {
    Filter(order, InKeys(keys)) + Filter(keys, NotIn(order))
  }

  /** The display name a Snacks subgroup key is sorted by (`details.get(k)?.name || ''`). */
  function DetailName(details: map<string, SubDetail>): string -> string {
    (k: string) => if k in details then details[k].name else ""
  }

  /** The sorted Snacks subgroups. */
  function SnackSubgroups(items: seq<MenuItem>, root: string): seq<SnackGroup> {
    var keys := SortBy(Dedup(SnackKeyList(items)), DetailName(Details(items, root)));
    seq(|keys|, i requires 0 <= i < |keys| => SnackGroup(keys[i], SortBy(Filter(items, InSubgroup(keys[i])), ByName)))
  }

  /** The group shown for category `c`. */
  function GroupOf(items: seq<MenuItem>, root: string, c: string): Group {
    if c == SNACKS then SnackGroups(SnackSubgroups(items, root))
    else ItemGroup(c, SortBy(Filter(items, InCategory(c)), ByName))
  }

  /** All groups, in `sortedGroups` order, for the priority list `categoryOrder`. */
  function Grouping(items: seq<MenuItem>, root: string, categoryOrder: seq<string>): seq<Group> {
    var order := PriorityOrder(categoryOrder, Dedup(CategoryList(items)));
    seq(|order|, i requires 0 <= i < |order| => GroupOf(items, root, order[i]))
  }

  /** What `groupedAndFilteredItems` evaluates to, for the priority list `categoryOrder`. */
  function View(items: seq<MenuItem>, searchTerm: string, root: string, categoryOrder: seq<string>): DashboardView {
    if Trim(searchTerm) != "" then SearchResults(Filter(items, NameMatches(searchTerm)))
    else Grouped(Grouping(items, root, categoryOrder), Details(items, root))
  }

  // ---- The imperative computation ----

  /** The `groups` object and `subCategoryDetailsMap` built by the `forEach` loop. */
  datatype Groups = Groups(
    keys: seq<string>,                     // Object.keys(groups)
    lists: map<string, seq<MenuItem>>,     // groups[c] for c != 'Snacks'
    snackKeys: seq<string>,                // Object.keys(groups.Snacks)
    snacks: map<string, seq<MenuItem>>,    // groups.Snacks[k]
    details: map<string, SubDetail>)       // subCategoryDetailsMap

  /** `keys` and `lists` are the category part of `groups` after visiting `visited`. */
  ghost predicate CategoriesCollected(keys: seq<string>, lists: map<string, seq<MenuItem>>, visited: seq<MenuItem>) {
    && keys == Dedup(CategoryList(visited))
    && (forall c :: c in lists <==> c in keys && c != SNACKS)
    && (forall c :: c in lists ==> lists[c] == Filter(visited, InCategory(c)))
  }

  /** `snackKeys` and `snacks` are `groups.Snacks` after visiting `visited`. */
  ghost predicate SnacksCollected(snackKeys: seq<string>, snacks: map<string, seq<MenuItem>>, visited: seq<MenuItem>) {
    && snackKeys == Dedup(SnackKeyList(visited))
    && (forall k :: k in snacks <==> k in snackKeys)
    && (forall k :: k in snacks ==> snacks[k] == Filter(visited, InSubgroup(k)))
  }

  /** `g` is what the `forEach` loop leaves after visiting `items`. */
  ghost predicate CollectedFrom(g: Groups, items: seq<MenuItem>, root: string) {
    && CategoriesCollected(g.keys, g.lists, items)
    && SnacksCollected(g.snackKeys, g.snacks, items)
    && g.details == Details(items, root)
  }

  /**
   * The `forEach` over the items: each item is pushed onto its category's list,
   * a Snacks item onto its subgroup's list, and the first Snacks item of each
   * subgroup records the subgroup's details.
   */
  method CollectGroups(items: seq<MenuItem>, root: string) returns (g: Groups)
    ensures CollectedFrom(g, items, root)
  {
    var keys: seq<string> := [];
    var lists: map<string, seq<MenuItem>> := map[];
    var snackKeys: seq<string> := [];
    var snacks: map<string, seq<MenuItem>> := map[];
    var details: map<string, SubDetail> := map[];
    for i := 0 to |items|
      invariant CategoriesCollected(keys, lists, items[..i])
      invariant SnacksCollected(snackKeys, snacks, items[..i])
      invariant details == Details(items[..i], root)
    {
      PrefixExtend(items, i);
      keys, lists := VisitCategory(items[..i], items[i], keys, lists);
      snackKeys, snacks, details := VisitSnack(items[..i], items[i], root, snackKeys, snacks, details);
    }
    assert items[..|items|] == items;
    g := Groups(keys, lists, snackKeys, snacks, details);
  }

  /**
   * The first half of the loop body: `groups[category]` is created on first use,
   * and an item outside Snacks is pushed onto it.
   */
  method VisitCategory(ghost visited: seq<MenuItem>, item: MenuItem, keys: seq<string>, lists: map<string, seq<MenuItem>>)
    returns (keys': seq<string>, lists': map<string, seq<MenuItem>>)
    requires CategoriesCollected(keys, lists, visited)
    ensures CategoriesCollected(keys', lists', visited + [item])
  {
    keys', lists' := CreateGroup(visited, item, keys, lists);
    lists' := PushItem(visited, item, keys', lists');
  }

  /** `keys` and `lists` once the group of `item` exists, before `item` is pushed. */
  ghost predicate GroupCreated(keys: seq<string>, lists: map<string, seq<MenuItem>>, visited: seq<MenuItem>, item: MenuItem) {
    && keys == Dedup(CategoryList(visited + [item]))
    && (forall c :: c in lists <==> c in keys && c != SNACKS)
    && (forall c :: c in lists ==> lists[c] == Filter(visited, InCategory(c)))
  }

  /** `if (!groups[category]) groups[category] = ...`: an empty list for a new category. */
  method CreateGroup(ghost visited: seq<MenuItem>, item: MenuItem, keys: seq<string>, lists: map<string, seq<MenuItem>>)
    returns (keys': seq<string>, lists': map<string, seq<MenuItem>>)
    requires CategoriesCollected(keys, lists, visited)
    ensures GroupCreated(keys', lists', visited, item)
  {
    CategoryKeysStep(visited, item);
    keys', lists' := keys, lists;
    var category := CategoryOf(item);
    if category !in keys' {
      keys' := keys' + [category];
      if category != SNACKS {
        lists' := lists'[category := []];
      }
    }
  }

  /** `groups[category].push(item)` for an item outside Snacks. */
  method PushItem(ghost visited: seq<MenuItem>, item: MenuItem, keys: seq<string>, lists: map<string, seq<MenuItem>>)
    returns (lists': map<string, seq<MenuItem>>)
    requires GroupCreated(keys, lists, visited, item)
    ensures CategoriesCollected(keys, lists', visited + [item])
  {
    lists' := lists;
    var category := CategoryOf(item);
    DedupMembership(CategoryList(visited + [item]), category);
    assert CategoryList(visited + [item])[|visited|] == category;
    if category != SNACKS {
      lists' := lists'[category := lists'[category] + [item]];
    }
    forall c | c in lists' ensures lists'[c] == Filter(visited + [item], InCategory(c)) {
      CategoryListStep(visited, item, c);
    }
  }

  /**
   * The Snacks half of the loop body: the details entry is recorded on the first
   * item of a subgroup, the subgroup list created on first use, and the item
   * pushed onto it.
   */
  method VisitSnack(ghost visited: seq<MenuItem>, item: MenuItem, root: string,
                    snackKeys: seq<string>, snacks: map<string, seq<MenuItem>>, details: map<string, SubDetail>)
    returns (snackKeys': seq<string>, snacks': map<string, seq<MenuItem>>, details': map<string, SubDetail>)
    requires SnacksCollected(snackKeys, snacks, visited) && details == Details(visited, root)
    ensures SnacksCollected(snackKeys', snacks', visited + [item]) && details' == Details(visited + [item], root)
  {
    SnackKeysStep(visited, item);
    SnackListsStep(visited, item);
    DetailsStep(visited, item, root);
    snackKeys', snacks', details' := snackKeys, snacks, details;
    if CategoryOf(item) == SNACKS {
      var subCategoryId := SubKeyOf(item);
      if item.subCategory.Some? && subCategoryId !in details' {
        details' := details'[subCategoryId := DetailFor(item, root)];
      } else if item.subCategory.None? && OTHER !in details' {
        details' := details'[OTHER := SubDetail(OTHER, OTHER_SNACKS, None)];
      }
      if subCategoryId !in snackKeys' {
        snackKeys' := snackKeys' + [subCategoryId];
        snacks' := snacks'[subCategoryId := []];
      }
      snacks' := snacks'[subCategoryId := snacks'[subCategoryId] + [item]];
    }
  }

  /** How the category keys change when one item is visited. */
  lemma CategoryKeysStep(p: seq<MenuItem>, item: MenuItem)
    ensures Dedup(CategoryList(p + [item])) ==
      if CategoryOf(item) in Dedup(CategoryList(p)) then Dedup(CategoryList(p))
      else Dedup(CategoryList(p)) + [CategoryOf(item)]
    ensures CategoryOf(item) !in Dedup(CategoryList(p)) ==> Filter(p, InCategory(CategoryOf(item))) == []
  {
    var cl := CategoryList(p);
    assert CategoryList(p + [item]) == cl + [CategoryOf(item)];
    assert (cl + [CategoryOf(item)])[..|cl|] == cl;
    if CategoryOf(item) !in Dedup(cl) {
      forall y | y in p ensures !InCategory(CategoryOf(item))(y) {
        var j :| 0 <= j < |p| && p[j] == y;
        assert cl[j] == CategoryOf(y);
        DedupMembership(cl, CategoryOf(y));
      }
      FilterNone(p, InCategory(CategoryOf(item)));
    }
  }

  /** Visiting one item appends it to the list of its own category only. */
  lemma CategoryListStep(p: seq<MenuItem>, item: MenuItem, c: string)
    ensures Filter(p + [item], InCategory(c)) ==
      Filter(p, InCategory(c)) + if CategoryOf(item) == c then [item] else []
  {
    FilterConcat(p, [item], InCategory(c));
  }

  /** How the Snacks subgroup keys change when one item is visited. */
  lemma SnackKeysStep(p: seq<MenuItem>, item: MenuItem)
    ensures Dedup(SnackKeyList(p + [item])) ==
      if !InSubgroup(SubKeyOf(item))(item) || SubKeyOf(item) in Dedup(SnackKeyList(p)) then Dedup(SnackKeyList(p))
      else Dedup(SnackKeyList(p)) + [SubKeyOf(item)]
    ensures SubKeyOf(item) !in Dedup(SnackKeyList(p)) ==> Filter(p, InSubgroup(SubKeyOf(item))) == []
  {
    var sl := SnackKeyList(p);
    assert (p + [item])[..|p|] == p;
    if CategoryOf(item) == SNACKS {
      assert SnackKeyList(p + [item]) == sl + [SubKeyOf(item)];
      assert (sl + [SubKeyOf(item)])[..|sl|] == sl;
    } else {
      assert SnackKeyList(p + [item]) == sl;
    }
    if SubKeyOf(item) !in Dedup(sl) {
      forall y | y in p ensures !InSubgroup(SubKeyOf(item))(y) {
        if InSubgroup(SubKeyOf(item))(y) {
          SnackKeyListHas(p, y);
          DedupMembership(sl, SubKeyOf(y));
        }
      }
      FilterNone(p, InSubgroup(SubKeyOf(item)));
    }
  }

  /** Visiting one item appends it to the list of its own Snacks subgroup only. */
  lemma SnackListsStep(p: seq<MenuItem>, item: MenuItem)
    ensures forall k :: (Filter(p + [item], InSubgroup(k)) ==
      Filter(p, InSubgroup(k)) + if InSubgroup(k)(item) then [item] else [])
  {
    forall k ensures Filter(p + [item], InSubgroup(k)) ==
      Filter(p, InSubgroup(k)) + if InSubgroup(k)(item) then [item] else []
    {
      FilterConcat(p, [item], InSubgroup(k));
    }
  }

  /** How `subCategoryDetailsMap` changes when one item is visited. */
  lemma DetailsStep(p: seq<MenuItem>, item: MenuItem, root: string)
    ensures Details(p + [item], root) ==
      if CategoryOf(item) == SNACKS && SubKeyOf(item) !in Details(p, root)
      then Details(p, root)[SubKeyOf(item) := DetailFor(item, root)]
      else Details(p, root)
  {
    assert (p + [item])[..|p|] == p;
  }

  /** Every Snacks item's key is in `SnackKeyList`. */
  lemma {:induction false} SnackKeyListHas(items: seq<MenuItem>, y: MenuItem)
    requires y in items && CategoryOf(y) == SNACKS
    ensures SubKeyOf(y) in SnackKeyList(items)
  {
    var p := items[..|items| - 1];
    if y != items[|items| - 1] {
      assert items == p + [items[|items| - 1]];
      SnackKeyListHas(p, y);
    }
  }

  /**
   * The two `forEach` loops that build `sortedGroups`: first the categories of
   * `categoryOrder` that are present, then every other key not yet taken.
   */
  method OrderCategories(categoryOrder: seq<string>, keys: seq<string>) returns (ordered: seq<string>)
    requires NoDuplicates(keys)
    ensures ordered == PriorityOrder(categoryOrder, keys)
  {
    ordered := [];
    for i := 0 to |categoryOrder|
      invariant ordered == Filter(categoryOrder[..i], InKeys(keys))
    {
      var catName := categoryOrder[i];
      PrefixExtend(categoryOrder, i);
      FilterConcat(categoryOrder[..i], [catName], InKeys(keys));
      if catName in keys {
        ordered := ordered + [catName];
      }
    }
    assert categoryOrder[..|categoryOrder|] == categoryOrder;
    var first := ordered;
    for j := 0 to |keys|
      invariant ordered == first + Filter(keys[..j], NotIn(categoryOrder))
    {
      var catName := keys[j];
      RemainingStep(categoryOrder, keys, j);
      if catName !in ordered {
        ordered := ordered + [catName];
      }
    }
    assert keys[..|keys|] == keys;
  }

  /**
   * One step of the second loop: `keys[j]` is already taken exactly when it is a
   * priority category, and the remaining keys grow by it otherwise.
   */
  lemma RemainingStep(categoryOrder: seq<string>, keys: seq<string>, j: nat)
    requires NoDuplicates(keys) && j < |keys|
    ensures keys[j] in Filter(categoryOrder, InKeys(keys)) + Filter(keys[..j], NotIn(categoryOrder))
      <==> keys[j] in categoryOrder
    ensures Filter(keys[..j + 1], NotIn(categoryOrder)) ==
      Filter(keys[..j], NotIn(categoryOrder)) + if keys[j] in categoryOrder then [] else [keys[j]]
  {
    var catName := keys[j];
    PrefixExtend(keys, j);
    FilterConcat(keys[..j], [catName], NotIn(categoryOrder));
    FilterMembership(categoryOrder, InKeys(keys), catName);
    FilterMembership(keys[..j], NotIn(categoryOrder), catName);
  }

  /**
   * Builds the shown groups in `ordered` order (the `sortedGroups` mapping).
   */
  method ArrangeGroups(items: seq<MenuItem>, root: string, g: Groups, categoryOrder: seq<string>, ordered: seq<string>)
    returns (groups: seq<Group>)
    requires CollectedFrom(g, items, root)
    requires ordered == PriorityOrder(categoryOrder, g.keys)
    ensures groups == Grouping(items, root, categoryOrder)
  {
    PriorityOrderMembers(categoryOrder, g.keys);
    ghost var expected := Grouping(items, root, categoryOrder);
    assert |expected| == |ordered|;
    groups := [];
    for i := 0 to |ordered|
      invariant groups == expected[..i]
    {
      var group := ArrangeGroup(items, root, g, ordered[i]);
      assert group == expected[i];
      groups := groups + [group];
      PrefixExtend(expected, i);
    }
    assert expected[..|ordered|] == expected;
  }

  /**
   * One entry of `sortedGroups`: the Snacks subgroups as `ArrangeSnacks` orders
   * them, any other list sorted by item name.
   */
  method ArrangeGroup(items: seq<MenuItem>, root: string, g: Groups, catName: string) returns (group: Group)
    requires CollectedFrom(g, items, root)
    requires catName in g.keys
    ensures group == GroupOf(items, root, catName)
  {
    if catName == SNACKS {
      var subgroups := ArrangeSnacks(items, root, g);
      group := SnackGroups(subgroups);
    } else {
      group := ItemGroup(catName, SortBy(g.lists[catName], ByName));
    }
  }

  /**
   * `sortedSnackSubCats`: the subgroup keys sorted by their details' display
   * name, each subgroup sorted by item name.
   */
  method ArrangeSnacks(items: seq<MenuItem>, root: string, g: Groups) returns (subgroups: seq<SnackGroup>)
    requires SnacksCollected(g.snackKeys, g.snacks, items) && g.details == Details(items, root)
    ensures subgroups == SnackSubgroups(items, root)
  {
    var subKeys := SortBy(g.snackKeys, DetailName(g.details));
    SortBySpec(g.snackKeys, DetailName(g.details));
    ghost var expected := SnackSubgroups(items, root);
    assert |expected| == |subKeys|;
    subgroups := [];
    for j := 0 to |subKeys|
      invariant subgroups == expected[..j]
    {
      var subCatId := subKeys[j];
      assert subCatId in multiset(g.snackKeys);
      var subgroup := SnackGroup(subCatId, SortBy(g.snacks[subCatId], ByName));
      assert subgroup == expected[j];
      subgroups := subgroups + [subgroup];
      PrefixExtend(expected, j);
    }
    assert expected[..|subKeys|] == expected;
  }

  /** `groupedAndFilteredItems`: the search results, or the grouped and sorted menu. */
  method GroupedAndFilteredItems(items: seq<MenuItem>, searchTerm: string, root: string)
    returns (view: DashboardView)
    ensures view == View(items, searchTerm, root, CategoryOrder())
  {
    if Trim(searchTerm) != "" {
      return SearchResults(Filter(items, NameMatches(searchTerm)));
    }
    var g := CollectGroups(items, root);
    DedupNoDuplicates(CategoryList(items));
    var ordered := OrderCategories(CategoryOrder(), g.keys);
    var groups := ArrangeGroups(items, root, g, CategoryOrder(), ordered);
    view := Grouped(groups, g.details);
  }

  // ---- Properties ----

  /** `CategoryOrder()` names each category once. */
  lemma CategoryOrderHasNoDuplicates()
    ensures NoDuplicates(CategoryOrder())
  {
  }

  /** The priority order holds exactly the keys. */
  lemma PriorityOrderMembers(order: seq<string>, keys: seq<string>)
    ensures forall c :: c in PriorityOrder(order, keys) <==> c in keys
  {
    forall c ensures c in PriorityOrder(order, keys) <==> c in keys {
      FilterMembership(order, InKeys(keys), c);
      FilterMembership(keys, NotIn(order), c);
    }
  }

  /**
   * With a duplicate-free priority list, the priority order lists each key once
   * and nothing else; priority categories come first, by their rank, and the
   * other keys after them in their original order.
   */
  lemma PriorityOrderSpec(order: seq<string>, keys: seq<string>)
    requires NoDuplicates(order) && NoDuplicates(keys)
    ensures NoDuplicates(PriorityOrder(order, keys))
    ensures forall i, j :: 0 <= i < j < |PriorityOrder(order, keys)| ==>
      var ci := PriorityOrder(order, keys)[i];
      var cj := PriorityOrder(order, keys)[j];
      Rank(order, ci) < Rank(order, cj) ||
      (ci !in order && cj !in order && ci in keys && cj in keys && FirstIndex(keys, ci) < FirstIndex(keys, cj))
  {
    PriorityOrderMembers(order, keys);
    var a := Filter(order, InKeys(keys));
    var b := Filter(keys, NotIn(order));
    var r := a + b;
    FilterIsSubsequence(order, InKeys(keys));
    FilterIsSubsequence(keys, NotIn(order));
    SubsequenceKeepsOrder(a, order);
    SubsequenceKeepsOrder(b, keys);
    forall i, j | 0 <= i < j < |r|
      ensures r[i] != r[j]
      ensures Rank(order, r[i]) < Rank(order, r[j]) ||
        (r[i] !in order && r[j] !in order && r[i] in keys && r[j] in keys &&
         FirstIndex(keys, r[i]) < FirstIndex(keys, r[j]))
    {
      if j < |a| {
        assert r[i] == a[i] && r[j] == a[j];
      } else if i < |a| {
        assert r[i] == a[i] && r[j] == b[j - |a|];
        FilterMembership(order, InKeys(keys), a[i]);
        FilterMembership(keys, NotIn(order), b[j - |a|]);
      } else {
        assert r[i] == b[i - |a|] && r[j] == b[j - |a|];
        FilterMembership(keys, NotIn(order), b[i - |a|]);
        FilterMembership(keys, NotIn(order), b[j - |a|]);
      }
    }
  }

  /**
   * In search mode the view is flat: the items whose lower-cased name contains
   * the lower-cased term, in their original order.
   */
  lemma SearchModeIsFlat(items: seq<MenuItem>, searchTerm: string, root: string, categoryOrder: seq<string>, item: MenuItem)
    requires Trim(searchTerm) != ""
    ensures View(items, searchTerm, root, categoryOrder).SearchResults?
    ensures IsSubsequence(View(items, searchTerm, root, categoryOrder).results, items)
    ensures item in View(items, searchTerm, root, categoryOrder).results <==>
      item in items && Includes(ToLower(item.name), ToLower(searchTerm))
  {
    FilterIsSubsequence(items, NameMatches(searchTerm));
    FilterMembership(items, NameMatches(searchTerm), item);
  }

  /** Without a search term (a term of only whitespace counts as none), the view is grouped. */
  lemma NoSearchIsGrouped(items: seq<MenuItem>, searchTerm: string, root: string, categoryOrder: seq<string>)
    requires forall i :: 0 <= i < |searchTerm| ==> IsWhitespace(searchTerm[i])
    ensures View(items, searchTerm, root, categoryOrder) ==
      Grouped(Grouping(items, root, categoryOrder), Details(items, root))
  {
    TrimEmptyIff(searchTerm);
  }

  /** The group for `c` reports `c` as its category. */
  lemma GroupCategories(items: seq<MenuItem>, root: string, categoryOrder: seq<string>)
    ensures forall i :: 0 <= i < |Grouping(items, root, categoryOrder)| ==>
      Grouping(items, root, categoryOrder)[i].Category() ==
        PriorityOrder(categoryOrder, Dedup(CategoryList(items)))[i]
  {
  }

  /** Each category that occurs has exactly one group. */
  lemma OneGroupPerCategory(items: seq<MenuItem>, root: string, categoryOrder: seq<string>, item: MenuItem)
    requires NoDuplicates(categoryOrder)
    ensures forall i, j :: 0 <= i < j < |Grouping(items, root, categoryOrder)| ==>
      Grouping(items, root, categoryOrder)[i].Category() != Grouping(items, root, categoryOrder)[j].Category()
    ensures item in items ==> exists i :: (0 <= i < |Grouping(items, root, categoryOrder)| &&
      Grouping(items, root, categoryOrder)[i].Category() == CategoryOf(item))
    ensures forall g :: g in Grouping(items, root, categoryOrder) ==> (g.ItemGroup? <==> g.Category() != SNACKS)
  {
    var cl := CategoryList(items);
    var keys := Dedup(cl);
    var order := PriorityOrder(categoryOrder, keys);
    var gs := Grouping(items, root, categoryOrder);
    DedupNoDuplicates(cl);
    PriorityOrderSpec(categoryOrder, keys);
    PriorityOrderMembers(categoryOrder, keys);
    GroupCategories(items, root, categoryOrder);
    if item in items {
      var k :| 0 <= k < |items| && items[k] == item;
      assert cl[k] == CategoryOf(item);
      DedupMembership(cl, CategoryOf(item));
      var m :| 0 <= m < |order| && order[m] == CategoryOf(item);
      assert gs[m].Category() == CategoryOf(item);
    }
  }

  /**
   * Every list outside Snacks holds every occurrence of every item of its
   * category and nothing else.
   */
  lemma ItemGroupsPartition(items: seq<MenuItem>, root: string, categoryOrder: seq<string>, item: MenuItem)
    ensures forall g :: g in Grouping(items, root, categoryOrder) && g.ItemGroup? ==>
      multiset(g.items)[item] == if CategoryOf(item) == g.category then multiset(items)[item] else 0
  {
    forall g | g in Grouping(items, root, categoryOrder) && g.ItemGroup?
      ensures multiset(g.items)[item] == if CategoryOf(item) == g.category then multiset(items)[item] else 0
    {
      SortBySpec(Filter(items, InCategory(g.category)), ByName);
      FilterMultiset(items, InCategory(g.category), item);
    }
  }

  /**
   * Each Snacks subgroup holds every occurrence of every Snacks item with its key and
   * nothing else.
   */
  lemma SnackSubgroupsPartition(items: seq<MenuItem>, root: string, item: MenuItem)
    ensures forall sg :: sg in SnackSubgroups(items, root) ==>
      multiset(sg.items)[item] ==
        if CategoryOf(item) == SNACKS && SubKeyOf(item) == sg.key then multiset(items)[item] else 0
  {
    forall sg | sg in SnackSubgroups(items, root)
      ensures multiset(sg.items)[item] ==
        if CategoryOf(item) == SNACKS && SubKeyOf(item) == sg.key then multiset(items)[item] else 0
    {
      SortBySpec(Filter(items, InSubgroup(sg.key)), ByName);
      FilterMultiset(items, InSubgroup(sg.key), item);
    }
  }

  /** No two Snacks subgroups share a key. */
  lemma SnackSubgroupKeysDistinct(items: seq<MenuItem>, root: string)
    ensures forall i, j :: 0 <= i < j < |SnackSubgroups(items, root)| ==>
      SnackSubgroups(items, root)[i].key != SnackSubgroups(items, root)[j].key
  {
    var sk := Dedup(SnackKeyList(items));
    var subs := SnackSubgroups(items, root);
    DedupNoDuplicates(SnackKeyList(items));
    forall i, j | 0 <= i < j < |subs| ensures subs[i].key != subs[j].key {
      SortedKeysDistinct(sk, DetailName(Details(items, root)), i, j);
    }
  }

  /** Every Snacks item of the list has a subgroup for its key. */
  lemma SnackSubgroupForEveryKey(items: seq<MenuItem>, root: string, item: MenuItem)
    requires item in items && CategoryOf(item) == SNACKS
    ensures exists i :: 0 <= i < |SnackSubgroups(items, root)| && SnackSubgroups(items, root)[i].key == SubKeyOf(item)
  {
    var sk := Dedup(SnackKeyList(items));
    var sorted := SortBy(sk, DetailName(Details(items, root)));
    var subs := SnackSubgroups(items, root);
    SnackKeyListHas(items, item);
    DedupMembership(SnackKeyList(items), SubKeyOf(item));
    SortBySpec(sk, DetailName(Details(items, root)));
    assert SubKeyOf(item) in multiset(sorted);
    var n :| 0 <= n < |sorted| && sorted[n] == SubKeyOf(item);
    assert subs[n].key == SubKeyOf(item);
  }

  /** Sorting a list without duplicates leaves it without duplicates. */
  lemma SortedKeysDistinct(keys: seq<string>, key: string -> string, i: int, j: int)
    requires NoDuplicates(keys)
    requires 0 <= i < j < |SortBy(keys, key)|
    ensures SortBy(keys, key)[i] != SortBy(keys, key)[j]
  {
    var s := SortBy(keys, key);
    SortBySpec(keys, key);
    if s[i] == s[j] {
      var x := s[i];
      assert s == s[..j] + s[j..];
      assert multiset(s) == multiset(s[..j]) + multiset(s[j..]);
      assert s[..j][i] == x && s[j..][0] == x;
      assert x in multiset(s[..j]) && x in multiset(s[j..]);
      MultiplicityInDistinct(keys, x);
    }
  }

  /** A value occurs at most once in a sequence without duplicates. */
  lemma {:induction false} MultiplicityInDistinct(s: seq<string>, x: string)
    requires NoDuplicates(s)
    ensures multiset(s)[x] <= 1
  {
    if s != [] {
      assert s == [s[0]] + s[1..];
      assert NoDuplicates(s[1..]);
      MultiplicityInDistinct(s[1..], x);
      if s[0] == x {
        assert x !in s[1..];
      }
    }
  }

  /**
   * Categories appear by priority rank; the categories outside the priority
   * list come last, in the order in which their first item occurs.
   */
  lemma CategoriesInPriorityThenFirstSeenOrder(items: seq<MenuItem>, root: string, categoryOrder: seq<string>)
    requires NoDuplicates(categoryOrder)
    ensures forall i, j :: 0 <= i < j < |Grouping(items, root, categoryOrder)| ==>
      var ci := Grouping(items, root, categoryOrder)[i].Category();
      var cj := Grouping(items, root, categoryOrder)[j].Category();
      Rank(categoryOrder, ci) < Rank(categoryOrder, cj) ||
      (ci !in categoryOrder && cj !in categoryOrder &&
       ci in CategoryList(items) && cj in CategoryList(items) &&
       FirstIndex(CategoryList(items), ci) < FirstIndex(CategoryList(items), cj))
  {
    var cl := CategoryList(items);
    var keys := Dedup(cl);
    var order := PriorityOrder(categoryOrder, keys);
    var gs := Grouping(items, root, categoryOrder);
    DedupNoDuplicates(cl);
    PriorityOrderSpec(categoryOrder, keys);
    GroupCategories(items, root, categoryOrder);
    DedupFirstSeenOrder(cl);
    forall i, j | 0 <= i < j < |gs|
      ensures Rank(categoryOrder, order[i]) < Rank(categoryOrder, order[j]) ||
        (order[i] !in categoryOrder && order[j] !in categoryOrder &&
         order[i] in cl && order[j] in cl &&
         FirstIndex(cl, order[i]) < FirstIndex(cl, order[j]))
    {
      if !(Rank(categoryOrder, order[i]) < Rank(categoryOrder, order[j])) {
        var a := FirstIndex(keys, order[i]);
        var b := FirstIndex(keys, order[j]);
        assert keys[a] == order[i] && keys[b] == order[j];
      }
    }
  }

  /**
   * Every list is sorted by item name, and the Snacks subgroups by the display
   * name of their details entry.
   */
  lemma GroupsAreSorted(items: seq<MenuItem>, root: string, categoryOrder: seq<string>)
    ensures forall g :: g in Grouping(items, root, categoryOrder) && g.ItemGroup? ==> SortedBy(g.items, ByName)
    ensures forall sg :: sg in SnackSubgroups(items, root) ==> SortedBy(sg.items, ByName)
    ensures forall i, j :: 0 <= i < j < |SnackSubgroups(items, root)| ==>
      LexLe(DetailName(Details(items, root))(SnackSubgroups(items, root)[i].key),
            DetailName(Details(items, root))(SnackSubgroups(items, root)[j].key))
  {
    var d := Details(items, root);
    var sorted := SortBy(Dedup(SnackKeyList(items)), DetailName(d));
    var subs := SnackSubgroups(items, root);
    forall g | g in Grouping(items, root, categoryOrder) && g.ItemGroup?
      ensures SortedBy(g.items, ByName)
    {
      SortBySpec(Filter(items, InCategory(g.category)), ByName);
    }
    forall sg | sg in subs ensures SortedBy(sg.items, ByName) {
      SortBySpec(Filter(items, InSubgroup(sg.key)), ByName);
    }
    SortBySpec(Dedup(SnackKeyList(items)), DetailName(d));
    forall i, j | 0 <= i < j < |subs|
      ensures LexLe(DetailName(d)(subs[i].key), DetailName(d)(subs[j].key))
    {
      assert subs[i].key == sorted[i] && subs[j].key == sorted[j];
    }
  }

  /** The item at `i` is the first Snacks item with subgroup key `k`. */
  predicate FirstInSubgroup(items: seq<MenuItem>, k: string, i: int) {
    0 <= i < |items| && InSubgroup(k)(items[i]) && forall j :: 0 <= j < i ==> !InSubgroup(k)(items[j])
  }

  /**
   * `subCategoryDetails` has one entry per Snacks subgroup key, and that entry
   * is taken from the first item of the subgroup.
   */
  lemma {:induction false} DetailsFromFirstItem(items: seq<MenuItem>, root: string, k: string)
    ensures k in Details(items, root) <==> k in SnackKeyList(items)
    ensures k in Details(items, root) ==>
      exists i :: FirstInSubgroup(items, k, i) && Details(items, root)[k] == DetailFor(items[i], root)
  {
    if items != [] {
      var p := items[..|items| - 1];
      var last := items[|items| - 1];
      assert items == p + [last];
      DetailsFromFirstItem(p, root, k);
      var d := Details(p, root);
      if k in d {
        var i :| FirstInSubgroup(p, k, i) && d[k] == DetailFor(p[i], root);
        assert FirstInSubgroup(items, k, i);
      } else if CategoryOf(last) == SNACKS && SubKeyOf(last) == k {
        assert FirstInSubgroup(items, k, |items| - 1) by {
          forall j | 0 <= j < |items| - 1 ensures !InSubgroup(k)(items[j]) {
            if InSubgroup(k)(p[j]) {
              SnackKeyListHas(p, p[j]);
            }
          }
        }
      }
    }
  }

  /**
   * When no Snacks item filed under "other" carries a subcategory object (as
   * when populated subcategories always have an id), the "other" entry is
   * "Other Snacks" with a null image.
   */
  lemma OtherDetailIsPlaceholder(items: seq<MenuItem>, root: string)
    requires forall i :: 0 <= i < |items| && InSubgroup(OTHER)(items[i]) ==> items[i].subCategory.None?
    ensures OTHER in Details(items, root) ==>
      Details(items, root)[OTHER] == SubDetail(OTHER, OTHER_SNACKS, None)
  {
    DetailsFromFirstItem(items, root, OTHER);
  }
}
