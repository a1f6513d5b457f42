/** The inventory table (frontend/app/components/InventoryTable.tsx): the
    rows kept for the search box and the selected tab, and the actions each
    row offers. */
module InventoryTable {
  import opened JsText

  /** A row of the table: the inventory record with the product fields it shows. */
  datatype Item = Item(id: int, locationId: int, quantity: int, name: string, sku: string, mainCategory: string)

  datatype Tab = AllTab | ConsumableTab | FixedTab

  /** The search: the lower-cased term occurs in the lower-cased name or SKU. */
  predicate MatchesSearch(item: Item, term: string) {
    Contains(ToLower(item.name), ToLower(term)) || Contains(ToLower(item.sku), ToLower(term))
  }

  /** The tab: "all" takes every row; the other two one spelling of the main category each. */
  predicate MatchesTab(item: Item, tab: Tab) {
    match tab
    case AllTab => true
    case ConsumableTab => item.mainCategory == "CONSUMABLE_GOODS"
    case FixedTab => item.mainCategory == "FIXED_ASSET"
  }

  predicate Kept(item: Item, term: string, tab: Tab) {
    MatchesSearch(item, term) && MatchesTab(item, tab)
  }

  /** `filteredInventory`: the rows matching both the search and the tab. */
  function FilteredInventory(items: seq<Item>, term: string, tab: Tab): (r: seq<Item>)
    ensures |r| <= |items|
    ensures forall x :: x in r <==> x in items && Kept(x, term, tab)
  {
    if |items| == 0 then []
    else
      var rest := FilteredInventory(items[1..], term, tab);
      assert forall x :: x in items <==> x == items[0] || x in items[1..];
      if Kept(items[0], term, tab) then [items[0]] + rest else rest
  }

  /** `a` is `b` with some elements left out and the rest in their order. */
  predicate SubsequenceOf(a: seq<Item>, b: seq<Item>)
    decreases |b|
  {
    if |a| == 0 then true
    else if |b| == 0 then false
    else if a[0] == b[0] then SubsequenceOf(a[1..], b[1..])
    else SubsequenceOf(a, b[1..])
  }

  /** The filter keeps the order of the rows. */
  lemma {:induction false} FilteredIsSubsequence(items: seq<Item>, term: string, tab: Tab)
    ensures SubsequenceOf(FilteredInventory(items, term, tab), items)
  {
    if |items| > 0 {
      FilteredIsSubsequence(items[1..], term, tab);
      var rest := FilteredInventory(items[1..], term, tab);
      if Kept(items[0], term, tab) {
        assert ([items[0]] + rest)[1..] == rest;
      } else {
        SubsequenceSkips(rest, items);
      }
    }
  }

  /** A subsequence of the tail is one of the whole. */
  lemma {:induction false} SubsequenceSkips(a: seq<Item>, b: seq<Item>)
    requires |b| > 0 && SubsequenceOf(a, b[1..])
    ensures SubsequenceOf(a, b)
    decreases |b|, 0
  {
    if |a| > 0 && a[0] == b[0] {
      SubsequenceDropsHead(a, b[1..]);
    }
  }

  /** Dropping the head of a subsequence keeps it a subsequence. */
  lemma {:induction false} SubsequenceDropsHead(a: seq<Item>, b: seq<Item>)
    requires |a| > 0 && SubsequenceOf(a, b)
    ensures SubsequenceOf(a[1..], b)
    decreases |b|, 1
  {
    if a[0] == b[0] {
      if |a[1..]| > 0 {
        SubsequenceDropsHead(a[1..], b[1..]);
        SubsequenceSkips(a[1..], b);
      }
    } else {
      SubsequenceDropsHead(a, b[1..]);
      if |a[1..]| > 0 {
        SubsequenceSkips(a[1..], b);
      }
    }
  }

  /** An empty search on the "all" tab shows every row. */
  lemma {:induction false} EmptySearchShowsAll(items: seq<Item>)
    ensures FilteredInventory(items, "", AllTab) == items
  {
    if |items| > 0 {
      EmptySearchShowsAll(items[1..]);
      ContainsEmpty(ToLower(items[0].name));
      assert Kept(items[0], "", AllTab);
      assert [items[0]] + items[1..] == items;
    }
  }

  /** Filtering the filtered rows again changes nothing. */
  lemma {:induction false} FilterIdempotent(items: seq<Item>, term: string, tab: Tab)
    ensures FilteredInventory(FilteredInventory(items, term, tab), term, tab) == FilteredInventory(items, term, tab)
  {
    if |items| > 0 {
      FilterIdempotent(items[1..], term, tab);
      var rest := FilteredInventory(items[1..], term, tab);
      if Kept(items[0], term, tab) {
        assert ([items[0]] + rest)[1..] == rest;
      }
    }
  }

  lemma {:induction false} LowerCharIdempotent(c: char)
    ensures LowerChar(LowerChar(c)) == LowerChar(c)
  {
  }

  lemma {:induction false} ToLowerIdempotent(s: string)
    ensures ToLower(ToLower(s)) == ToLower(s)
  {
    if |s| > 0 {
      ToLowerIdempotent(s[1..]);
      LowerCharIdempotent(s[0]);
      assert ToLower(s) == [LowerChar(s[0])] + ToLower(s[1..]);
      assert ToLower(s)[1..] == ToLower(s[1..]);
    }
  }

  /** The search ignores the case of the term. */
  lemma SearchIgnoresCase(item: Item, term: string)
    ensures MatchesSearch(item, term) <==> MatchesSearch(item, ToLower(term))
  {
    ToLowerIdempotent(term);
  }

  /** The consumables and the fixed assets are disjoint parts of the "all" tab. */
  lemma TabsPartition(items: seq<Item>, term: string, x: Item)
    ensures !(x in FilteredInventory(items, term, ConsumableTab) && x in FilteredInventory(items, term, FixedTab))
    ensures x in FilteredInventory(items, term, ConsumableTab) ==> x in FilteredInventory(items, term, AllTab)
    ensures x in FilteredInventory(items, term, FixedTab) ==> x in FilteredInventory(items, term, AllTab)
  {
  }

  /** A product whose main category is spelled "FIXED_ASSETS" (as the product
      form writes it) appears only on the "all" tab. */
  lemma OtherSpellingOnlyOnAll(items: seq<Item>, term: string, x: Item)
    requires x.mainCategory == "FIXED_ASSETS"
    ensures x !in FilteredInventory(items, term, FixedTab) && x !in FilteredInventory(items, term, ConsumableTab)
  {
  }

  datatype Action = Deduct | Transfer

  /** The buttons of a row: Use/Deduct for consumables only, then Transfer for every row. */
  function RowActions(item: Item): (acts: seq<Action>)
    ensures |acts| > 0 && acts[|acts| - 1] == Transfer
    ensures Deduct in acts <==> item.mainCategory == "CONSUMABLE_GOODS"
  {
    (if item.mainCategory == "CONSUMABLE_GOODS" then [Deduct] else []) + [Transfer]
  }

  /** On the consumables tab every row can be deducted; on the fixed tab none can. */
  lemma TabActions(items: seq<Item>, term: string, x: Item)
    ensures x in FilteredInventory(items, term, ConsumableTab) ==> Deduct in RowActions(x)
    ensures x in FilteredInventory(items, term, FixedTab) ==> Deduct !in RowActions(x) && Transfer in RowActions(x)
  {
  }
}
