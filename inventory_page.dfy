/** The public inventory page: the category / search / sort pipeline that decides
    which items are shown and in what order, the per-item "show details" flags,
    and the five-star popularity rating. */
module InventoryPage {
  import opened Basics
  import opened Catalog
  import opened InventoryData

  /** The sort selector's value: "price" and "name" pick those orders, anything
      else (the default "popularity" included) sorts by popularity. */
  function SortKeyOf(sortBy: string): (key: SortKey)
    ensures key == ByPrice <==> sortBy == "price"
    ensures key == ByName <==> sortBy == "name"
    ensures key == ByPopularity <==> sortBy != "price" && sortBy != "name"
  {
    if sortBy == "price" then ByPrice
    else if sortBy == "name" then ByName
    else ByPopularity
  }

  /** The two filters of getFilteredItems, in their order: the category unless
      "all" is selected, then the search term unless it is empty. */
  function Selected(items: seq<InventoryItem>, selectedCategory: string, searchTerm: string): (r: seq<InventoryItem>)
    ensures multiset(r) <= multiset(items) && |r| <= |items|
    ensures forall x :: x in r <==>
              x in items &&
              (selectedCategory == AllCategories || x.category == selectedCategory) &&
              (searchTerm == "" || MatchesSearch(x, searchTerm))
  {
    var inCategory := ItemsByCategory(items, selectedCategory);
    if searchTerm != "" then SearchItems(inCategory, searchTerm) else inCategory
  }

  /** getFilteredItems: the selected items, sorted on a copy by the chosen key. */
  function GetFilteredItems(items: seq<InventoryItem>, selectedCategory: string, searchTerm: string,
                            sortBy: string): (r: seq<InventoryItem>)
    // a reordering of the selected items, so a sub-multiset of the input
    ensures multiset(r) == multiset(Selected(items, selectedCategory, searchTerm))
    ensures multiset(r) <= multiset(items) && |r| <= |items|
    ensures forall x :: x in r <==>
              x in items &&
              (selectedCategory == AllCategories || x.category == selectedCategory) &&
              (searchTerm == "" || MatchesSearch(x, searchTerm))
    // in the chosen order
    ensures sortBy == "price" ==> forall i, j :: 0 <= i < j < |r| ==> r[i].price <= r[j].price
    ensures sortBy == "name" ==> forall i, j :: 0 <= i < j < |r| ==> NameBefore(r[i].name, r[j].name)
    ensures sortBy != "price" && sortBy != "name" ==>
              forall i, j :: 0 <= i < j < |r| ==> r[i].popularity >= r[j].popularity
  {
    var selected := Selected(items, selectedCategory, searchTerm);
    var key := SortKeyOf(sortBy);
    SortByOrders(key, selected);
    SameElements(SortBy(key, selected), selected);
    SortBy(key, selected)
  }

  /** What the sorted order means for each key. */
  lemma SortByOrders(key: SortKey, s: seq<InventoryItem>)
    ensures key == ByPrice ==> forall i, j :: 0 <= i < j < |SortBy(key, s)| ==>
                                 SortBy(key, s)[i].price <= SortBy(key, s)[j].price
    ensures key == ByName ==> forall i, j :: 0 <= i < j < |SortBy(key, s)| ==>
                                NameBefore(SortBy(key, s)[i].name, SortBy(key, s)[j].name)
    ensures key == ByPopularity ==> forall i, j :: 0 <= i < j < |SortBy(key, s)| ==>
                                      SortBy(key, s)[i].popularity >= SortBy(key, s)[j].popularity
  {
    var r := SortBy(key, s);
    SortBySorted(key, s);
    forall i, j | 0 <= i < j < |r| ensures InOrder(key, r[i], r[j]) {
    }
  }

  lemma SameElements<T>(a: seq<T>, b: seq<T>)
    requires multiset(a) == multiset(b)
    ensures forall x :: x in a <==> x in b
  {
    forall x ensures x in a <==> x in b {
      assert x in a <==> x in multiset(a);
      assert x in b <==> x in multiset(b);
    }
  }

  /** The items shown do not depend on the sort key: changing the order only
      rearranges them. */
  lemma SortKeyOnlyReorders(items: seq<InventoryItem>, selectedCategory: string, searchTerm: string,
                            sortBy: string, otherSortBy: string)
    ensures multiset(GetFilteredItems(items, selectedCategory, searchTerm, sortBy)) ==
            multiset(GetFilteredItems(items, selectedCategory, searchTerm, otherSortBy))
  {
  }

  /** With "all" and an empty term nothing is filtered out: every item is shown. */
  lemma NoFilterShowsEverything(items: seq<InventoryItem>, sortBy: string)
    ensures multiset(GetFilteredItems(items, AllCategories, "", sortBy)) == multiset(items)
  {
  }

  /** A "show details" flag is on only when it is recorded as true; an id never
      toggled reads as off. */
  predicate Shown(showDetails: map<int, bool>, itemId: int) {
    itemId in showDetails && showDetails[itemId]
  }

  /** toggleDetails: the record with that id's flag inverted. */
  function ToggleDetails(showDetails: map<int, bool>, itemId: int): (r: map<int, bool>)
    ensures Shown(r, itemId) == !Shown(showDetails, itemId)
    ensures r.Keys == showDetails.Keys + {itemId}
    ensures forall k :: k in showDetails && k != itemId ==> r[k] == showDetails[k]
  {
    showDetails[itemId := !Shown(showDetails, itemId)]
  }

  /** Toggling the same id twice shows the same details as before. */
  lemma ToggleTwiceRestores(showDetails: map<int, bool>, itemId: int, other: int)
    ensures Shown(ToggleDetails(ToggleDetails(showDetails, itemId), itemId), other) == Shown(showDetails, other)
  {
  }

  /** `Math.round(popularity / 20)`: halves round up, and for integers that is
      the floor of (popularity + 10) / 20. */
  function StarCount(popularity: int): (stars: int)
    ensures 20 * stars - 10 <= popularity < 20 * stars + 10
    ensures 0 <= popularity <= 100 ==> 0 <= stars <= 5
  {
    (popularity + 10) / 20
  }

  /** The five stars drawn, each filled when its position is below the count. */
  function StarRow(popularity: int): (row: seq<bool>)
    ensures |row| == 5
  {
    FilledBelow(5, StarCount(popularity))
  }

  /** `n` positions, those below `k` set. */
  function FilledBelow(n: nat, k: int): (row: seq<bool>)
    ensures |row| == n
    ensures forall i :: 0 <= i < n ==> (row[i] <==> i < k)
  {
    seq(n, i => i < k)
  }

  function CountFilled(row: seq<bool>): nat {
    if row == [] then 0
    else CountFilled(row[..|row| - 1]) + (if row[|row| - 1] then 1 else 0)
  }

  /** The filled positions of a row are the first `k`, clipped to the row. */
  lemma {:induction false} CountFilledBelow(n: nat, k: int)
    ensures CountFilled(FilledBelow(n, k)) == if k <= 0 then 0 else if k >= n then n else k
  {
    if n > 0 {
      CountFilledBelow(n - 1, k);
      assert FilledBelow(n, k)[..n - 1] == FilledBelow(n - 1, k);
    }
  }

  /** For a popularity in [0, 100] exactly the rounded count of stars is filled. */
  lemma FilledStarsMatchCount(popularity: int)
    requires 0 <= popularity <= 100
    ensures CountFilled(StarRow(popularity)) == StarCount(popularity)
  {
    CountFilledBelow(5, StarCount(popularity));
  }
}
