/** The front end's module-level inventory list and its helpers: three filters
    that read the list, and three operations that change it in place (a sort by
    popularity, an append with a fresh id, and a stock update). */
module InventoryData {
  import opened Basics
  import opened Catalog

  const AllCategories := "all"
  const DefaultPopularLimit := 6
  const NewItemPopularity := 50

  /** The one item the list starts with. */
  function OrganicBananas(): InventoryItem {
    InventoryItem(1, "Organic Bananas", "fruits", 3.99, "per bunch (6-8 bananas)", "\U{1F34C}",
                  "Fresh organic bananas, perfect for snacking or smoothies", true, 24,
                  "Local Organic Farm", "Carbondale Area", "Rich in potassium, vitamin C, and fiber",
                  "Store at room temperature until ripe, then refrigerate", 95,
                  ["organic", "local", "fresh", "healthy"])
  }

  ghost predicate UniqueIds(s: seq<InventoryItem>) {
    forall i, j :: 0 <= i < j < |s| ==> s[i].id != s[j].id
  }

  function InCategory(categoryId: string): InventoryItem -> bool {
    (item: InventoryItem) => item.category == categoryId
  }

  /** getItemsByCategory: "all" gives the list itself, any other id exactly the
      items of that category, in list order. */
  function ItemsByCategory(items: seq<InventoryItem>, categoryId: string): (r: seq<InventoryItem>)
    ensures categoryId == AllCategories ==> r == items
    ensures categoryId != AllCategories ==>
              r == Filter(items, InCategory(categoryId)) &&
              forall x :: x in r <==> x in items && x.category == categoryId
  {
    if categoryId == AllCategories then items
    else
      var inCategory := InCategory(categoryId);
      assert forall x :: inCategory(x) <==> x.category == categoryId;
      Filter(items, inCategory)
  }

  function IsInStock(): InventoryItem -> bool {
    (item: InventoryItem) => item.inStock
  }

  /** getInStockItems: exactly the items flagged in stock, in list order. */
  function InStockItems(items: seq<InventoryItem>): (r: seq<InventoryItem>)
    ensures r == Filter(items, IsInStock())
    ensures forall x :: x in r <==> x in items && x.inStock
  {
    var inStock := IsInStock();
    assert forall x :: inStock(x) <==> x.inStock;
    Filter(items, inStock)
  }

  function MatchesTerm(term: string): InventoryItem -> bool {
    (item: InventoryItem) => MatchesSearch(item, term)
  }

  /** searchItems: exactly the items matching the term, in list order; the empty
      term is contained in every text, so it keeps the whole list. */
  function SearchItems(items: seq<InventoryItem>, term: string): (r: seq<InventoryItem>)
    ensures r == Filter(items, MatchesTerm(term))
    ensures forall x :: x in r <==> x in items && MatchesSearch(x, term)
  {
    var matches := MatchesTerm(term);
    assert forall x :: matches(x) <==> MatchesSearch(x, term);
    Filter(items, matches)
  }

  /** The empty term is contained in every text, so it keeps the whole list. */
  lemma EmptySearchKeepsAll(items: seq<InventoryItem>)
    ensures SearchItems(items, "") == items
  {
    var matches := MatchesTerm("");
    forall i | 0 <= i < |items| ensures matches(items[i]) {
      assert Lower(items[i].name)[..0] == Lower("");
    }
    FilterKeepsAll(items, matches);
  }

  /** `Array.prototype.slice(0, limit)`: a negative end counts from the back. */
  function SliceEnd(limit: int, length: nat): (end: nat)
    ensures end <= length
    ensures limit >= 0 ==> end == if limit < length then limit else length
    ensures limit < 0 ==> end == if length + limit > 0 then length + limit else 0
  {
    if limit >= 0 then (if limit < length then limit else length)
    else if length + limit > 0 then length + limit else 0
  }

  /** `Math.max(...items.map(item => item.id))` over a non-empty list. */
  function MaxId(items: seq<InventoryItem>): (m: int)
    requires |items| > 0
    ensures forall i :: 0 <= i < |items| ==> items[i].id <= m
    ensures exists i :: 0 <= i < |items| && items[i].id == m
  {
    if |items| == 1 then items[0].id
    else
      var rest := MaxId(items[1..]);
      assert forall i :: 1 <= i < |items| ==> items[i] == items[1..][i - 1];
      if items[0].id >= rest then items[0].id else rest
  }

  /** The fields a caller of addNewItem supplies; `tags` may be absent. */
  datatype NewItem = NewItem(
    name: string,
    category: string,
    price: real,
    unit: string,
    image: string,
    description: string,
    inStock: bool,
    stockQuantity: int,
    supplier: string,
    origin: string,
    nutritionInfo: string,
    storageInstructions: string,
    tags: Option<seq<string>>)

  /** The appended record: the given id, the caller's fields, popularity 50 and
      the caller's tags or none. */
  function NewItemRow(newItem: NewItem, id: int): InventoryItem {
    InventoryItem(id, newItem.name, newItem.category, newItem.price, newItem.unit, newItem.image,
                  newItem.description, newItem.inStock, newItem.stockQuantity, newItem.supplier,
                  newItem.origin, newItem.nutritionInfo, newItem.storageInstructions,
                  NewItemPopularity, newItem.tags.GetOr([]))
  }

  /** `Array.prototype.find` by id: the position of the first item with that id. */
  function FirstIndex(items: seq<InventoryItem>, id: int): (r: Option<nat>)
    ensures r.None? <==> forall k :: 0 <= k < |items| ==> items[k].id != id
    ensures r.Some? ==> r.value < |items| && items[r.value].id == id &&
                        forall k :: 0 <= k < r.value ==> items[k].id != id
  {
    if items == [] then None
    else if items[0].id == id then Some(0)
    else
      match FirstIndex(items[1..], id)
      case None =>
        assert forall k :: 1 <= k < |items| ==> items[k] == items[1..][k - 1];
        None
      case Some(k) =>
        assert forall j :: 1 <= j <= k ==> items[j] == items[1..][j - 1];
        Some(k + 1)
  }

  /** updateStock's effect on the list: the first item with the id gets the new
      quantity and an in-stock flag saying whether it is positive; the list is
      otherwise unchanged. */
  function StockUpdated(items: seq<InventoryItem>, id: int, newQuantity: int): (r: seq<InventoryItem>)
    ensures |r| == |items|
    ensures forall k :: 0 <= k < |items| ==> r[k].id == items[k].id
    ensures FirstIndex(items, id).None? ==> r == items
    ensures FirstIndex(items, id).Some? ==>
              var i := FirstIndex(items, id).value;
              r[i] == items[i].(stockQuantity := newQuantity, inStock := newQuantity > 0) &&
              forall k :: 0 <= k < |items| && k != i ==> r[k] == items[k]
  {
    match FirstIndex(items, id)
    case None => items
    case Some(i) => items[i := items[i].(stockQuantity := newQuantity, inStock := newQuantity > 0)]
  }

  /** Two identical stock updates leave the list as one does. */
  lemma StockUpdateIdempotent(items: seq<InventoryItem>, id: int, newQuantity: int)
    ensures StockUpdated(StockUpdated(items, id, newQuantity), id, newQuantity) == StockUpdated(items, id, newQuantity)
  {
    var once := StockUpdated(items, id, newQuantity);
    assert FirstIndex(once, id) == FirstIndex(items, id);
  }

  lemma {:induction false} InsertKeepsUniqueIds(key: SortKey, x: InventoryItem, s: seq<InventoryItem>)
    requires UniqueIds(s)
    requires forall k :: 0 <= k < |s| ==> s[k].id != x.id
    ensures UniqueIds(Insert(key, x, s))
    decreases |s|
  {
    if s != [] && !InOrder(key, x, s[0]) {
      var tail := s[1..];
      assert forall k :: 0 <= k < |tail| ==> tail[k] == s[k + 1];
      InsertKeepsUniqueIds(key, x, tail);
      var rest := Insert(key, x, tail);
      forall j | 0 <= j < |rest| ensures rest[j].id != s[0].id {
        var y := rest[j];
        assert y in multiset(rest);
        if y != x {
          assert y in tail;
          var k :| 0 <= k < |tail| && tail[k] == y;
        }
      }
    }
  }

  /** Sorting only permutes the list, so ids stay unique. */
  lemma {:induction false} SortKeepsUniqueIds(key: SortKey, s: seq<InventoryItem>)
    requires UniqueIds(s)
    ensures UniqueIds(SortBy(key, s))
    decreases |s|
  {
    if s != [] {
      var tail := s[1..];
      assert forall k :: 0 <= k < |tail| ==> tail[k] == s[k + 1];
      SortKeepsUniqueIds(key, tail);
      var sorted := SortBy(key, tail);
      forall k | 0 <= k < |sorted| ensures sorted[k].id != s[0].id {
        assert sorted[k] in multiset(tail);
        var m :| 0 <= m < |tail| && tail[m] == sorted[k];
      }
      InsertKeepsUniqueIds(key, s[0], sorted);
    }
  }

  /** The module-level `inventoryItems` array. It starts with one item and no
      helper removes any, so it is never empty; ids stay unique. */
  class Inventory {
    var items: seq<InventoryItem>

    ghost predicate Valid()
      reads this
    {
      |items| > 0 && UniqueIds(items)
    }

    constructor ()
      ensures Valid()
      ensures items == [OrganicBananas()]
    {
      items := [OrganicBananas()];
    }

    /** getPopularItems: sorts the shared list in place by descending popularity
        and returns its first `limit` items, six when no limit is passed. */
    method GetPopularItems(limit: Option<int>) returns (top: seq<InventoryItem>)
      requires Valid()
      modifies this
      ensures Valid()
      ensures items == SortBy(ByPopularity, old(items))
      ensures multiset(items) == multiset(old(items))
      ensures forall i, j :: 0 <= i < j < |items| ==> items[i].popularity >= items[j].popularity
      ensures top == items[..SliceEnd(limit.GetOr(DefaultPopularLimit), |items|)]
      ensures limit.None? ==> |top| == if |items| < DefaultPopularLimit then |items| else DefaultPopularLimit
    {
      SortBySorted(ByPopularity, items);
      SortKeepsUniqueIds(ByPopularity, items);
      items := SortBy(ByPopularity, items);
      top := items[..SliceEnd(limit.GetOr(DefaultPopularLimit), |items|)];
    }

    /** addNewItem: appends the new item under the largest id plus one and
        returns the list. */
    method AddNewItem(newItem: NewItem) returns (all: seq<InventoryItem>)
      requires Valid()
      modifies this
      ensures Valid()
      ensures items == old(items) + [NewItemRow(newItem, MaxId(old(items)) + 1)]
      ensures forall k :: 0 <= k < |old(items)| ==> old(items)[k].id < items[|items| - 1].id
      ensures all == items
    {
      var id := MaxId(items) + 1;
      items := items + [NewItemRow(newItem, id)];
      all := items;
    }

    /** updateStock: finds the first item with the id and, if there is one, sets
        its quantity and in-stock flag; returns that item or nothing. */
    method UpdateStock(itemId: int, newQuantity: int) returns (found: Option<InventoryItem>)
      requires Valid()
      modifies this
      ensures Valid()
      ensures items == StockUpdated(old(items), itemId, newQuantity)
      ensures found.None? <==> forall k :: 0 <= k < |old(items)| ==> old(items)[k].id != itemId
      ensures found.Some? ==> found.value in items && found.value.id == itemId &&
                              found.value.stockQuantity == newQuantity && found.value.inStock == (newQuantity > 0)
    {
      var i := 0;
      while i < |items| && items[i].id != itemId
        invariant 0 <= i <= |items|
        invariant forall k :: 0 <= k < i ==> items[k].id != itemId
      {
        i := i + 1;
      }
      if i < |items| {
        var updated := items[i].(stockQuantity := newQuantity, inStock := newQuantity > 0);
        items := items[i := updated];
        found := Some(updated);
      } else {
        found := None;
      }
    }
  }
}
