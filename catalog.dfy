/** The catalogue item shown by the storefront's inventory views, and the pieces
    the inventory helpers and the inventory page share: the text search and the
    comparator-driven sort (Array.prototype.sort, which is stable). */
module Catalog {
  import opened Basics

  datatype InventoryItem = InventoryItem(
    id: int,
    name: string,
    category: string,
    price: real,
    unit: string,
    image: string,
    description: string,
    inStock: bool,
    stockQuantity: int,
    supplier: string,
    origin: string,
    nutritionInfo: string,
    storageInstructions: string,
    popularity: int,
    tags: seq<string>)

  /** An item matches a search term when its lower-cased name, description or one
      of its tags contains the lower-cased term. */
  predicate MatchesSearch(item: InventoryItem, term: string) {
    var t := Lower(term);
    Contains(Lower(item.name), t) ||
    Contains(Lower(item.description), t) ||
    exists tag :: tag in item.tags && Contains(Lower(tag), t)
  }

  /** The sort orders the views use: by price (ascending, `a.price - b.price`),
      by name (ascending, `localeCompare`, here code-point order) and by
      popularity (descending, `b.popularity - a.popularity`). */
  datatype SortKey = ByPrice | ByName | ByPopularity

  /** Lexicographic order on names, character by character. */
  predicate NameBefore(a: string, b: string)
    decreases |a|
  {
    |a| == 0 || (|b| > 0 && (a[0] < b[0] || (a[0] == b[0] && NameBefore(a[1..], b[1..]))))
  }

  lemma {:induction false} NameBeforeTotal(a: string, b: string)
    ensures NameBefore(a, b) || NameBefore(b, a)
    decreases |a|
  {
    if |a| > 0 && |b| > 0 && a[0] == b[0] {
      NameBeforeTotal(a[1..], b[1..]);
    }
  }

  lemma {:induction false} NameBeforeTransitive(a: string, b: string, c: string)
    requires NameBefore(a, b) && NameBefore(b, c)
    ensures NameBefore(a, c)
    decreases |a|
  {
    if |a| > 0 && a[0] == b[0] && b[0] == c[0] {
      NameBeforeTransitive(a[1..], b[1..], c[1..]);
    }
  }

  /** `a` may stand before `b`: the comparator does not put `b` first. */
  predicate InOrder(key: SortKey, a: InventoryItem, b: InventoryItem) {
    match key
    case ByPrice => a.price <= b.price
    case ByName => NameBefore(a.name, b.name)
    case ByPopularity => a.popularity >= b.popularity
  }

  lemma InOrderTotal(key: SortKey, a: InventoryItem, b: InventoryItem)
    ensures InOrder(key, a, b) || InOrder(key, b, a)
  {
    if key.ByName? {
      NameBeforeTotal(a.name, b.name);
    }
  }

  lemma InOrderTransitive(key: SortKey, a: InventoryItem, b: InventoryItem, c: InventoryItem)
    requires InOrder(key, a, b) && InOrder(key, b, c)
    ensures InOrder(key, a, c)
  {
    if key.ByName? {
      NameBeforeTransitive(a.name, b.name, c.name);
    }
  }

  ghost predicate Sorted(key: SortKey, s: seq<InventoryItem>) {
    forall i, j :: 0 <= i < j < |s| ==> InOrder(key, s[i], s[j])
  }

  /** Puts `x` in front of the first element it may precede. */
  function Insert(key: SortKey, x: InventoryItem, s: seq<InventoryItem>): (r: seq<InventoryItem>)
    ensures multiset(r) == multiset(s) + multiset{x}
  {
    if s == [] then [x]
    else if InOrder(key, x, s[0]) then [x] + s
    else
      assert s == [s[0]] + s[1..];
      [s[0]] + Insert(key, x, s[1..])
  }

  /** A stable sort: each element goes in front of the equal elements that came
      after it in the input. */
  function SortBy(key: SortKey, s: seq<InventoryItem>): (r: seq<InventoryItem>)
    ensures multiset(r) == multiset(s)
    ensures |r| == |s|
  {
    if s == [] then []
    else
      assert s == [s[0]] + s[1..];
      Insert(key, s[0], SortBy(key, s[1..]))
  }

  lemma {:induction false} InsertSorted(key: SortKey, x: InventoryItem, s: seq<InventoryItem>)
    requires Sorted(key, s)
    ensures Sorted(key, Insert(key, x, s))
    decreases |s|
  {
    if s != [] && InOrder(key, x, s[0]) {
      forall k | 0 <= k < |s| ensures InOrder(key, x, s[k]) {
        if k > 0 {
          InOrderTransitive(key, x, s[0], s[k]);
        }
      }
      ConsSorted(key, x, s);
    } else if s != [] {
      var tail := s[1..];
      assert Sorted(key, tail) by {
        forall i, j | 0 <= i < j < |tail| ensures InOrder(key, tail[i], tail[j]) {
          assert tail[i] == s[i + 1] && tail[j] == s[j + 1];
        }
      }
      InsertSorted(key, x, tail);
      HeadPrecedesInsert(key, x, s);
      ConsSorted(key, s[0], Insert(key, x, tail));
    }
  }

  /** A sorted list stays sorted behind an element that may precede all of it. */
  lemma ConsSorted(key: SortKey, head: InventoryItem, s: seq<InventoryItem>)
    requires Sorted(key, s)
    requires forall k :: 0 <= k < |s| ==> InOrder(key, head, s[k])
    ensures Sorted(key, [head] + s)
  {
    var r := [head] + s;
    forall i, j | 0 <= i < j < |r|
      ensures InOrder(key, r[i], r[j])
    {
      if i == 0 {
        assert r[j] == s[j - 1];
      } else {
        assert r[i] == s[i - 1] && r[j] == s[j - 1];
      }
    }
  }

  /** When `x` goes after the head, the head may precede everything the rest of
      the insertion produces. */
  lemma HeadPrecedesInsert(key: SortKey, x: InventoryItem, s: seq<InventoryItem>)
    requires Sorted(key, s)
    requires s != [] && !InOrder(key, x, s[0])
    ensures forall k :: 0 <= k < |Insert(key, x, s[1..])| ==> InOrder(key, s[0], Insert(key, x, s[1..])[k])
  {
    var tail := s[1..];
    var rest := Insert(key, x, tail);
    InOrderTotal(key, x, s[0]);
    forall k | 0 <= k < |rest| ensures InOrder(key, s[0], rest[k]) {
      var y := rest[k];
      assert y in multiset(rest);
      if y != x {
        assert y in multiset(tail);
        var m :| 0 <= m < |tail| && tail[m] == y;
        assert s[m + 1] == y;
      }
    }
  }

  /** SortBy puts its result in comparator order. */
  lemma {:induction false} SortBySorted(key: SortKey, s: seq<InventoryItem>)
    ensures Sorted(key, SortBy(key, s))
    decreases |s|
  {
    if s != [] {
      SortBySorted(key, s[1..]);
      InsertSorted(key, s[0], SortBy(key, s[1..]));
    }
  }
}
