/** The order of the shopping list: by the position of the item's category in
    a fixed list, then by name. `Array.prototype.sort` is stable, so the model
    sorts by stable insertion. A category missing from the list gets position
    -1 from `indexOf` and therefore sorts before "produce". `localeCompare` is
    modelled by lexicographic order on code points. */
module ShoppingOrder {
  import opened Selections
  import opened ShoppingAggregation

  const CategoryOrder: seq<string> := ["produce", "meat", "dairy", "pantry", "frozen", "other"]

  /** `xs.indexOf(x)`: the first position of `x`, or -1 when absent. */
  function IndexOf(xs: seq<string>, x: string): (r: int)
    ensures -1 <= r < |xs|
    ensures r == -1 <==> x !in xs
    ensures r >= 0 ==> xs[r] == x && x !in xs[..r]
  {
    if xs == [] then -1
    else if xs[0] == x then 0
    else
      var j := IndexOf(xs[1..], x);
      assert j >= 0 ==> xs[..j + 1] == [xs[0]] + xs[1..][..j];
      if j < 0 then -1 else j + 1
  }

  /** `categoryOrder.indexOf(category)`, spelled out case by case;
      `CategoryRankIsIndexOf` ties it to the list. */
  function CategoryRank(category: string): (r: int)
    ensures -1 <= r < 6
  {
    if category == "produce" then 0
    else if category == "meat" then 1
    else if category == "dairy" then 2
    else if category == "pantry" then 3
    else if category == "frozen" then 4
    else if category == "other" then 5
    else -1
  }

  /** Each listed category ranks at its own position. */
  lemma RankOfListed(k: nat)
    requires k < |CategoryOrder|
    ensures CategoryRank(CategoryOrder[k]) == k
  {
  }

  /** A category with a rank is the listed one at that position. */
  lemma ListedOfRank(category: string)
    requires CategoryRank(category) >= 0
    ensures CategoryOrder[CategoryRank(category)] == category
  {
  }

  /** The rank is the category's position in the fixed list, and -1 for a
      category the list lacks. */
  lemma CategoryRankIsIndexOf(category: string)
    ensures CategoryRank(category) == IndexOf(CategoryOrder, category)
  {
    var r := IndexOf(CategoryOrder, category);
    if r >= 0 {
      RankOfListed(r);
    } else if CategoryRank(category) >= 0 {
      ListedOfRank(category);
    }
  }

  // ------------------------------------------------------------- name order

  /** `a` comes no later than `b` in lexicographic code-point order. */
  predicate NameLe(a: string, b: string) {
    if a == [] then true
    else if b == [] then false
    else a[0] < b[0] || (a[0] == b[0] && NameLe(a[1..], b[1..]))
  }

  lemma {:induction false} NameLeTotal(a: string, b: string)
    ensures NameLe(a, b) || NameLe(b, a)
  {
    if a != [] && b != [] && a[0] == b[0] {
      NameLeTotal(a[1..], b[1..]);
    }
  }

  lemma {:induction false} NameLeTransitive(a: string, b: string, c: string)
    requires NameLe(a, b) && NameLe(b, c)
    ensures NameLe(a, c)
  {
    if a != [] && b != [] && c != [] && a[0] == b[0] && b[0] == c[0] {
      NameLeTransitive(a[1..], b[1..], c[1..]);
    }
  }

  // ------------------------------------------------------------- item order

  /** The comparator returns a value <= 0: lower category rank first, then
      name order. */
  predicate ItemLe(a: Item, b: Item) {
    CategoryRank(a.category) < CategoryRank(b.category)
    || (CategoryRank(a.category) == CategoryRank(b.category) && NameLe(a.name, b.name))
  }

  lemma ItemLeTotal(a: Item, b: Item)
    ensures ItemLe(a, b) || ItemLe(b, a)
  {
    NameLeTotal(a.name, b.name);
  }

  lemma ItemLeTransitive(a: Item, b: Item, c: Item)
    requires ItemLe(a, b) && ItemLe(b, c)
    ensures ItemLe(a, c)
  {
    if CategoryRank(a.category) == CategoryRank(b.category) == CategoryRank(c.category) {
      NameLeTransitive(a.name, b.name, c.name);
    }
  }

  predicate Sorted(s: seq<Item>) {
    forall i, j :: 0 <= i < j < |s| ==> ItemLe(s[i], s[j])
  }

  /** Places `x` before the first element it does not follow. */
  function Insert(x: Item, s: seq<Item>): (r: seq<Item>)
    ensures multiset(r) == multiset(s) + multiset{x}
    ensures |r| == |s| + 1
  {
    if s == [] || ItemLe(x, s[0]) then [x] + s
    else
      assert s == [s[0]] + s[1..];
      [s[0]] + Insert(x, s[1..])
  }

  lemma {:induction false} InsertSorted(x: Item, s: seq<Item>)
    requires Sorted(s)
    ensures Sorted(Insert(x, s))
    decreases |s|
  {
    if s == [] || ItemLe(x, s[0]) {
      forall j | 0 <= j < |s|
        ensures ItemLe(x, s[j])
      {
        if j > 0 {
          ItemLeTransitive(x, s[0], s[j]);
        }
      }
    } else {
      ItemLeTotal(x, s[0]);
      InsertSorted(x, s[1..]);
      var r := Insert(x, s);
      var tail := Insert(x, s[1..]);
      assert r == [s[0]] + tail;
      forall j | 0 <= j < |tail|
        ensures ItemLe(s[0], tail[j])
      {
        assert tail[j] in multiset(s[1..]) + multiset{x};
        if tail[j] != x {
          assert tail[j] in s[1..];
        }
      }
    }
  }

  /** The `sort` call: a sorted permutation of the items. */
  function SortItems(s: seq<Item>): (r: seq<Item>)
    ensures Sorted(r)
    ensures multiset(r) == multiset(s)
    ensures |r| == |s|
  {
    if s == [] then []
    else
      var rest := SortItems(s[1..]);
      InsertSorted(s[0], rest);
      assert multiset(s) == multiset{s[0]} + multiset(s[1..]) by {
        assert s == [s[0]] + s[1..];
      }
      Insert(s[0], rest)
  }

  lemma KeysOfCons(x: Item, s: seq<Item>)
    ensures KeysOf([x] + s) == [ItemKey(x)] + KeysOf(s)
  {
  }

  lemma {:induction false} InsertKeys(x: Item, s: seq<Item>)
    ensures forall k :: k in KeysOf(Insert(x, s)) <==> k == ItemKey(x) || k in KeysOf(s)
    ensures DistinctKeys(s) && ItemKey(x) !in KeysOf(s) ==> DistinctKeys(Insert(x, s))
    decreases |s|
  {
    if s == [] || ItemLe(x, s[0]) {
      KeysOfCons(x, s);
      NoDupCons(ItemKey(x), KeysOf(s));
    } else {
      var tail := Insert(x, s[1..]);
      InsertKeys(x, s[1..]);
      assert s == [s[0]] + s[1..];
      KeysOfCons(s[0], s[1..]);
      KeysOfCons(s[0], tail);
      NoDupCons(ItemKey(s[0]), KeysOf(s[1..]));
      NoDupCons(ItemKey(s[0]), KeysOf(tail));
    }
  }

  /** Sorting neither adds nor drops a key, and keeps one item per key. */
  lemma {:induction false} SortKeys(s: seq<Item>)
    ensures forall k :: k in KeysOf(SortItems(s)) <==> k in KeysOf(s)
    ensures DistinctKeys(s) ==> DistinctKeys(SortItems(s))
  {
    if s != [] {
      SortKeys(s[1..]);
      InsertKeys(s[0], SortItems(s[1..]));
      assert s == [s[0]] + s[1..];
      KeysOfCons(s[0], s[1..]);
      NoDupCons(ItemKey(s[0]), KeysOf(s[1..]));
    }
  }

  /** Sorting an already sorted list leaves it as it is. */
  lemma {:induction false} SortSortedIsIdentity(s: seq<Item>)
    requires Sorted(s)
    ensures SortItems(s) == s
  {
    if s != [] {
      SortSortedIsIdentity(s[1..]);
      assert s == [s[0]] + s[1..];
    }
  }

  /** Sorting is idempotent. */
  lemma SortIdempotent(s: seq<Item>)
    ensures SortItems(SortItems(s)) == SortItems(s)
  {
    SortSortedIsIdentity(SortItems(s));
  }

  /** A category outside the fixed list sorts before every listed one. */
  lemma UnknownCategorySortsFirst(a: Item, b: Item)
    requires a.category !in CategoryOrder && b.category in CategoryOrder
    ensures ItemLe(a, b) && !ItemLe(b, a)
  {
  }

  /** Among items of one category the order is by name. */
  lemma SameCategoryByName(a: Item, b: Item)
    requires a.category == b.category
    ensures ItemLe(a, b) <==> NameLe(a.name, b.name)
  {
  }

  // ------------------------------------------- unknown categories deferred

  /** The rank if unknown categories are deferred to the end: a category
      missing from the list ranks after every listed one. */
  function DeferredRank(category: string): (r: int)
    ensures category in CategoryOrder ==> r == IndexOf(CategoryOrder, category)
    ensures category !in CategoryOrder ==> r == |CategoryOrder|
  {
    CategoryRankIsIndexOf(category);
    var k := CategoryRank(category);
    if k < 0 then |CategoryOrder| else k
  }

  predicate DeferredItemLe(a: Item, b: Item) {
    DeferredRank(a.category) < DeferredRank(b.category)
    || (DeferredRank(a.category) == DeferredRank(b.category) && NameLe(a.name, b.name))
  }

  /** With unknown categories deferred, they sort after every listed one. */
  lemma DeferredUnknownSortsLast(a: Item, b: Item)
    requires a.category in CategoryOrder && b.category !in CategoryOrder
    ensures DeferredItemLe(a, b) && !DeferredItemLe(b, a)
  {
  }

  /** On items whose categories are all listed, deferring unknown categories
      changes nothing: the two orders agree. */
  lemma DeferredAgreesOnListed(a: Item, b: Item)
    requires a.category in CategoryOrder && b.category in CategoryOrder
    ensures DeferredItemLe(a, b) <==> ItemLe(a, b)
  {
    CategoryRankIsIndexOf(a.category);
    CategoryRankIsIndexOf(b.category);
  }
}
