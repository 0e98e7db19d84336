/** `estimateTotalCost` and `getCategoryBreakdown` of the shopping-list edge
    function. */
module ShoppingCost {
  import opened Selections
  import opened ShoppingAggregation

  /** Average price per category, in dollars per roughly two units. */
  const CategoryPrices: map<string, real> :=
    map["produce" := 2.50, "meat" := 8.00, "dairy" := 3.50, "pantry" := 2.00, "frozen" := 4.00, "other" := 3.00]

  const FallbackPrice: real := 3.00

  /** `categoryPrices[item.category] || 3.00`. */
  function CategoryPrice(category: string): (r: real)
    ensures 2.0 <= r <= 8.0
    ensures category !in CategoryPrices ==> r == FallbackPrice
    ensures category in CategoryPrices ==> r == CategoryPrices[category]
  {
    if category in CategoryPrices && CategoryPrices[category] != 0.0 then CategoryPrices[category] else FallbackPrice
  }

  /** `basePrice * (item.quantity / 2)`. */
  function Contribution(it: Item): real {
    CategoryPrice(it.category) * (it.quantity / 2.0)
  }

  lemma ContributionBounds(it: Item)
    requires it.quantity >= 0.0
    ensures it.quantity <= Contribution(it) <= 4.0 * it.quantity
  {
    var p := CategoryPrice(it.category);
    var h := it.quantity / 2.0;
    assert (p - 2.0) * h >= 0.0;
    assert (8.0 - p) * h >= 0.0;
  }

  predicate NonNegativeQuantities(items: seq<Item>) {
    forall i :: 0 <= i < |items| ==> items[i].quantity >= 0.0
  }

  function SumQuantity(items: seq<Item>): real {
    if items == [] then 0.0 else items[0].quantity + SumQuantity(items[1..])
  }

  /** `estimateTotalCost`: the sum of every item's contribution. With no
      negative quantity the estimate lies between the total quantity (every
      item at the cheapest price) and four times it (every item at the dearest),
      so in particular it is never negative. */
  function EstimateTotalCost(items: seq<Item>): (r: real)
    ensures NonNegativeQuantities(items) ==> SumQuantity(items) <= r <= 4.0 * SumQuantity(items)
    ensures NonNegativeQuantities(items) ==> r >= 0.0
  {
    if items == [] then 0.0
    else
      CostStep(items);
      Contribution(items[0]) + EstimateTotalCost(items[1..])
  }

  /** The head of a list without negative quantities lies within the price
      bounds, and its tail has no negative quantity either. */
  lemma CostStep(items: seq<Item>)
    requires items != []
    ensures NonNegativeQuantities(items) ==>
      NonNegativeQuantities(items[1..]) && items[0].quantity <= Contribution(items[0]) <= 4.0 * items[0].quantity
  {
    if NonNegativeQuantities(items) {
      ContributionBounds(items[0]);
      forall i | 0 <= i < |items| - 1 ensures items[1..][i].quantity >= 0.0 {
        assert items[1..][i] == items[i + 1];
      }
    }
  }

  lemma {:induction false} CostAppend(a: seq<Item>, b: seq<Item>)
    ensures EstimateTotalCost(a + b) == EstimateTotalCost(a) + EstimateTotalCost(b)
  {
    if a == [] {
      assert a + b == b;
    } else {
      assert (a + b)[1..] == a[1..] + b;
      CostAppend(a[1..], b);
    }
  }

  /** Taking one item out of a list takes its contribution out of the cost. */
  lemma {:induction false} CostRemoveAt(b: seq<Item>, i: nat)
    requires i < |b|
    ensures EstimateTotalCost(b) == Contribution(b[i]) + EstimateTotalCost(b[..i] + b[i + 1..])
  {
    var tail := [b[i]] + b[i + 1..];
    assert b == b[..i] + tail;
    CostAppend(b[..i], tail);
    assert tail[1..] == b[i + 1..];
    assert EstimateTotalCost(tail) == Contribution(b[i]) + EstimateTotalCost(b[i + 1..]);
    CostAppend(b[..i], b[i + 1..]);
  }

  lemma MultisetRemoveAt(b: seq<Item>, i: nat)
    requires i < |b|
    ensures multiset(b[..i] + b[i + 1..]) == multiset(b) - multiset{b[i]}
  {
    assert b == b[..i] + [b[i]] + b[i + 1..];
  }

  /** The estimate does not depend on the order of the items, so estimating
      the sorted list gives the same total as estimating the unsorted one. */
  lemma {:induction false} CostPermutationInvariant(a: seq<Item>, b: seq<Item>)
    requires multiset(a) == multiset(b)
    ensures EstimateTotalCost(a) == EstimateTotalCost(b)
    decreases |a|
  {
    if a == [] {
      assert |b| == |multiset(b)| == 0;
    } else {
      var x := a[0];
      assert x in multiset(b);
      var i :| 0 <= i < |b| && b[i] == x;
      MultisetRemoveAt(b, i);
      assert multiset(a[1..]) == multiset(a) - multiset{x} by {
        assert a == [x] + a[1..];
      }
      CostPermutationInvariant(a[1..], b[..i] + b[i + 1..]);
      CostRemoveAt(b, i);
    }
  }

  // ------------------------------------------------------ category breakdown

  /** One key of the breakdown object and its count. The object's keys come
      out in insertion order, so the model keeps them in a sequence. */
  datatype CategoryCount = CategoryCount(category: string, count: nat)

  function Categories(tally: seq<CategoryCount>): seq<string> {
    seq(|tally|, i requires 0 <= i < |tally| => tally[i].category)
  }

  /** Position of category `c` in the tally, or -1. */
  function FindCategory(tally: seq<CategoryCount>, c: string): (r: int)
    ensures -1 <= r < |tally|
    ensures r == -1 <==> forall i :: 0 <= i < |tally| ==> tally[i].category != c
    ensures r >= 0 ==> tally[r].category == c && forall i :: 0 <= i < r ==> tally[i].category != c
  {
    if tally == [] then -1
    else if tally[0].category == c then 0
    else
      var j := FindCategory(tally[1..], c);
      if j < 0 then -1 else j + 1
  }

  /** `breakdown[c] || 0`. */
  function CountIn(tally: seq<CategoryCount>, c: string): nat {
    var i := FindCategory(tally, c);
    if i < 0 then 0 else tally[i].count
  }

  /** `breakdown[c] = (breakdown[c] || 0) + 1`. */
  function Tally(tally: seq<CategoryCount>, c: string): (r: seq<CategoryCount>)
    ensures NoDup(Categories(tally)) ==> NoDup(Categories(r))
    ensures forall d :: d in Categories(r) <==> d in Categories(tally) || d == c
  {
    var i := FindCategory(tally, c);
    if i >= 0 then
      var r := tally[i := tally[i].(count := tally[i].count + 1)];
      assert Categories(r) == Categories(tally);
      assert Categories(tally)[i] == c;
      r
    else
      var r := tally + [CategoryCount(c, 1)];
      assert Categories(r) == Categories(tally) + [c];
      r
  }

  function BreakdownFrom(tally: seq<CategoryCount>, items: seq<Item>): (r: seq<CategoryCount>)
    ensures NoDup(Categories(tally)) ==> NoDup(Categories(r))
    decreases |items|
  {
    if items == [] then tally else BreakdownFrom(Tally(tally, items[0].category), items[1..])
  }

  /** `getCategoryBreakdown`. */
  function CategoryBreakdown(items: seq<Item>): seq<CategoryCount> {
    BreakdownFrom([], items)
  }

  /** Number of items of category `c`. */
  function ItemsIn(items: seq<Item>, c: string): nat {
    if items == [] then 0 else (if items[0].category == c then 1 else 0) + ItemsIn(items[1..], c)
  }

  function SumCounts(tally: seq<CategoryCount>): nat {
    if tally == [] then 0 else tally[0].count + SumCounts(tally[1..])
  }

  lemma {:induction false} FindCategorySameKeys(a: seq<CategoryCount>, b: seq<CategoryCount>, c: string)
    requires Categories(a) == Categories(b)
    ensures FindCategory(a, c) == FindCategory(b, c)
  {
    if a != [] {
      assert Categories(a[1..]) == Categories(a)[1..];
      assert Categories(b[1..]) == Categories(b)[1..];
      assert a[0].category == Categories(a)[0];
      assert b[0].category == Categories(b)[0];
      FindCategorySameKeys(a[1..], b[1..], c);
    }
  }

  lemma {:induction false} FindCategoryAppend(tally: seq<CategoryCount>, x: CategoryCount, c: string)
    ensures FindCategory(tally + [x], c) ==
      if FindCategory(tally, c) >= 0 then FindCategory(tally, c)
      else if x.category == c then |tally|
      else -1
  {
    if tally != [] {
      assert (tally + [x])[1..] == tally[1..] + [x];
      FindCategoryAppend(tally[1..], x, c);
    }
  }

  lemma {:induction false} SumCountsUpdate(tally: seq<CategoryCount>, i: nat, x: CategoryCount)
    requires i < |tally|
    ensures SumCounts(tally[i := x]) + tally[i].count == SumCounts(tally) + x.count
  {
    if i > 0 {
      assert tally[i := x][1..] == tally[1..][i - 1 := x];
      SumCountsUpdate(tally[1..], i - 1, x);
    }
  }

  lemma {:induction false} SumCountsAppend(tally: seq<CategoryCount>, x: CategoryCount)
    ensures SumCounts(tally + [x]) == SumCounts(tally) + x.count
  {
    if tally != [] {
      assert (tally + [x])[1..] == tally[1..] + [x];
      SumCountsAppend(tally[1..], x);
    }
  }

  /** One tally step adds one to the count of its category and to the total. */
  lemma TallyStep(tally: seq<CategoryCount>, c: string)
    ensures forall d :: CountIn(Tally(tally, c), d) == CountIn(tally, d) + (if d == c then 1 else 0)
    ensures SumCounts(Tally(tally, c)) == SumCounts(tally) + 1
  {
    var i := FindCategory(tally, c);
    var r := Tally(tally, c);
    if i >= 0 {
      assert Categories(r) == Categories(tally);
      forall d ensures FindCategory(r, d) == FindCategory(tally, d) {
        FindCategorySameKeys(r, tally, d);
      }
      SumCountsUpdate(tally, i, tally[i].(count := tally[i].count + 1));
    } else {
      forall d ensures FindCategory(r, d) == if FindCategory(tally, d) >= 0 then FindCategory(tally, d) else if c == d then |tally| else -1 {
        FindCategoryAppend(tally, CategoryCount(c, 1), d);
      }
      SumCountsAppend(tally, CategoryCount(c, 1));
    }
  }

  lemma {:induction false} BreakdownFromCounts(tally: seq<CategoryCount>, items: seq<Item>)
    ensures forall d :: CountIn(BreakdownFrom(tally, items), d) == CountIn(tally, d) + ItemsIn(items, d)
    ensures SumCounts(BreakdownFrom(tally, items)) == SumCounts(tally) + |items|
    ensures forall d :: d in Categories(BreakdownFrom(tally, items)) <==> d in Categories(tally) || ItemsIn(items, d) > 0
    decreases |items|
  {
    if items != [] {
      TallyStep(tally, items[0].category);
      BreakdownFromCounts(Tally(tally, items[0].category), items[1..]);
    }
  }

  /** The breakdown has one key per category present, each counting that
      category's items, and the counts add up to the number of items. */
  lemma CategoryBreakdownCounts(items: seq<Item>)
    ensures NoDup(Categories(CategoryBreakdown(items)))
    ensures forall d :: CountIn(CategoryBreakdown(items), d) == ItemsIn(items, d)
    ensures forall d :: d in Categories(CategoryBreakdown(items)) <==> ItemsIn(items, d) > 0
    ensures SumCounts(CategoryBreakdown(items)) == |items|
  {
    BreakdownFromCounts([], items);
    assert NoDup(Categories([]));
  }
}
