/** The pure part of the `generate-shopping-list` edge function, end to end:
    consolidate the plan's ingredients, sort them, estimate the cost and count
    the categories. Reading the plan and the groups, the check for a list that
    already exists and the insert are database calls outside the model. */
module ShoppingList {
  import opened Results
  import opened Selections
  import opened Households
  import opened ShoppingAggregation
  import opened ShoppingOrder
  import opened ShoppingCost

  /** The items stored in the new `shopping_lists` row, its
      `total_estimated_cost`, and the response's `items_count` and
      `categories`. */
  datatype GeneratedList = GeneratedList(
    items: seq<Item>,
    totalEstimatedCost: real,
    itemsCount: nat,
    categories: seq<CategoryCount>)

  function GenerateShoppingList(entries: seq<Entry>, groups: seq<Group>): (r: GeneratedList)
    ensures Sorted(r.items)
    ensures multiset(r.items) == multiset(Consolidate(entries, groups))
    ensures r.itemsCount == |r.items|
    ensures r.totalEstimatedCost == EstimateTotalCost(Consolidate(entries, groups))
  {
    var items := SortItems(Consolidate(entries, groups));
    CostPermutationInvariant(items, Consolidate(entries, groups));
    GeneratedList(items, EstimateTotalCost(items), |items|, CategoryBreakdown(items))
  }

  /** Every item of the generated list is exactly what the reference
      definition prescribes for its key: the first occurrence's id, name, unit,
      category and staple flag, the summed scaled quantity and every
      contributing meal title in plan order. */
  lemma GeneratedItemsMatchReference(entries: seq<Entry>, groups: seq<Group>)
    ensures var r := GenerateShoppingList(entries, groups);
      forall i :: 0 <= i < |r.items| ==> Expected(Occurrences(entries, groups), ItemKey(r.items[i])) == Some(r.items[i])
  {
    var items := Consolidate(entries, groups);
    var r := GenerateShoppingList(entries, groups);
    ConsolidateDistinctKeys(entries, groups);
    forall i | 0 <= i < |r.items|
      ensures Expected(Occurrences(entries, groups), ItemKey(r.items[i])) == Some(r.items[i])
    {
      assert r.items[i] in multiset(items);
      var j :| 0 <= j < |items| && items[j] == r.items[i];
      LookupMember(items, j);
      ConsolidateMatchesReference(entries, groups, ItemKey(items[j]));
    }
  }

  /** The generated list has one item per distinct lower-cased ingredient name
      of the plan, and no other item. */
  lemma GeneratedKeys(entries: seq<Entry>, groups: seq<Group>)
    ensures var r := GenerateShoppingList(entries, groups);
      && DistinctKeys(r.items)
      && (forall k :: k in KeysOf(r.items) <==> k in OccurrenceKeys(Occurrences(entries, groups)))
  {
    ConsolidateDistinctKeys(entries, groups);
    ConsolidateKeyMembers(entries, groups);
    SortKeys(Consolidate(entries, groups));
  }

  /** `items_count` is the number of distinct lower-cased ingredient names of
      the plan. */
  lemma GeneratedCount(entries: seq<Entry>, groups: seq<Group>)
    ensures GenerateShoppingList(entries, groups).itemsCount ==
      |set k | k in OccurrenceKeys(Occurrences(entries, groups))|
  {
    var r := GenerateShoppingList(entries, groups);
    ConsolidateKeys(entries, groups);
    assert |r.items| == |multiset(r.items)| == |multiset(Consolidate(entries, groups))|;
  }

  /** The `categories` of the response count the generated items per category,
      once per category present, and add up to `items_count`. */
  lemma GeneratedCategories(entries: seq<Entry>, groups: seq<Group>)
    ensures var r := GenerateShoppingList(entries, groups);
      && NoDup(Categories(r.categories))
      && (forall c :: CountIn(r.categories, c) == ItemsIn(r.items, c))
      && SumCounts(r.categories) == r.itemsCount
  {
    CategoryBreakdownCounts(GenerateShoppingList(entries, groups).items);
  }

  // ------------------------------------------------------- non-negative cost

  /** No ingredient of the entry's meal has a negative quantity, and its
      serving multiplier, when present, is not negative. */
  predicate EntryNonNegative(e: Entry) {
    && (e.servingMultiplier.None? || e.servingMultiplier.value >= 0.0)
    && (e.meal.Some? && e.meal.value.ingredients.Some? ==>
          forall j :: 0 <= j < |e.meal.value.ingredients.value| ==> e.meal.value.ingredients.value[j].quantity >= 0.0)
  }

  predicate ScaledNonNegative(occs: seq<Occurrence>) {
    forall i :: 0 <= i < |occs| ==> Scaled(occs[i]) >= 0.0
  }

  lemma MulNonNegative(a: real, b: real)
    requires a >= 0.0 && b >= 0.0
    ensures a * b >= 0.0
  {
  }

  lemma EntryOccurrencesNonNegative(e: Entry, groups: seq<Group>)
    requires EntryNonNegative(e)
    ensures ScaledNonNegative(EntryOccurrences(e, groups))
  {
    if e.meal.Some? && e.meal.value.ingredients.Some? {
      var ings := e.meal.value.ingredients.value;
      var m := EntryMultiplier(e, groups);
      MulNonNegative(ServingMultiplier(e.servingMultiplier), GroupMultiplier(e.assignedGroups, groups));
      forall i | 0 <= i < |ings| ensures ings[i].quantity * m >= 0.0 {
        MulNonNegative(ings[i].quantity, m);
      }
    }
  }

  lemma {:induction false} OccurrencesNonNegative(entries: seq<Entry>, groups: seq<Group>)
    requires forall i :: 0 <= i < |entries| ==> EntryNonNegative(entries[i])
    ensures ScaledNonNegative(Occurrences(entries, groups))
  {
    if entries != [] {
      EntryOccurrencesNonNegative(entries[0], groups);
      OccurrencesNonNegative(entries[1..], groups);
    }
  }

  lemma {:induction false} SumScaledNonNegative(os: seq<Occurrence>)
    requires ScaledNonNegative(os)
    ensures SumScaled(os) >= 0.0
  {
    if os != [] {
      SumScaledNonNegative(os[1..]);
    }
  }

  /** With no negative ingredient quantity and no negative serving multiplier,
      every item's quantity and the estimated total are non-negative. */
  lemma GeneratedCostNonNegative(entries: seq<Entry>, groups: seq<Group>)
    requires forall i :: 0 <= i < |entries| ==> EntryNonNegative(entries[i])
    ensures var r := GenerateShoppingList(entries, groups);
      && (forall i :: 0 <= i < |r.items| ==> r.items[i].quantity >= 0.0)
      && r.totalEstimatedCost >= 0.0
  {
    var occs := Occurrences(entries, groups);
    var r := GenerateShoppingList(entries, groups);
    OccurrencesNonNegative(entries, groups);
    GeneratedItemsMatchReference(entries, groups);
    forall i | 0 <= i < |r.items| ensures r.items[i].quantity >= 0.0 {
      var mine := OccurrencesOf(occs, ItemKey(r.items[i]));
      SubsequenceMembers(mine, occs);
      assert ScaledNonNegative(mine) by {
        forall j | 0 <= j < |mine| ensures Scaled(mine[j]) >= 0.0 {
          assert mine[j] in occs;
        }
      }
      SumScaledNonNegative(mine);
    }
    assert NonNegativeQuantities(r.items);
    CostPermutationInvariant(r.items, Consolidate(entries, groups));
  }
}
