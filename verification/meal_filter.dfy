/** The meals page: the search, category and dietary-tag filter over the meal
    list, the dietary-tag toggle, and the tag chips shown on each meal card. */
module MealFilter {
  import opened Results
  import opened Strings
  import opened Selections

  /** The fields of a `meals` row the page reads. */
  datatype MealCard = MealCard(
    title: string,
    description: Option<string>,
    category: string,
    dietaryTags: seq<string>)

  /** The filter controls: the search box, the category select (empty for
      "All Categories") and the selected dietary tags. */
  datatype FilterState = FilterState(searchTerm: string, selectedCategory: string, selectedTags: seq<string>)

  const NoFilter: FilterState := FilterState("", "", [])

  /** The title, or the description when there is one, contains the search
      term, both lower-cased. */
  predicate MatchesSearch(m: MealCard, term: string) {
    || Contains(ToLower(m.title), ToLower(term))
    || (m.description.Some? && Contains(ToLower(m.description.value), ToLower(term)))
  }

  predicate MatchesCategory(m: MealCard, category: string) {
    category == "" || m.category == category
  }

  /** `tags.some(tag => meal.dietary_tags.includes(tag))`. */
  predicate AnyTagOf(m: MealCard, tags: seq<string>)
    ensures AnyTagOf(m, tags) <==> exists i :: 0 <= i < |tags| && tags[i] in m.dietaryTags
  {
    if tags == [] then false
    else tags[0] in m.dietaryTags || AnyTagOf(m, tags[1..])
  }

  predicate MatchesDietary(m: MealCard, tags: seq<string>) {
    tags == [] || AnyTagOf(m, tags)
  }

  /** The `filteredMeals` predicate: all three tests pass. */
  predicate Keep(f: FilterState, m: MealCard) {
    MatchesSearch(m, f.searchTerm) && MatchesCategory(m, f.selectedCategory) && MatchesDietary(m, f.selectedTags)
  }

  /** `meals.filter(...)`: exactly the kept meals, each as often as it was
      listed, in their original order. */
  function FilterMeals(meals: seq<MealCard>, f: FilterState): (r: seq<MealCard>)
    ensures IsSubsequence(r, meals)
    ensures forall m :: m in r <==> m in meals && Keep(f, m)
    ensures forall m :: multiset(r)[m] == if Keep(f, m) then multiset(meals)[m] else 0
  {
    if meals == [] then []
    else
      assert meals == [meals[0]] + meals[1..];
      var rest := FilterMeals(meals[1..], f);
      if Keep(f, meals[0]) then
        [meals[0]] + rest
      else
        assert rest == [] || rest[0] in rest;
        rest
  }

  /** With an empty search, no category and no tags every meal is shown. */
  lemma {:induction false} NoFilterKeepsAll(meals: seq<MealCard>)
    ensures FilterMeals(meals, NoFilter) == meals
  {
    if meals != [] {
      assert ToLower("") == "";
      ContainsEmpty(ToLower(meals[0].title));
      NoFilterKeepsAll(meals[1..]);
    }
  }

  /** When every meal `f` keeps is also kept by `g`, filtering by `f` is the
      same as filtering by `g` first and then by `f`. */
  lemma {:induction false} FilterThroughWider(meals: seq<MealCard>, f: FilterState, g: FilterState)
    requires forall m :: Keep(f, m) ==> Keep(g, m)
    ensures FilterMeals(FilterMeals(meals, g), f) == FilterMeals(meals, f)
  {
    if meals != [] {
      FilterThroughWider(meals[1..], f, g);
      if Keep(g, meals[0]) {
        assert FilterMeals(meals, g) == [meals[0]] + FilterMeals(meals[1..], g);
        assert ([meals[0]] + FilterMeals(meals[1..], g))[1..] == FilterMeals(meals[1..], g);
      }
    }
  }

  lemma AnyTagOfAppend(m: MealCard, tags: seq<string>, t: string)
    requires AnyTagOf(m, tags)
    ensures AnyTagOf(m, tags + [t])
  {
    var i :| 0 <= i < |tags| && tags[i] in m.dietaryTags;
    assert (tags + [t])[i] == tags[i];
  }

  /** Once a tag is selected, selecting another never hides a meal: the
      narrower result is a filter of the wider one. */
  lemma MoreTagsNeverRemove(meals: seq<MealCard>, f: FilterState, t: string)
    requires f.selectedTags != []
    ensures var g := f.(selectedTags := f.selectedTags + [t]);
      FilterMeals(FilterMeals(meals, g), f) == FilterMeals(meals, f)
  {
    var g := f.(selectedTags := f.selectedTags + [t]);
    forall m | Keep(f, m) ensures Keep(g, m) {
      AnyTagOfAppend(m, f.selectedTags, t);
    }
    FilterThroughWider(meals, f, g);
  }

  /** Choosing a category only narrows the list shown for "All Categories". */
  lemma CategoryNarrows(meals: seq<MealCard>, f: FilterState, category: string)
    ensures var all := f.(selectedCategory := "");
      FilterMeals(FilterMeals(meals, all), f.(selectedCategory := category)) == FilterMeals(meals, f.(selectedCategory := category))
  {
    FilterThroughWider(meals, f.(selectedCategory := category), f.(selectedCategory := ""));
  }

  /** `toggleDietaryFilter`. */
  function ToggleDietaryFilter(f: FilterState, tag: string): (r: FilterState)
    ensures r == f.(selectedTags := r.selectedTags)
    ensures tag in r.selectedTags <==> tag !in f.selectedTags
    ensures forall y :: y != tag ==> (y in r.selectedTags <==> y in f.selectedTags)
    ensures NoDup(f.selectedTags) ==> NoDup(r.selectedTags)
    ensures tag !in f.selectedTags ==> r.selectedTags == f.selectedTags + [tag]
    ensures tag in f.selectedTags ==> IsSubsequence(r.selectedTags, f.selectedTags)
    ensures tag in f.selectedTags ==>
      forall y :: y != tag ==> multiset(r.selectedTags)[y] == multiset(f.selectedTags)[y]
  {
    f.(selectedTags := Toggle(f.selectedTags, tag))
  }

  // --------------------------------------------------------------- tag chips

  /** The chips of a meal card: at most the first three tags, and the number of
      further tags when there are any. */
  datatype ChipRow = ChipRow(shown: seq<string>, more: Option<nat>)

  function TagChips(tags: seq<string>): (r: ChipRow)
    ensures |r.shown| <= 3 && |r.shown| <= |tags| && r.shown == tags[..|r.shown|]
    ensures r.more.None? <==> |tags| <= 3
    ensures |r.shown| + (if r.more.Some? then r.more.value else 0) == |tags|
    ensures r.more.Some? ==> r.more.value >= 1 && |r.shown| == 3
  {
    if |tags| <= 3 then ChipRow(tags, None) else ChipRow(tags[..3], Some(|tags| - 3))
  }

  /** The text of the overflow chip, `+N`. */
  function MoreLabel(n: nat): (r: string)
    ensures |r| >= 2 && r[0] == '+' && AllDigits(r[1..])
  {
    "+" + NatToString(n)
  }

  /** The overflow chip names the number of hidden tags, and reading its
      digits back gives that number. */
  lemma MoreLabelReadsBack(tags: seq<string>)
    requires |tags| > 3
    ensures var chip := MoreLabel(TagChips(tags).more.value);
      DecimalValue(chip[1..]) == |tags| - 3
  {
    var n := TagChips(tags).more.value;
    NatToStringRoundTrip(n);
    assert MoreLabel(n)[1..] == NatToString(n);
  }
}
