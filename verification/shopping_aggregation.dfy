/** Ingredient consolidation of the `generate-shopping-list` edge function:
    every meal-plan entry scales its meal's ingredients by its own serving
    multiplier times the group multiplier of its assigned groups, and the scaled
    ingredients are merged into one shopping-list item per lower-cased name.

    The source keeps the items in a JavaScript `Map`, whose `values()` come out
    in first-insertion order; the model keeps them in a sequence in that same
    order and finds an item by its key, `ToLower(name)`. */
module ShoppingAggregation {
  import opened Results
  import opened Strings
  import opened Selections
  import opened Households

  /** One ingredient of a meal's `ingredients` array. An empty `category`
      stands for a missing one. */
  datatype Ingredient = Ingredient(name: string, quantity: real, unit: string, category: string)

  /** The `meals` row joined to an entry; `ingredients` may be absent. */
  datatype Meal = Meal(id: string, title: string, ingredients: Option<seq<Ingredient>>)

  /** A `meal_plan_entries` row with its joined meal (which may be missing). */
  datatype Entry = Entry(
    meal: Option<Meal>,
    servingMultiplier: Option<real>,
    assignedGroups: Option<seq<string>>)

  /** A consolidated shopping-list item. */
  datatype Item = Item(
    ingredientId: string,
    name: string,
    quantity: real,
    unit: string,
    category: string,
    isStaple: bool,
    mealSources: seq<string>)

  /** One ingredient as the inner `forEach` sees it: with the meal it belongs to
      and the total multiplier of its entry. */
  datatype Occurrence = Occurrence(mealId: string, mealTitle: string, ingredient: Ingredient, multiplier: real)

  /** Head count one unscaled recipe is taken to serve. */
  const BaselineServings: real := 4.0

  const Staples: seq<string> := ["salt", "pepper", "oil", "butter", "flour", "sugar"]

  const DefaultCategory: string := "other"

  // ------------------------------------------------------------ multipliers

  /** `calculateGroupMultiplier`: 1 for an absent or empty assignment, and
      otherwise the assigned head count per baseline serving, floored at 1. */
  function GroupMultiplier(assignment: Option<seq<string>>, groups: seq<Group>): (r: real)
    ensures r >= 1.0
    ensures assignment.None? || assignment == Some([]) ==> r == 1.0
    ensures assignment.Some? && assignment.value != [] ==>
      && r >= AssignedPeople(assignment.value, groups) / BaselineServings
      && (r == 1.0 || r == AssignedPeople(assignment.value, groups) / BaselineServings)
  {
    match assignment
    case None => 1.0
    case Some(ids) =>
      if ids == [] then 1.0
      else
        var perBaseline := AssignedPeople(ids, groups) / BaselineServings;
        if perBaseline > 1.0 then perBaseline else 1.0
  }

  /** `entry.serving_multiplier || 1`: a missing or zero multiplier counts as 1. */
  function ServingMultiplier(m: Option<real>): (r: real)
    ensures r != 0.0
    ensures m.None? || m == Some(0.0) ==> r == 1.0
    ensures m.Some? && m.value != 0.0 ==> r == m.value
  {
    match m
    case None => 1.0
    case Some(v) => if v == 0.0 then 1.0 else v
  }

  function EntryMultiplier(e: Entry, groups: seq<Group>): real {
    ServingMultiplier(e.servingMultiplier) * GroupMultiplier(e.assignedGroups, groups)
  }

  // ------------------------------------------------------------ occurrences

  /** The ingredients an entry contributes, in order; none when the entry has
      no meal or its meal has no `ingredients`. */
  function EntryOccurrences(e: Entry, groups: seq<Group>): seq<Occurrence> {
    match e.meal
    case None => []
    case Some(meal) =>
      match meal.ingredients
      case None => []
      case Some(ings) =>
        var m := EntryMultiplier(e, groups);
        seq(|ings|, i requires 0 <= i < |ings| => Occurrence(meal.id, meal.title, ings[i], m))
  }

  /** Every ingredient occurrence of the plan, entry by entry. */
  function Occurrences(entries: seq<Entry>, groups: seq<Group>): seq<Occurrence> {
    if entries == [] then [] else EntryOccurrences(entries[0], groups) + Occurrences(entries[1..], groups)
  }

  lemma {:induction false} OccurrencesAppend(a: seq<Entry>, b: seq<Entry>, groups: seq<Group>)
    ensures Occurrences(a + b, groups) == Occurrences(a, groups) + Occurrences(b, groups)
  {
    if a == [] {
      assert a + b == b;
    } else {
      assert (a + b)[1..] == a[1..] + b;
      OccurrencesAppend(a[1..], b, groups);
    }
  }

  function OccurrenceKey(o: Occurrence): string {
    ToLower(o.ingredient.name)
  }

  function ItemKey(it: Item): string {
    ToLower(it.name)
  }

  /** `ingredient.quantity * totalMultiplier`. */
  function Scaled(o: Occurrence): real {
    o.ingredient.quantity * o.multiplier
  }

  // ----------------------------------------------------------------- staples

  /** Some needle of `needles` occurs in `hay`. */
  predicate ContainsAny(hay: string, needles: seq<string>)
    ensures ContainsAny(hay, needles) <==> exists j :: 0 <= j < |needles| && Contains(hay, needles[j])
  {
    if needles == [] then false
    else Contains(hay, needles[0]) || ContainsAny(hay, needles[1..])
  }

  /** `commonStaples.some(staple => name.toLowerCase().includes(staple))`:
      a staple is anything whose lower-cased name has a staple word inside it. */
  predicate IsStaple(name: string)
    ensures IsStaple(name) <==> exists j :: 0 <= j < |Staples| && Contains(ToLower(name), Staples[j])
  {
    ContainsAny(ToLower(name), Staples)
  }

  // ------------------------------------------------------------------ items

  /** The item a key's first occurrence creates. */
  function NewItem(o: Occurrence): Item {
    Item(
      o.mealId + "_" + o.ingredient.name,
      o.ingredient.name,
      Scaled(o),
      o.ingredient.unit,
      if o.ingredient.category == "" then DefaultCategory else o.ingredient.category,
      IsStaple(o.ingredient.name),
      [o.mealTitle])
  }

  /** A repeat occurrence: only the quantity and the meal sources change. */
  function Bump(it: Item, o: Occurrence): Item {
    it.(quantity := it.quantity + Scaled(o), mealSources := it.mealSources + [o.mealTitle])
  }

  /** Position of the first item with key `k`, or -1. */
  function FindKey(items: seq<Item>, k: string): (r: int)
    ensures -1 <= r < |items|
    ensures r == -1 <==> forall i :: 0 <= i < |items| ==> ItemKey(items[i]) != k
    ensures r >= 0 ==> ItemKey(items[r]) == k && forall i :: 0 <= i < r ==> ItemKey(items[i]) != k
  {
    if items == [] then -1
    else if ItemKey(items[0]) == k then 0
    else
      var j := FindKey(items[1..], k);
      if j < 0 then -1 else j + 1
  }

  /** `ingredientMap.get(k)`. */
  function Lookup(items: seq<Item>, k: string): Option<Item> {
    var i := FindKey(items, k);
    if i < 0 then None else Some(items[i])
  }

  function KeysOf(items: seq<Item>): seq<string> {
    seq(|items|, i requires 0 <= i < |items| => ItemKey(items[i]))
  }

  /** One item per key: what a `Map` keyed by the lower-cased name guarantees. */
  predicate DistinctKeys(items: seq<Item>) {
    NoDup(KeysOf(items))
  }

  // ---------------------------------------------------------- consolidation

  /** The body of the inner `forEach`: merge into the item with the same key,
      or append a new item. */
  function Absorb(items: seq<Item>, o: Occurrence): (r: seq<Item>)
    ensures DistinctKeys(items) ==> DistinctKeys(r)
    ensures |r| == |items| || |r| == |items| + 1
  {
    var i := FindKey(items, OccurrenceKey(o));
    if i >= 0 then
      var r := items[i := Bump(items[i], o)];
      assert KeysOf(r) == KeysOf(items);
      r
    else
      var r := items + [NewItem(o)];
      assert KeysOf(r) == KeysOf(items) + [OccurrenceKey(o)];
      r
  }

  function AbsorbAll(items: seq<Item>, occs: seq<Occurrence>): (r: seq<Item>)
    ensures DistinctKeys(items) ==> DistinctKeys(r)
    decreases |occs|
  {
    if occs == [] then items else AbsorbAll(Absorb(items, occs[0]), occs[1..])
  }

  /** One iteration of the outer `forEach`: skip an entry without ingredients,
      otherwise absorb its scaled ingredients in order. */
  function AddEntry(items: seq<Item>, e: Entry, groups: seq<Group>): seq<Item> {
    AbsorbAll(items, EntryOccurrences(e, groups))
  }

  function ConsolidateFrom(items: seq<Item>, entries: seq<Entry>, groups: seq<Group>): (r: seq<Item>)
    ensures DistinctKeys(items) ==> DistinctKeys(r)
    decreases |entries|
  {
    if entries == [] then items else ConsolidateFrom(AddEntry(items, entries[0], groups), entries[1..], groups)
  }

  /** `Array.from(ingredientMap.values())` after both loops. */
  function Consolidate(entries: seq<Entry>, groups: seq<Group>): seq<Item> {
    ConsolidateFrom([], entries, groups)
  }

  // -------------------------------------------------- reference definition

  /** The occurrences with key `k`, in encounter order. */
  function OccurrencesOf(occs: seq<Occurrence>, k: string): (r: seq<Occurrence>)
    ensures IsSubsequence(r, occs)
    ensures forall i :: 0 <= i < |r| ==> OccurrenceKey(r[i]) == k
    ensures r == [] <==> forall i :: 0 <= i < |occs| ==> OccurrenceKey(occs[i]) != k
    ensures r != [] ==> exists i :: 0 <= i < |occs| && occs[i] == r[0] && forall j :: 0 <= j < i ==> OccurrenceKey(occs[j]) != k
  {
    if occs == [] then []
    else
      var rest := OccurrencesOf(occs[1..], k);
      if OccurrenceKey(occs[0]) == k then
        [occs[0]] + rest
      else
        assert rest != [] ==> exists i :: 1 <= i < |occs| && occs[i] == rest[0] && forall j :: 1 <= j < i ==> OccurrenceKey(occs[j]) != k;
        rest
  }

  function SumScaled(os: seq<Occurrence>): real {
    if os == [] then 0.0 else Scaled(os[0]) + SumScaled(os[1..])
  }

  function Titles(os: seq<Occurrence>): seq<string> {
    seq(|os|, i requires 0 <= i < |os| => os[i].mealTitle)
  }

  /** What the item for key `k` must be: absent when no occurrence has that
      key; otherwise made by the first occurrence, with the quantity summed and
      one meal title per occurrence. */
  function Expected(occs: seq<Occurrence>, k: string): Option<Item> {
    var mine := OccurrencesOf(occs, k);
    if mine == [] then None
    else Some(Extend(NewItem(mine[0]).(quantity := 0.0, mealSources := []), mine))
  }

  /** An item after the further occurrences `os` of its key were merged in. */
  function Extend(it: Item, os: seq<Occurrence>): Item {
    it.(quantity := it.quantity + SumScaled(os), mealSources := it.mealSources + Titles(os))
  }

  // ----------------------------------------------------------------- proofs

  lemma {:induction false} FindKeySameKeys(a: seq<Item>, b: seq<Item>, k: string)
    requires |a| == |b|
    requires forall i :: 0 <= i < |a| ==> ItemKey(a[i]) == ItemKey(b[i])
    ensures FindKey(a, k) == FindKey(b, k)
  {
    if a != [] {
      FindKeySameKeys(a[1..], b[1..], k);
    }
  }

  lemma {:induction false} FindKeyAppend(items: seq<Item>, it: Item, k: string)
    ensures FindKey(items + [it], k) ==
      if FindKey(items, k) >= 0 then FindKey(items, k)
      else if ItemKey(it) == k then |items|
      else -1
  {
    if items != [] {
      assert (items + [it])[1..] == items[1..] + [it];
      FindKeyAppend(items[1..], it, k);
    }
  }

  /** How one absorbed occurrence changes the item for any key. */
  lemma AbsorbLookup(items: seq<Item>, o: Occurrence, k: string)
    ensures OccurrenceKey(o) != k ==> Lookup(Absorb(items, o), k) == Lookup(items, k)
    ensures OccurrenceKey(o) == k && Lookup(items, k).None? ==> Lookup(Absorb(items, o), k) == Some(NewItem(o))
    ensures OccurrenceKey(o) == k && Lookup(items, k).Some? ==>
      Lookup(Absorb(items, o), k) == Some(Bump(Lookup(items, k).value, o))
  {
    var i := FindKey(items, OccurrenceKey(o));
    var r := Absorb(items, o);
    if i >= 0 {
      FindKeySameKeys(r, items, k);
    } else {
      FindKeyAppend(items, NewItem(o), k);
    }
  }

  lemma ExtendEmpty(it: Item)
    ensures Extend(it, []) == it
  {
    assert it.mealSources + Titles([]) == it.mealSources;
  }

  lemma ExtendCons(it: Item, o: Occurrence, os: seq<Occurrence>)
    ensures Extend(it, [o] + os) == Extend(Bump(it, o), os)
  {
    assert ([o] + os)[1..] == os;
    assert Titles([o] + os) == [o.mealTitle] + Titles(os);
    assert it.mealSources + Titles([o] + os) == it.mealSources + [o.mealTitle] + Titles(os);
  }

  lemma OccurrencesOfCons(o: Occurrence, rest: seq<Occurrence>, k: string)
    ensures OccurrenceKey(o) == k ==> OccurrencesOf([o] + rest, k) == [o] + OccurrencesOf(rest, k)
    ensures OccurrenceKey(o) != k ==> OccurrencesOf([o] + rest, k) == OccurrencesOf(rest, k)
  {
    assert ([o] + rest)[0] == o;
    assert ([o] + rest)[1..] == rest;
  }

  /** Absorbing a run of occurrences into a list that already has an item
      for `k` adds their scaled quantities and their meal titles to it. */
  lemma {:induction false} AbsorbAllExisting(items: seq<Item>, occs: seq<Occurrence>, k: string, it: Item)
    requires Lookup(items, k) == Some(it)
    ensures Lookup(AbsorbAll(items, occs), k) == Some(Extend(it, OccurrencesOf(occs, k)))
    decreases |occs|
  {
    if occs == [] {
      ExtendEmpty(it);
    } else {
      var o, rest := occs[0], occs[1..];
      assert occs == [o] + rest;
      OccurrencesOfCons(o, rest, k);
      AbsorbLookup(items, o, k);
      if OccurrenceKey(o) == k {
        AbsorbAllExisting(Absorb(items, o), rest, k, Bump(it, o));
        ExtendCons(it, o, OccurrencesOf(rest, k));
      } else {
        AbsorbAllExisting(Absorb(items, o), rest, k, it);
      }
    }
  }

  /** Absorbing a run of occurrences into a list without an item for `k`
      yields the reference item for `k`. */
  lemma {:induction false} AbsorbAllFresh(items: seq<Item>, occs: seq<Occurrence>, k: string)
    requires Lookup(items, k).None?
    ensures Lookup(AbsorbAll(items, occs), k) == Expected(occs, k)
    decreases |occs|
  {
    if occs != [] {
      var o, rest := occs[0], occs[1..];
      assert occs == [o] + rest;
      OccurrencesOfCons(o, rest, k);
      AbsorbLookup(items, o, k);
      if OccurrenceKey(o) == k {
        var first := NewItem(o).(quantity := 0.0, mealSources := []);
        AbsorbAllExisting(Absorb(items, o), rest, k, NewItem(o));
        ExtendCons(first, o, OccurrencesOf(rest, k));
        assert Bump(first, o) == NewItem(o);
      } else {
        AbsorbAllFresh(Absorb(items, o), rest, k);
      }
    }
  }

  lemma {:induction false} AbsorbAllAppend(items: seq<Item>, a: seq<Occurrence>, b: seq<Occurrence>)
    ensures AbsorbAll(items, a + b) == AbsorbAll(AbsorbAll(items, a), b)
    decreases |a|
  {
    if a == [] {
      assert a + b == b;
    } else {
      assert (a + b)[1..] == a[1..] + b;
      AbsorbAllAppend(Absorb(items, a[0]), a[1..], b);
    }
  }

  /** The nested loops absorb exactly the plan's occurrences, in order. */
  lemma {:induction false} ConsolidateFromAbsorbs(items: seq<Item>, entries: seq<Entry>, groups: seq<Group>)
    ensures ConsolidateFrom(items, entries, groups) == AbsorbAll(items, Occurrences(entries, groups))
    decreases |entries|
  {
    if entries != [] {
      AbsorbAllAppend(items, EntryOccurrences(entries[0], groups), Occurrences(entries[1..], groups));
      ConsolidateFromAbsorbs(AddEntry(items, entries[0], groups), entries[1..], groups);
    }
  }

  /** Merge-sums and first-occurrence-wins: the item for any key is exactly
      the reference item of the plan's occurrences with that key. */
  lemma ConsolidateMatchesReference(entries: seq<Entry>, groups: seq<Group>, k: string)
    ensures Lookup(Consolidate(entries, groups), k) == Expected(Occurrences(entries, groups), k)
  {
    ConsolidateFromAbsorbs([], entries, groups);
    AbsorbAllFresh([], Occurrences(entries, groups), k);
  }

  /** The consolidated list has at most one item per lower-cased name. */
  lemma ConsolidateDistinctKeys(entries: seq<Entry>, groups: seq<Group>)
    ensures DistinctKeys(Consolidate(entries, groups))
  {
    assert DistinctKeys([]);
  }

  /** In a list with distinct keys, an item is what its own key looks up. */
  lemma LookupMember(items: seq<Item>, i: int)
    requires DistinctKeys(items) && 0 <= i < |items|
    ensures Lookup(items, ItemKey(items[i])) == Some(items[i])
  {
    var k := ItemKey(items[i]);
    var j := FindKey(items, k);
    assert KeysOf(items)[i] == k;
    assert j >= 0;
    assert KeysOf(items)[j] == k;
  }

  function OccurrenceKeys(occs: seq<Occurrence>): seq<string> {
    seq(|occs|, i requires 0 <= i < |occs| => OccurrenceKey(occs[i]))
  }

  /** A key names an item of the consolidated list exactly when some
      ingredient of the plan has that lower-cased name. */
  lemma ConsolidateKeyMembers(entries: seq<Entry>, groups: seq<Group>)
    ensures forall k :: k in KeysOf(Consolidate(entries, groups)) <==> k in OccurrenceKeys(Occurrences(entries, groups))
  {
    var items := Consolidate(entries, groups);
    var occs := Occurrences(entries, groups);
    forall k
      ensures k in KeysOf(items) <==> k in OccurrenceKeys(occs)
    {
      ConsolidateMatchesReference(entries, groups, k);
      KeyFoundByLookup(items, k);
      KeyHasExpectedItem(occs, k);
    }
  }

  lemma KeyFoundByLookup(items: seq<Item>, k: string)
    ensures k in KeysOf(items) <==> Lookup(items, k).Some?
  {
    if k in KeysOf(items) {
      var i :| 0 <= i < |items| && KeysOf(items)[i] == k;
      assert ItemKey(items[i]) == k;
    }
    if Lookup(items, k).Some? {
      var i := FindKey(items, k);
      assert KeysOf(items)[i] == k;
    }
  }

  lemma KeyHasExpectedItem(occs: seq<Occurrence>, k: string)
    ensures k in OccurrenceKeys(occs) <==> Expected(occs, k).Some?
  {
    if k in OccurrenceKeys(occs) {
      var j :| 0 <= j < |occs| && OccurrenceKeys(occs)[j] == k;
      assert OccurrenceKey(occs[j]) == k;
    }
    if Expected(occs, k).Some? {
      var mine := OccurrencesOf(occs, k);
      var j :| 0 <= j < |occs| && occs[j] == mine[0] && forall m :: 0 <= m < j ==> OccurrenceKey(occs[m]) != k;
      assert OccurrenceKeys(occs)[j] == k;
    }
  }

  /** The consolidated list has one item per distinct lower-cased ingredient
      name of the plan. */
  lemma ConsolidateKeys(entries: seq<Entry>, groups: seq<Group>)
    ensures (set k | k in KeysOf(Consolidate(entries, groups))) == (set k | k in OccurrenceKeys(Occurrences(entries, groups)))
    ensures |Consolidate(entries, groups)| == |set k | k in OccurrenceKeys(Occurrences(entries, groups))|
  {
    ConsolidateKeyMembers(entries, groups);
    ConsolidateDistinctKeys(entries, groups);
    CardOfNoDup(KeysOf(Consolidate(entries, groups)));
  }

  /** When no two ingredients of the plan share a lower-cased name, every
      ingredient becomes its own item. */
  lemma NoCollisionKeepsEveryIngredient(entries: seq<Entry>, groups: seq<Group>)
    requires NoDup(OccurrenceKeys(Occurrences(entries, groups)))
    ensures |Consolidate(entries, groups)| == |Occurrences(entries, groups)|
  {
    ConsolidateKeys(entries, groups);
    CardOfNoDup(OccurrenceKeys(Occurrences(entries, groups)));
  }

  lemma {:induction false} ConsolidateFromAppend(items: seq<Item>, a: seq<Entry>, b: seq<Entry>, groups: seq<Group>)
    ensures ConsolidateFrom(items, a + b, groups) == ConsolidateFrom(ConsolidateFrom(items, a, groups), b, groups)
    decreases |a|
  {
    if a == [] {
      assert a + b == b;
    } else {
      assert (a + b)[1..] == a[1..] + b;
      ConsolidateFromAppend(AddEntry(items, a[0], groups), a[1..], b, groups);
    }
  }

  /** An entry whose meal is missing or has no `ingredients` changes nothing,
      wherever it sits in the plan. */
  lemma EntryWithoutIngredientsIsSkipped(before: seq<Entry>, e: Entry, after: seq<Entry>, groups: seq<Group>)
    requires e.meal.None? || e.meal.value.ingredients.None?
    ensures Consolidate(before + [e] + after, groups) == Consolidate(before + after, groups)
  {
    ConsolidateFromAppend([], before + [e], after, groups);
    ConsolidateFromAppend([], before, [e], groups);
    ConsolidateFromAppend([], before, after, groups);
    var mid := ConsolidateFrom([], before, groups);
    assert ConsolidateFrom(mid, [e], groups) == ConsolidateFrom(AddEntry(mid, e, groups), [], groups);
  }
}
