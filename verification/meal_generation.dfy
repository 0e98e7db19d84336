/** The pure part of the `generate-meals` edge function: the constraints it
    gathers from the selected household groups, the parameters it writes into
    the prompt, how it reads the upstream reply, and the tagging of generated
    meals before they are stored. The HTTP call and `JSON.parse` are outside the
    model; the reply and the parser are parameters. */
module MealGeneration {
  import opened Results
  import opened Strings
  import opened Selections
  import opened Households
  import ShoppingAggregation

  // ------------------------------------------------------------ restrictions

  /** `groups.reduce((acc, g) => [...acc, ...g.dietary_restrictions], [])`:
      a left fold that appends each group's restrictions in turn. */
  function AllRestrictions(groups: seq<Group>): (r: seq<string>)
    ensures forall x :: x in r <==> exists i :: 0 <= i < |groups| && x in groups[i].restrictions
  {
    if groups == [] then []
    else
      var init := groups[..|groups| - 1];
      var last := groups[|groups| - 1];
      var acc := AllRestrictions(init);
      assert forall i :: 0 <= i < |init| ==> init[i] == groups[i];
      acc + last.restrictions
  }

  /** Total number of restrictions over the groups. */
  function RestrictionCount(groups: seq<Group>): nat {
    if groups == [] then 0 else |groups[0].restrictions| + RestrictionCount(groups[1..])
  }

  /** Gathering the restrictions of two group lists one after the other is
      gathering them for the concatenated list. */
  lemma {:induction false} AllRestrictionsAppend(a: seq<Group>, b: seq<Group>)
    ensures AllRestrictions(a + b) == AllRestrictions(a) + AllRestrictions(b)
    decreases |b|
  {
    if b == [] {
      assert a + b == a;
    } else {
      var ab := a + b;
      assert ab[..|ab| - 1] == a + b[..|b| - 1];
      assert ab[|ab| - 1] == b[|b| - 1];
      AllRestrictionsAppend(a, b[..|b| - 1]);
    }
  }

  /** The restrictions are each group's list in group order, duplicates kept:
      the first group's list comes first, whole. */
  lemma AllRestrictionsCons(g: Group, rest: seq<Group>)
    ensures AllRestrictions([g] + rest) == g.restrictions + AllRestrictions(rest)
  {
    AllRestrictionsAppend([g], rest);
    assert [g][..0] == [];
  }

  /** No restriction is dropped or merged: the length is the sum of the groups'
      list lengths. */
  lemma {:induction false} AllRestrictionsLength(groups: seq<Group>)
    ensures |AllRestrictions(groups)| == RestrictionCount(groups)
  {
    if groups != [] {
      AllRestrictionsLength(groups[1..]);
      AllRestrictionsCons(groups[0], groups[1..]);
      assert groups == [groups[0]] + groups[1..];
    }
  }

  // ----------------------------------------------------------------- servings

  /** `groups.reduce((total, g) => total + <head count of g>, 0)`. */
  function TotalServings(groups: seq<Group>): (r: real)
    ensures r >= 0.0
    ensures r == 0.0 <==> forall i :: 0 <= i < |groups| ==> People(groups[i]) == 0.0
  {
    if groups == [] then 0.0
    else
      var init := groups[..|groups| - 1];
      assert forall i :: 0 <= i < |init| ==> init[i] == groups[i];
      TotalServings(init) + People(groups[|groups| - 1])
  }

  function Ids(groups: seq<Group>): seq<string> {
    seq(|groups|, i requires 0 <= i < |groups| => groups[i].id)
  }

  lemma FindGroupOfDistinct(groups: seq<Group>, n: nat)
    requires n < |groups| && NoDup(Ids(groups))
    ensures FindGroup(groups, groups[n].id) == Some(groups[n])
  {
    var id := groups[n].id;
    var r := FindGroup(groups, id);
    assert groups[n].id == id;
    var i :| 0 <= i < |groups| && groups[i] == r.value;
    assert Ids(groups)[i] == id == Ids(groups)[n];
    assert i == n;
  }

  lemma {:induction false} TotalServingsPrefix(groups: seq<Group>, n: nat)
    requires n <= |groups| && NoDup(Ids(groups))
    ensures TotalServings(groups[..n]) == AssignedPeople(Ids(groups)[..n], groups)
  {
    if n > 0 {
      TotalServingsPrefix(groups, n - 1);
      var g := groups[n - 1];
      TotalServingsSnoc(groups, n);
      assert Ids(groups)[..n] == Ids(groups)[..n - 1] + [g.id];
      AssignedPeopleAppend(Ids(groups)[..n - 1], [g.id], groups);
      AssignedPeopleSingle(g.id, groups);
      FindGroupOfDistinct(groups, n - 1);
    }
  }

  lemma TotalServingsSnoc(groups: seq<Group>, n: nat)
    requires 0 < n <= |groups|
    ensures TotalServings(groups[..n]) == TotalServings(groups[..n - 1]) + People(groups[n - 1])
  {
    assert groups[..n][..n - 1] == groups[..n - 1];
  }

  lemma AssignedPeopleSingle(id: string, groups: seq<Group>)
    ensures AssignedPeople([id], groups) == IdWeight(groups, id)
  {
    assert [id][1..] == [];
  }

  /** The serving total uses the same per-group weight as the shopping list's
      group multiplier: it equals the head count of assigning every fetched
      group (whose ids, being keys, are distinct). */
  lemma TotalServingsIsAssignedPeople(groups: seq<Group>)
    requires NoDup(Ids(groups))
    ensures TotalServings(groups) == AssignedPeople(Ids(groups), groups)
  {
    TotalServingsPrefix(groups, |groups|);
    assert groups[..|groups|] == groups;
    assert Ids(groups)[..|groups|] == Ids(groups);
  }

  /** `Math.ceil`: the least integer not below `x`. */
  function Ceil(x: real): (r: int)
    ensures x <= r as real < x + 1.0
  {
    -((-x).Floor)
  }

  /** The serving figure written into the prompt. */
  function PromptServings(groups: seq<Group>): (r: int)
    ensures r >= 0
    ensures TotalServings(groups) <= r as real < TotalServings(groups) + 1.0
  {
    Ceil(TotalServings(groups))
  }

  /** One group's serving figure: every adult, teen and child counts whole,
      and the toddlers count half each, rounded up as a pair. A lone toddler
      thus asks for one serving. */
  lemma SingleGroupServings(g: Group)
    ensures PromptServings([g]) == g.adults + g.teens + g.children + (g.toddlers + 1) / 2
  {
    assert [g][..0] == [];
    var w := g.adults + g.teens + g.children;
    var c := w + (g.toddlers + 1) / 2;
    var x := TotalServings([g]);
    assert x == w as real + g.toddlers as real * 0.5;
    if g.toddlers % 2 == 0 {
      assert g.toddlers as real * 0.5 == (g.toddlers / 2) as real;
    } else {
      assert g.toddlers as real * 0.5 == (g.toddlers / 2) as real + 0.5;
    }
    assert x <= c as real < x + 1.0;
    CeilUnique(x, PromptServings([g]), c);
  }

  lemma CeilUnique(x: real, a: int, b: int)
    requires x <= a as real < x + 1.0 && x <= b as real < x + 1.0
    ensures a == b
  {
  }

  /** A whole number of servings is written as it is. */
  lemma WholeServingsUnchanged(groups: seq<Group>, n: int)
    requires TotalServings(groups) == n as real
    ensures PromptServings(groups) == n
  {
  }

  // ------------------------------------------------------ prompt parameters

  /** `requestData.mealCount || 5`. */
  function RequestedMealCount(mealCount: Option<int>): (r: int)
    ensures r != 0
    ensures mealCount.None? || mealCount == Some(0) ==> r == 5
    ensures mealCount.Some? && mealCount.value != 0 ==> r == mealCount.value
  {
    match mealCount
    case None => 5
    case Some(n) => if n == 0 then 5 else n
  }

  const ExcludePrefix: string := "- Exclude ingredients: "
  const PreferencesPrefix: string := "- Preferences: "

  /** `list?.length ? prefix + list.join(', ') : ''`: a prompt line that is
      present exactly when the optional list is non-empty. */
  function OptionalLine(prefix: string, list: Option<seq<string>>): (r: string)
    requires prefix != ""
    ensures r == "" <==> list.None? || list.value == []
    ensures r != "" ==> StartsWith(r, prefix) && r[|prefix|..] == Join(list.value, ", ")
    ensures r != "" ==> r == prefix + Join(list.value, ", ")
  {
    match list
    case None => ""
    case Some(xs) =>
      if xs == [] then ""
      else
        var r := prefix + Join(xs, ", ");
        assert r[..|prefix|] == prefix;
        r
  }

  /** The request fields the prompt depends on. */
  datatype MealRequest = MealRequest(
    mealCategories: seq<string>,
    preferences: Option<seq<string>>,
    excludeIngredients: Option<seq<string>>,
    mealCount: Option<int>)

  /** The values interpolated into the prompt, in the order they appear. */
  datatype PromptParameters = PromptParameters(
    mealCount: int,
    servings: int,
    categories: string,
    restrictions: string,
    excludeLine: string,
    preferencesLine: string)

  function BuildPromptParameters(req: MealRequest, groups: seq<Group>): (p: PromptParameters)
    ensures p.mealCount == RequestedMealCount(req.mealCount)
    ensures p.servings == PromptServings(groups)
    ensures p.categories == Join(req.mealCategories, ", ")
    ensures p.restrictions == Join(AllRestrictions(groups), ", ")
    ensures p.excludeLine == "" <==> req.excludeIngredients.None? || req.excludeIngredients.value == []
    ensures p.excludeLine != "" ==> p.excludeLine == ExcludePrefix + Join(req.excludeIngredients.value, ", ")
    ensures p.preferencesLine == "" <==> req.preferences.None? || req.preferences.value == []
    ensures p.preferencesLine != "" ==> p.preferencesLine == PreferencesPrefix + Join(req.preferences.value, ", ")
  {
    PromptParameters(
      RequestedMealCount(req.mealCount),
      PromptServings(groups),
      Join(req.mealCategories, ", "),
      Join(AllRestrictions(groups), ", "),
      OptionalLine(ExcludePrefix, req.excludeIngredients),
      OptionalLine(PreferencesPrefix, req.preferences))
  }

  // ----------------------------------------------------------- the reply

  /** One meal object of the parsed reply. */
  datatype GeneratedMeal = GeneratedMeal(
    title: string,
    description: string,
    category: string,
    prepTimeMinutes: int,
    cookTimeMinutes: int,
    servingSizeBase: real,
    ingredients: seq<ShoppingAggregation.Ingredient>,
    instructions: seq<string>,
    dietaryTags: seq<string>)

  /** A row to insert into `meals`: the generated meal plus its provenance. */
  datatype MealRecord = MealRecord(meal: GeneratedMeal, aiGenerated: bool, source: string)

  const OpenAiSource: string := "openai"

  /** `generatedMeals.map(meal => ({ ...meal, ai_generated: true, source: 'openai' }))`. */
  function TagMeals(meals: seq<GeneratedMeal>): (r: seq<MealRecord>)
    ensures |r| == |meals|
    ensures forall i :: 0 <= i < |r| ==> r[i].meal == meals[i] && r[i].aiGenerated && r[i].source == OpenAiSource
  {
    seq(|meals|, i requires 0 <= i < |meals| => MealRecord(meals[i], true, OpenAiSource))
  }

  /** Dropping the provenance gives back the generated meals, in order. */
  function Untag(records: seq<MealRecord>): (r: seq<GeneratedMeal>)
    ensures |r| == |records|
  {
    seq(|records|, i requires 0 <= i < |records| => records[i].meal)
  }

  lemma TagMealsRoundTrip(meals: seq<GeneratedMeal>)
    ensures Untag(TagMeals(meals)) == meals
  {
  }

  /** Tagging works meal by meal, so it commutes with concatenation. */
  lemma TagMealsAppend(a: seq<GeneratedMeal>, b: seq<GeneratedMeal>)
    ensures TagMeals(a + b) == TagMeals(a) + TagMeals(b)
  {
  }

  /** The body of an ok upstream response as the handler reads it:
      `openaiResponse.json()` threw, or `choices[0].message` could not be read
      (each a runtime error with its message); the content is `null`, which
      `JSON.parse` accepts and whose `map` then throws (with its message); or
      the content is text, or `undefined` (`None`), which `JSON.parse` rejects. */
  datatype ReplyBody =
    | BodyNotJson(error: string)
    | NoFirstChoice(error: string)
    | NullContent(error: string)
    | Content(text: Option<string>)

  /** What the upstream chat-completions call answered: whether the response
      was ok, its status text, and its body. */
  datatype UpstreamReply = UpstreamReply(ok: bool, statusText: string, body: ReplyBody)

  /** What `JSON.parse` and the following `generatedMeals.map` make of the
      content: not JSON at all, JSON that is not an array (so `map` throws a
      TypeError with the given message), or an array of meals. */
  datatype ParsedContent = NotJson | NotArray(error: string) | Meals(meals: seq<GeneratedMeal>)

  const UpstreamErrorPrefix: string := "OpenAI API error: "
  const InvalidFormatError: string := "Invalid response format from AI service"
  const InternalServerError: string := "Internal server error"

  /** The outer `catch`: `error.message || 'Internal server error'`. */
  function CaughtMessage(message: string): (r: string)
    ensures r != ""
    ensures message != "" ==> r == message
    ensures message == "" ==> r == InternalServerError
  {
    if message == "" then InternalServerError else message
  }

  /** Reads the reply: a non-ok response is an upstream error carrying its
      status text; a body or choice that cannot be read, or parsed content that
      is not an array, fails with the runtime error's message; content that is
      missing or not JSON is a format error; an array of meals comes back
      tagged for insertion. */
  function InterpretReply(reply: UpstreamReply, parse: string -> ParsedContent): (r: Result<seq<MealRecord>>)
    ensures !reply.ok ==> r == Err(UpstreamErrorPrefix + reply.statusText)
    ensures r.Ok? <==> reply.ok && reply.body.Content? && reply.body.text.Some? && parse(reply.body.text.value).Meals?
    ensures reply.ok && reply.body.Content? && (reply.body.text.None? || parse(reply.body.text.value).NotJson?) ==>
      r == Err(InvalidFormatError)
    ensures reply.ok && (reply.body.BodyNotJson? || reply.body.NoFirstChoice? || reply.body.NullContent?) ==>
      r == Err(CaughtMessage(reply.body.error))
    ensures reply.ok && reply.body.Content? && reply.body.text.Some? && parse(reply.body.text.value).NotArray? ==>
      r == Err(CaughtMessage(parse(reply.body.text.value).error))
    ensures r.Err? ==> r.message != ""
    ensures r.Ok? ==> Untag(r.value) == parse(reply.body.text.value).meals
    ensures r.Ok? ==> forall i :: 0 <= i < |r.value| ==> r.value[i].aiGenerated && r.value[i].source == OpenAiSource
  {
    if !reply.ok then Err(UpstreamErrorPrefix + reply.statusText)
    else
      match reply.body
      case BodyNotJson(e) => Err(CaughtMessage(e))
      case NoFirstChoice(e) => Err(CaughtMessage(e))
      case NullContent(e) => Err(CaughtMessage(e))
      case Content(None) => Err(InvalidFormatError)
      case Content(Some(text)) =>
        match parse(text)
        case NotJson => Err(InvalidFormatError)
        case NotArray(e) => Err(CaughtMessage(e))
        case Meals(meals) =>
          TagMealsRoundTrip(meals);
          Ok(TagMeals(meals))
  }

  /** The two failures are told apart: no status text makes the upstream error
      read like the format error. */
  lemma ReplyErrorsDistinct(statusText: string)
    ensures UpstreamErrorPrefix + statusText != InvalidFormatError
  {
    assert (UpstreamErrorPrefix + statusText)[0] == 'O';
    assert InvalidFormatError[0] == 'I';
  }
}
