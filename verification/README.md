# Meal planning: the pure core, modelled in Dafny

The application plans a household's weekly meals. Household groups describe
who eats (adults, teens, children, toddlers) and their dietary restrictions.
A meal plan schedules meals, and two edge functions do the heavy lifting:
`generate-meals` asks a language model for meal ideas, and
`generate-shopping-list` turns a plan into one consolidated, sorted,
cost-estimated shopping list. Four pages hold small pieces of logic of their
own: the new-group form, the groups list, the meals list and the new-meal-plan
form.

This project models that logic as pure Dafny functions over immutable
datatypes and proves what the code promises.

| file | module | what it models |
|---|---|---|
| `results.dfy` | `Results` | `Option` and `Result` |
| `strings.dfy` | `Strings` | the JavaScript string operations used: `toLowerCase` (ASCII), `includes`, `trim`, `join`, one-character `replace`, `String(n)`, `padStart` |
| `selections.dfy` | `Selections` | add-if-absent, remove-all and toggle on selection lists; the subsequence relation of `filter` |
| `households.dfy` | `Households` | household groups and their head count: toddlers count half |
| `shopping_aggregation.dfy` | `ShoppingAggregation` | group and serving multipliers, ingredient consolidation into one item per lower-cased name, staples, and a reference definition of each item |
| `shopping_order.dfy` | `ShoppingOrder` | the category-then-name comparator and a stable insertion sort |
| `shopping_cost.dfy` | `ShoppingCost` | `estimateTotalCost` and `getCategoryBreakdown` |
| `shopping_list.dfy` | `ShoppingList` | the whole shopping-list computation, end to end |
| `meal_generation.dfy` | `MealGeneration` | restriction and serving aggregation, prompt parameters, reply handling, meal tagging |
| `group_form.dfy` | `GroupForm` | the new-group form's handlers, `TEMPLATES`, and the template links of the groups list |
| `meal_filter.dfy` | `MealFilter` | the meals list filter, the dietary-tag toggle and the tag chips |
| `meal_plan_form.dfy` | `MealPlanForm` | the group toggle, the preference-form questions, submit validation, error mapping and the default deadline |

Modelling choices:

- **Numbers.** Quantities, multipliers and prices are exact `real`s. `Math.ceil` is written out with `Floor`.
- **Case and order.** `toLowerCase` lower-cases ASCII letters only. `localeCompare` is lexicographic order on code points.
- **The ingredient `Map`.** It is a sequence of items in first-insertion order, which is the order `Map.values()` yields. An item is found by its key, the lower-cased name.
- **The category breakdown.** It is a sequence of `(category, count)` pairs in first-appearance order, which is the key order of a JavaScript object with string keys.
- **JavaScript falsy defaults.** Each is written out:
  - `serving_multiplier || 1`: a missing or zero multiplier counts as 1.
  - `category || 'other'`: an empty category stands for a missing one.
  - `mealCount || 5`: a missing or zero count becomes 5.
  - `error.message || …`: a missing or empty message falls back to the default text.
- **Inputs given as parameters.** Three things the code calls out to become parameters of the model:
  - the model's reply, and `JSON.parse` followed by `map` (a parser `string -> ParsedContent`: not JSON, not an array, or meals);
  - the date check `isNaN(new Date(s).getTime())` (a predicate);
  - the outcome of the two create calls: both succeed, the plan insert throws (and the form is never requested), or the form insert throws.
- **Unknown categories sort first, as the code does.** The comparator ranks a category by its position in [produce, meat, dairy, pantry, frozen, other]. `indexOf` gives -1 for any other category, and -1 compares below every listed index, so unlisted categories come first (`ShoppingOrder.ItemLe`, `ShoppingOrder.UnknownCategorySortsFirst`). `ShoppingOrder.DeferredItemLe` is an alternative order that ranks unlisted categories after the listed ones. It is proved to put them last and to agree with the code's order whenever both categories are listed.

## Model

| member | source | states |
|---|---|---|
| Households.People | supabase/functions/generate-shopping-list/index.ts:183 | a group's head count is never negative; it is zero exactly when the group has no members; and it lies between the count without toddlers and the count with every toddler counted whole |
| Households.FindGroup | supabase/functions/generate-shopping-list/index.ts:181 | `find` returns nothing exactly when no group has the id, and otherwise the first group, in list order, that carries it |
| Households.AssignedPeopleAppend | supabase/functions/generate-shopping-list/index.ts:180-185 | `AssignedPeople`, the head count summed over two id lists one after the other is the sum of the two |
| Households.UnknownIdAddsNothing | supabase/functions/generate-shopping-list/index.ts:181-184 | `IdWeight`: an assigned id that names no group adds nothing to the head count |
| Households.RepeatedIdCountsTwice | supabase/functions/generate-shopping-list/index.ts:180-185 | an id assigned twice counts its group twice |
| Strings.ToLower | supabase/functions/generate-shopping-list/index.ts:101 | `toLowerCase` keeps the length and lower-cases each character in place |
| Strings.Contains | src/app/meals/page.tsx:85-86 | `includes` holds exactly when the needle occurs at some position of the string |
| Strings.Trim | src/app/groups/new/page.tsx:100-101 | `trim` drops the leading and trailing white space and nothing else: the result is a slice of the input, it neither starts nor ends with white space, and it is empty exactly when the input is all white space |
| Strings.Join | supabase/functions/generate-meals/index.ts:81-84 | `join` of nothing is empty and of one part is that part; otherwise its length is the parts' lengths plus one separator between neighbours, and it starts with the first part |
| Strings.JoinAppend | supabase/functions/generate-meals/index.ts:81-84 | joining two non-empty runs of parts is joining each with one separator between them |
| Strings.ReplaceFirst | src/app/groups/page.tsx:239 | `replace` with a one-character pattern changes only the first occurrence of that character |
| Strings.PadStart | src/app/meal-plans/new/page.tsx:42-45 | `padStart` keeps the string as the suffix and fills up to the width with the fill character |
| Strings.Pad2TwoDigits | src/app/meal-plans/new/page.tsx:42-45 | `String(n).padStart(2, '0')` of a number below 100 is two digits that read back as the number |
| Selections.RemoveAll | src/app/groups/new/page.tsx:96 | `filter(r => r !== x)` drops every copy of `x` and keeps every other element, with its multiplicity and in order |
| ShoppingAggregation.GroupMultiplier | supabase/functions/generate-shopping-list/index.ts:176-188 | the multiplier is at least 1; it is exactly 1 for an absent or empty assignment; otherwise it is the assigned head count over 4, or 1 when that is smaller |
| ShoppingAggregation.ServingMultiplier | supabase/functions/generate-shopping-list/index.ts:96 | a missing or zero serving multiplier counts as 1; any other value is used as it is |
| ShoppingAggregation.IsStaple | supabase/functions/generate-shopping-list/index.ts:115-117 | an ingredient is a staple exactly when one of salt, pepper, oil, butter, flour, sugar occurs inside its lower-cased name |
| ShoppingAggregation.AbsorbLookup | supabase/functions/generate-shopping-list/index.ts:104-120 | merging one ingredient changes only the item of its own key: a new key gets a fresh item; an existing item gains the quantity and the meal title |
| ShoppingAggregation.FindKey | supabase/functions/generate-shopping-list/index.ts:101-104 | the `Map` lookup by key: -1 exactly when no item has the key, otherwise the first position holding it |
| ShoppingAggregation.ConsolidateMatchesReference | supabase/functions/generate-shopping-list/index.ts:93-122 | for every key, the item of `Consolidate` (the fold of `Absorb` over each entry's `EntryOccurrences`, a new key getting a `NewItem`) is the reference item: the first occurrence fixes the id (`mealId_name`), name, unit, category (default `other`) and staple flag; the quantity is the sum of every occurrence's scaled quantity; the meal sources list one title per occurrence, in order |
| ShoppingAggregation.ConsolidateDistinctKeys | supabase/functions/generate-shopping-list/index.ts:90-125 | the consolidated list holds at most one item per lower-cased name |
| ShoppingAggregation.ConsolidateKeyMembers | supabase/functions/generate-shopping-list/index.ts:100-125 | a lower-cased name has an item exactly when some ingredient of the plan has that name |
| ShoppingAggregation.ConsolidateKeys | supabase/functions/generate-shopping-list/index.ts:100-125 | the items' keys are the set of the plan's lower-cased ingredient names, and the number of items is the number of distinct names |
| ShoppingAggregation.NoCollisionKeepsEveryIngredient | supabase/functions/generate-shopping-list/index.ts:100-120 | when no two ingredients share a lower-cased name, every ingredient becomes its own item |
| ShoppingAggregation.EntryWithoutIngredientsIsSkipped | supabase/functions/generate-shopping-list/index.ts:94 | an entry with no meal or no `ingredients` changes nothing, wherever it sits in the plan |
| ShoppingAggregation.ConsolidateFromAppend | supabase/functions/generate-shopping-list/index.ts:93-122 | the loop over entries is a fold: consolidating two runs of entries is consolidating the first, then continuing with the second |
| ShoppingOrder.IndexOf | supabase/functions/generate-shopping-list/index.ts:130-131 | `indexOf` gives -1 exactly when the category is absent, and otherwise its first position |
| ShoppingOrder.CategoryRankIsIndexOf | supabase/functions/generate-shopping-list/index.ts:128-131 | `CategoryRank`, the rank used for sorting, is the category's position in [produce, meat, dairy, pantry, frozen, other], and -1 for any other category |
| ShoppingOrder.NameLeTotal | supabase/functions/generate-shopping-list/index.ts:137 | any two names are comparable |
| ShoppingOrder.NameLeTransitive | supabase/functions/generate-shopping-list/index.ts:137 | name order is transitive |
| ShoppingOrder.ItemLeTotal | supabase/functions/generate-shopping-list/index.ts:129-138 | the comparator `ItemLe` orders any two items one way or the other |
| ShoppingOrder.ItemLeTransitive | supabase/functions/generate-shopping-list/index.ts:129-138 | the comparator is transitive |
| ShoppingOrder.InsertSorted | supabase/functions/generate-shopping-list/index.ts:129-138 | inserting into a sorted list keeps it sorted |
| ShoppingOrder.SortItems | supabase/functions/generate-shopping-list/index.ts:129-138 | the sort returns a sorted permutation of its input |
| ShoppingOrder.SortKeys | supabase/functions/generate-shopping-list/index.ts:129-138 | sorting neither adds nor drops a key, and keeps one item per key |
| ShoppingOrder.SortSortedIsIdentity | supabase/functions/generate-shopping-list/index.ts:129-138 | an already sorted list is left as it is |
| ShoppingOrder.SortIdempotent | supabase/functions/generate-shopping-list/index.ts:129-138 | sorting twice is sorting once |
| ShoppingOrder.UnknownCategorySortsFirst | supabase/functions/generate-shopping-list/index.ts:130-134 | an item whose category is not listed sorts strictly before any item with a listed category |
| ShoppingOrder.SameCategoryByName | supabase/functions/generate-shopping-list/index.ts:133-137 | within one category, items are ordered by name |
| ShoppingOrder.DeferredUnknownSortsLast | supabase/functions/generate-shopping-list/index.ts:130-134 | the order that defers unknown categories puts them strictly after every listed one |
| ShoppingOrder.DeferredAgreesOnListed | supabase/functions/generate-shopping-list/index.ts:129-138 | that order and the code's comparator agree whenever both categories are listed |
| ShoppingCost.CategoryPrice | supabase/functions/generate-shopping-list/index.ts:192-202 | a listed category gets its price from the table, any other gets 3.00, and every price is between 2.00 and 8.00 |
| ShoppingCost.ContributionBounds | supabase/functions/generate-shopping-list/index.ts:202-203 | `Contribution`: an item of non-negative quantity contributes between its quantity and four times its quantity |
| ShoppingCost.EstimateTotalCost | supabase/functions/generate-shopping-list/index.ts:190-205 | with no negative quantity, the estimate lies between the total quantity and four times it, so it is never negative |
| ShoppingCost.CostAppend | supabase/functions/generate-shopping-list/index.ts:201-204 | the estimate of two lists one after the other is the sum of their estimates |
| ShoppingCost.CostPermutationInvariant | supabase/functions/generate-shopping-list/index.ts:201-204 | the estimate does not depend on the order of the items |
| ShoppingCost.Tally | supabase/functions/generate-shopping-list/index.ts:210 | counting one more item keeps one entry per category and adds the item's category if it is new |
| ShoppingCost.TallyStep | supabase/functions/generate-shopping-list/index.ts:210 | counting one item adds one to its category's count, leaves every other count alone, and adds one to the total |
| ShoppingCost.CategoryBreakdownCounts | supabase/functions/generate-shopping-list/index.ts:207-213 | `CategoryBreakdown`: the breakdown has one key per category present; each key counts that category's items; and the counts add up to the number of items |
| ShoppingList.GenerateShoppingList | supabase/functions/generate-shopping-list/index.ts:124-159 | the stored items are the consolidated items, sorted; `items_count` is their number; `total_estimated_cost` is the estimate of the consolidated items |
| ShoppingList.GeneratedItemsMatchReference | supabase/functions/generate-shopping-list/index.ts:93-138 | every item of the generated list is the reference item for its key |
| ShoppingList.GeneratedKeys | supabase/functions/generate-shopping-list/index.ts:93-138 | the generated list has one item per distinct lower-cased ingredient name of the plan, and no other item |
| ShoppingList.GeneratedCount | supabase/functions/generate-shopping-list/index.ts:158 | `items_count` is the number of distinct lower-cased ingredient names in the plan |
| ShoppingList.GeneratedCategories | supabase/functions/generate-shopping-list/index.ts:159 | the response's `categories` count the generated items per category, and the counts add up to `items_count` |
| ShoppingList.GeneratedCostNonNegative | supabase/functions/generate-shopping-list/index.ts:190-205 | with no negative ingredient quantity and no negative serving multiplier, every item quantity and the total cost are non-negative |
| MealGeneration.AllRestrictions | supabase/functions/generate-meals/index.ts:67-69 | a restriction is gathered exactly when some group lists it |
| MealGeneration.AllRestrictionsAppend | supabase/functions/generate-meals/index.ts:67-69 | gathering over two runs of groups concatenates the two gatherings |
| MealGeneration.AllRestrictionsCons | supabase/functions/generate-meals/index.ts:67-69 | the first group's list comes first and whole, with duplicates kept |
| MealGeneration.AllRestrictionsLength | supabase/functions/generate-meals/index.ts:67-69 | the gathered list is as long as all the groups' lists together |
| MealGeneration.TotalServings | supabase/functions/generate-meals/index.ts:72-74 | the serving total is never negative, and it is zero exactly when every group has no members |
| MealGeneration.TotalServingsIsAssignedPeople | supabase/functions/generate-meals/index.ts:72-74 | the serving total equals the shopping list's head count over all the fetched groups, so both use the same per-group weight |
| MealGeneration.Ceil | supabase/functions/generate-meals/index.ts:80 | `Math.ceil` gives the least integer not below its argument |
| MealGeneration.PromptServings | supabase/functions/generate-meals/index.ts:80 | the prompt's serving figure is not negative and is the serving total rounded up |
| MealGeneration.SingleGroupServings | supabase/functions/generate-meals/index.ts:72-80 | one group asks for its adults, teens and children plus half its toddlers rounded up, so a lone toddler asks for one serving |
| MealGeneration.WholeServingsUnchanged | supabase/functions/generate-meals/index.ts:80 | a whole serving total is written as it is |
| MealGeneration.RequestedMealCount | supabase/functions/generate-meals/index.ts:77 | the meal count is the requested one, or 5 when it is missing or 0 |
| MealGeneration.OptionalLine | supabase/functions/generate-meals/index.ts:83-84 | an optional prompt line is empty exactly when its list is missing or empty; otherwise it is the prefix followed by the list joined with ", " |
| MealGeneration.BuildPromptParameters | supabase/functions/generate-meals/index.ts:77-84 | the meal count is `mealCount || 5`, the servings are the rounded-up serving total, the categories and the gathered restrictions are each joined with ", "; the exclude and preferences lines appear exactly when their lists are non-empty, and then read `- Exclude ingredients: ` or `- Preferences: ` followed by the list joined with ", " |
| MealGeneration.TagMeals | supabase/functions/generate-meals/index.ts:139-143 | each meal to insert is the generated meal with `ai_generated` true and source `openai`, in the same number and order |
| MealGeneration.TagMealsRoundTrip | supabase/functions/generate-meals/index.ts:139-143 | dropping the provenance gives back the generated meals |
| MealGeneration.TagMealsAppend | supabase/functions/generate-meals/index.ts:139-143 | tagging works meal by meal |
| MealGeneration.InterpretReply | supabase/functions/generate-meals/index.ts:123-143 | a non-ok reply fails with `OpenAI API error: <statusText>`; `undefined` or non-JSON content fails with `Invalid response format from AI service`; a body that is not JSON, a reply without a first choice, `null` content (which `JSON.parse` accepts) or parsed content that is not an array fails with the thrown error's message, or `Internal server error` when it is empty; an array of meals comes back tagged |
| MealGeneration.CaughtMessage | supabase/functions/generate-meals/index.ts:161-164 | the error response carries the thrown message, or `Internal server error` when that message is empty |
| MealGeneration.ReplyErrorsDistinct | supabase/functions/generate-meals/index.ts:123-136 | the upstream error never reads like the format error |
| GroupForm.ChangeCount | src/app/groups/new/page.tsx:69-87 | a count change sets that counter to max(0, current + delta) and leaves the other three alone, so counts never go negative |
| GroupForm.DecrementAtZeroStays | src/app/groups/new/page.tsx:84-86 | decrementing a zero counter leaves it at zero |
| GroupForm.IncrementThenDecrement | src/app/groups/new/page.tsx:84-86 | plus then minus on a non-negative counter restores the composition |
| GroupForm.IncreasesCompose | src/app/groups/new/page.tsx:84-86 | two increases add up |
| GroupForm.AddRestriction | src/app/groups/new/page.tsx:89-93 | adding a restriction makes it present, adds nothing else, keeps the list duplicate-free and changes no other field |
| GroupForm.RemoveRestriction | src/app/groups/new/page.tsx:95-97 | every copy of the restriction goes; the others keep their order and multiplicity |
| GroupForm.RemoveUndoesAddRestriction | src/app/groups/new/page.tsx:89-97 | removing a restriction just added to a draft that lacked it restores the draft |
| GroupForm.AddCustomRestriction | src/app/groups/new/page.tsx:99-104 | the trimmed input is appended and the input cleared exactly when the trimmed input is non-empty and not yet present; otherwise nothing changes |
| GroupForm.AddCustomKeepsTrimmed | src/app/groups/new/page.tsx:99-104 | the custom path never stores an empty or untrimmed restriction |
| GroupForm.AddCustomIdempotent | src/app/groups/new/page.tsx:99-104 | pressing add twice does what pressing it once does |
| GroupForm.ToggleMember | src/app/groups/new/page.tsx:106-112 | toggling flips the member's membership, leaves every other member's, and keeps the list duplicate-free |
| GroupForm.TemplateFor | src/app/groups/new/page.tsx:17-22 | exactly the four template slugs have a template, and every template's counts are non-negative |
| GroupForm.InitialDraft | src/app/groups/new/page.tsx:25-52 | a known template sets the name and all four counts; an absent or unknown one leaves name `''` and 2 adults with everything else 0 |
| GroupForm.UnknownTemplateKeepsDefaults | src/app/groups/new/page.tsx:43-52 | an unknown slug starts the form exactly as no slug does |
| GroupForm.TemplateSlug | src/app/groups/page.tsx:239 | the slug is the lower-cased name with its first space, and only that one, turned into `_` |
| GroupForm.TwoWordSlug | src/app/groups/page.tsx:239 | the slug of a name whose first word has no space is the lower-cased words joined by `_` |
| GroupForm.ListedTemplatesResolve | src/app/groups/page.tsx:228-239 | every template card on the groups list links to a slug that is a key of `TEMPLATES`, whose template has the card's name |
| MealFilter.AnyTagOf | src/app/meals/page.tsx:89 | `some` holds exactly when one of the selected tags is among the meal's tags |
| MealFilter.FilterMeals | src/app/meals/page.tsx:84-92 | with `Keep` the conjunction of `MatchesSearch` (lower-cased title, or description when present, contains the lower-cased term), `MatchesCategory` and `MatchesDietary`, the shown meals are an order-preserving subsequence of the meals, holding each kept meal as often as it was listed and no other |
| MealFilter.NoFilterKeepsAll | src/app/meals/page.tsx:84-92 | with no search, category or tag every meal is shown |
| MealFilter.FilterThroughWider | src/app/meals/page.tsx:84-92 | filtering with a narrower filter after a wider one is filtering with the narrower alone |
| MealFilter.MoreTagsNeverRemove | src/app/meals/page.tsx:88-89 | once a tag is selected, selecting another never hides a meal |
| MealFilter.CategoryNarrows | src/app/meals/page.tsx:87 | choosing a category only narrows what "All Categories" shows |
| MealFilter.ToggleDietaryFilter | src/app/meals/page.tsx:94-100 | toggling a tag flips its membership, leaves the others', and keeps the selection duplicate-free |
| MealFilter.TagChips | src/app/meals/page.tsx:259-270 | at most the first three tags are shown, in order; a `+N` chip appears exactly when there are more than three; shown plus hidden is the number of tags |
| MealFilter.MoreLabel | src/app/meals/page.tsx:269 | the overflow chip is a `+` followed by decimal digits |
| MealFilter.MoreLabelReadsBack | src/app/meals/page.tsx:267-270 | reading the overflow chip's digits gives the number of tags beyond three |
| MealPlanForm.ToggleGroup | src/app/meal-plans/new/page.tsx:85-91 | toggling flips the group's membership, leaves the others', appends a new id at the end and keeps the selection duplicate-free |
| MealPlanForm.ToggleGroupTwice | src/app/meal-plans/new/page.tsx:85-91 | selecting and unselecting a group restores the selection |
| MealPlanForm.Matched | src/app/meal-plans/new/page.tsx:112-114 | the ids that get a question are the selected ids naming a loaded group, in selection order |
| MealPlanForm.GroupQuestions | src/app/meal-plans/new/page.tsx:112-122 | one question per matched group, in selection order: the text `Any special meal requests for "<name>"?` with that group's name, not required, aimed at that group alone |
| MealPlanForm.GenerateFormQuestions | src/app/meal-plans/new/page.tsx:93-148 | there are 4 questions plus one per matched group: mood first, then one per group in selection order aimed at that group alone, then ingredients to avoid, cooking days (the seven weekdays) and variety; only variety is required |
| MealPlanForm.CookingDaysAreTheWeek | src/app/meal-plans/new/page.tsx:14 | the cooking-days options are seven distinct days, Monday to Sunday |
| MealPlanForm.UnknownGroupAddsNoQuestion | src/app/meal-plans/new/page.tsx:112-121 | a selected id naming no loaded group adds no question |
| MealPlanForm.QuestionCountAllFound | src/app/meal-plans/new/page.tsx:93-148 | when every selected id names a loaded group, there are 4 questions plus one per selected group |
| MealPlanForm.Validate | src/app/meal-plans/new/page.tsx:157-173 | submission passes exactly when no check fails; otherwise it reports the first failing check in the order: week start, deadline, deadline date, groups |
| MealPlanForm.ErrorMessage | src/app/meal-plans/new/page.tsx:196-205 | a message naming the duplicate key or the unique-week constraint becomes "already exists for the week of …"; any other non-empty message is shown as it is; a missing or empty one becomes 'Failed to create meal plan' |
| MealPlanForm.DuplicateWeekNamesWeek | src/app/meal-plans/new/page.tsx:202 | the duplicate-week message names the chosen week |
| MealPlanForm.ValidationMessagePassesThrough | src/app/meal-plans/new/page.tsx:157-205 | a validation message passes through the error mapping unchanged |
| MealPlanForm.Submit | src/app/meal-plans/new/page.tsx:150-209 | a failed check shows its message and requests nothing; otherwise the plan is requested, and its generated form is requested exactly when the plan was created; the page navigates exactly when both creates succeed; an error shows exactly when it does not navigate, and it is the catch block's mapping of the thrown message |
| MealPlanForm.DuplicateWeekRequestsNoForm | src/app/meal-plans/new/page.tsx:176-205 | when the plan insert hits the unique-week constraint, no form is requested, the page stays and the error names the week |
| MealPlanForm.NoGroupsNoRequest | src/app/meal-plans/new/page.tsx:171-176 | with no group selected neither the plan nor the form is requested, and the page stays |
| MealPlanForm.DeadlineFields | src/app/meal-plans/new/page.tsx:40-47 | `DeadlineString`: the deadline is `year-MM-DDTHH:mm`, with each two-digit field reading back as its value |
| MealPlanForm.DefaultDeadlineAtSix | src/app/meal-plans/new/page.tsx:36-47 | `DefaultDeadline`: the default deadline ends in `T18:00` |

## Left out

- Database reads and writes are not modelled. This covers loading the plan and the groups, the insert of the shopping list and of the meals, and `createMealPlan` and `createMealForm`. They are I/O; their outcome is an input to `MealPlanForm.Submit`.
- The check for an existing shopping list before the insert is left out. It is database I/O, and its check-then-insert race is a concurrency matter.
- The HTTP handlers, CORS, authentication, the OpenAI request and `JSON.parse` are left out. The reply and the parser are parameters of `MealGeneration.InterpretReply`.
- `MealGeneration.InterpretReply`: the text of a runtime error (a body `json()` rejects, a missing `choices[0]`, `map` on `null` or another non-array) depends on the JavaScript runtime. It is carried as data, not computed. An array whose elements are not meal objects is taken as meals. The meal insert's own error is database I/O.
- The prompt's fixed template text is left out. The model keeps the values interpolated into it (`MealGeneration.PromptParameters`).
- React state, effects, routing and rendering are left out. Each handler is a function from state to state.
- `MealPlanForm.Submit`: the deadline passed on is the ISO string of the parsed date. That conversion is not modelled, and neither are the form's title, description and the user and household ids.
- `MealPlanForm.DefaultDeadline` takes year, month, day as integers. Computing "three days from now" and the next Monday with `Date` and `date-fns` is left out.
- The title auto-generation in `loadData` is left out. It formats a date with `date-fns`.
- `ShoppingOrder.NameLe`: `localeCompare` is modelled as code-point lexicographic order, not a locale collation.
- `Strings.ToLower`: only ASCII letters are lower-cased. There is no Unicode case mapping.
- IEEE-754 rounding is not modelled. Quantities, multipliers, prices and serving totals are exact reals.
- `GroupForm.TemplateFor`: `TEMPLATES[slug]` would also find keys inherited from `Object.prototype` (such as `constructor`). Only the four own keys are modelled.
- `ShoppingCost.CategoryPrice`: the same holds for `categoryPrices[category]`. Only the six own keys are modelled.
- `ShoppingCost.CategoryBreakdown`: a JavaScript object lists integer-like keys first. The model keeps first-appearance order for every category name.
- `GroupForm.ChangeCount`: the handler is keyed by a string. A type other than adult, teen, child or toddler is not modelled; the model's counter kind is an enumeration.
- `MealFilter.FilterMeals`: `dietary_tags` is taken to be present on every meal. A null tag list, which would throw when a tag is selected, is not modelled.
