/** The new-meal-plan page: the group toggle, the preference form it generates
    for the selected groups, the checks `handleSubmit` makes before creating
    anything, the message it shows when creation fails, and the default
    deadline it fills into the `datetime-local` input. Date parsing and the
    create calls are outside the model: parsing is a predicate parameter and
    the calls' result is an input. */
module MealPlanForm {
  import opened Results
  import opened Strings
  import opened Selections
  import opened Households

  // ------------------------------------------------------------ group toggle

  /** `toggleGroup`: drops the id when it is selected, appends it otherwise. */
  function ToggleGroup(selected: seq<string>, id: string): (r: seq<string>)
    ensures id in r <==> id !in selected
    ensures forall y :: y != id ==> (y in r <==> y in selected)
    ensures NoDup(selected) ==> NoDup(r)
    ensures id !in selected ==> r == selected + [id]
    ensures id in selected ==> IsSubsequence(r, selected) && forall y :: y != id ==> multiset(r)[y] == multiset(selected)[y]
  {
    Toggle(selected, id)
  }

  /** Selecting a group and unselecting it again restores the selection. */
  lemma ToggleGroupTwice(selected: seq<string>, id: string)
    requires id !in selected
    ensures ToggleGroup(ToggleGroup(selected, id), id) == selected
  {
    ToggleTwiceAbsent(selected, id);
  }

  // --------------------------------------------------------------- questions

  datatype QuestionType = MultipleChoice | Text | SingleChoice

  /** One entry of the form's `questions`; `options` and `targetGroups` are
      `None` where the object has no such key. */
  datatype Question = Question(
    question: string,
    kind: QuestionType,
    options: Option<seq<string>>,
    required: bool,
    targetGroups: Option<seq<string>>)

  const DaysOfWeek: seq<string> := ["Monday", "Tuesday", "Wednesday", "Thursday", "Friday", "Saturday", "Sunday"]

  const MoodQuestion: Question := Question(
    "What types of meals are you in the mood for this week?",
    MultipleChoice,
    Some(["Comfort food", "Healthy & light", "International cuisine", "Quick & easy", "Family favorites", "Try something new"]),
    false,
    None)

  const AvoidQuestion: Question := Question(
    "Are there any ingredients we should avoid this week?", Text, None, false, None)

  const CookingDaysQuestion: Question := Question(
    "Which days are you available to help with cooking?", MultipleChoice, Some(DaysOfWeek), false, None)

  const VarietyQuestion: Question := Question(
    "How important is variety in this week's meals?",
    SingleChoice,
    Some(["Very important", "Somewhat important", "Not important"]),
    true,
    None)

  /** `Any special meal requests for "<name>"?`. */
  function GroupPrompt(name: string): string {
    "Any special meal requests for \"" + name + "\"?"
  }

  /** The selected ids that name a loaded group, in selection order. */
  function Matched(selected: seq<string>, groups: seq<Group>): (r: seq<string>)
    ensures |r| <= |selected|
    ensures IsSubsequence(r, selected)
    ensures forall id :: id in r <==> id in selected && FindGroup(groups, id).Some?
    ensures forall id :: multiset(r)[id] == if FindGroup(groups, id).Some? then multiset(selected)[id] else 0
  {
    if selected == [] then []
    else
      assert selected == [selected[0]] + selected[1..];
      var rest := Matched(selected[1..], groups);
      if FindGroup(groups, selected[0]).Some? then [selected[0]] + rest
      else
        assert rest == [] || rest[0] in rest;
        rest
  }

  /** One text question per matched group, aimed at that group alone. */
  function GroupQuestions(selected: seq<string>, groups: seq<Group>): (r: seq<Question>)
    ensures |r| == |Matched(selected, groups)|
    ensures forall i :: 0 <= i < |r| ==> !r[i].required && r[i].targetGroups.Some?
    ensures forall i :: 0 <= i < |r| ==>
      var id := Matched(selected, groups)[i];
      && FindGroup(groups, id).Some?
      && r[i] == Question(GroupPrompt(FindGroup(groups, id).value.name), Text, None, false, Some([id]))
  {
    var m := Matched(selected, groups);
    seq(|m|, i requires 0 <= i < |m| =>
      Question(GroupPrompt(FindGroup(groups, m[i]).value.name), Text, None, false, Some([m[i]])))
  }

  /** The fixed questions: only the variety question is required, and none of
      them is aimed at a group. */
  lemma FixedQuestionFlags()
    ensures !MoodQuestion.required && MoodQuestion.targetGroups.None?
    ensures !AvoidQuestion.required && AvoidQuestion.targetGroups.None?
    ensures !CookingDaysQuestion.required && CookingDaysQuestion.targetGroups.None?
    ensures CookingDaysQuestion.options == Some(DaysOfWeek)
    ensures VarietyQuestion.required && VarietyQuestion.targetGroups.None?
  {
  }

  /** The shape of `[first, ...middle, a, c, v]`: where each part lands, and
      which positions are required or aimed at groups. */
  lemma FormLayout(first: Question, middle: seq<Question>, a: Question, c: Question, v: Question)
    requires !first.required && first.targetGroups.None?
    requires !a.required && a.targetGroups.None? && !c.required && c.targetGroups.None?
    requires v.required && v.targetGroups.None?
    requires forall i :: 0 <= i < |middle| ==> !middle[i].required && middle[i].targetGroups.Some?
    ensures var r := [first] + middle + [a, c, v];
      && |r| == |middle| + 4
      && r[0] == first && r[|r| - 3] == a && r[|r| - 2] == c && r[|r| - 1] == v
      && (forall i :: 0 <= i < |middle| ==> r[1 + i] == middle[i])
      && (forall i :: 0 <= i < |r| ==> (r[i].required <==> i == |r| - 1))
      && (forall i :: 0 <= i < |r| ==> (r[i].targetGroups.Some? <==> 1 <= i < |r| - 3))
  {
    var r := [first] + middle + [a, c, v];
    assert forall i :: 0 <= i < |middle| ==> r[1 + i] == middle[i];
    assert forall i :: 1 <= i < |r| - 3 ==> r[i] == middle[i - 1];
  }

  /** `generateFormQuestions`: the mood question, one question per selected
      group that was found (in selection order), the ingredients to avoid, the
      cooking days and the variety question; only the last must be answered. */
  function GenerateFormQuestions(selected: seq<string>, groups: seq<Group>): (r: seq<Question>)
    ensures |r| == 4 + |Matched(selected, groups)|
    ensures r[0] == MoodQuestion
    ensures r[|r| - 3] == AvoidQuestion
    ensures r[|r| - 2] == CookingDaysQuestion && r[|r| - 2].options == Some(DaysOfWeek)
    ensures r[|r| - 1] == VarietyQuestion
    ensures forall i :: 0 <= i < |r| ==> (r[i].required <==> i == |r| - 1)
    ensures forall i :: 0 <= i < |r| ==> (r[i].targetGroups.Some? <==> 1 <= i < |r| - 3)
    ensures forall i :: 0 <= i < |Matched(selected, groups)| ==>
      var id := Matched(selected, groups)[i];
      && FindGroup(groups, id).Some?
      && r[1 + i] == Question(GroupPrompt(FindGroup(groups, id).value.name), Text, None, false, Some([id]))
  {
    var middle := GroupQuestions(selected, groups);
    FixedQuestionFlags();
    FormLayout(MoodQuestion, middle, AvoidQuestion, CookingDaysQuestion, VarietyQuestion);
    [MoodQuestion] + middle + [AvoidQuestion, CookingDaysQuestion, VarietyQuestion]
  }

  /** The cooking-days question offers the seven weekdays, Monday first. */
  lemma CookingDaysAreTheWeek()
    ensures |DaysOfWeek| == 7 && NoDup(DaysOfWeek)
    ensures DaysOfWeek[0] == "Monday" && DaysOfWeek[6] == "Sunday"
  {
  }

  lemma {:induction false} MatchedAppend(a: seq<string>, b: seq<string>, groups: seq<Group>)
    ensures Matched(a + b, groups) == Matched(a, groups) + Matched(b, groups)
  {
    if a == [] {
      assert a + b == b;
    } else {
      assert (a + b)[1..] == a[1..] + b;
      MatchedAppend(a[1..], b, groups);
    }
  }

  /** Selecting an id that names no loaded group adds no question. */
  lemma UnknownGroupAddsNoQuestion(selected: seq<string>, id: string, groups: seq<Group>)
    requires FindGroup(groups, id).None?
    ensures GenerateFormQuestions(selected + [id], groups) == GenerateFormQuestions(selected, groups)
  {
    MatchedAppend(selected, [id], groups);
    assert Matched([id], groups) == [];
    assert Matched(selected + [id], groups) == Matched(selected, groups);
  }

  lemma {:induction false} MatchedAllFound(selected: seq<string>, groups: seq<Group>)
    requires forall i :: 0 <= i < |selected| ==> FindGroup(groups, selected[i]).Some?
    ensures Matched(selected, groups) == selected
  {
    if selected != [] {
      var tail := selected[1..];
      assert forall i :: 0 <= i < |tail| ==> tail[i] == selected[i + 1];
      MatchedAllFound(tail, groups);
      assert FindGroup(groups, selected[0]).Some?;
      assert selected == [selected[0]] + tail;
    }
  }

  /** When every selected id names a loaded group, which is how the page offers
      them, the form has four questions plus one per selected group. */
  lemma QuestionCountAllFound(selected: seq<string>, groups: seq<Group>)
    requires forall i :: 0 <= i < |selected| ==> FindGroup(groups, selected[i]).Some?
    ensures |GenerateFormQuestions(selected, groups)| == 4 + |selected|
  {
    MatchedAllFound(selected, groups);
  }

  // --------------------------------------------------------------- validation

  /** The form fields `handleSubmit` reads. */
  datatype SubmitForm = SubmitForm(weekStartDate: string, deadline: string, selectedGroups: seq<string>)

  datatype ValidationError = MissingWeekStart | MissingDeadline | InvalidDeadline | NoGroupsSelected

  function ValidationMessage(e: ValidationError): string {
    match e
    case MissingWeekStart => "Please select a week start date"
    case MissingDeadline => "Please select a deadline"
    case InvalidDeadline => "Invalid deadline date selected"
    case NoGroupsSelected => "Please select at least one household group"
  }

  /** Position of each check in `handleSubmit`. */
  function Rank(e: ValidationError): nat {
    match e
    case MissingWeekStart => 0
    case MissingDeadline => 1
    case InvalidDeadline => 2
    case NoGroupsSelected => 3
  }

  /** Each check on its own, regardless of the others. `parsesAsDate` stands for
      `!isNaN(new Date(s).getTime())`. */
  predicate Fails(f: SubmitForm, parsesAsDate: string -> bool, e: ValidationError) {
    match e
    case MissingWeekStart => f.weekStartDate == ""
    case MissingDeadline => f.deadline == ""
    case InvalidDeadline => f.deadline != "" && !parsesAsDate(f.deadline)
    case NoGroupsSelected => f.selectedGroups == []
  }

  /** The validation chain: the first failing check, in the page's order. */
  function Validate(f: SubmitForm, parsesAsDate: string -> bool): (r: Option<ValidationError>)
    ensures r.None? <==> forall e :: !Fails(f, parsesAsDate, e)
    ensures r.Some? ==> Fails(f, parsesAsDate, r.value)
    ensures r.Some? ==> forall e :: Fails(f, parsesAsDate, e) ==> Rank(r.value) <= Rank(e)
  {
    if f.weekStartDate == "" then
      assert Fails(f, parsesAsDate, MissingWeekStart);
      Some(MissingWeekStart)
    else if f.deadline == "" then
      assert Fails(f, parsesAsDate, MissingDeadline);
      Some(MissingDeadline)
    else if !parsesAsDate(f.deadline) then
      assert Fails(f, parsesAsDate, InvalidDeadline);
      Some(InvalidDeadline)
    else if f.selectedGroups == [] then
      assert Fails(f, parsesAsDate, NoGroupsSelected);
      Some(NoGroupsSelected)
    else None
  }

  // ----------------------------------------------------------- error mapping

  const DuplicateKeyText: string := "duplicate key value violates unique constraint"
  const UniqueWeekConstraint: string := "meal_plans_household_id_week_start_date_key"
  const DefaultCreateError: string := "Failed to create meal plan"

  const DuplicateWeekPrefix: string := "A meal plan already exists for the week of "
  const DuplicateWeekSuffix: string := ". Please choose a different week or edit the existing meal plan."

  function DuplicateWeekMessage(weekStartDate: string): string {
    DuplicateWeekPrefix + weekStartDate + DuplicateWeekSuffix
  }

  /** `error.message?.includes(...) || error.message?.includes(...)`. */
  predicate IsDuplicateWeek(message: Option<string>) {
    message.Some? && (Contains(message.value, DuplicateKeyText) || Contains(message.value, UniqueWeekConstraint))
  }

  /** The `catch` block: the unique-week violation gets its own message naming
      the week; any other message is shown as it is, and a missing or empty one
      is replaced by the generic failure. */
  function ErrorMessage(message: Option<string>, weekStartDate: string): (r: string)
    ensures r != ""
    ensures IsDuplicateWeek(message) ==> r == DuplicateWeekMessage(weekStartDate)
    ensures !IsDuplicateWeek(message) && message.Some? && message.value != "" ==> r == message.value
    ensures message.None? || message.value == "" ==> r == DefaultCreateError
  {
    NotContainsLonger("", DuplicateKeyText);
    if IsDuplicateWeek(message) then DuplicateWeekMessage(weekStartDate)
    else if message.None? || message.value == "" then
      DefaultCreateError
    else message.value
  }

  lemma ContainsMiddle(a: string, w: string, b: string)
    ensures Contains(a + w + b, w)
  {
    assert (a + w + b)[|a|..|a| + |w|] == w;
    assert OccursAt(a + w + b, w, |a|);
  }

  /** The duplicate-week message names the week that was chosen. */
  lemma DuplicateWeekNamesWeek(weekStartDate: string)
    ensures Contains(DuplicateWeekMessage(weekStartDate), weekStartDate)
    ensures StartsWith(DuplicateWeekMessage(weekStartDate), DuplicateWeekPrefix)
  {
    ContainsMiddle(DuplicateWeekPrefix, weekStartDate, DuplicateWeekSuffix);
    assert DuplicateWeekMessage(weekStartDate)[..|DuplicateWeekPrefix|] == DuplicateWeekPrefix;
  }

  /** The validation messages, thrown into the same `catch`, are all shorter
      than either constraint text, so they are shown unchanged. */
  lemma ValidationMessagePassesThrough(e: ValidationError, weekStartDate: string)
    ensures ErrorMessage(Some(ValidationMessage(e)), weekStartDate) == ValidationMessage(e)
  {
    ValidationMessageShort(e);
    NoConstraintText(ValidationMessage(e));
  }

  lemma ValidationMessageShort(e: ValidationError)
    ensures |ValidationMessage(e)| < 43 == |UniqueWeekConstraint| < |DuplicateKeyText|
  {
  }

  /** A message shorter than both constraint texts mentions neither. */
  lemma NoConstraintText(m: string)
    requires |m| < |UniqueWeekConstraint| && |m| < |DuplicateKeyText|
    ensures !IsDuplicateWeek(Some(m))
  {
    NotContainsLonger(m, DuplicateKeyText);
    NotContainsLonger(m, UniqueWeekConstraint);
  }

  // ------------------------------------------------------------------ submit

  /** What the two awaited calls did. `createMealPlan` runs first; when it
      throws, `createMealForm` is never called. The thrown error's `message` is
      given (`None` when it has none). */
  datatype CreateOutcome = Created | PlanFailed(message: Option<string>) | FormFailed(message: Option<string>)

  /** The values passed to `createMealPlan` that the model tracks. */
  datatype PlanRequest = PlanRequest(weekStartDate: string, status: string)

  /** The values passed to `createMealForm` that the model tracks. */
  datatype FormRequest = FormRequest(status: string, questions: seq<Question>)

  /** The page after a submit: the requests that were made, the error shown,
      and whether it navigated to the dashboard. */
  datatype Submission = Submission(plan: Option<PlanRequest>, form: Option<FormRequest>, error: string, navigated: bool)

  const CollectingResponses: string := "collecting_responses"
  const ActiveForm: string := "active"

  /** `handleSubmit`: validation, then the plan, then its form; any throw lands
      in the one `catch`, which maps the message. */
  function Submit(f: SubmitForm, groups: seq<Group>, parsesAsDate: string -> bool, outcome: CreateOutcome): (r: Submission)
    ensures Validate(f, parsesAsDate).Some? ==>
      r.plan.None? && r.form.None? && !r.navigated && r.error == ValidationMessage(Validate(f, parsesAsDate).value)
    ensures Validate(f, parsesAsDate).None? ==> r.plan == Some(PlanRequest(f.weekStartDate, CollectingResponses))
    ensures r.form.Some? <==> Validate(f, parsesAsDate).None? && !outcome.PlanFailed?
    ensures r.form.Some? ==> r.form.value == FormRequest(ActiveForm, GenerateFormQuestions(f.selectedGroups, groups))
    ensures r.navigated <==> Validate(f, parsesAsDate).None? && outcome.Created?
    ensures r.error == "" <==> r.navigated
    ensures Validate(f, parsesAsDate).None? && !outcome.Created? ==> r.error == ErrorMessage(outcome.message, f.weekStartDate)
  {
    match Validate(f, parsesAsDate)
    case Some(e) =>
      ValidationMessagePassesThrough(e, f.weekStartDate);
      Submission(None, None, ErrorMessage(Some(ValidationMessage(e)), f.weekStartDate), false)
    case None =>
      var plan := Some(PlanRequest(f.weekStartDate, CollectingResponses));
      var form := Some(FormRequest(ActiveForm, GenerateFormQuestions(f.selectedGroups, groups)));
      match outcome
      case Created => Submission(plan, form, "", true)
      case PlanFailed(msg) => Submission(plan, None, ErrorMessage(msg, f.weekStartDate), false)
      case FormFailed(msg) => Submission(plan, form, ErrorMessage(msg, f.weekStartDate), false)
  }

  /** A week that already has a plan: the plan insert hits the unique
      constraint, no form is requested, the page stays and names the week. */
  lemma DuplicateWeekRequestsNoForm(f: SubmitForm, groups: seq<Group>, parsesAsDate: string -> bool, message: string)
    requires Validate(f, parsesAsDate).None?
    requires Contains(message, UniqueWeekConstraint)
    ensures var r := Submit(f, groups, parsesAsDate, PlanFailed(Some(message)));
      r.form.None? && !r.navigated && r.error == DuplicateWeekMessage(f.weekStartDate)
  {
  }

  /** With no group selected nothing is created, whatever else the form holds. */
  lemma NoGroupsNoRequest(f: SubmitForm, groups: seq<Group>, parsesAsDate: string -> bool, outcome: CreateOutcome)
    requires f.selectedGroups == []
    ensures Submit(f, groups, parsesAsDate, outcome).plan.None?
    ensures Submit(f, groups, parsesAsDate, outcome).form.None?
    ensures !Submit(f, groups, parsesAsDate, outcome).navigated
  {
    assert Fails(f, parsesAsDate, NoGroupsSelected);
  }

  // ---------------------------------------------------------------- deadline

  /** `${year}-${month}-${day}T${hours}:${minutes}`, every field but the year
      padded to two digits. */
  function DeadlineString(year: int, month: nat, day: nat, hour: nat, minute: nat): string {
    IntToString(year) + "-" + Pad2(month) + "-" + Pad2(day) + "T" + Pad2(hour) + ":" + Pad2(minute)
  }

  /** The default deadline: the given day (three days ahead) at 18:00. */
  function DefaultDeadline(year: int, month: nat, day: nat): string {
    DeadlineString(year, month, day, 18, 0)
  }

  /** Where the separators and the four two-character fields sit in
      `year-MM-DDTHH:mm`. */
  lemma Layout(ys: string, mo: string, dd: string, hh: string, mi: string)
    requires |mo| == 2 && |dd| == 2 && |hh| == 2 && |mi| == 2
    ensures var r := ys + "-" + mo + "-" + dd + "T" + hh + ":" + mi;
      var y := |ys|;
      && |r| == y + 12
      && r[..y] == ys
      && r[y] == '-' && r[y + 3] == '-' && r[y + 6] == 'T' && r[y + 9] == ':'
      && r[y + 1..y + 3] == mo && r[y + 4..y + 6] == dd
      && r[y + 7..y + 9] == hh && r[y + 10..y + 12] == mi
  {
    var r := ys + "-" + mo + "-" + dd + "T" + hh + ":" + mi;
    var y := |ys|;
    assert r == ys + ("-" + mo + "-" + dd + "T" + hh + ":" + mi);
    assert r[y + 1..y + 3] == mo;
    assert r[y + 4..y + 6] == dd;
    assert r[y + 7..y + 9] == hh;
    assert r[y + 10..y + 12] == mi;
  }

  /** The two characters of `r` at `at` are decimal digits reading `v`. */
  predicate FieldReads(r: string, at: nat, v: nat) {
    at + 2 <= |r| && AllDigits(r[at..at + 2]) && DecimalValue(r[at..at + 2]) == v
  }

  /** With fields below 100 the string has the fixed `YYYY-MM-DDTHH:mm` layout:
      the separators sit at fixed offsets after the year, and each two-digit
      field reads back as the value it was written from. */
  lemma DeadlineFields(year: int, month: nat, day: nat, hour: nat, minute: nat)
    requires month < 100 && day < 100 && hour < 100 && minute < 100
    ensures var r := DeadlineString(year, month, day, hour, minute);
      var y := |IntToString(year)|;
      && |r| == y + 12
      && r[..y] == IntToString(year)
      && r[y] == '-' && r[y + 3] == '-' && r[y + 6] == 'T' && r[y + 9] == ':'
      && FieldReads(r, y + 1, month) && FieldReads(r, y + 4, day)
      && FieldReads(r, y + 7, hour) && FieldReads(r, y + 10, minute)
  {
    Pad2TwoDigits(month);
    Pad2TwoDigits(day);
    Pad2TwoDigits(hour);
    Pad2TwoDigits(minute);
    Layout(IntToString(year), Pad2(month), Pad2(day), Pad2(hour), Pad2(minute));
  }

  lemma EighteenHundred()
    ensures Pad2(18) == "18" && Pad2(0) == "00"
  {
    assert NatToString(18) == NatToString(1) + [Digit(8)];
  }

  /** The default deadline is at 18:00: it ends in `T18:00`. */
  lemma DefaultDeadlineAtSix(year: int, month: nat, day: nat)
    requires month < 100 && day < 100
    ensures var r := DefaultDeadline(year, month, day);
      |r| >= 6 && r[|r| - 6..] == "T18:00"
  {
    Pad2TwoDigits(month);
    Pad2TwoDigits(day);
    EighteenHundred();
    LayoutTail(IntToString(year), Pad2(month), Pad2(day), Pad2(18), Pad2(0));
  }

  lemma LayoutTail(ys: string, mo: string, dd: string, hh: string, mi: string)
    requires |mo| == 2 && |dd| == 2 && hh == "18" && mi == "00"
    ensures var r := ys + "-" + mo + "-" + dd + "T" + hh + ":" + mi;
      |r| >= 6 && r[|r| - 6..] == "T18:00"
  {
    var r := ys + "-" + mo + "-" + dd + "T" + hh + ":" + mi;
    assert r == (ys + "-" + mo + "-" + dd) + "T18:00";
  }
}
