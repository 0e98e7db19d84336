/** The new-group form: the composition counters, the restriction and member
    selections, and the templates it can be opened with. The component's state
    is a `GroupDraft`; each handler is a function from draft to draft. */
module GroupForm {
  import opened Results
  import opened Strings
  import opened Selections

  datatype CountKind = Adult | Teen | Child | Toddler

  /** The four counters. They are `int` because the handler adds an arbitrary
      delta before clamping. */
  datatype Composition = Composition(adults: int, teens: int, children: int, toddlers: int)

  function Count(c: Composition, kind: CountKind): int {
    match kind
    case Adult => c.adults
    case Teen => c.teens
    case Child => c.children
    case Toddler => c.toddlers
  }

  predicate NonNegative(c: Composition) {
    c.adults >= 0 && c.teens >= 0 && c.children >= 0 && c.toddlers >= 0
  }

  /** `handleCountChange(type, delta)`: the counter of that kind becomes
      `max(0, current + delta)`; the other three stay as they are. */
  function ChangeCount(c: Composition, kind: CountKind, delta: int): (r: Composition)
    ensures Count(r, kind) >= 0
    ensures Count(c, kind) + delta >= 0 ==> Count(r, kind) == Count(c, kind) + delta
    ensures Count(c, kind) + delta < 0 ==> Count(r, kind) == 0
    ensures forall other :: other != kind ==> Count(r, other) == Count(c, other)
    ensures NonNegative(c) ==> NonNegative(r)
  {
    var v := if Count(c, kind) + delta < 0 then 0 else Count(c, kind) + delta;
    match kind
    case Adult => c.(adults := v)
    case Teen => c.(teens := v)
    case Child => c.(children := v)
    case Toddler => c.(toddlers := v)
  }

  /** The minus button on an empty counter leaves it at zero. */
  lemma DecrementAtZeroStays(c: Composition, kind: CountKind)
    requires Count(c, kind) == 0
    ensures ChangeCount(c, kind, -1) == c
  {
  }

  /** On a non-negative counter, plus then minus gives back the composition. */
  lemma IncrementThenDecrement(c: Composition, kind: CountKind)
    requires Count(c, kind) >= 0
    ensures ChangeCount(ChangeCount(c, kind, 1), kind, -1) == c
  {
  }

  /** Two increases of a non-negative counter add up. */
  lemma IncreasesCompose(c: Composition, kind: CountKind, a: nat, b: nat)
    requires Count(c, kind) >= 0
    ensures ChangeCount(ChangeCount(c, kind, a), kind, b) == ChangeCount(c, kind, a + b)
  {
  }

  // ------------------------------------------------------------ the draft

  datatype GroupDraft = GroupDraft(
    name: string,
    composition: Composition,
    restrictions: seq<string>,
    customRestriction: string,
    selectedMembers: seq<string>)

  /** `addDietaryRestriction`: a chip click adds the restriction unless it is
      already selected. */
  function AddRestriction(d: GroupDraft, restriction: string): (r: GroupDraft)
    ensures r == d.(restrictions := r.restrictions)
    ensures forall x :: x in r.restrictions <==> x in d.restrictions || x == restriction
    ensures restriction in d.restrictions ==> r == d
    ensures restriction !in d.restrictions ==> r.restrictions == d.restrictions + [restriction]
    ensures NoDup(d.restrictions) ==> NoDup(r.restrictions)
  {
    d.(restrictions := AddIfAbsent(d.restrictions, restriction))
  }

  /** `removeDietaryRestriction`: every copy goes, the rest keep their order. */
  function RemoveRestriction(d: GroupDraft, restriction: string): (r: GroupDraft)
    ensures r == d.(restrictions := r.restrictions)
    ensures restriction !in r.restrictions
    ensures IsSubsequence(r.restrictions, d.restrictions)
    ensures forall x :: x != restriction ==> multiset(r.restrictions)[x] == multiset(d.restrictions)[x]
  {
    d.(restrictions := RemoveAll(d.restrictions, restriction))
  }

  /** Removing a restriction just added to a draft that lacked it restores the
      draft. */
  lemma RemoveUndoesAddRestriction(d: GroupDraft, restriction: string)
    requires restriction !in d.restrictions
    ensures RemoveRestriction(AddRestriction(d, restriction), restriction) == d
  {
    RemoveUndoesAdd(d.restrictions, restriction);
  }

  /** `addCustomRestriction`: the trimmed input is added when it is non-empty
      and not already selected, and only then is the input cleared; otherwise
      nothing changes. */
  function AddCustomRestriction(d: GroupDraft): (r: GroupDraft)
    ensures var t := Trim(d.customRestriction);
      && (t != "" && t !in d.restrictions ==> r == d.(restrictions := d.restrictions + [t], customRestriction := ""))
      && (t == "" || t in d.restrictions ==> r == d)
    ensures NoDup(d.restrictions) ==> NoDup(r.restrictions)
  {
    var t := Trim(d.customRestriction);
    if t != "" && t !in d.restrictions then
      d.(restrictions := d.restrictions + [t], customRestriction := "")
    else d
  }

  /** A restriction that is empty or has white space at either end. */
  predicate Untrimmed(s: string) {
    s == [] || IsSpace(s[0]) || IsSpace(s[|s| - 1])
  }

  lemma TrimIsTrimmed(s: string)
    requires Trim(s) != ""
    ensures !Untrimmed(Trim(s))
  {
  }

  /** The custom-restriction path never stores an empty or untrimmed entry. */
  lemma AddCustomKeepsTrimmed(d: GroupDraft)
    requires forall i :: 0 <= i < |d.restrictions| ==> !Untrimmed(d.restrictions[i])
    ensures forall i :: 0 <= i < |AddCustomRestriction(d).restrictions| ==> !Untrimmed(AddCustomRestriction(d).restrictions[i])
  {
    var t := Trim(d.customRestriction);
    if t != "" && t !in d.restrictions {
      TrimIsTrimmed(d.customRestriction);
      var rs := d.restrictions + [t];
      assert AddCustomRestriction(d).restrictions == rs;
      forall i | 0 <= i < |rs| ensures !Untrimmed(rs[i]) {
        if i < |d.restrictions| {
          assert rs[i] == d.restrictions[i];
        }
      }
    }
  }

  /** Pressing "add" twice does what pressing it once does. */
  lemma AddCustomIdempotent(d: GroupDraft)
    ensures AddCustomRestriction(AddCustomRestriction(d)) == AddCustomRestriction(d)
  {
    var t := Trim(d.customRestriction);
    if t != "" && t !in d.restrictions {
      assert Trim("") == "";
    }
  }

  /** `toggleMember`. */
  function ToggleMember(d: GroupDraft, memberId: string): (r: GroupDraft)
    ensures r == d.(selectedMembers := r.selectedMembers)
    ensures memberId in r.selectedMembers <==> memberId !in d.selectedMembers
    ensures forall y :: y != memberId ==> (y in r.selectedMembers <==> y in d.selectedMembers)
    ensures NoDup(d.selectedMembers) ==> NoDup(r.selectedMembers)
    ensures memberId !in d.selectedMembers ==> r.selectedMembers == d.selectedMembers + [memberId]
    ensures memberId in d.selectedMembers ==> IsSubsequence(r.selectedMembers, d.selectedMembers)
    ensures memberId in d.selectedMembers ==>
      forall y :: y != memberId ==> multiset(r.selectedMembers)[y] == multiset(d.selectedMembers)[y]
  {
    d.(selectedMembers := Toggle(d.selectedMembers, memberId))
  }

  // ------------------------------------------------------------- templates

  datatype Template = Template(name: string, composition: Composition)

  /** `TEMPLATES[slug]`: the template stored under a slug, if any. */
  function TemplateFor(slug: string): (r: Option<Template>)
    ensures r.Some? ==> NonNegative(r.value.composition)
    ensures r.Some? ==> slug in TemplateSlugs
    ensures slug in TemplateSlugs ==> r.Some?
  {
    if slug == "whole_house" then Some(Template("Whole House", Composition(2, 1, 2, 0)))
    else if slug == "adults_only" then Some(Template("Adults Only", Composition(2, 0, 0, 0)))
    else if slug == "just_kids" then Some(Template("Just Kids", Composition(0, 1, 2, 0)))
    else if slug == "nuclear_family" then Some(Template("Nuclear Family", Composition(2, 0, 2, 0)))
    else None
  }

  /** The keys of `TEMPLATES`. */
  const TemplateSlugs: seq<string> := ["whole_house", "adults_only", "just_kids", "nuclear_family"]

  const DefaultComposition: Composition := Composition(2, 0, 0, 0)

  /** The state the page starts in: the defaults, overwritten by the template
      named in the `template` query parameter when it is a known slug. */
  function InitialDraft(template: Option<string>): (r: GroupDraft)
    ensures r.restrictions == [] && r.customRestriction == "" && r.selectedMembers == []
    ensures template.Some? && TemplateFor(template.value).Some? ==>
      var t := TemplateFor(template.value).value;
      r.name == t.name && r.composition == t.composition
    ensures template.None? || TemplateFor(template.value).None? ==>
      r.name == "" && r.composition == DefaultComposition
    ensures NonNegative(r.composition)
  {
    var d := GroupDraft("", DefaultComposition, [], "", []);
    match template
    case None => d
    case Some(slug) =>
      if slug == "" then d
      else
        match TemplateFor(slug)
        case None => d
        case Some(t) => d.(name := t.name, composition := t.composition)
  }

  /** A query parameter that is not one of the four slugs leaves the defaults. */
  lemma UnknownTemplateKeepsDefaults(slug: string)
    requires slug !in TemplateSlugs
    ensures InitialDraft(Some(slug)) == InitialDraft(None)
  {
  }

  /** `name.toLowerCase().replace(' ', '_')`: only the first space is replaced. */
  function TemplateSlug(name: string): (r: string)
    ensures |r| == |name|
    ensures forall i :: 0 <= i < |name| && name[i] == ' ' && ' ' !in name[..i] ==> r[i] == '_'
    ensures forall i :: 0 <= i < |name| && (name[i] != ' ' || ' ' in name[..i]) ==> r[i] == LowerChar(name[i])
  {
    LowerKeepsSpaces(name);
    ReplaceFirst(ToLower(name), ' ', '_')
  }

  /** Lower-casing neither creates nor removes a space, at any position. */
  lemma LowerKeepsSpaces(name: string)
    ensures forall i :: 0 <= i < |name| ==> (ToLower(name)[i] == ' ' <==> name[i] == ' ')
    ensures forall i :: 0 <= i <= |name| ==> (' ' in ToLower(name)[..i] <==> ' ' in name[..i])
  {
    var l := ToLower(name);
    forall i | 0 <= i <= |name| ensures ' ' in l[..i] <==> ' ' in name[..i] {
      if ' ' in l[..i] {
        var k :| 0 <= k < i && l[..i][k] == ' ';
        assert name[..i][k] == name[k] == ' ';
      }
      if ' ' in name[..i] {
        var k :| 0 <= k < i && name[..i][k] == ' ';
        assert l[..i][k] == l[k] == ' ';
      }
    }
  }

  lemma LowerSpaceFree(a: string)
    requires ' ' !in a
    ensures ' ' !in ToLower(a)
  {
    forall i | 0 <= i < |a| ensures ToLower(a)[i] != ' ' {
      assert a[i] != ' ';
    }
  }

  lemma LowerAroundSpace(a: string, b: string)
    ensures ToLower(a + " " + b) == ToLower(a) + (" " + ToLower(b))
  {
    ToLowerAppend(a + " ", b);
    ToLowerAppend(a, " ");
    assert ToLower(" ") == " ";
  }

  lemma ReplaceAtHead(x: string)
    ensures ReplaceFirst(" " + x, ' ', '_') == "_" + x
  {
    assert FirstIndex(" " + x, ' ') == 0;
  }

  /** The slug of a two-word name is its lower-cased words joined by `_`. */
  lemma TwoWordSlug(a: string, b: string)
    requires ' ' !in a
    ensures TemplateSlug(a + " " + b) == ToLower(a) + "_" + ToLower(b)
  {
    var la, lb := ToLower(a), ToLower(b);
    LowerAroundSpace(a, b);
    LowerSpaceFree(a);
    SlugIsReplacedLower(a + " " + b);
    ReplaceFirstAfter(la, " " + lb, ' ', '_');
    ReplaceAtHead(lb);
    assert la + ("_" + lb) == la + "_" + lb;
  }

  lemma SlugIsReplacedLower(name: string)
    ensures TemplateSlug(name) == ReplaceFirst(ToLower(name), ' ', '_')
  {
  }

  /** The slug of `name`, given its two words and their lower-case forms. */
  lemma SlugFromParts(name: string, a: string, b: string, la: string, lb: string)
    requires ' ' !in a && name == a + " " + b
    requires ToLower(a) == la && ToLower(b) == lb
    ensures TemplateSlug(name) == la + "_" + lb
  {
    TwoWordSlug(a, b);
  }

  /** The template cards of the groups list page, by name. */
  const ListedTemplateNames: seq<string> := ["Whole House", "Adults Only", "Just Kids", "Nuclear Family"]

  lemma WholeHouseParts()
    ensures ' ' !in "Whole" && "Whole House" == "Whole" + " " + "House"
    ensures ToLower("Whole") == "whole" && ToLower("House") == "house"
    ensures "whole" + "_" + "house" == "whole_house"
  {
  }

  lemma WholeHouseSlug()
    ensures TemplateSlug("Whole House") == "whole_house"
  {
    WholeHouseParts();
    SlugFromParts("Whole House", "Whole", "House", "whole", "house");
  }

  lemma AdultsOnlyParts()
    ensures ' ' !in "Adults" && "Adults Only" == "Adults" + " " + "Only"
    ensures ToLower("Adults") == "adults" && ToLower("Only") == "only"
    ensures "adults" + "_" + "only" == "adults_only"
  {
  }

  lemma AdultsOnlySlug()
    ensures TemplateSlug("Adults Only") == "adults_only"
  {
    AdultsOnlyParts();
    SlugFromParts("Adults Only", "Adults", "Only", "adults", "only");
  }

  lemma JustKidsParts()
    ensures ' ' !in "Just" && "Just Kids" == "Just" + " " + "Kids"
    ensures ToLower("Just") == "just" && ToLower("Kids") == "kids"
    ensures "just" + "_" + "kids" == "just_kids"
  {
  }

  lemma JustKidsSlug()
    ensures TemplateSlug("Just Kids") == "just_kids"
  {
    JustKidsParts();
    SlugFromParts("Just Kids", "Just", "Kids", "just", "kids");
  }

  lemma NuclearFamilyParts()
    ensures ' ' !in "Nuclear" && "Nuclear Family" == "Nuclear" + " " + "Family"
    ensures ToLower("Nuclear") == "nuclear" && ToLower("Family") == "family"
    ensures "nuclear" + "_" + "family" == "nuclear_family"
  {
  }

  lemma NuclearFamilySlug()
    ensures TemplateSlug("Nuclear Family") == "nuclear_family"
  {
    NuclearFamilyParts();
    SlugFromParts("Nuclear Family", "Nuclear", "Family", "nuclear", "family");
  }

  /** Each template card of the groups list page links to the slug of its own
      name, and that slug is a key of `TEMPLATES` whose template carries the
      same name, so every card opens the form pre-filled. */
  lemma ListedTemplatesResolve()
    ensures forall i :: 0 <= i < |ListedTemplateNames| ==>
      TemplateFor(TemplateSlug(ListedTemplateNames[i])).Some?
      && TemplateFor(TemplateSlug(ListedTemplateNames[i])).value.name == ListedTemplateNames[i]
  {
    forall i | 0 <= i < |ListedTemplateNames|
      ensures TemplateFor(TemplateSlug(ListedTemplateNames[i])).Some?
      ensures TemplateFor(TemplateSlug(ListedTemplateNames[i])).value.name == ListedTemplateNames[i]
    {
      if i == 0 {
        WholeHouseSlug();
      } else if i == 1 {
        AdultsOnlySlug();
      } else if i == 2 {
        JustKidsSlug();
      } else {
        NuclearFamilySlug();
      }
    }
  }


}
