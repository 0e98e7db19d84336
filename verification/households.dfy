/** Household groups and the head-count weight both edge functions use: adults,
    teens and children count as one serving each, toddlers as half a serving. */
module Households {
  import opened Results

  /** A row of `household_groups`, reduced to the fields the core reads. */
  datatype Group = Group(
    id: string,
    name: string,
    adults: nat,
    teens: nat,
    children: nat,
    toddlers: nat,
    restrictions: seq<string>)

  /** `adult_count + teen_count + child_count + toddler_count * 0.5`. */
  function People(g: Group): (r: real)
    ensures r >= 0.0
    ensures r == 0.0 <==> g.adults + g.teens + g.children + g.toddlers == 0
    ensures (g.adults + g.teens + g.children) as real <= r <= (g.adults + g.teens + g.children + g.toddlers) as real
  {
    (g.adults + g.teens + g.children) as real + g.toddlers as real * 0.5
  }

  /** `groups.find(g => g.id === id)`: the first group carrying `id`, if any. */
  function FindGroup(groups: seq<Group>, id: string): (r: Option<Group>)
    ensures r.None? <==> forall i :: 0 <= i < |groups| ==> groups[i].id != id
    ensures r.Some? ==> r.value.id == id
    ensures r.Some? ==> exists i :: 0 <= i < |groups| && groups[i] == r.value && forall j :: 0 <= j < i ==> groups[j].id != id
  {
    if groups == [] then None
    else if groups[0].id == id then Some(groups[0])
    else
      var r := FindGroup(groups[1..], id);
      if r.None? then r
      else
        var i :| 0 <= i < |groups[1..]| && groups[1..][i] == r.value && forall j :: 0 <= j < i ==> groups[1..][j].id != id;
        assert groups[i + 1] == r.value;
        assert forall j :: 0 <= j < i + 1 ==> groups[j].id != id by {
          forall j | 0 <= j < i + 1 ensures groups[j].id != id {
            if j > 0 { assert groups[j] == groups[1..][j - 1]; }
          }
        }
        r
  }

  /** Weight one assigned id contributes: its group's head count, or nothing
      when no group has that id. */
  function IdWeight(groups: seq<Group>, id: string): real {
    match FindGroup(groups, id)
    case None => 0.0
    case Some(g) => People(g)
  }

  /** The `forEach` over assigned ids: each id adds its group's head count, an
      unknown id adds nothing, and a repeated id is counted every time. */
  function AssignedPeople(ids: seq<string>, groups: seq<Group>): (r: real)
    ensures r >= 0.0
  {
    if ids == [] then 0.0 else IdWeight(groups, ids[0]) + AssignedPeople(ids[1..], groups)
  }

  /** The head count of a concatenation of id lists is the sum of their counts. */
  lemma {:induction false} AssignedPeopleAppend(a: seq<string>, b: seq<string>, groups: seq<Group>)
    ensures AssignedPeople(a + b, groups) == AssignedPeople(a, groups) + AssignedPeople(b, groups)
  {
    if a == [] {
      assert a + b == b;
    } else {
      assert (a + b)[1..] == a[1..] + b;
      AssignedPeopleAppend(a[1..], b, groups);
    }
  }

  /** An id that matches no group leaves the head count unchanged. */
  lemma UnknownIdAddsNothing(ids: seq<string>, id: string, groups: seq<Group>)
    requires forall i :: 0 <= i < |groups| ==> groups[i].id != id
    ensures AssignedPeople(ids + [id], groups) == AssignedPeople(ids, groups)
  {
    AssignedPeopleAppend(ids, [id], groups);
  }

  /** An id listed twice is counted twice. */
  lemma RepeatedIdCountsTwice(ids: seq<string>, g: Group, groups: seq<Group>)
    requires FindGroup(groups, g.id) == Some(g)
    ensures AssignedPeople(ids + [g.id, g.id], groups) == AssignedPeople(ids, groups) + 2.0 * People(g)
  {
    AssignedPeopleAppend(ids, [g.id, g.id], groups);
    assert [g.id, g.id][1..] == [g.id];
    assert AssignedPeople([g.id], groups) == People(g);
    assert AssignedPeople([g.id, g.id], groups) == People(g) + AssignedPeople([g.id], groups);
  }
}
