/** Duplicate-free selection lists, as the pages keep them in component state:
    add-if-absent, remove-every-occurrence and toggle, plus the order-preserving
    subsequence relation that `Array.prototype.filter` establishes. */
module Selections {

  predicate NoDup<T(==,!new)>(s: seq<T>) {
    forall i, j :: 0 <= i < j < |s| ==> s[i] != s[j]
  }

  /** `a` is `b` with some elements dropped and the rest kept in order. */
  predicate IsSubsequence<T(==,!new)>(a: seq<T>, b: seq<T>)
    decreases |b|
  {
    if a == [] then true
    else if b == [] then false
    else if a[0] == b[0] then IsSubsequence(a[1..], b[1..])
    else IsSubsequence(a, b[1..])
  }

  /** `s.filter(y => y !== x)`: every occurrence of `x` goes, everything else
      stays, with its multiplicity and in its order. */
  function RemoveAll<T(==,!new)>(s: seq<T>, x: T): (r: seq<T>)
    ensures forall y :: y in r <==> y in s && y != x
    ensures forall y :: y != x ==> multiset(r)[y] == multiset(s)[y]
    ensures IsSubsequence(r, s)
    ensures NoDup(s) ==> NoDup(r)
  {
    if s == [] then []
    else
      var rest := RemoveAll(s[1..], x);
      RemoveAllStep(s, x, rest);
      if s[0] == x then rest else [s[0]] + rest
  }

  /** One step of `RemoveAll`: given what it does on the tail, it does the
      same on the whole list. */
  lemma RemoveAllStep<T(!new)>(s: seq<T>, x: T, rest: seq<T>)
    requires s != []
    requires forall y :: y in rest <==> y in s[1..] && y != x
    requires forall y :: y != x ==> multiset(rest)[y] == multiset(s[1..])[y]
    requires IsSubsequence(rest, s[1..])
    requires NoDup(s[1..]) ==> NoDup(rest)
    ensures var r := if s[0] == x then rest else [s[0]] + rest;
      && (forall y :: y in r <==> y in s && y != x)
      && (forall y :: y != x ==> multiset(r)[y] == multiset(s)[y])
      && IsSubsequence(r, s)
      && (NoDup(s) ==> NoDup(r))
  {
    assert s == [s[0]] + s[1..];
    assert multiset(s) == multiset{s[0]} + multiset(s[1..]);
    NoDupCons(s[0], s[1..]);
    if s[0] == x {
      assert rest == [] || rest[0] in rest;
    } else {
      var r := [s[0]] + rest;
      assert multiset(r) == multiset{s[0]} + multiset(rest);
      assert r[1..] == rest;
      NoDupCons(s[0], rest);
    }
  }

  /** `if (!s.includes(x)) s = [...s, x]`: `x` is present afterwards, nothing
      else is added, and what was there keeps its place. */
  function AddIfAbsent<T(==,!new)>(s: seq<T>, x: T): (r: seq<T>)
    ensures forall y :: y in r <==> y in s || y == x
    ensures |s| <= |r| <= |s| + 1 && r[..|s|] == s
    ensures x in s ==> r == s
    ensures x !in s ==> r == s + [x]
    ensures NoDup(s) ==> NoDup(r)
  {
    if x in s then s else s + [x]
  }

  /** Removes `x` when present, appends it when absent. */
  function Toggle<T(==,!new)>(s: seq<T>, x: T): (r: seq<T>)
    ensures x in r <==> x !in s
    ensures forall y :: y != x ==> (y in r <==> y in s)
    ensures NoDup(s) ==> NoDup(r)
    ensures x !in s ==> r == s + [x]
    ensures x in s ==> IsSubsequence(r, s) && forall y :: y != x ==> multiset(r)[y] == multiset(s)[y]
  {
    if x in s then RemoveAll(s, x) else s + [x]
  }

  /** Removing what was just added to a list that lacked it restores the list. */
  lemma {:induction false} RemoveAllAbsent<T(!new)>(s: seq<T>, x: T)
    requires x !in s
    ensures RemoveAll(s, x) == s
  {
    if s != [] {
      RemoveAllAbsent(s[1..], x);
    }
  }

  lemma {:induction false} RemoveAllAppend<T(!new)>(s: seq<T>, t: seq<T>, x: T)
    ensures RemoveAll(s + t, x) == RemoveAll(s, x) + RemoveAll(t, x)
  {
    if s == [] {
      assert s + t == t;
    } else {
      assert (s + t)[1..] == s[1..] + t;
      RemoveAllAppend(s[1..], t, x);
    }
  }

  /** Adding an absent value and then removing it gives back the list. */
  lemma RemoveUndoesAdd<T(!new)>(s: seq<T>, x: T)
    requires x !in s
    ensures RemoveAll(AddIfAbsent(s, x), x) == s
  {
    RemoveAllAppend(s, [x], x);
    RemoveAllAbsent(s, x);
    assert RemoveAll([x], x) == [];
  }

  /** Toggling an absent value twice gives back the list. */
  lemma ToggleTwiceAbsent<T(!new)>(s: seq<T>, x: T)
    requires x !in s
    ensures Toggle(Toggle(s, x), x) == s
  {
    RemoveUndoesAdd(s, x);
  }

  lemma NoDupCons<T(!new)>(x: T, s: seq<T>)
    ensures NoDup([x] + s) <==> x !in s && NoDup(s)
  {
    var t := [x] + s;
    assert t[1..] == s;
    if x in s {
      var j :| 0 <= j < |s| && s[j] == x;
      assert t[0] == t[j + 1];
    }
    if !NoDup(s) {
      var i, j :| 0 <= i < j < |s| && s[i] == s[j];
      assert t[i + 1] == t[j + 1];
    }
  }

  /** What a subsequence holds, the whole sequence holds. */
  lemma {:induction false} SubsequenceMembers<T(!new)>(a: seq<T>, b: seq<T>)
    requires IsSubsequence(a, b)
    ensures forall x :: x in a ==> x in b
    decreases |b|
  {
    if a != [] && b != [] {
      if a[0] == b[0] {
        SubsequenceMembers(a[1..], b[1..]);
        assert a == [a[0]] + a[1..];
      } else {
        SubsequenceMembers(a, b[1..]);
      }
    }
  }

  /** A duplicate-free sequence has as many distinct elements as entries. */
  lemma {:induction false} CardOfNoDup<T(!new)>(s: seq<T>)
    requires NoDup(s)
    ensures |set x | x in s| == |s|
  {
    if s != [] {
      var init := s[..|s| - 1];
      CardOfNoDup(init);
      assert s == init + [s[|s| - 1]];
      assert (set x | x in s) == (set x | x in init) + {s[|s| - 1]};
      assert s[|s| - 1] !in (set x | x in init);
    }
  }
}
