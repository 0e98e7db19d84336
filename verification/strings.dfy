/** The handful of JavaScript string operations the pages and edge functions
    rely on: `toLowerCase`, `includes`, `trim`, `join`, `replace` with a
    one-character pattern, `String(n)` and `padStart`. Lower-casing is ASCII
    only; there is no Unicode case folding. */
module Strings {

  // ---------------------------------------------------------------- case

  predicate IsUpper(c: char) {
    'A' <= c <= 'Z'
  }

  /** ASCII lower-casing of one character; anything outside 'A'..'Z' is kept. */
  function LowerChar(c: char): (r: char)
    ensures !IsUpper(r)
    ensures IsUpper(c) ==> r as int == c as int + 32
    ensures !IsUpper(c) ==> r == c
  {
    if IsUpper(c) then (c as int + 32) as char else c
  }

  /** `toLowerCase`, character by character. */
  function ToLower(s: string): (r: string)
    ensures |r| == |s|
    ensures forall i :: 0 <= i < |s| ==> r[i] == LowerChar(s[i])
  {
    seq(|s|, i requires 0 <= i < |s| => LowerChar(s[i]))
  }

  /** Lower-casing twice is lower-casing once. */
  lemma ToLowerIdempotent(s: string)
    ensures ToLower(ToLower(s)) == ToLower(s)
  {
  }

  /** Lower-casing works character by character, so it distributes over
      concatenation. */
  lemma ToLowerAppend(a: string, b: string)
    ensures ToLower(a + b) == ToLower(a) + ToLower(b)
  {
  }

  // ----------------------------------------------------------- substrings

  predicate StartsWith(s: string, prefix: string) {
    |prefix| <= |s| && s[..|prefix|] == prefix
  }

  /** `needle` occurs in `hay` starting at position `i`. */
  ghost predicate OccursAt(hay: string, needle: string, i: int) {
    0 <= i && i + |needle| <= |hay| && hay[i..i + |needle|] == needle
  }

  lemma OccursAtShift(hay: string, needle: string)
    requires hay != []
    ensures forall i :: 0 <= i ==> (OccursAt(hay[1..], needle, i) <==> OccursAt(hay, needle, i + 1))
  {
    forall i | 0 <= i
      ensures OccursAt(hay[1..], needle, i) <==> OccursAt(hay, needle, i + 1)
    {
      if i + |needle| <= |hay| - 1 {
        assert hay[1..][i..i + |needle|] == hay[i + 1..i + 1 + |needle|];
      }
    }
  }

  /** `hay.includes(needle)`: the needle occurs at some position of the hay. */
  predicate Contains(hay: string, needle: string)
    ensures Contains(hay, needle) <==> exists i :: OccursAt(hay, needle, i)
    decreases |hay|
  {
    if StartsWith(hay, needle) then
      assert OccursAt(hay, needle, 0);
      true
    else if hay == [] then
      false
    else
      OccursAtShift(hay, needle);
      assert forall i :: OccursAt(hay, needle, i) ==> i == 0 || OccursAt(hay[1..], needle, i - 1);
      Contains(hay[1..], needle)
  }

  /** The empty string is contained in every string. */
  lemma ContainsEmpty(hay: string)
    ensures Contains(hay, "")
  {
    assert OccursAt(hay, "", 0);
  }

  /** A needle longer than the hay is never contained in it. */
  lemma NotContainsLonger(hay: string, needle: string)
    requires |needle| > |hay|
    ensures !Contains(hay, needle)
  {
  }

  // ----------------------------------------------------------- whitespace

  /** The characters JavaScript's `trim` removes: WhiteSpace and LineTerminator. */
  predicate IsSpace(c: char) {
    || c == ' ' || c == '\t' || c == '\n' || c == '\r' || c == '\U{0B}' || c == '\U{0C}'
    || c == '\U{A0}' || c == '\U{1680}' || ('\U{2000}' <= c <= '\U{200A}')
    || c == '\U{2028}' || c == '\U{2029}' || c == '\U{202F}' || c == '\U{205F}'
    || c == '\U{3000}' || c == '\U{FEFF}'
  }

  /** Drops leading whitespace: the result is a suffix, and only spaces were dropped. */
  function TrimStart(s: string): (r: string)
    ensures |r| <= |s| && r == s[|s| - |r|..]
    ensures forall i :: 0 <= i < |s| - |r| ==> IsSpace(s[i])
    ensures r == [] || !IsSpace(r[0])
  {
    if s != [] && IsSpace(s[0]) then TrimStart(s[1..]) else s
  }

  /** Drops trailing whitespace: the result is a prefix, and only spaces were dropped. */
  function TrimEnd(s: string): (r: string)
    ensures |r| <= |s| && r == s[..|r|]
    ensures forall i :: |r| <= i < |s| ==> IsSpace(s[i])
    ensures r == [] || !IsSpace(r[|r| - 1])
  {
    if s != [] && IsSpace(s[|s| - 1]) then TrimEnd(s[..|s| - 1]) else s
  }

  /** `r` is `s` with exactly `lo` leading and some trailing whitespace removed. */
  ghost predicate TrimmedAt(s: string, r: string, lo: int) {
    && 0 <= lo && lo + |r| <= |s|
    && r == s[lo..lo + |r|]
    && (forall i :: 0 <= i < lo ==> IsSpace(s[i]))
    && (forall i :: lo + |r| <= i < |s| ==> IsSpace(s[i]))
  }

  /** `String.prototype.trim`: a slice of `s` obtained by dropping whitespace at
      both ends, neither of whose ends is whitespace. */
  function Trim(s: string): (r: string)
    ensures exists lo :: TrimmedAt(s, r, lo)
    ensures r == [] || (!IsSpace(r[0]) && !IsSpace(r[|r| - 1]))
    ensures r == [] <==> forall i :: 0 <= i < |s| ==> IsSpace(s[i])
  {
    var t := TrimStart(s);
    var r := TrimEnd(t);
    var lo := |s| - |t|;
    assert r == s[lo..lo + |r|];
    assert TrimmedAt(s, r, lo);
    AllSpaceWhenTrimmedEmpty(s, r, lo);
    r
  }

  /** A trimmed slice is empty exactly when the whole string was whitespace. */
  lemma AllSpaceWhenTrimmedEmpty(s: string, r: string, lo: int)
    requires TrimmedAt(s, r, lo)
    requires r == [] || !IsSpace(r[0])
    ensures r == [] <==> forall i :: 0 <= i < |s| ==> IsSpace(s[i])
  {
    if r != [] {
      assert s[lo] == r[0];
    }
  }

  /** Trimming an already trimmed string changes nothing. */
  lemma TrimIdempotent(s: string)
    ensures Trim(Trim(s)) == Trim(s)
  {
  }

  // ------------------------------------------------------ join and replace

  /** Sum of the lengths of `parts`. */
  function TotalLength(parts: seq<string>): nat {
    if parts == [] then 0 else |parts[0]| + TotalLength(parts[1..])
  }

  /** `parts.join(sep)`: every part, in order, with `sep` between neighbours. */
  function Join(parts: seq<string>, sep: string): (r: string)
    ensures parts == [] ==> r == ""
    ensures |parts| >= 1 ==> |r| == TotalLength(parts) + |sep| * (|parts| - 1)
    ensures |parts| >= 1 ==> StartsWith(r, parts[0])
    ensures |parts| == 1 ==> r == parts[0]
  {
    if parts == [] then ""
    else if |parts| == 1 then parts[0]
    else
      assert (parts[0] + sep + Join(parts[1..], sep))[..|parts[0]|] == parts[0];
      parts[0] + sep + Join(parts[1..], sep)
  }

  /** Joining two non-empty runs of parts is joining each and putting one
      separator between them, so every part appears whole and in order. */
  lemma {:induction false} JoinAppend(a: seq<string>, b: seq<string>, sep: string)
    requires a != [] && b != []
    ensures Join(a + b, sep) == Join(a, sep) + sep + Join(b, sep)
  {
    var ab := a + b;
    assert ab[0] == a[0];
    if |a| == 1 {
      assert ab[1..] == b;
    } else {
      assert ab[1..] == a[1..] + b;
      JoinAppend(a[1..], b, sep);
    }
  }

  /** `s.replace(from, to)` with a one-character pattern: only the first
      occurrence of `from` becomes `to`, every other character is kept. */
  function ReplaceFirst(s: string, from: char, to: char): (r: string)
    ensures |r| == |s|
    ensures forall i :: 0 <= i < |s| && (s[i] != from || from in s[..i]) ==> r[i] == s[i]
    ensures forall i :: 0 <= i < |s| && s[i] == from && from !in s[..i] ==> r[i] == to
  {
    var i := FirstIndex(s, from);
    if i < 0 then s else s[i := to]
  }

  /** Position of the first `c` in `s`, or -1. */
  function FirstIndex(s: string, c: char): (r: int)
    ensures -1 <= r < |s|
    ensures r == -1 <==> c !in s
    ensures r >= 0 ==> s[r] == c && c !in s[..r]
  {
    if s == [] then -1
    else if s[0] == c then 0
    else
      var j := FirstIndex(s[1..], c);
      assert j >= 0 ==> s[..j + 1] == [s[0]] + s[1..][..j];
      if j < 0 then -1 else j + 1
  }

  /** A prefix without `from` is passed over unchanged. */
  lemma ReplaceFirstAfter(a: string, b: string, from: char, to: char)
    requires from !in a
    ensures ReplaceFirst(a + b, from, to) == a + ReplaceFirst(b, from, to)
  {
    var j := FirstIndex(b, from);
    var r := FirstIndex(a + b, from);
    assert forall k :: 0 <= k < |a| ==> (a + b)[k] == a[k] != from;
    assert forall k :: 0 <= k < |b| ==> (a + b)[|a| + k] == b[k];
    if j >= 0 {
      assert forall k :: 0 <= k < j ==> b[..j][k] == b[k] != from;
      assert forall k :: 0 <= k < r ==> (a + b)[..r][k] == (a + b)[k] != from;
      assert r == |a| + j;
    }
  }

  // --------------------------------------------------------------- numbers

  predicate IsDigit(c: char) {
    '0' <= c <= '9'
  }

  function Digit(d: nat): (c: char)
    requires d < 10
    ensures IsDigit(c)
  {
    ('0' as int + d) as char
  }

  function DigitValue(c: char): nat
    requires IsDigit(c)
  {
    c as int - '0' as int
  }

  predicate AllDigits(s: string) {
    forall i :: 0 <= i < |s| ==> IsDigit(s[i])
  }

  /** The number a string of decimal digits denotes (leading zeros allowed). */
  function DecimalValue(s: string): nat
    requires AllDigits(s)
  {
    if s == [] then 0 else DecimalValue(s[..|s| - 1]) * 10 + DigitValue(s[|s| - 1])
  }

  /** `String(n)` for a non-negative integer: decimal digits, no leading zero. */
  function NatToString(n: nat): (r: string)
    ensures |r| >= 1 && AllDigits(r)
    ensures |r| > 1 ==> r[0] != '0'
    ensures n < 10 <==> |r| == 1
    decreases n
  {
    if n < 10 then [Digit(n)] else NatToString(n / 10) + [Digit(n % 10)]
  }

  /** Reading back the digits `NatToString` writes gives the number again. */
  lemma {:induction false} NatToStringRoundTrip(n: nat)
    ensures DecimalValue(NatToString(n)) == n
    decreases n
  {
    if n >= 10 {
      var s := NatToString(n);
      assert s[..|s| - 1] == NatToString(n / 10);
      NatToStringRoundTrip(n / 10);
    }
  }

  /** `String(i)` for any integer: a minus sign before the digits of a negative. */
  function IntToString(i: int): (r: string)
    ensures i >= 0 ==> r == NatToString(i)
    ensures i < 0 ==> r == "-" + NatToString(-i)
  {
    if i < 0 then "-" + NatToString(-i) else NatToString(i)
  }

  /** `s.padStart(width, fill)`: `fill` is prepended until `s` is `width` long. */
  function PadStart(s: string, width: nat, fill: char): (r: string)
    ensures |r| == if |s| >= width then |s| else width
    ensures r[|r| - |s|..] == s
    ensures forall i :: 0 <= i < |r| - |s| ==> r[i] == fill
  {
    if |s| >= width then s else seq(width - |s|, _ => fill) + s
  }

  /** `String(n).padStart(2, '0')`. */
  function Pad2(n: nat): string {
    PadStart(NatToString(n), 2, '0')
  }

  /** Below 100 the padded string is exactly two digits that read back as `n`. */
  lemma Pad2TwoDigits(n: nat)
    requires n < 100
    ensures |Pad2(n)| == 2 && AllDigits(Pad2(n))
    ensures DecimalValue(Pad2(n)) == n
  {
    var r := Pad2(n);
    if n < 10 {
      assert r == ['0', Digit(n)];
      TwoDigitValue(0, n);
    } else {
      assert r == NatToString(n);
      assert r == [Digit(n / 10), Digit(n % 10)];
      TwoDigitValue(n / 10, n % 10);
    }
  }

  lemma TwoDigitValue(a: nat, b: nat)
    requires a < 10 && b < 10
    ensures DecimalValue([Digit(a), Digit(b)]) == 10 * a + b
  {
    var s := [Digit(a), Digit(b)];
    assert DigitValue(Digit(a)) == a && DigitValue(Digit(b)) == b;
    assert [Digit(a)][..0] == [];
    assert DecimalValue([Digit(a)]) == a;
    assert s[..1] == [Digit(a)];
  }
}
