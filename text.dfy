/**
  Character and string helpers the board checks are built from: the digit test,
  `str.strip('*')`, `int(...)` on a string of decimal digits, `max(...)` over
  characters, and two views of "a row has no repeated character" (pairwise
  distinct, and the set of its characters being as large as the row).
 */
module Text {

  datatype Option<+T> = None | Some(value: T)

  predicate IsDigit(c: char) {
    '0' <= c <= '9'
  }

  /** A string `int(...)` accepts, narrowed to one or more ASCII decimal digits. */
  predicate IsDigitString(s: string) {
    |s| > 0 && forall i :: 0 <= i < |s| ==> IsDigit(s[i])
  }

  function DigitValue(c: char): (d: nat)
    requires IsDigit(c)
    ensures d <= 9
  {
    (c as int) - ('0' as int)
  }

  /** `int(s)`: the decimal value of `s`, or None where Python raises ValueError. */
  function ParseInt(s: string): (r: Option<nat>)
    ensures r.Some? <==> IsDigitString(s)
    ensures |s| == 1 && r.Some? ==> r.value == DigitValue(s[0])
    decreases |s|
  {
    if |s| == 0 || !IsDigit(s[|s| - 1]) then None
    else if |s| == 1 then Some(DigitValue(s[0]))
    else match ParseInt(s[..|s| - 1])
      case None => None
      case Some(v) => Some(10 * v + DigitValue(s[|s| - 1]))
  }

  /** Number of '*' characters at the start of `s`. */
  function LeadingStars(s: string): (k: nat)
    ensures k <= |s|
    ensures forall i :: 0 <= i < k ==> s[i] == '*'
    ensures k < |s| ==> s[k] != '*'
  {
    if |s| > 0 && s[0] == '*' then 1 + LeadingStars(s[1..]) else 0
  }

  /** Number of '*' characters at the end of `s`. */
  function TrailingStars(s: string): (k: nat)
    ensures k <= |s|
    ensures forall i :: |s| - k <= i < |s| ==> s[i] == '*'
    ensures k < |s| ==> s[|s| - 1 - k] != '*'
  {
    if |s| > 0 && s[|s| - 1] == '*' then 1 + TrailingStars(s[..|s| - 1]) else 0
  }

  /** `r` is the slice of `s` starting at `a`, and everything of `s` around it is '*'. */
  predicate StrippedAt(s: string, r: string, a: nat) {
    a + |r| <= |s| && r == s[a..a + |r|] &&
    (forall i :: 0 <= i < a ==> s[i] == '*') &&
    (forall i :: a + |r| <= i < |s| ==> s[i] == '*')
  }

  /**
    `s.strip('*')`: the one slice of `s` that is surrounded by nothing but '*'
    and neither starts nor ends with '*'.
   */
  function StripStars(s: string): (r: string)
    ensures r == [] || (r[0] != '*' && r[|r| - 1] != '*')
    ensures exists a :: StrippedAt(s, r, a)
  {
    var a := LeadingStars(s);
    var rest := s[a..];
    var r := rest[..|rest| - TrailingStars(rest)];
    assert StrippedAt(s, r, a);
    r
  }

  /** The two conditions StripStars ensures pin its result down: no other slice meets them. */
  lemma StripStarsUnique(s: string, r: string, a: nat)
    requires StrippedAt(s, r, a)
    requires r == [] || (r[0] != '*' && r[|r| - 1] != '*')
    ensures StripStars(s) == r
  {
  }

  /** `max(s)` over characters, compared by code point as Python compares one-character strings. */
  function MaxChar(s: seq<char>): (m: char)
    requires |s| > 0
    ensures forall i :: 0 <= i < |s| ==> s[i] <= m
  {
    if |s| == 1 then s[0]
    else
      var m' := MaxChar(s[..|s| - 1]);
      if s[|s| - 1] > m' then s[|s| - 1] else m'
  }

  /** The maximum is one of the characters: it sits at some position `k`. */
  lemma {:induction false} MaxCharAt(s: seq<char>) returns (k: nat)
    requires |s| > 0
    ensures k < |s| && s[k] == MaxChar(s)
  {
    if |s| == 1 {
      k := 0;
    } else {
      k := MaxCharAt(s[..|s| - 1]);
      if s[|s| - 1] > MaxChar(s[..|s| - 1]) {
        k := |s| - 1;
      }
    }
  }

  /** A character is above the maximum exactly when it is above every character. */
  lemma AboveMaxChar(s: seq<char>, c: char)
    requires |s| > 0
    ensures c > MaxChar(s) <==> forall j :: 0 <= j < |s| ==> s[j] < c
  {
  }

  /** No character occurs twice in `s`. */
  predicate Distinct(s: seq<char>) {
    forall i, j :: 0 <= i < j < |s| ==> s[i] != s[j]
  }

  /** `set(s)`. */
  function Elements(s: seq<char>): (e: set<char>)
    ensures |e| <= |s|
  {
    if s == [] then {} else {s[0]} + Elements(s[1..])
  }

  /** `set(s)` holds exactly the characters of `s`. */
  lemma {:induction false} ElementsAreMembers(s: seq<char>)
    ensures forall c :: c in Elements(s) <==> c in s
  {
    if s != [] {
      ElementsAreMembers(s[1..]);
      assert s == [s[0]] + s[1..];
    }
  }

  lemma DistinctCons(s: seq<char>)
    requires s != []
    ensures Distinct(s) <==> s[0] !in s[1..] && Distinct(s[1..])
  {
  }

  /** `len(s) == len(set(s))` is exactly "no character repeats". */
  lemma {:induction false} DistinctIffNoShrink(s: seq<char>)
    ensures Distinct(s) <==> |Elements(s)| == |s|
  {
    if s != [] {
      var tail := s[1..];
      DistinctIffNoShrink(tail);
      DistinctCons(s);
      ElementsAreMembers(tail);
      if s[0] in tail {
        assert Elements(s) == Elements(tail);
      } else {
        assert s[0] !in Elements(tail);
        assert |Elements(s)| == 1 + |Elements(tail)|;
      }
    }
  }
}
