/**
 * The few Python string operations the workers rely on: substring
 * membership (`p in s`), `str.strip()` and `str.startswith`.
 */
module Text {

  /** `p` occurs in `s` starting at offset `k`. */
  ghost predicate OccursAt(s: string, p: string, k: int) {
    0 <= k && k + |p| <= |s| && s[k..k + |p|] == p
  }

  lemma OccursShift(s: string, p: string)
    requires 0 < |s|
    requires |p| <= |s| && s[..|p|] != p
    ensures (exists k :: OccursAt(s, p, k)) <==> (exists k :: OccursAt(s[1..], p, k))
  {
    if k :| OccursAt(s, p, k) {
      assert k != 0;
      assert s[1..][k - 1..k - 1 + |p|] == s[k..k + |p|];
      assert OccursAt(s[1..], p, k - 1);
    }
    if k :| OccursAt(s[1..], p, k) {
      assert s[1..][k..k + |p|] == s[k + 1..k + 1 + |p|];
      assert OccursAt(s, p, k + 1);
    }
  }

  /** Python's `p in s` on strings: true exactly when `p` occurs somewhere in `s`. */
  function Contains(s: string, p: string): (b: bool)
    ensures b <==> exists k :: OccursAt(s, p, k)
    decreases |s|
  {
    if |s| < |p| then
      false
    else if s[..|p|] == p then
      assert OccursAt(s, p, 0);
      true
    else
      OccursShift(s, p);
      Contains(s[1..], p)
  }

  /** Between texts of equal length, containment is equality. */
  lemma ContainsSameLength(s: string, p: string)
    requires |s| == |p|
    ensures Contains(s, p) <==> s == p
  {
    if k :| OccursAt(s, p, k) {
      assert k == 0 && s[..|s|] == s;
    }
    if s == p {
      assert OccursAt(s, p, 0);
    }
  }

  /** Python's `s.startswith(prefix)`. */
  predicate StartsWith(s: string, prefix: string) {
    |prefix| <= |s| && s[..|prefix|] == prefix
  }

  /** The characters for which Python's `str.isspace()` holds. */
  predicate IsSpace(c: char) {
    c == ' ' || c == '\t' || c == '\n' || c == '\r' || c == '\U{000B}' || c == '\U{000C}'
    || '\U{001C}' <= c <= '\U{001F}' || c == '\U{0085}' || c == '\U{00A0}' || c == '\U{1680}'
    || '\U{2000}' <= c <= '\U{200A}' || c == '\U{2028}' || c == '\U{2029}' || c == '\U{202F}'
    || c == '\U{205F}' || c == '\U{3000}'
  }

  /** The first index from `i` on that holds no whitespace (|s| if there is none). */
  function SkipSpaces(s: string, i: nat): (j: nat)
    requires i <= |s|
    ensures i <= j <= |s|
    decreases |s| - i
  {
    if i == |s| || !IsSpace(s[i]) then i else SkipSpaces(s, i + 1)
  }

  /** Everything from `i` up to `SkipSpaces(s, i)` is whitespace, and the character there is not. */
  lemma {:induction false} SkipSpacesSpec(s: string, i: nat)
    requires i <= |s|
    ensures forall k :: i <= k < SkipSpaces(s, i) ==> IsSpace(s[k])
    ensures SkipSpaces(s, i) < |s| ==> !IsSpace(s[SkipSpaces(s, i)])
    decreases |s| - i
  {
    if i < |s| && IsSpace(s[i]) {
      SkipSpacesSpec(s, i + 1);
    }
  }

  /** The smallest index from which `s[..j]` ends in whitespace only (0 if it is all whitespace). */
  function BackSpaces(s: string, j: nat): (i: nat)
    requires j <= |s|
    ensures i <= j
  {
    if j == 0 || !IsSpace(s[j - 1]) then j else BackSpaces(s, j - 1)
  }

  /** Everything from `BackSpaces(s, j)` up to `j` is whitespace, and the character before it is not. */
  lemma {:induction false} BackSpacesSpec(s: string, j: nat)
    requires j <= |s|
    ensures forall k :: BackSpaces(s, j) <= k < j ==> IsSpace(s[k])
    ensures 0 < BackSpaces(s, j) ==> !IsSpace(s[BackSpaces(s, j) - 1])
  {
    if 0 < j && IsSpace(s[j - 1]) {
      BackSpacesSpec(s, j - 1);
    }
  }

  /** Index of the first non-whitespace character (|s| if there is none). */
  function LeftEnd(s: string): (lo: nat)
    ensures lo <= |s|
  {
    SkipSpaces(s, 0)
  }

  /** Everything before `LeftEnd(s)` is whitespace, and the character there is not. */
  lemma LeftEndSpec(s: string)
    ensures forall j :: 0 <= j < LeftEnd(s) ==> IsSpace(s[j])
    ensures LeftEnd(s) < |s| ==> !IsSpace(s[LeftEnd(s)])
  {
    SkipSpacesSpec(s, 0);
  }

  /** One past the index of the last non-whitespace character (0 if there is none). */
  function RightEnd(s: string): (hi: nat)
    ensures hi <= |s|
  {
    BackSpaces(s, |s|)
  }

  /** Everything from `RightEnd(s)` on is whitespace, and the character before it is not. */
  lemma RightEndSpec(s: string)
    ensures forall j :: RightEnd(s) <= j < |s| ==> IsSpace(s[j])
    ensures 0 < RightEnd(s) ==> !IsSpace(s[RightEnd(s) - 1])
  {
    BackSpacesSpec(s, |s|);
  }

  /** Python's `s.strip()`: `s` without its leading and trailing whitespace. */
  function Strip(s: string): string
  {
    var lo, hi := LeftEnd(s), RightEnd(s);
    if lo < hi then s[lo..hi] else []
  }

  /** The stripped text neither begins nor ends with whitespace. */
  lemma StripEnds(s: string)
    ensures Strip(s) == [] || (!IsSpace(Strip(s)[0]) && !IsSpace(Strip(s)[|Strip(s)| - 1]))
  {
    LeftEndSpec(s);
    RightEndSpec(s);
  }

  /** `strip()` leaves nothing exactly when the text is all whitespace. */
  lemma StripEmpty(s: string)
    ensures Strip(s) == [] <==> forall j :: 0 <= j < |s| ==> IsSpace(s[j])
  {
    LeftEndSpec(s);
    RightEndSpec(s);
    if Strip(s) == [] {
      assert RightEnd(s) <= LeftEnd(s);
    } else {
      assert !IsSpace(s[LeftEnd(s)]);
    }
  }

  /** What `strip()` keeps is the text from the first non-whitespace character on, in order. */
  lemma StripSpec(s: string)
    ensures LeftEnd(s) + |Strip(s)| <= |s|
    ensures forall k :: 0 <= k < |Strip(s)| ==> Strip(s)[k] == s[LeftEnd(s) + k]
  {
    var lo, hi := LeftEnd(s), RightEnd(s);
    if lo < hi {
      var r := s[lo..hi];
      assert Strip(s) == r;
      assert forall k :: 0 <= k < |r| ==> r[k] == s[lo + k];
    }
  }

  /** An occurrence in the stripped text is an occurrence in the text. */
  lemma StripOccurrenceInText(s: string, p: string, k: int)
    requires OccursAt(Strip(s), p, k)
    ensures OccursAt(s, p, LeftEnd(s) + k)
  {
    var lo, hi := LeftEnd(s), RightEnd(s);
    if lo < hi {
      var r := Strip(s);
      assert r == s[lo..hi];
      forall j | 0 <= j < |p| ensures s[lo + k..lo + k + |p|][j] == p[j] {
        assert p[j] == r[k..k + |p|][j] == r[k + j] == s[lo + k + j];
      }
    } else {
      assert Strip(s) == [];
      assert |p| == 0 && k == 0;
      assert s[lo..lo] == [];
    }
  }

  /** A non-whitespace character lies at or after `LeftEnd(s)` and before `RightEnd(s)`. */
  lemma NotSpaceKept(s: string, j: nat)
    requires j < |s| && !IsSpace(s[j])
    ensures LeftEnd(s) <= j < RightEnd(s)
  {
    LeftEndSpec(s);
    RightEndSpec(s);
  }

  /** An occurrence of a pattern with non-whitespace ends lies inside the stripped text. */
  lemma TextOccurrenceInStrip(s: string, p: string, k: int)
    requires 0 < |p| && !IsSpace(p[0]) && !IsSpace(p[|p| - 1])
    requires OccursAt(s, p, k)
    ensures OccursAt(Strip(s), p, k - LeftEnd(s))
  {
    assert s[k] == s[k..k + |p|][0] == p[0];
    assert s[k + |p| - 1] == s[k..k + |p|][|p| - 1] == p[|p| - 1];
    NotSpaceKept(s, k);
    NotSpaceKept(s, k + |p| - 1);
    var lo, hi := LeftEnd(s), RightEnd(s);
    var r := Strip(s);
    assert r == s[lo..hi];
    forall j | 0 <= j < |p| ensures r[k - lo..k - lo + |p|][j] == p[j] {
      assert r[k - lo + j] == s[k + j] == s[k..k + |p|][j];
    }
  }

  /**
   * Stripping whitespace never changes whether a pattern that begins and
   * ends with non-whitespace occurs in a text.
   */
  lemma StripKeepsOccurrence(s: string, p: string)
    requires 0 < |p| && !IsSpace(p[0]) && !IsSpace(p[|p| - 1])
    ensures Contains(Strip(s), p) == Contains(s, p)
  {
    if k :| OccursAt(Strip(s), p, k) {
      StripOccurrenceInText(s, p, k);
    }
    if k :| OccursAt(s, p, k) {
      TextOccurrenceInStrip(s, p, k);
    }
  }
}
