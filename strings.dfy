/**
 * Python's whitespace handling on `str`, as Django's form fields and `int()`
 * use it: `str.isspace` and `str.strip()`.
 */
module Strings {

  /** `c.isspace()` in Python: the characters `str.strip()` removes. */
  predicate IsSpace(c: char) {
    || c == ' ' || '\t' <= c <= '\r' || '\U{1c}' <= c <= '\U{1f}'
    || c == '\U{85}' || c == '\U{a0}' || c == '\U{1680}' || '\U{2000}' <= c <= '\U{200a}'
    || c == '\U{2028}' || c == '\U{2029}' || c == '\U{202f}' || c == '\U{205f}' || c == '\U{3000}'
  }

  /** The first index at or after `i` that holds no whitespace, or |s| (its meaning is SkipSpacesStops). */
  function SkipSpaces(s: string, i: nat): (n: nat)
    requires i <= |s|
    ensures i <= n <= |s|
    decreases |s| - i
  {
    if i < |s| && IsSpace(s[i]) then SkipSpaces(s, i + 1) else i
  }

  /** SkipSpaces passes over whitespace only, and stops at the first character that is not. */
  lemma {:induction false} SkipSpacesStops(s: string, i: nat)
    requires i <= |s|
    ensures forall k :: i <= k < SkipSpaces(s, i) ==> IsSpace(s[k])
    ensures SkipSpaces(s, i) < |s| ==> !IsSpace(s[SkipSpaces(s, i)])
    decreases |s| - i
  {
    if i < |s| && IsSpace(s[i]) {
      SkipSpacesStops(s, i + 1);
    }
  }

  /**
   * Moving back from `j` towards `lo`: the end just after the last character
   * that is not whitespace, or `lo` (its meaning is BackSpacesStops).
   */
  function BackSpaces(s: string, lo: nat, j: nat): (m: nat)
    requires lo <= j <= |s|
    ensures lo <= m <= j
  {
    if lo < j && IsSpace(s[j - 1]) then BackSpaces(s, lo, j - 1) else j
  }

  /** BackSpaces passes over whitespace only, and stops after the last character that is not. */
  lemma {:induction false} BackSpacesStops(s: string, lo: nat, j: nat)
    requires lo <= j <= |s|
    ensures forall k :: BackSpaces(s, lo, j) <= k < j ==> IsSpace(s[k])
    ensures lo < BackSpaces(s, lo, j) ==> !IsSpace(s[BackSpaces(s, lo, j) - 1])
  {
    if lo < j && IsSpace(s[j - 1]) {
      BackSpacesStops(s, lo, j - 1);
    }
  }

  /** How many whitespace characters `s.strip()` removes at the front. */
  function Lead(s: string): (n: nat)
    ensures n <= |s|
  {
    SkipSpaces(s, 0)
  }

  /** `s.strip()`: the middle slice left once leading and trailing whitespace is removed (its meaning is StripTrims). */
  function Strip(s: string): (r: string)
    ensures |r| <= |s|
  {
    var n := SkipSpaces(s, 0);
    s[n..BackSpaces(s, n, |s|)]
  }

  /**
   * The result of `s.strip()` is a contiguous slice of `s`; everything
   * before and after it is whitespace, and it neither starts nor ends with
   * whitespace.
   */
  lemma StripTrims(s: string)
    ensures var r := Strip(s);
      && Lead(s) + |r| <= |s| && r == s[Lead(s)..Lead(s) + |r|]
      && (r == [] || (!IsSpace(r[0]) && !IsSpace(r[|r| - 1])))
      && (forall k :: 0 <= k < Lead(s) ==> IsSpace(s[k]))
      && (forall k :: Lead(s) + |r| <= k < |s| ==> IsSpace(s[k]))
  {
    var n := SkipSpaces(s, 0);
    SkipSpacesStops(s, 0);
    BackSpacesStops(s, n, |s|);
  }

  lemma StripIdempotent(s: string)
    ensures Strip(Strip(s)) == Strip(s)
  {
    var r := Strip(s);
    StripTrims(s);
    assert SkipSpaces(r, 0) == 0;
    assert BackSpaces(r, 0, |r|) == |r|;
  }

  /** A string that neither starts nor ends with whitespace is its own strip. */
  lemma PlainStrip(s: string)
    requires s != [] && !IsSpace(s[0]) && !IsSpace(s[|s| - 1])
    ensures Strip(s) == s
  {
    assert SkipSpaces(s, 0) == 0;
    assert BackSpaces(s, 0, |s|) == |s|;
  }
}
