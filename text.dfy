/**
 * Whitespace trimming as Python's `str.strip()` (no argument) performs it:
 * scan forward past leading whitespace, scan backward past trailing
 * whitespace, and keep the slice in between. Whitespace is exactly the set
 * of characters for which `str.isspace()` holds.
 */
module Text {

  /** Python's `str.isspace()` for one character. */
  predicate IsSpace(c: char) {
    ('\t' <= c <= '\r') || ('\U{1c}' <= c <= ' ') ||
    c == '\U{85}' || c == '\U{a0}' || c == '\U{1680}' ||
    ('\U{2000}' <= c <= '\U{200a}') || c == '\U{2028}' || c == '\U{2029}' ||
    c == '\U{202f}' || c == '\U{205f}' || c == '\U{3000}'
  }

  /** Only whitespace at the positions lo..hi-1 of `s`. */
  predicate SpaceIn(s: string, lo: int, hi: int) {
    forall k :: lo <= k < hi && 0 <= k < |s| ==> IsSpace(s[k])
  }

  predicate AllSpace(s: string) {
    SpaceIn(s, 0, |s|)
  }

  /** No whitespace at either end (the empty string included). */
  predicate Stripped(s: string) {
    s == [] || (!IsSpace(s[0]) && !IsSpace(s[|s| - 1]))
  }

  /**
   * s[i..j] is what stripping `s` leaves: only whitespace outside it and
   * none at its own ends (when it is empty, `s` is all whitespace).
   */
  predicate StripsTo(s: string, i: int, j: int) {
    0 <= i <= j <= |s| && SpaceIn(s, 0, i) && SpaceIn(s, j, |s|) &&
    (i < j ==> !IsSpace(s[i]) && !IsSpace(s[j - 1]))
  }

  /** The first position at or after `i` that does not hold whitespace (|s| if none). */
  function SkipSpace(s: string, i: nat): (k: nat)
    requires i <= |s|
    ensures i <= k <= |s|
    ensures k < |s| ==> !IsSpace(s[k])
    decreases |s| - i
  {
    if i < |s| && IsSpace(s[i]) then SkipSpace(s, i + 1) else i
  }

  /** SkipSpace passes over whitespace only. */
  lemma {:induction false} SkipSpacePassesSpace(s: string, i: nat)
    requires i <= |s|
    ensures SpaceIn(s, i, SkipSpace(s, i))
    decreases |s| - i
  {
    if i < |s| && IsSpace(s[i]) {
      SkipSpacePassesSpace(s, i + 1);
    }
  }

  /**
   * Scanning back from `j`, not below `lo`: the position just past the last
   * character that is not whitespace (`lo` if none).
   */
  function BackSpace(s: string, lo: nat, j: nat): (k: nat)
    requires lo <= j <= |s|
    ensures lo <= k <= j
    ensures lo < k ==> !IsSpace(s[k - 1])
    decreases j
  {
    if lo < j && IsSpace(s[j - 1]) then BackSpace(s, lo, j - 1) else j
  }

  /** BackSpace passes over whitespace only. */
  lemma {:induction false} BackSpacePassesSpace(s: string, lo: nat, j: nat)
    requires lo <= j <= |s|
    ensures SpaceIn(s, BackSpace(s, lo, j), j)
    decreases j
  {
    if lo < j && IsSpace(s[j - 1]) {
      BackSpacePassesSpace(s, lo, j - 1);
    }
  }

  /** `str.strip()`: `s` without whitespace at either end. */
  function Strip(s: string): (r: string)
    ensures |r| <= |s| && Stripped(r)
  {
    var i := SkipSpace(s, 0);
    s[i..BackSpace(s, i, |s|)]
  }

  /** What Strip leaves is a slice of `s` with only whitespace outside it. */
  lemma StripSlice(s: string) returns (i: int, j: int)
    ensures StripsTo(s, i, j) && Strip(s) == s[i..j]
  {
    i := SkipSpace(s, 0);
    j := BackSpace(s, i, |s|);
    SkipSpacePassesSpace(s, 0);
    BackSpacePassesSpace(s, i, |s|);
  }

  /**
   * Strip is determined by its defining property: any slice s[i..j] with only
   * whitespace outside it and none at its own ends is what Strip returns.
   */
  lemma StripIsUniqueSlice(s: string, i: int, j: int)
    requires StripsTo(s, i, j)
    ensures Strip(s) == s[i..j]
  {
    var k := SkipSpace(s, 0);
    SkipSpacePassesSpace(s, 0);
    if i < j {
      assert k == i;
      var m := BackSpace(s, i, |s|);
      BackSpacePassesSpace(s, i, |s|);
      assert m == j;
    } else {
      assert k == |s|;
    }
  }

  /** A line strips to nothing exactly when every character of it is whitespace. */
  lemma StripEmptyIffBlank(s: string)
    ensures Strip(s) == [] <==> AllSpace(s)
  {
    var i, j := StripSlice(s);
    if i < j {
      assert !IsSpace(s[i]);
    }
  }

  /** A string with no whitespace at either end is left as it is. */
  lemma StripOfStripped(r: string)
    requires Stripped(r)
    ensures Strip(r) == r
  {
    StripIsUniqueSlice(r, 0, |r|);
  }

  /** Stripping twice changes nothing. */
  lemma StripIdempotent(s: string)
    ensures Strip(Strip(s)) == Strip(s)
  {
    StripOfStripped(Strip(s));
  }
}
