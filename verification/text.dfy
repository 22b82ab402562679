/**
 * The two string primitives the widget relies on: `String.prototype.trim`
 * (used on the search input) and `String.prototype.toLowerCase` (used on
 * the condition text), both over ASCII.
 */
module Text {

  /** The ASCII white space that `trim` removes: tab, line feed, vertical tab,
      form feed, carriage return and space. */
  predicate IsSpace(c: char) {
    c == ' ' || '\t' <= c <= '\r'
  }

  /** Every character of `s` is white space (the empty string included). */
  predicate IsBlank(s: string) {
    forall i :: 0 <= i < |s| ==> IsSpace(s[i])
  }

  /** The first position at or after `i` that does not hold white space
      (or the end of `s`); everything skipped is white space. */
  function SkipLeading(s: string, i: nat): (n: nat)
    requires i <= |s|
    ensures i <= n <= |s|
    ensures forall k :: i <= k < n ==> IsSpace(s[k])
    ensures n == |s| || !IsSpace(s[n])
    decreases |s| - i
  {
    if i < |s| && IsSpace(s[i]) then SkipLeading(s, i + 1) else i
  }

  /** The end of `s[lo..j]` once its trailing white space is cut; everything
      cut is white space. */
  function SkipTrailing(s: string, lo: nat, j: nat): (e: nat)
    requires lo <= j <= |s|
    ensures lo <= e <= j
    ensures forall k :: e <= k < j ==> IsSpace(s[k])
    ensures e == lo || !IsSpace(s[e - 1])
    decreases j
  {
    if lo < j && IsSpace(s[j - 1]) then SkipTrailing(s, lo, j - 1) else j
  }

  /** Where the trimmed text starts in `s`. */
  function TrimStartIndex(s: string): (i: nat)
    ensures i <= |s|
  {
    SkipLeading(s, 0)
  }

  /** Where the trimmed text ends in `s`. */
  function TrimEndIndex(s: string): (j: nat)
    ensures TrimStartIndex(s) <= j <= |s|
  {
    SkipTrailing(s, TrimStartIndex(s), |s|)
  }

  /** `trim`: white space removed at both ends. The result is empty exactly
      when the input is blank, and otherwise begins and ends with a
      non-space character. */
  function Trim(s: string): (r: string)
    ensures |r| <= |s|
    ensures r == [] <==> IsBlank(s)
    ensures r == [] || (!IsSpace(r[0]) && !IsSpace(r[|r| - 1]))
  {
    s[TrimStartIndex(s)..TrimEndIndex(s)]
  }

  /** `Trim(s)` is the contiguous middle of `s` left after cutting white
      space, and only white space, on either side. The first clause only
      unfolds `Trim`; the other two say that everything cut is white space. */
  lemma TrimSlice(s: string)
    ensures Trim(s) == s[TrimStartIndex(s)..TrimEndIndex(s)]
    ensures forall k :: 0 <= k < TrimStartIndex(s) ==> IsSpace(s[k])
    ensures forall k :: TrimEndIndex(s) <= k < |s| ==> IsSpace(s[k])
  {
  }

  /** Trimming a trimmed string changes nothing. An extra fact about `trim`
      itself, not something the widget relies on. */
  lemma TrimIdempotent(s: string)
    ensures Trim(Trim(s)) == Trim(s)
  {
  }

  /** Is `c` an ASCII upper-case letter? */
  predicate IsUpper(c: char) {
    'A' <= c <= 'Z'
  }

  /** Is `c` an ASCII lower-case letter? */
  predicate IsLower(c: char) {
    'a' <= c <= 'z'
  }

  /** The lower-case form of an upper-case letter; any other character is kept. */
  function LowerChar(c: char): (d: char)
    ensures IsUpper(c) ==> IsLower(d) && d as int == c as int + 32
    ensures !IsUpper(c) ==> d == c
  {
    if IsUpper(c) then (c as int + 32) as char else c
  }

  /** The upper-case form of a lower-case letter; any other character is kept. */
  function UpperChar(c: char): (d: char)
    ensures IsLower(c) ==> IsUpper(d) && d as int == c as int - 32
    ensures !IsLower(c) ==> d == c
  {
    if IsLower(c) then (c as int - 32) as char else c
  }

  /** `toLowerCase` over ASCII: same length, each character folded, and no
      upper-case letter left. */
  function ToLower(s: string): (r: string)
    ensures |r| == |s|
    ensures forall i :: 0 <= i < |s| ==> r[i] == LowerChar(s[i])
    ensures forall i :: 0 <= i < |s| ==> !IsUpper(r[i])
  {
    seq(|s|, i requires 0 <= i < |s| => LowerChar(s[i]))
  }

  /** Lower-casing twice is lower-casing once. An extra fact about
      `toLowerCase` itself, not something the widget relies on. */
  lemma ToLowerIdempotent(s: string)
    ensures ToLower(ToLower(s)) == ToLower(s)
  {
  }

  /** `d` spells `key` up to case: the same length, and each character is
      either the key's character or its upper-case form. */
  predicate CaseVariant(d: string, key: string) {
    |d| == |key| && forall i :: 0 <= i < |d| ==> d[i] == key[i] || d[i] == UpperChar(key[i])
  }

  /** For a key without upper-case letters, lower-casing `d` yields the key
      exactly when `d` is a case variant of it. */
  lemma ToLowerMatchesKey(d: string, key: string)
    requires forall i :: 0 <= i < |key| ==> !IsUpper(key[i])
    ensures ToLower(d) == key <==> CaseVariant(d, key)
  {
  }
}
