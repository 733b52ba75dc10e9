/**
 * ASCII models of Python's `str.lower()` and `str.capitalize()`, the only
 * string transformations the calorie estimator applies to its input.
 * Characters outside 'A'..'Z' / 'a'..'z' are left unchanged by both.
 */
module Text {

  predicate IsUpper(c: char) { 'A' <= c <= 'Z' }

  predicate IsLower(c: char) { 'a' <= c <= 'z' }

  function LowerChar(c: char): char
  {
    if IsUpper(c) then (c as int + 32) as char else c
  }

  function UpperChar(c: char): char
  {
    if IsLower(c) then (c as int - 32) as char else c
  }

  /** A string in which no character is an upper-case letter. */
  predicate AllLower(s: string)
  {
    forall i :: 0 <= i < |s| ==> !IsUpper(s[i])
  }

  /** `s.lower()`: every character mapped to lower case, nothing else changed. */
  function Lower(s: string): (r: string)
    ensures |r| == |s|
    ensures forall i :: 0 <= i < |s| ==> r[i] == LowerChar(s[i])
    ensures AllLower(r)
  {
    seq(|s|, i requires 0 <= i < |s| => LowerChar(s[i]))
  }

  /**
   * `s.capitalize()`: the first character upper-cased and every other
   * character lower-cased (not title case: only the first word is capitalised).
   */
  function Capitalize(s: string): (r: string)
    ensures |r| == |s|
    ensures |s| > 0 ==> r[0] == UpperChar(s[0]) && !IsLower(r[0])
    ensures forall i :: 1 <= i < |s| ==> r[i] == LowerChar(s[i])
  {
    if s == [] then [] else [UpperChar(s[0])] + Lower(s[1..])
  }

  /** Lower-casing a string that has no upper-case letter changes nothing. */
  lemma LowerOfAllLower(s: string)
    requires AllLower(s)
    ensures Lower(s) == s
  {
  }

  /** `s.lower().lower() == s.lower()`. */
  lemma LowerIdempotent(s: string)
    ensures Lower(Lower(s)) == Lower(s)
  {
  }

  /** Lower-casing the capitalised string gives the lower-cased original. */
  lemma LowerOfCapitalize(s: string)
    ensures Lower(Capitalize(s)) == Lower(s)
  {
  }

  /** Capitalising ignores the original case: `s.lower().capitalize() == s.capitalize()`. */
  lemma CapitalizeOfLower(s: string)
    ensures Capitalize(Lower(s)) == Capitalize(s)
  {
  }

  /** Capitalising twice is the same as capitalising once. */
  lemma CapitalizeIdempotent(s: string)
    ensures Capitalize(Capitalize(s)) == Capitalize(s)
  {
  }

  /** `Lower` is pinned down by what it does to each character. */
  lemma LowerIs(s: string, t: string)
    requires |s| == |t|
    requires forall i :: 0 <= i < |s| ==> LowerChar(s[i]) == t[i]
    ensures Lower(s) == t
  {
  }

  /** `Capitalize` is pinned down by its first character and the lower-cased rest. */
  lemma CapitalizeIs(s: string, t: string)
    requires |s| == |t| > 0 && t[0] == UpperChar(s[0])
    requires forall i :: 1 <= i < |s| ==> LowerChar(s[i]) == t[i]
    ensures Capitalize(s) == t
  {
  }
}
