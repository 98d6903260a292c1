/**
 * Ruby's `String#strip`, used on the name typed into the new-document form.
 * Whitespace is the set Ruby documents for `strip`: NUL, horizontal tab,
 * line feed, vertical tab, form feed, carriage return and space.
 */
module Strings {

  predicate IsSpace(c: char) {
    c == '\0' || c == '\t' || c == '\n' || c == '\U{B}' || c == '\U{C}' || c == '\r' || c == ' '
  }

  /** Every character of `s` from index `lo` up to (not including) `hi` is whitespace. */
  predicate BlankRange(s: string, lo: int, hi: int)
    requires 0 <= lo && hi <= |s|
  {
    forall k :: lo <= k < hi ==> IsSpace(s[k])
  }

  /** Every character of `s` is whitespace (this includes the empty string). */
  predicate Blank(s: string) {
    BlankRange(s, 0, |s|)
  }

  /** The index of the first non-whitespace character at or after `i`, or `|s|`. */
  function SkipLeading(s: string, i: nat): (r: nat)
    requires i <= |s|
    ensures i <= r <= |s| && BlankRange(s, i, r)
    ensures r < |s| ==> !IsSpace(s[r])
    decreases |s| - i
  {
    if i == |s| || !IsSpace(s[i]) then i else SkipLeading(s, i + 1)
  }

  /** The index just past the last non-whitespace character before `j`, or 0. */
  function SkipTrailing(s: string, j: nat): (r: nat)
    requires j <= |s|
    ensures r <= j && BlankRange(s, r, j)
    ensures r > 0 ==> !IsSpace(s[r - 1])
  {
    if j == 0 || !IsSpace(s[j - 1]) then j else SkipTrailing(s, j - 1)
  }

  /**
   * `s.strip`: the part of `s` between its leading and its trailing
   * whitespace. It is empty exactly when `s` is blank; otherwise it begins
   * and ends with a non-whitespace character.
   */
  function Strip(s: string): (r: string)
    ensures r == [] <==> Blank(s)
    ensures r != [] ==> !IsSpace(r[0]) && !IsSpace(r[|r| - 1])
  {
    var i := SkipLeading(s, 0);
    if i == |s| then []
    else
      var j := SkipTrailing(s, |s|);
      s[i..j]
  }

  /** What `Strip` removes is whitespace only: the result is `s[i..j]`, with blanks before and after. */
  lemma StripIsInfix(s: string) returns (i: nat, j: nat)
    ensures i <= j <= |s| && Strip(s) == s[i..j]
    ensures BlankRange(s, 0, i) && BlankRange(s, j, |s|)
  {
    i := SkipLeading(s, 0);
    if i == |s| {
      j := i;
    } else {
      j := SkipTrailing(s, |s|);
    }
  }
}
