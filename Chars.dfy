/**
 * Case handling of single characters, restricted to ASCII and the Latin-1
 * letters (the accented letters the keyboards mention all live there).
 * Every other character is treated as caseless.
 */
module Chars {

  /** Python's `str.isupper` on one character, within the modelled range. */
  predicate IsUpper(c: char) {
    ('A' <= c <= 'Z') || ('\U{00C0}' <= c <= '\U{00DE}' && c != '\U{00D7}')
  }

  /** Python's `str.lower` on one character, within the modelled range. */
  function Lower(c: char): (r: char)
    ensures IsUpper(c) ==> r as int == c as int + 32
    ensures !IsUpper(c) ==> r == c
    ensures !IsUpper(r)
  {
    if IsUpper(c) then (c as int + 32) as char else c
  }

  /** Python's `str.lower` on a string: character by character. */
  function LowerString(s: string): (r: string)
    ensures |r| == |s|
    ensures forall i :: 0 <= i < |s| ==> r[i] == Lower(s[i])
  {
    seq(|s|, i requires 0 <= i < |s| => Lower(s[i]))
  }
}
