/**
 * Character classes and case conversion that the Pascal token scanners take
 * from java.lang.Character and java.lang.String, restricted to ASCII.
 */
module Chars {

  /** The value Source.currentChar() returns once the input is exhausted. */
  const EOF: char := '\0'

  /** Character.isLetterOrDigit on the ASCII range. */
  predicate IsLetterOrDigit(c: char) {
    'a' <= c <= 'z' || 'A' <= c <= 'Z' || '0' <= c <= '9'
  }

  /** Character.isWhitespace on the ASCII range: blank, TAB..CR and FS..US. */
  predicate IsWhitespace(c: char) {
    c == ' ' || '\t' <= c <= '\r' || '\U{1C}' <= c <= '\U{1F}'
  }

  function LowerChar(c: char): char {
    if 'A' <= c <= 'Z' then (c as int + 32) as char else c
  }

  function UpperChar(c: char): char {
    if 'a' <= c <= 'z' then (c as int - 32) as char else c
  }

  /** String.toLowerCase on ASCII text: every letter mapped, every other character kept. */
  function ToLower(s: string): (r: string)
    ensures |r| == |s|
    ensures forall i :: 0 <= i < |s| ==> r[i] == LowerChar(s[i])
  {
    seq(|s|, i requires 0 <= i < |s| => LowerChar(s[i]))
  }

  /** String.toUpperCase on ASCII text. */
  function ToUpper(s: string): (r: string)
    ensures |r| == |s|
    ensures forall i :: 0 <= i < |s| ==> r[i] == UpperChar(s[i])
  {
    seq(|s|, i requires 0 <= i < |s| => UpperChar(s[i]))
  }

  /** The characters a Java enum constant name is spelt with here: capitals, digits and '_'. */
  predicate IsConstantName(s: string) {
    forall i :: 0 <= i < |s| ==> 'A' <= s[i] <= 'Z' || '0' <= s[i] <= '9' || s[i] == '_'
  }

  /** Upper-casing forgets a preceding lower-casing. */
  lemma UpperOfLower(s: string)
    ensures ToUpper(ToLower(s)) == ToUpper(s)
  {
  }

  /** A constant name is recovered by upper-casing its lower-case spelling. */
  lemma ConstantNameRoundTrip(s: string)
    requires IsConstantName(s)
    ensures ToUpper(ToLower(s)) == s
  {
  }

  /** Lower-casing is insensitive to the case the text was written in. */
  lemma LowerOfUpper(s: string)
    ensures ToLower(ToUpper(s)) == ToLower(s)
  {
  }

  /** Lower-casing twice is lower-casing once. */
  lemma LowerOfLower(s: string)
    ensures ToLower(ToLower(s)) == ToLower(s)
  {
  }

  /** Upper-casing twice is upper-casing once. */
  lemma UpperOfUpper(s: string)
    ensures ToUpper(ToUpper(s)) == ToUpper(s)
  {
  }
}
