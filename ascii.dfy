/**
 * ASCII case mapping: `toUpperCase`/`toLowerCase` and the letter comparison a
 * case-insensitive regular expression performs, restricted to ASCII letters
 * (Unicode case mapping is not modelled).
 */
module Ascii {

  function Upper(c: char): char {
    if 'a' <= c <= 'z' then (c as int - 32) as char else c
  }

  function Lower(c: char): char {
    if 'A' <= c <= 'Z' then (c as int + 32) as char else c
  }

  function UpperString(s: string): string {
    seq(|s|, i requires 0 <= i < |s| => Upper(s[i]))
  }

  function LowerString(s: string): string {
    seq(|s|, i requires 0 <= i < |s| => Lower(s[i]))
  }

  /** The two strings spell the same word up to the case of ASCII letters. */
  predicate EqualIgnoringCase(a: string, b: string) {
    |a| == |b| && forall i :: 0 <= i < |a| ==> Upper(a[i]) == Upper(b[i])
  }

  predicate StartsWith(s: string, prefix: string) {
    |prefix| <= |s| && s[..|prefix|] == prefix
  }

  /** `s.includes(sub)`: `sub` occurs somewhere in `s`. */
  predicate Contains(s: string, sub: string)
    decreases |s|
  {
    StartsWith(s, sub) || (|s| > 0 && Contains(s[1..], sub))
  }

  /** Comparing upper-cased forms is the same as comparing letter by letter ignoring case. */
  lemma UpperStringEquals(s: string, word: string)
    requires UpperString(word) == word
    ensures UpperString(s) == word <==> EqualIgnoringCase(s, word)
  {
    if EqualIgnoringCase(s, word) {
      assert forall i :: 0 <= i < |s| ==> UpperString(s)[i] == Upper(word[i]) == word[i];
    }
  }
}
