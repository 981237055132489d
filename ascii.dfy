/**
  ASCII character classes used by the message parser and the CSV writer.

  Python's `re` module works on Unicode strings; this model restricts the
  classes `\d`, `\s`, `\w`, the IGNORECASE comparison and `str.lower` to their
  behaviour on ASCII characters. Every other character is treated as a
  non-digit, non-space, non-word character that lowercases to itself.
*/
module Ascii {

  /** `\d` on ASCII. */
  predicate IsDigit(c: char) {
    '0' <= c <= '9'
  }

  predicate IsUpper(c: char) {
    'A' <= c <= 'Z'
  }

  /**
    `\s` on ASCII: Python counts space, the controls 0x09-0x0D (tab, line
    feed, vertical tab, form feed, carriage return) and the separators
    0x1C-0x1F as whitespace.
  */
  predicate IsSpace(c: char) {
    c == ' ' || (9 <= c as int <= 13) || (0x1C <= c as int <= 0x1F)
  }

  /** `\w` on ASCII: letters, digits and the underscore. */
  predicate IsWordChar(c: char) {
    IsDigit(c) || IsUpper(c) || ('a' <= c <= 'z') || c == '_'
  }

  /** `str.lower` on one ASCII character. */
  function LowerChar(c: char): (r: char)
    ensures !IsUpper(r)
    ensures IsUpper(c) ==> r as int == c as int + 32
    ensures !IsUpper(c) ==> r == c
  {
    if IsUpper(c) then (c as int + 32) as char else c
  }

  /** `str.lower` on ASCII text: same length, each character lowered. */
  function Lower(s: string): (r: string)
    ensures |r| == |s|
    ensures forall i :: 0 <= i < |s| ==> r[i] == LowerChar(s[i])
  {
    if s == [] then [] else [LowerChar(s[0])] + Lower(s[1..])
  }

  /**
    Two characters lower to the same one exactly when they are equal or are
    the upper- and lower-case forms of one letter.
  */
  lemma LowerCharSame(a: char, b: char)
    ensures LowerChar(a) == LowerChar(b) <==>
      a == b || (IsUpper(a) && b as int == a as int + 32) || (IsUpper(b) && a as int == b as int + 32)
  {
  }

  /** Lowering twice is lowering once, and lowered text has no upper-case letter. */
  lemma LowerIdempotent(s: string)
    ensures Lower(Lower(s)) == Lower(s)
    ensures IsLowercase(Lower(s))
  {
    var t := Lower(s);
    forall i | 0 <= i < |t|
      ensures Lower(t)[i] == t[i]
    {
      assert t[i] == LowerChar(s[i]);
    }
    forall c | c in t
      ensures !IsUpper(c)
    {
      var i :| 0 <= i < |t| && t[i] == c;
    }
  }

  /** No upper-case ASCII letter occurs in `s`. */
  predicate IsLowercase(s: string) {
    forall c :: c in s ==> !IsUpper(c)
  }

  /** `s[at..]` starts with `word` when both are compared case-insensitively. */
  predicate MatchesIgnoreCaseAt(s: string, at: nat, word: string) {
    at + |word| <= |s| &&
    forall k :: 0 <= k < |word| ==> LowerChar(s[at + k]) == LowerChar(word[k])
  }
}
