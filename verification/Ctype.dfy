/** The C character classes the program uses, in the "C" locale. */
module Ctype {
  const NUL: char := '\0'

  predicate IsSpace(c: char) {
    c == ' ' || '\t' <= c <= '\r'
  }

  predicate IsDigit(c: char) {
    '0' <= c <= '9'
  }

  predicate IsUpper(c: char) {
    'A' <= c <= 'Z'
  }

  predicate IsAlpha(c: char) {
    IsUpper(c) || 'a' <= c <= 'z'
  }

  predicate IsGraph(c: char) {
    '!' <= c <= '~'
  }

  function ToUpper(c: char): char {
    if 'a' <= c <= 'z' then (c as int - 32) as char else c
  }

  function Upper(s: string): (r: string)
    ensures |r| == |s| && forall i :: 0 <= i < |r| ==> r[i] == ToUpper(s[i])
  {
    if s == "" then "" else Upper(s[..|s| - 1]) + [ToUpper(s[|s| - 1])]
  }

  /** The array holds the text followed by its terminator. */
  ghost predicate Holds(a: array<char>, text: string)
    reads a
  {
    |text| < a.Length && a[..|text|] == text && a[|text|] == NUL && NUL !in text
  }

  lemma HeldChar(path: array<char>, s: string, i: nat)
    requires Holds(path, s) && i <= |s|
    ensures path[i] == NUL <==> i == |s|
    ensures i < |s| ==> path[i] == s[i]
  {
    if i < |s| {
      assert path[..|s|][i] == s[i] && s[i] in s;
    }
  }
}
