/** ASCII text as Python strips it and changes its case. */
module Text {

  predicate IsSpace(c: char) {
    c == ' ' || '\t' <= c <= '\r' || '\U{1c}' <= c <= '\U{1f}'
  }

  lemma AsciiSpaces(c: char)
    ensures IsSpace(c) <==> c in {' ', '\t', '\n', '\U{b}', '\U{c}', '\r', '\U{1c}', '\U{1d}', '\U{1e}', '\U{1f}'}
  {
  }

  /** Where the text begins, after white space from `i` on. */
  function Begins(s: string, i: nat): (a: nat)
    requires i <= |s|
    ensures i <= a <= |s| && (a < |s| ==> !IsSpace(s[a]))
    ensures i < |s| && !IsSpace(s[i]) ==> a == i
    decreases |s| - i
  {
    if i < |s| && IsSpace(s[i]) then Begins(s, i + 1) else i
  }

  /** Where it ends, not before `a`, with white space behind it up to `n`. */
  function Ends(s: string, a: nat, n: nat): (b: nat)
    requires a <= n <= |s|
    ensures a <= b <= n && (a < b ==> !IsSpace(s[b - 1]))
    ensures a < n && !IsSpace(s[n - 1]) ==> b == n
    ensures a < n && !IsSpace(s[a]) ==> a < b
  {
    if a < n && IsSpace(s[n - 1]) then Ends(s, a, n - 1) else n
  }

  /** Python's `str.strip` on ASCII text. */
  function Strip(s: string): string {
    var a := Begins(s, 0);
    s[a..Ends(s, a, |s|)]
  }

  /** Neither end is white space. */
  predicate Trim(s: string) {
    s == "" || (!IsSpace(s[0]) && !IsSpace(s[|s| - 1]))
  }

  lemma StripTrims(s: string)
    ensures Trim(Strip(s)) && |Strip(s)| <= |s|
    ensures Trim(s) <==> Strip(s) == s
  {
  }

  function LowerChar(c: char): char {
    if 'A' <= c <= 'Z' then c - 'A' + 'a' else c
  }

  function Lower(s: string): string {
    seq(|s|, i requires 0 <= i < |s| => LowerChar(s[i]))
  }

  function Upper(c: char): char {
    if 'a' <= c <= 'z' then c - 'a' + 'A' else c
  }

  function UpperText(s: string): (u: string)
    ensures |u| == |s| && forall i :: 0 <= i < |s| ==> u[i] == Upper(s[i])
  {
    seq(|s|, i requires 0 <= i < |s| => Upper(s[i]))
  }
}
