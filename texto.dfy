/** Text primitives the analysed code relies on: Python's `str.lower()`,
    the `sub in s` substring test, `str.count` of a single character and
    `str.strip()`. */
module Texto {

  /** Capital letters whose lower-case form is the code point 32 above:
      `A`-`Z` and the Latin-1 capitals `À`-`Þ` except the sign `×`. */
  predicate Maiuscula(c: char) {
    ('A' <= c <= 'Z') || ('À' <= c <= 'Þ' && c != '×')
  }

  /** `str.lower()` on one character, for the Latin-1 range. */
  function MinusculaChar(c: char): (r: char)
    ensures !Maiuscula(r)
    ensures Maiuscula(c) ==> r as int == c as int + 32
    ensures !Maiuscula(c) ==> r == c
  {
    if Maiuscula(c) then (c as int + 32) as char else c
  }

  /** `str.lower()`: every character mapped on its own, so the length is kept. */
  function Minuscula(s: string): (r: string)
    ensures |r| == |s|
    ensures forall i :: 0 <= i < |r| ==> !Maiuscula(r[i])
    ensures forall i :: 0 <= i < |s| && !Maiuscula(s[i]) ==> r[i] == s[i]
    ensures forall i :: 0 <= i < |s| && Maiuscula(s[i]) ==> r[i] as int == s[i] as int + 32
  {
    seq(|s|, i requires 0 <= i < |s| => MinusculaChar(s[i]))
  }

  /** Lower-casing twice is lower-casing once. */
  lemma MinusculaIdempotente(s: string)
    ensures |Minuscula(s)| == |s|
    ensures Minuscula(Minuscula(s)) == Minuscula(s)
  {
  }

  /** `sub` occurs in `s` starting at index `i`. */
  predicate OcorreEm(s: string, sub: string, i: int) {
    0 <= i && i + |sub| <= |s| && s[i..i + |sub|] == sub
  }

  /** Python's `sub in s` for strings: plain substring search, no word boundaries. */
  predicate Contem(s: string, sub: string) {
    exists i | 0 <= i <= |s| - |sub| :: OcorreEm(s, sub, i)
  }

  /** A substring of a substring is a substring. */
  lemma {:induction false} ContemTransitivo(a: string, b: string, c: string)
    requires Contem(a, b) && Contem(b, c)
    ensures Contem(a, c)
  {
    var i :| 0 <= i <= |a| - |b| && OcorreEm(a, b, i);
    var j :| 0 <= j <= |b| - |c| && OcorreEm(b, c, j);
    forall k | 0 <= k < |c|
      ensures a[i + j + k] == c[k]
    {
      assert b[j + k] == c[k];
      assert a[i + (j + k)] == b[j + k];
    }
    assert a[i + j..i + j + |c|] == c;
    assert OcorreEm(a, c, i + j);
  }

  /** `s.count(c)` for a one-character needle: the number of occurrences of `c`. */
  function Conta(s: string, c: char): (n: nat)
    ensures n == multiset(s)[c]
  {
    if s == [] then 0
    else
      assert s == [s[0]] + s[1..];
      (if s[0] == c then 1 else 0) + Conta(s[1..], c)
  }

  /** The characters for which Python's `str.isspace()` holds; `str.strip()`
      with no argument removes exactly these. */
  predicate EspacoPython(c: char) {
    || c == ' '
    || ('\t' <= c <= '\r')
    || ('\U{1C}' <= c <= '\U{1F}')
    || c == '\U{85}' || c == '\U{A0}' || c == '\U{1680}'
    || ('\U{2000}' <= c <= '\U{200A}')
    || c == '\U{2028}' || c == '\U{2029}' || c == '\U{202F}' || c == '\U{205F}'
    || c == '\U{3000}'
  }

  /** Index of the first character that is not white space (|s| if none). */
  function InicioSemEspaco(s: string): (i: nat)
    ensures i <= |s|
    ensures forall k :: 0 <= k < i ==> EspacoPython(s[k])
    ensures i < |s| ==> !EspacoPython(s[i])
  {
    if s == [] || !EspacoPython(s[0]) then 0 else 1 + InicioSemEspaco(s[1..])
  }

  /** One past the index of the last character that is not white space (0 if none). */
  function FimSemEspaco(s: string): (j: nat)
    ensures j <= |s|
    ensures forall k :: j <= k < |s| ==> EspacoPython(s[k])
    ensures j > 0 ==> !EspacoPython(s[j - 1])
  {
    if s == [] || !EspacoPython(s[|s| - 1]) then |s| else FimSemEspaco(s[..|s| - 1])
  }

  /** `r` sits in `s` at index `i`, and everything around it is white space. */
  predicate Aparado(s: string, r: string, i: int) {
    && 0 <= i && i + |r| <= |s| && s[i..i + |r|] == r
    && (forall k :: 0 <= k < i ==> EspacoPython(s[k]))
    && (forall k :: i + |r| <= k < |s| ==> EspacoPython(s[k]))
  }

  /** `s.strip()`: `s` without its leading and trailing white space. */
  function Strip(s: string): (r: string)
    ensures exists i :: Aparado(s, r, i)
    ensures r != [] ==> !EspacoPython(r[0]) && !EspacoPython(r[|r| - 1])
  {
    var i := InicioSemEspaco(s);
    if i == |s| then
      assert Aparado(s, [], i);
      []
    else
      var j := FimSemEspaco(s);
      assert i < j;
      assert Aparado(s, s[i..j], i);
      s[i..j]
  }
}
