/**
 * Upper-casing of letters, as `String.prototype.toUpperCase` does it on the
 * ASCII range. Characters outside a-z are kept as they are.
 */
module Letters {

  predicate IsLower(ch: char) { 'a' <= ch <= 'z' }

  /** The upper-case form of one character: a-z map to A-Z, everything else is kept. */
  function UpperChar(ch: char): (u: char)
    ensures IsLower(ch) ==> u as int == ch as int - 32
    ensures !IsLower(ch) ==> u == ch
    ensures !IsLower(u)
  {
    if IsLower(ch) then (ch as int - 32) as char else ch
  }

  /** `s.toUpperCase()`, character by character. */
  function Upper(s: string): (u: string)
    ensures |u| == |s|
    ensures forall i :: 0 <= i < |s| ==> u[i] == UpperChar(s[i])
  {
    if s == [] then [] else [UpperChar(s[0])] + Upper(s[1..])
  }

  /** Upper-casing twice is upper-casing once. */
  lemma UpperIdempotent(s: string)
    ensures Upper(Upper(s)) == Upper(s)
  {
    var u := Upper(s);
    assert forall i :: 0 <= i < |u| ==> UpperChar(u[i]) == u[i];
  }
}
