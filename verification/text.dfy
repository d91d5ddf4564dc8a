/** ASCII case folding, standing in for Python's `str.lower()` on process names. */
module Text {

  predicate IsUpper(c: char) {
    'A' <= c <= 'Z'
  }

  /** Maps an ASCII capital letter to its small letter and leaves every other
      character alone. */
  function LowerChar(c: char): (d: char)
    ensures !IsUpper(d)
    ensures IsUpper(c) ==> d as int == c as int + 32
    ensures !IsUpper(c) ==> d == c
  {
    if IsUpper(c) then (c as int + 32) as char else c
  }

  /** `s.lower()` restricted to ASCII. */
  function Lower(s: string): (r: string)
    ensures |r| == |s|
    ensures forall i :: 0 <= i < |r| ==> !IsUpper(r[i])
    ensures forall i :: 0 <= i < |s| && !IsUpper(s[i]) ==> r[i] == s[i]
    ensures forall i :: 0 <= i < |s| && IsUpper(s[i]) ==> r[i] as int == s[i] as int + 32
  {
    seq(|s|, i requires 0 <= i < |s| => LowerChar(s[i]))
  }

  /** The comparison `a.lower() == b.lower()`. */
  predicate SameIgnoringCase(a: string, b: string) {
    Lower(a) == Lower(b)
  }

  /** Lowering twice is lowering once, so a lowered name matches itself. */
  lemma LowerIdempotent(s: string)
    ensures Lower(Lower(s)) == Lower(s)
  {
  }

  /** Case-insensitive comparison is an equivalence relation. */
  lemma SameIgnoringCaseIsEquivalence(a: string, b: string, c: string)
    ensures SameIgnoringCase(a, a)
    ensures SameIgnoringCase(a, b) ==> SameIgnoringCase(b, a)
    ensures SameIgnoringCase(a, b) && SameIgnoringCase(b, c) ==> SameIgnoringCase(a, c)
  {
  }
}
