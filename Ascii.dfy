/**
 * ASCII case folding: the comparison the registry applies to key paths and
 * value names, and the `toLowerCase` the dashboard applies to alert levels,
 * both restricted to ASCII letters.
 */
module Ascii {
  predicate IsUpper(c: char) {
    'A' <= c <= 'Z'
  }

  function Lower(c: char): char {
    if IsUpper(c) then (c as int + 32) as char else c
  }

  /** Every ASCII capital lowered; the result holds no capital, and every other character is kept. */
  function Fold(s: string): (t: string)
    ensures |t| == |s|
    ensures forall i :: 0 <= i < |t| ==> !IsUpper(t[i])
    ensures forall i :: 0 <= i < |s| && !IsUpper(s[i]) ==> t[i] == s[i]
  {
    seq(|s|, i requires 0 <= i < |s| => Lower(s[i]))
  }

  /** Two characters that are equal, or a capital and its lower-case letter. */
  predicate SameIgnoringCase(c: char, d: char) {
    c == d || (IsUpper(c) && d as int == c as int + 32) || (IsUpper(d) && c as int == d as int + 32)
  }

  /** Folding a folded name changes nothing. */
  lemma FoldIdempotent(s: string)
    ensures Fold(Fold(s)) == Fold(s)
  {
  }

  /** Two names fold alike exactly when they have the same length and differ at most in the case of ASCII letters. */
  lemma FoldEqualIff(s: string, t: string)
    ensures Fold(s) == Fold(t) <==> |s| == |t| && forall i :: 0 <= i < |s| ==> SameIgnoringCase(s[i], t[i])
  {
    if Fold(s) == Fold(t) {
      forall i | 0 <= i < |s|
        ensures SameIgnoringCase(s[i], t[i])
      {
        assert Lower(s[i]) == Fold(s)[i] == Fold(t)[i] == Lower(t[i]);
      }
    }
    if |s| == |t| && forall i :: 0 <= i < |s| ==> SameIgnoringCase(s[i], t[i]) {
      forall i | 0 <= i < |s|
        ensures Fold(s)[i] == Fold(t)[i]
      {
        assert SameIgnoringCase(s[i], t[i]);
      }
    }
  }
}
