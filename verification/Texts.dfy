/** Comparison of names, letter case apart. */
module Texts {
  function Upper(s: string): string {
    seq(|s|, i requires 0 <= i < |s| => if 'a' <= s[i] <= 'z' then s[i] - 'a' + 'A' else s[i])
  }

  /** Empty texts match nothing. */
  predicate TextMatched(a: string, b: string) {
    a != "" && b != "" && Upper(a) == Upper(b)
  }

  /** The small letter and the capital are at the same place of the alphabet. */
  predicate SmallOf(c: char, d: char) {
    'a' <= c <= 'z' && 'A' <= d <= 'Z' && c as int - 'a' as int == d as int - 'A' as int
  }

  /** The same character, or two forms of one letter. */
  predicate SameLetter(c: char, d: char) {
    c == d || SmallOf(c, d) || SmallOf(d, c)
  }

  /** Texts match if they are not empty and have the same letters, one by one. */
  lemma TextMatchedExact(a: string, b: string)
    ensures TextMatched(a, b) <==>
            a != "" && |a| == |b| && forall i :: 0 <= i < |a| ==> SameLetter(a[i], b[i])
  {
    assert forall i :: 0 <= i < |a| && i < |b| ==> (Upper(a)[i] == Upper(b)[i] <==> SameLetter(a[i], b[i]));
    assert |Upper(a)| == |a| && |Upper(b)| == |b|;
  }
}
