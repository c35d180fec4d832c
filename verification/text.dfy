/** The two string queries the example validators rely on, over plain
    character sequences: membership of one character (`String.contains`)
    and the first occurrence of a substring (`String.range(of:)`). */
module Text {

  datatype Option<T> = None | Some(value: T)

  /** `pat` occurs in `s` starting at index `i`. */
  ghost predicate OccursAt(s: string, pat: string, i: int) {
    0 <= i && i + |pat| <= |s| && s[i..i + |pat|] == pat
  }

  /** `c` is one of the characters of `s`. */
  function ContainsChar(s: string, c: char): (b: bool)
    ensures b <==> exists i :: 0 <= i < |s| && s[i] == c
  {
    c in s
  }

  /** An occurrence in the tail of `s` is an occurrence in `s`, one place on. */
  lemma OccursInTail(s: string, pat: string, k: int)
    requires |s| > 0 && k >= 0
    ensures OccursAt(s[1..], pat, k) <==> OccursAt(s, pat, k + 1)
  {
  }

  /** A pattern whose first character is absent from `s` occurs nowhere in it. */
  lemma AbsentFirstCharacter(s: string, pat: string)
    requires |pat| > 0 && pat[0] !in s
    ensures forall j :: !OccursAt(s, pat, j)
  {
  }

  /** The start of the first occurrence of `pat` in `s`, or `None` when
      there is none. An empty pattern is never found. */
  function RangeOf(s: string, pat: string): (r: Option<nat>)
    ensures r.Some? ==> |pat| > 0 && OccursAt(s, pat, r.value)
    ensures r.Some? ==> forall j :: 0 <= j < r.value ==> !OccursAt(s, pat, j)
    ensures r.None? ==> |pat| == 0 || forall j :: !OccursAt(s, pat, j)
    decreases |s|
  {
    if |pat| == 0 || |s| < |pat| then None
    else if s[..|pat|] == pat then Some(0)
    else
      var tail := RangeOf(s[1..], pat);
      assert !OccursAt(s, pat, 0) by { assert s[0..|pat|] == s[..|pat|]; }
      assert forall j :: OccursAt(s, pat, j) ==> j >= 1 && OccursAt(s[1..], pat, j - 1) by {
        forall j | OccursAt(s, pat, j) ensures j >= 1 && OccursAt(s[1..], pat, j - 1) {
          OccursInTail(s, pat, j - 1);
        }
      }
      assert forall k :: k >= 0 && OccursAt(s[1..], pat, k) ==> OccursAt(s, pat, k + 1) by {
        forall k | k >= 0 && OccursAt(s[1..], pat, k) ensures OccursAt(s, pat, k + 1) {
          OccursInTail(s, pat, k);
        }
      }
      match tail
      case None => None
      case Some(k) => Some(k + 1)
  }
}
