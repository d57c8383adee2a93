/** Small facts about strings used by the string transforms and the JSON codec. */
module Text {
  import opened Wrappers

  predicate StartsWith(s: string, prefix: string) {
    |prefix| <= |s| && s[..|prefix|] == prefix
  }

  /** `d` occurs in `t` starting at position `k`. */
  predicate OccursAt(t: string, d: string, k: int) {
    0 <= k && k + |d| <= |t| && t[k..k + |d|] == d
  }

  /** Where `indexOf` finds the non-empty `d` in `t`: scanning from the left, the first place `d` starts. */
  function IndexOf(t: string, d: string): (r: Option<nat>)
    requires |d| > 0
    ensures r.Some? ==> r.value + |d| <= |t|
    decreases |t|
  {
    if |t| < |d| then None
    else if t[..|d|] == d then Some(0)
    else
      match IndexOf(t[1..], d)
      case None => None
      case Some(j) => Some(j + 1)
  }

  /** IndexOf finds the first occurrence, and finds none exactly when there is none. */
  lemma {:induction false} IndexOfFirst(t: string, d: string)
    requires |d| > 0
    ensures IndexOf(t, d).Some? ==>
      OccursAt(t, d, IndexOf(t, d).value) && forall k :: 0 <= k < IndexOf(t, d).value ==> !OccursAt(t, d, k)
    ensures IndexOf(t, d).None? ==> forall k :: !OccursAt(t, d, k)
    decreases |t|
  {
    if |t| >= |d| && t[..|d|] != d {
      IndexOfFirst(t[1..], d);
      forall k | 1 <= k ensures OccursAt(t, d, k) <==> OccursAt(t[1..], d, k - 1) {
        if k + |d| <= |t| {
          assert t[1..][k - 1..k - 1 + |d|] == t[k..k + |d|];
        }
      }
      assert !OccursAt(t, d, 0);
    }
  }

  function LowerChar(c: char): char {
    if 'A' <= c <= 'Z' then (c as int - 'A' as int + 'a' as int) as char else c
  }

  /** `toLowerCase` restricted to the ASCII letters; every other character is kept. */
  function LowerAscii(s: string): (r: string)
    ensures |r| == |s| && forall i :: 0 <= i < |s| ==> r[i] == LowerChar(s[i])
  {
    if s == [] then [] else [LowerChar(s[0])] + LowerAscii(s[1..])
  }
}
