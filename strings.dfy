/** The operations of java.lang.String and java.lang.StringBuffer that the discovery code uses. */
module Strings {

  /** p occurs in s starting at index i. */
  predicate OccursAt(s: string, p: string, i: int) {
    0 <= i && i + |p| <= |s| && s[i..i + |p|] == p
  }

  /** p occurs somewhere in s. */
  predicate Contains(s: string, p: string) {
    exists i :: 0 <= i <= |s| && OccursAt(s, p, i)
  }

  /** String.indexOf(p, from): the leftmost occurrence of p at or after from, or -1. */
  function IndexOfFrom(s: string, p: string, from: nat): int
    requires from <= |s|
    decreases |s| - from
  {
    if OccursAt(s, p, from) then from
    else if from == |s| then -1
    else IndexOfFrom(s, p, from + 1)
  }

  /** IndexOfFrom finds an occurrence at or after from, with none between from and it; -1 means there is none at all. */
  lemma {:induction false} IndexOfFromIsLeftmost(s: string, p: string, from: nat)
    requires from <= |s|
    ensures var r := IndexOfFrom(s, p, from);
      && (r == -1 || (from <= r && OccursAt(s, p, r)))
      && (forall j :: from <= j && (r == -1 || j < r) ==> !OccursAt(s, p, j))
    decreases |s| - from
  {
    if !OccursAt(s, p, from) && from < |s| {
      IndexOfFromIsLeftmost(s, p, from + 1);
    }
  }

  /** String.indexOf(p): the leftmost occurrence of p in s, or -1 when there is none. */
  function IndexOf(s: string, p: string): int
  {
    IndexOfFrom(s, p, 0)
  }

  /** IndexOf answers -1 exactly when p does not occur, and otherwise the leftmost occurrence. */
  lemma IndexOfIsLeftmost(s: string, p: string)
    ensures var r := IndexOf(s, p);
      && r >= -1
      && (r == -1 <==> !Contains(s, p))
      && (r >= 0 ==> OccursAt(s, p, r) && forall j :: 0 <= j < r ==> !OccursAt(s, p, j))
  {
    IndexOfFromIsLeftmost(s, p, 0);
    var r := IndexOf(s, p);
    if r == -1 {
      forall i | 0 <= i <= |s| ensures !OccursAt(s, p, i) {
      }
    }
  }

  /** IndexOf is pinned down by its contract: the leftmost occurrence. */
  lemma IndexOfIs(s: string, p: string, k: int)
    requires OccursAt(s, p, k) && forall j :: 0 <= j < k ==> !OccursAt(s, p, j)
    ensures IndexOf(s, p) == k
  {
    IndexOfIsLeftmost(s, p);
    assert Contains(s, p);
  }

  /** StringBuffer.replace(start, end, t): the characters in [start, end) give way to t. */
  function ReplaceRange(s: string, start: nat, end: nat, t: string): (r: string)
    requires start <= end <= |s|
    ensures |r| == |s| - (end - start) + |t|
  {
    s[..start] + t + s[end..]
  }

  /** The number of occurrences of the character c in s. */
  function Count(s: string, c: char): nat
  {
    multiset(s)[c]
  }

  /** String.endsWith(suffix). */
  predicate EndsWith(s: string, suffix: string) {
    |suffix| <= |s| && s[|s| - |suffix|..] == suffix
  }
}
