/** Tables that list each of 0..n-1 once, and their inverses. */
module Permutations {

  /** Every entry of `s` is below `n`. */
  predicate AllBelow(s: seq<nat>, n: nat)
  {
    forall i :: 0 <= i < |s| ==> s[i] < n
  }

  /** `s` lists each of 0..n-1 exactly once. */
  predicate IsPermutation(s: seq<nat>, n: nat)
  {
    |s| == n && AllBelow(s, n) && forall i, j :: 0 <= i < j < n ==> s[i] != s[j]
  }

  /** Entry `i` of `s` lies below `n` and `inv` sends it back to `i`. */
  predicate InvertedAt(s: seq<nat>, inv: seq<nat>, n: nat, i: nat)
    requires i < |s|
  {
    s[i] < n && s[i] < |inv| && inv[s[i]] == i
  }

  lemma LeftInverseInjective(s: seq<nat>, inv: seq<nat>, n: nat)
    requires forall i :: 0 <= i < |s| ==> InvertedAt(s, inv, n, i)
    ensures AllBelow(s, n)
    ensures forall i, j :: 0 <= i < j < |s| ==> s[i] != s[j]
  {
    forall i | 0 <= i < |s| ensures s[i] < n {
      assert InvertedAt(s, inv, n, i);
    }
    forall i, j | 0 <= i < j < |s| ensures s[i] != s[j] {
      assert InvertedAt(s, inv, n, i) && InvertedAt(s, inv, n, j);
    }
  }
}
