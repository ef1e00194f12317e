/**
 Counting elements of finite sets of integers.
 */
module Counting {

  function UpTo(n: nat): (s: set<int>)
    ensures |s| == n && forall i :: i in s <==> 0 <= i < n
  {
    if n == 0 then {} else UpTo(n - 1) + {n - 1}
  }

  lemma Subset(a: set<int>, b: set<int>)
    requires a <= b
    ensures |a| <= |b|
  {
    assert b == a + (b - a);
  }

  /** A set with fewer than `n` elements misses a number below `n`. */
  lemma SomeFree(s: set<int>, n: nat)
    requires |s| < n
    ensures exists i :: 0 <= i < n && i !in s
  {
    if forall i :: 0 <= i < n ==> i in s {
      Subset(UpTo(n), s);
    }
  }
}
