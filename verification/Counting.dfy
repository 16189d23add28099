/** Sizes of finite sets of numbers, shared by the search models. */
module Counting {

  function Below(n: nat): (r: set<nat>)
    ensures forall x :: x in r <==> 0 <= x < n
    ensures |r| == n
  {
    if n == 0 then {} else Below(n - 1) + {n - 1}
  }

  /** A subset is no larger, and equal if it is as large. */
  lemma SubsetIsSmaller(a: set<nat>, b: set<nat>)
    requires a <= b
    ensures |a| <= |b| && (|a| == |b| ==> a == b)
  {
    assert b == a + (b - a);
  }
}
