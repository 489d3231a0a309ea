/** How many numbers there are below a bound. */
module Counting {

  function Below(n: nat): set<nat> { if n == 0 then {} else Below(n - 1) + {n - 1} }

  lemma {:induction false} BelowHas(n: nat, k: nat)
    ensures |Below(n)| == n
    ensures k in Below(n) <==> k < n
  {
    if n > 0 {
      BelowHas(n - 1, n - 1);
      BelowHas(n - 1, k);
    }
  }

  lemma SubsetCount<T>(a: set<T>, b: set<T>)
    requires a <= b
    ensures |a| <= |b| && (|a| == |b| ==> a == b)
  {
    assert b == a + (b - a);
  }

  /** Numbers below a bound are no more than it. */
  lemma AtMost(numbers: set<nat>, n: nat)
    requires forall k <- numbers :: k < n
    ensures |numbers| <= n
  {
    forall k <- numbers
      ensures k in Below(n)
    {
      BelowHas(n, k);
    }
    BelowHas(n, 0);
    SubsetCount(numbers, Below(n));
  }
}
