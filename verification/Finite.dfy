/** Cardinalities of sets of numbers. */
module Finite {

  /** Below `n` there is room for exactly `n` numbers. */
  lemma {:induction false} Pigeonhole(s: set<nat>, n: nat)
    requires forall b: nat :: b in s ==> b < n
    ensures |s| <= n
    ensures |s| == n <==> forall b: nat :: b < n ==> b in s
  {
    if n == 0 {
      assert s == {};
    } else {
      var fewer := s - {n - 1};
      Pigeonhole(fewer, n - 1);
      if n - 1 in s { assert s == fewer + {n - 1}; } else { assert s == fewer; }
    }
  }

  lemma SmallerSet(a: set<nat>, b: set<nat>)
    requires a <= b && a != b
    ensures |a| < |b|
  {
    var x :| x in b && x !in a;
    assert x in b - a;
    assert b == a + (b - a);
  }
}
