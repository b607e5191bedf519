/** Sizes of sets that differ in one element. */
module Sets {

  lemma OneMore<T(!new)>(a: set<T>, b: set<T>, x: T)
    requires x !in a && forall y :: y in b <==> y in a || y == x
    ensures |b| == |a| + 1
  {
    assert b == a + {x};
  }

  lemma OneReplaced<T(!new)>(a: set<T>, b: set<T>, x: T, x': T)
    requires x in a && x' !in a && forall y :: y in b <==> (y in a && y != x) || y == x'
    ensures |b| == |a|
  {
    assert b == a - {x} + {x'};
  }
}
