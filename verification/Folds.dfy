/** Folding a list from the left, one element after the other. */
module Folds {

  function Fold<S, X>(f: (S, X) -> S, s: S, xs: seq<X>): S {
    if xs == [] then s else f(Fold(f, s, xs[..|xs| - 1]), xs[|xs| - 1])
  }

  lemma FoldStep<S, X>(f: (S, X) -> S, s: S, xs: seq<X>, x: X)
    ensures Fold(f, s, xs + [x]) == f(Fold(f, s, xs), x)
  {
    assert (xs + [x])[..|xs|] == xs;
  }

  lemma {:induction false} FoldConcat<S, X>(f: (S, X) -> S, s: S, xs: seq<X>, ys: seq<X>)
    ensures Fold(f, Fold(f, s, xs), ys) == Fold(f, s, xs + ys)
    decreases |ys|
  {
    if ys == [] {
      assert xs + ys == xs;
    } else {
      var n := |ys| - 1;
      FoldConcat(f, s, xs, ys[..n]);
      FoldStep(f, s, xs + ys[..n], ys[n]);
      assert xs + ys[..n] + [ys[n]] == xs + ys;
    }
  }

  /** What f gives for 0, 1, ... n - 1, one after the other. */
  function Gather<T>(f: nat -> seq<T>, n: nat): seq<T> {
    if n == 0 then [] else Gather(f, n - 1) + f(n - 1)
  }

  lemma {:induction false} GatherEmptyIff<T>(f: nat -> seq<T>, n: nat)
    ensures Gather(f, n) == [] <==> forall i: nat :: i < n ==> f(i) == []
  {
    if n > 0 {
      GatherEmptyIff(f, n - 1);
      assert |Gather(f, n)| == |Gather(f, n - 1)| + |f(n - 1)|;
    }
  }

  lemma {:induction false} GatherOne<T>(f: nat -> seq<T>, k: nat, n: nat)
    requires k < n && forall i: nat :: i < n && i != k ==> f(i) == []
    ensures Gather(f, n) == f(k)
  {
    if k == n - 1 {
      GatherEmptyIff(f, k);
    } else {
      GatherOne(f, k, n - 1);
    }
  }

  /** The first n parts, one after the other. */
  function Concat<T>(parts: seq<seq<T>>, n: nat): seq<T>
    requires n <= |parts|
  {
    if n == 0 then [] else Concat(parts, n - 1) + parts[n - 1]
  }

  lemma ConcatFour<T>(a: seq<T>, b: seq<T>, c: seq<T>, d: seq<T>)
    ensures Concat([a, b, c, d], 4) == a + b + c + d
  {
    var parts := [a, b, c, d];
    assert Concat(parts, 1) == a;
    assert Concat(parts, 2) == a + b;
    assert Concat(parts, 3) == a + b + c;
  }
}
