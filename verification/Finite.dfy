/** Facts about finite sets and sums that several modules need. */
module Finite {

  lemma {:induction false} SubsetSize<T>(a: set<T>, b: set<T>)
    requires a <= b
    ensures |a| <= |b|
  {
    if x :| x in a {
      SubsetSize(a - {x}, b - {x});
    } else {
      assert a == {};
    }
  }

  lemma {:induction false} ImageIsNoLarger<T, U>(xs: set<T>, f: T -> U)
    ensures |set x | x in xs :: f(x)| <= |xs|
  {
    if x :| x in xs {
      ImageIsNoLarger(xs - {x}, f);
      assert (set y | y in xs :: f(y)) == (set y | y in xs - {x} :: f(y)) + {f(x)};
    }
  }

  /** A set covered by two images is no larger than the two sets together. */
  lemma CoverSize<S, T, U>(covered: set<U>, xs: set<S>, f: S -> U, ys: set<T>, g: T -> U)
    requires forall u | u in covered :: (exists x :: x in xs && f(x) == u) || (exists y :: y in ys && g(y) == u)
    ensures |covered| <= |xs| + |ys|
  {
    var a, b := set x | x in xs :: f(x), set y | y in ys :: g(y);
    assert covered <= a + b;
    SubsetSize(covered, a + b);
    ImageIsNoLarger(xs, f);
    ImageIsNoLarger(ys, g);
  }

  lemma FullSubset<T>(a: set<T>, b: set<T>)
    requires a <= b && |a| == |b|
    ensures a == b
  {
    if x :| x in b && x !in a {
      SubsetSize(a, b - {x});
    }
  }

  function Below(n: nat): (r: set<nat>)
    ensures |r| == n && forall v: nat :: v in r <==> v < n
  {
    if n == 0 then {}
    else
      var rest := Below(n - 1);
      assert n - 1 !in rest;
      rest + {n - 1}
  }

  function Sum<T>(xs: seq<T>, f: T -> nat): nat {
    if xs == [] then 0 else Sum(xs[..|xs| - 1], f) + f(xs[|xs| - 1])
  }

  lemma {:induction false} SumUpdate<T>(xs: seq<T>, f: T -> nat, i: nat, x: T)
    requires i < |xs|
    ensures Sum(xs[i := x], f) + f(xs[i]) == Sum(xs, f) + f(x)
  {
    var n := |xs| - 1;
    if i < n {
      SumUpdate(xs[..n], f, i, x);
      assert xs[i := x][..n] == xs[..n][i := x];
    } else {
      assert xs[i := x][..n] == xs[..n];
    }
  }
}
