/** Sums of a measure over a list. */
module Sums {
  import opened Bytes

  function Sum<A>(xs: seq<A>, f: A -> nat): nat {
    if xs == [] then 0 else f(xs[0]) + Sum(xs[1..], f)
  }

  lemma {:induction false} SumUpdate<A>(xs: seq<A>, i: nat, x: A, f: A -> nat)
    requires i < |xs|
    ensures Sum(xs[i := x], f) + f(xs[i]) == Sum(xs, f) + f(x)
  {
    if i == 0 {
      assert xs[0 := x][1..] == xs[1..];
    } else {
      assert xs[i := x][1..] == xs[1..][i - 1 := x];
      SumUpdate(xs[1..], i - 1, x, f);
    }
  }

  lemma {:induction false} SumAppend<A>(a: seq<A>, b: seq<A>, f: A -> nat)
    ensures Sum(a + b, f) == Sum(a, f) + Sum(b, f)
  {
    if a == [] {
      assert a + b == b;
    } else {
      assert (a + b)[1..] == a[1..] + b;
      SumAppend(a[1..], b, f);
    }
  }

  lemma SumPush<A>(a: seq<A>, x: A, f: A -> nat)
    ensures Sum(a + [x], f) == Sum(a, f) + f(x)
  {
    SumAppend(a, [x], f);
    assert [x][1..] == [];
  }

  lemma {:induction false} SumWithout<A>(xs: seq<A>, i: nat, f: A -> nat)
    requires i < |xs|
    ensures Sum(xs, f) == Sum(Without(xs, i), f) + f(xs[i])
  {
    if i == 0 {
      assert Without(xs, 0) == xs[1..];
    } else {
      SumWithout(xs[1..], i - 1, f);
      assert Without(xs, i)[1..] == Without(xs[1..], i - 1);
    }
  }

  // The order does not matter.
  lemma {:induction false} SumPermuted<A>(a: seq<A>, b: seq<A>, f: A -> nat)
    requires multiset(a) == multiset(b)
    ensures Sum(a, f) == Sum(b, f)
    decreases |a|
  {
    if a == [] {
      assert |multiset(b)| == 0;
    } else {
      assert a[0] in multiset(b);
      var i :| 0 <= i < |b| && b[i] == a[0];
      WithoutCounts(a, 0);
      WithoutCounts(b, i);
      assert Without(a, 0) == a[1..];
      SumPermuted(a[1..], Without(b, i), f);
      SumWithout(b, i, f);
    }
  }

  lemma {:induction false} SumSame<A>(xs: seq<A>, f: A -> nat, g: A -> nat)
    requires forall i :: 0 <= i < |xs| ==> f(xs[i]) == g(xs[i])
    ensures Sum(xs, f) == Sum(xs, g)
  {
    if xs != [] {
      SumSame(xs[1..], f, g);
    }
  }

  lemma {:induction false} SumSplit<A>(xs: seq<A>, f: A -> nat, g: A -> nat, h: A -> nat)
    requires forall i :: 0 <= i < |xs| ==> f(xs[i]) == g(xs[i]) + h(xs[i])
    ensures Sum(xs, f) == Sum(xs, g) + Sum(xs, h)
  {
    if xs != [] {
      SumSplit(xs[1..], f, g, h);
    }
  }

  lemma {:induction false} SumZero<A>(xs: seq<A>, f: A -> nat)
    requires forall i :: 0 <= i < |xs| ==> f(xs[i]) == 0
    ensures Sum(xs, f) == 0
  {
    if xs != [] {
      SumZero(xs[1..], f);
    }
  }

  lemma SumCut<A>(xs: seq<A>, k: nat, f: A -> nat)
    requires k <= |xs|
    ensures Sum(xs, f) == Sum(xs[..k], f) + Sum(xs[k..], f)
  {
    assert xs == xs[..k] + xs[k..];
    SumAppend(xs[..k], xs[k..], f);
  }
}
