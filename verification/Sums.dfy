/** Sums over sequences. */
module Sums {

  function Sum<T>(f: T -> int, xs: seq<T>): int
  {
    if xs == [] then 0 else Sum(f, xs[..|xs| - 1]) + f(xs[|xs| - 1])
  }

  lemma {:induction false} SumSnoc<T>(f: T -> int, xs: seq<T>, x: T)
    ensures Sum(f, xs + [x]) == Sum(f, xs) + f(x)
  {
    assert (xs + [x])[..|xs|] == xs;
  }

  lemma {:induction false} SumAppend<T>(f: T -> int, xs: seq<T>, ys: seq<T>)
    ensures Sum(f, xs + ys) == Sum(f, xs) + Sum(f, ys)
  {
    if ys == [] {
      assert xs + ys == xs;
    } else {
      var n := |ys| - 1;
      assert (xs + ys)[..|xs + ys| - 1] == xs + ys[..n];
      SumAppend(f, xs, ys[..n]);
    }
  }

  lemma {:induction false} SumUpdate<T>(f: T -> int, xs: seq<T>, i: nat, x: T)
    requires i < |xs|
    ensures Sum(f, xs[i := x]) == Sum(f, xs) - f(xs[i]) + f(x)
    decreases |xs|
  {
    var n := |xs| - 1;
    if i == n {
      assert xs[i := x][..n] == xs[..n];
    } else {
      assert xs[i := x][..n] == xs[..n][i := x];
      SumUpdate(f, xs[..n], i, x);
    }
  }

  lemma {:induction false} SumLe<T>(f: T -> int, g: T -> int, xs: seq<T>)
    requires forall i :: 0 <= i < |xs| ==> f(xs[i]) <= g(xs[i])
    ensures Sum(f, xs) <= Sum(g, xs)
  {
    if xs != [] { SumLe(f, g, xs[..|xs| - 1]); }
  }

  lemma {:induction false} SumPlus<T>(f: T -> int, g: T -> int, h: T -> int, xs: seq<T>)
    requires forall i :: 0 <= i < |xs| ==> h(xs[i]) == f(xs[i]) + g(xs[i])
    ensures Sum(h, xs) == Sum(f, xs) + Sum(g, xs)
  {
    if xs != [] { SumPlus(f, g, h, xs[..|xs| - 1]); }
  }

  lemma {:induction false} SumAgree<T>(f: T -> int, xs: seq<T>, ys: seq<T>)
    requires |xs| == |ys| && forall i :: 0 <= i < |xs| ==> f(xs[i]) == f(ys[i])
    ensures Sum(f, xs) == Sum(f, ys)
  {
    if xs != [] { SumAgree(f, xs[..|xs| - 1], ys[..|ys| - 1]); }
  }

  /** The last element of one order, taken out of another. */
  lemma {:induction false} TakeOut<T>(xs: seq<T>, x: T, ys: seq<T>) returns (a: seq<T>, b: seq<T>)
    requires multiset(xs + [x]) == multiset(ys)
    ensures ys == a + [x] + b && multiset(xs) == multiset(a + b)
  {
    assert x in multiset(xs + [x]);
    var i :| 0 <= i < |ys| && ys[i] == x;
    a, b := ys[..i], ys[i + 1..];
    assert ys == a + [x] + b;
    WithoutOne(xs, x, a, b);
  }

  lemma {:induction false} WithoutOne<T>(xs: seq<T>, x: T, a: seq<T>, b: seq<T>)
    requires multiset(xs + [x]) == multiset(a + [x] + b)
    ensures multiset(xs) == multiset(a + b)
  {
    assert multiset(xs + [x]) == multiset(xs) + multiset{x};
    assert multiset(a + [x] + b) == multiset(a) + multiset{x} + multiset(b);
    assert multiset(xs) == multiset(xs + [x]) - multiset{x};
    assert multiset(a + b) == multiset(a + [x] + b) - multiset{x};
  }

  /** A sum does not depend on the order. */
  lemma {:induction false} SumPermuted<T>(f: T -> int, xs: seq<T>, ys: seq<T>)
    requires multiset(xs) == multiset(ys)
    ensures Sum(f, xs) == Sum(f, ys)
    decreases |xs|
  {
    if xs == [] {
      assert |multiset(ys)| == 0;
    } else {
      var n := |xs| - 1;
      assert xs == xs[..n] + [xs[n]];
      var a, b := TakeOut(xs[..n], xs[n], ys);
      SumPermuted(f, xs[..n], a + b);
      SumAppend(f, a, b);
      SumAppend(f, a + [xs[n]], b);
      SumSnoc(f, a, xs[n]);
    }
  }

  lemma {:induction false} SumSame<T>(f: T -> int, g: T -> int, xs: seq<T>)
    requires forall x :: x in xs ==> f(x) == g(x)
    ensures Sum(f, xs) == Sum(g, xs)
  {
    SumLe(f, g, xs);
    SumLe(g, f, xs);
  }
}
