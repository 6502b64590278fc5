/** Grouping by a key that keeps the order in which keys were first met, as a JavaScript `Map` does. */
module Grouping {
  import opened Sums

  predicate Distinct<K(==)>(ks: seq<K>)
  {
    forall i, j :: 0 <= i < j < |ks| ==> ks[i] != ks[j]
  }

  /** The keys of a sequence, each once, in the order of their first occurrence. */
  function FirstSeen<T, K(==)>(key: T -> K, xs: seq<T>): (ks: seq<K>)
    ensures Distinct(ks)
  {
    if xs == [] then []
    else
      var n := |xs| - 1;
      var ks := FirstSeen(key, xs[..n]);
      if key(xs[n]) in ks then ks else ks + [key(xs[n])]
  }

  lemma {:induction false} KeyIsSeen<T, K>(key: T -> K, xs: seq<T>, x: T)
    requires x in xs
    ensures key(x) in FirstSeen(key, xs)
  {
    var n := |xs| - 1;
    if x != xs[n] {
      assert xs == xs[..n] + [xs[n]];
      KeyIsSeen(key, xs[..n], x);
    }
  }

  lemma {:induction false} SeenHasElement<T, K>(key: T -> K, xs: seq<T>, k: K) returns (x: T)
    requires k in FirstSeen(key, xs)
    ensures x in xs && key(x) == k
  {
    var n := |xs| - 1;
    if key(xs[n]) == k { x := xs[n]; } else { x := SeenHasElement(key, xs[..n], k); }
  }

  /** `f` where the key is `k`, zero elsewhere. */
  function Only<T, K(==)>(key: T -> K, f: T -> int, k: K): T -> int
  {
    x => if key(x) == k then f(x) else 0
  }

  /** `f` where the key is among `ks`, zero elsewhere. */
  function Among<T, K(==)>(key: T -> K, f: T -> int, ks: seq<K>): T -> int
  {
    x => if key(x) in ks then f(x) else 0
  }

  function SumAt<T, K(==)>(key: T -> K, f: T -> int, xs: seq<T>): K -> int
  {
    k => Sum(Only(key, f, k), xs)
  }

  lemma {:induction false} SumAtStep<T, K>(key: T -> K, f: T -> int, k: K, xs: seq<T>, x: T)
    ensures SumAt(key, f, xs + [x])(k) == SumAt(key, f, xs)(k) + if key(x) == k then f(x) else 0
  {
    SumSnoc(Only(key, f, k), xs, x);
  }

  lemma {:induction false} FirstSeenStep<T, K>(key: T -> K, xs: seq<T>, x: T)
    ensures FirstSeen(key, xs + [x]) == FirstSeen(key, xs) + if key(x) in FirstSeen(key, xs) then [] else [key(x)]
  {
    assert (xs + [x])[..|xs|] == xs;
  }

  lemma {:induction false} GroupsStep<T, K>(key: T -> K, f: T -> int, ks: seq<K>, xs: seq<T>, x: T)
    requires Distinct(ks)
    ensures Sum(SumAt(key, f, xs + [x]), ks) == Sum(SumAt(key, f, xs), ks) + Among(key, f, ks)(x)
  {
    if ks != [] {
      var n := |ks| - 1;
      GroupsStep(key, f, ks[..n], xs, x);
      SumSnoc(Only(key, f, ks[n]), xs, x);
      assert ks == ks[..n] + [ks[n]];
    }
  }

  lemma {:induction false} EmptyGroups<T, K>(key: T -> K, f: T -> int, ks: seq<K>)
    ensures Sum(SumAt(key, f, []), ks) == 0
  {
    if ks != [] { EmptyGroups(key, f, ks[..|ks| - 1]); }
  }

  /** The sums of distinct groups add up to the sum over the elements in those groups. */
  lemma {:induction false} GroupsAddUp<T, K>(key: T -> K, f: T -> int, ks: seq<K>, xs: seq<T>)
    requires Distinct(ks)
    ensures Sum(SumAt(key, f, xs), ks) == Sum(Among(key, f, ks), xs)
  {
    if xs == [] {
      EmptyGroups(key, f, ks);
    } else {
      var n := |xs| - 1;
      GroupsAddUp(key, f, ks, xs[..n]);
      GroupsStep(key, f, ks, xs[..n], xs[n]);
      assert xs == xs[..n] + [xs[n]];
    }
  }

  /** If every key is there, nothing is missing. */
  lemma {:induction false} AllGroups<T, K>(key: T -> K, f: T -> int, ks: seq<K>, xs: seq<T>)
    requires Distinct(ks) && forall x :: x in xs ==> key(x) in ks
    ensures Sum(SumAt(key, f, xs), ks) == Sum(f, xs)
  {
    GroupsAddUp(key, f, ks, xs);
    AllAmong(key, f, ks, xs);
  }

  lemma {:induction false} AllAmong<T, K>(key: T -> K, f: T -> int, ks: seq<K>, xs: seq<T>)
    requires forall x :: x in xs ==> key(x) in ks
    ensures Sum(Among(key, f, ks), xs) == Sum(f, xs)
  {
    if xs != [] { AllAmong(key, f, ks, xs[..|xs| - 1]); }
  }

  /** Summing a column of the output is summing over its keys. */
  lemma {:induction false} Column<R, K>(col: R -> int, g: K -> int, rows: seq<R>, ks: seq<K>)
    requires |rows| == |ks| && forall i :: 0 <= i < |rows| ==> col(rows[i]) == g(ks[i])
    ensures Sum(col, rows) == Sum(g, ks)
  {
    if rows != [] { Column(col, g, rows[..|rows| - 1], ks[..|ks| - 1]); }
  }

  function Filter<T>(p: T -> bool, xs: seq<T>): (ys: seq<T>)
  {
    if xs == [] then []
    else
      var n := |xs| - 1;
      if p(xs[n]) then Filter(p, xs[..n]) + [xs[n]] else Filter(p, xs[..n])
  }

  lemma {:induction false} FilterMember<T>(p: T -> bool, xs: seq<T>, x: T)
    ensures x in Filter(p, xs) <==> x in xs && p(x)
  {
    if xs != [] {
      var n := |xs| - 1;
      FilterMember(p, xs[..n], x);
      assert xs == xs[..n] + [xs[n]];
    }
  }

  lemma {:induction false} FilterDistinct<T>(p: T -> bool, xs: seq<T>)
    requires Distinct(xs)
    ensures Distinct(Filter(p, xs))
  {
    if xs != [] {
      var n := |xs| - 1;
      FilterDistinct(p, xs[..n]);
      var ys := Filter(p, xs[..n]);
      forall i | 0 <= i < |ys| ensures ys[i] != xs[n] {
        FilterMember(p, xs[..n], ys[i]);
        var k :| 0 <= k < n && xs[..n][k] == ys[i];
        assert xs[k] == ys[i];
      }
    }
  }

  lemma {:induction false} FilterSnoc<T>(p: T -> bool, xs: seq<T>, x: T)
    ensures Filter(p, xs + [x]) == Filter(p, xs) + if p(x) then [x] else []
  {
    assert (xs + [x])[..|xs|] == xs;
  }

  lemma {:induction false} FilterAll<T>(p: T -> bool, xs: seq<T>)
    requires forall i :: 0 <= i < |xs| ==> p(xs[i])
    ensures Filter(p, xs) == xs
  {
    if xs != [] {
      var n := |xs| - 1;
      assert forall i :: 0 <= i < n ==> xs[..n][i] == xs[i];
      FilterAll(p, xs[..n]);
      assert xs == xs[..n] + [xs[n]];
    }
  }

  /** Filtering keeps the order. */
  lemma {:induction false} FilterOrdered<T>(p: T -> bool, xs: seq<T>, i: nat, j: nat) returns (a: nat, b: nat)
    requires i < j < |Filter(p, xs)|
    ensures a < b < |xs| && xs[a] == Filter(p, xs)[i] && xs[b] == Filter(p, xs)[j]
  {
    var n := |xs| - 1;
    if j < |Filter(p, xs[..n])| {
      a, b := FilterOrdered(p, xs[..n], i, j);
    } else {
      FilterMember(p, xs[..n], Filter(p, xs[..n])[i]);
      var k: nat :| k < n && xs[..n][k] == Filter(p, xs[..n])[i];
      a, b := k, n;
    }
  }

  /** Keys come in the order of their first occurrences. */
  lemma {:induction false} FirstSeenOrdered<T, K>(key: T -> K, xs: seq<T>, i: nat) returns (a: nat)
    requires i < |FirstSeen(key, xs)|
    ensures a < |xs| && key(xs[a]) == FirstSeen(key, xs)[i]
    ensures forall b :: 0 <= b < a ==> key(xs[b]) in FirstSeen(key, xs)[..i]
  {
    var n := |xs| - 1;
    var ks := FirstSeen(key, xs[..n]);
    if i < |ks| {
      a := FirstSeenOrdered(key, xs[..n], i);
      assert FirstSeen(key, xs)[..i] == ks[..i];
    } else {
      a := n;
      forall b | 0 <= b < n ensures key(xs[b]) in FirstSeen(key, xs)[..i] {
        assert xs[..n][b] == xs[b];
        KeyIsSeen(key, xs[..n], xs[b]);
        assert FirstSeen(key, xs)[..i] == ks;
      }
    }
  }
}
