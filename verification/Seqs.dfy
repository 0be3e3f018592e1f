/** Filtering, and sums of multisets over sequences. */
module Seqs {

  predicate NoDup<T(==)>(xs: seq<T>) { forall i, j :: 0 <= i < j < |xs| ==> xs[i] != xs[j] }

  function Elems<T>(xs: seq<T>): set<T> { set x | x in xs }

  function Filter<T>(xs: seq<T>, p: T -> bool): seq<T> {
    if xs == [] then []
    else
      var n := |xs| - 1;
      if p(xs[n]) then Filter(xs[..n], p) + [xs[n]] else Filter(xs[..n], p)
  }

  lemma {:induction false} FilterElems<T>(xs: seq<T>, p: T -> bool)
    ensures forall x :: x in Filter(xs, p) <==> x in xs && p(x)
  {
    if xs != [] {
      var n := |xs| - 1;
      FilterElems(xs[..n], p);
      assert xs == xs[..n] + [xs[n]];
    }
  }

  lemma FilterPrefix<T>(xs: seq<T>, i: nat, p: T -> bool)
    requires i < |xs|
    ensures Filter(xs[..i + 1], p) == if p(xs[i]) then Filter(xs[..i], p) + [xs[i]] else Filter(xs[..i], p)
  {
    assert xs[..i + 1][..i] == xs[..i];
  }

  function Both<T>(p: T -> bool, q: T -> bool): T -> bool { x => p(x) && q(x) }

  lemma {:induction false} FilterTwice<T>(xs: seq<T>, p: T -> bool, q: T -> bool)
    ensures Filter(Filter(xs, p), q) == Filter(xs, Both(p, q))
  {
    if xs != [] {
      var n := |xs| - 1;
      FilterTwice(xs[..n], p, q);
      FilterOfAppend(Filter(xs[..n], p), xs[n], q);
    }
  }

  lemma FilterOfAppend<T>(xs: seq<T>, x: T, q: T -> bool)
    ensures Filter(xs + [x], q) == if q(x) then Filter(xs, q) + [x] else Filter(xs, q)
  {
    assert (xs + [x])[..|xs|] == xs;
  }

  ghost predicate Aligned<T, U>(xs: seq<T>, ys: seq<U>, r: (T, U) -> bool) {
    |xs| == |ys| && forall i :: 0 <= i < |xs| ==> r(xs[i], ys[i])
  }

  /** Filtering two aligned sequences by agreeing predicates keeps them aligned. */
  lemma {:induction false} FilterAligned<T, U>(xs: seq<T>, ys: seq<U>, p: T -> bool, q: U -> bool, r: (T, U) -> bool,
      s: (T, U) -> bool)
    requires Aligned(xs, ys, r) && (forall i :: 0 <= i < |xs| ==> p(xs[i]) == q(ys[i]))
    requires forall i :: 0 <= i < |xs| && p(xs[i]) ==> s(xs[i], ys[i])
    ensures Aligned(Filter(xs, p), Filter(ys, q), s)
  {
    if xs != [] {
      var n := |xs| - 1;
      FilterAligned(xs[..n], ys[..n], p, q, r, s);
      assert p(xs[n]) == q(ys[n]);
    }
  }

  /** The multiset union of f over the elements of xs, repetitions counted. */
  ghost function Sum<T, C>(xs: seq<T>, f: T -> multiset<C>): multiset<C> {
    if xs == [] then multiset{} else Sum(xs[..|xs| - 1], f) + f(xs[|xs| - 1])
  }

  lemma {:induction false} SumEqual<T, U, C>(xs: seq<T>, ys: seq<U>, f: T -> multiset<C>, g: U -> multiset<C>)
    requires |xs| == |ys| && forall i :: 0 <= i < |xs| ==> f(xs[i]) == g(ys[i])
    ensures Sum(xs, f) == Sum(ys, g)
  {
    if xs != [] { SumEqual(xs[..|xs| - 1], ys[..|ys| - 1], f, g); }
  }

  lemma {:induction false} SumRemove<T, C>(xs: seq<T>, k: nat, f: T -> multiset<C>)
    requires k < |xs|
    ensures Sum(xs, f) == Sum(xs[..k] + xs[k + 1..], f) + f(xs[k])
  {
    var n := |xs| - 1;
    if k < n {
      SumRemove(xs[..n], k, f);
      var ys := xs[..k] + xs[k + 1..];
      assert ys[..|ys| - 1] == xs[..n][..k] + xs[..n][k + 1..];
      assert ys[|ys| - 1] == xs[n];
    } else {
      assert xs[..k] + xs[k + 1..] == xs[..n];
    }
  }

  /** A duplicate-free sum depends only on the elements with a non-empty contribution. */
  lemma {:induction false} SumSupport<T, C>(xs: seq<T>, ys: seq<T>, f: T -> multiset<C>)
    requires NoDup(xs) && NoDup(ys)
    requires forall x :: x in xs && f(x) != multiset{} ==> x in ys
    requires forall y :: y in ys && f(y) != multiset{} ==> y in xs
    ensures Sum(xs, f) == Sum(ys, f)
  {
    if xs == [] {
      SumEmpty(ys, f);
    } else {
      var n := |xs| - 1;
      var x := xs[n];
      if f(x) == multiset{} {
        SumSupport(xs[..n], ys, f);
      } else {
        var k :| 0 <= k < |ys| && ys[k] == x;
        var zs := ys[..k] + ys[k + 1..];
        SumRemove(ys, k, f);
        forall z | z in zs && f(z) != multiset{} ensures z in xs[..n] {
          assert z in ys && z != x;
        }
        forall z | z in xs[..n] && f(z) != multiset{} ensures z in zs {
          assert z in ys && z != x;
        }
        SumSupport(xs[..n], zs, f);
      }
    }
  }

  lemma {:induction false} SumEmpty<T, C>(xs: seq<T>, f: T -> multiset<C>)
    requires forall x :: x in xs ==> f(x) == multiset{}
    ensures Sum(xs, f) == multiset{}
  {
    if xs != [] { SumEmpty(xs[..|xs| - 1], f); }
  }

  lemma {:induction false} SumPlus<T, C>(xs: seq<T>, f: T -> multiset<C>, g: T -> multiset<C>, h: T -> multiset<C>)
    requires forall x :: x in xs ==> h(x) == f(x) + g(x)
    ensures Sum(xs, h) == Sum(xs, f) + Sum(xs, g)
  {
    if xs != [] { SumPlus(xs[..|xs| - 1], f, g, h); }
  }

  function GridRow<T, U, C>(f: (T, U) -> multiset<C>, x: T): U -> multiset<C> { y => f(x, y) }

  function GridColumn<T, U, C>(f: (T, U) -> multiset<C>, y: U): T -> multiset<C> { x => f(x, y) }

  ghost function RowSum<T, U, C>(ys: seq<U>, f: (T, U) -> multiset<C>): T -> multiset<C> { x => Sum(ys, GridRow(f, x)) }

  ghost function ColumnSum<T, U, C>(xs: seq<T>, f: (T, U) -> multiset<C>): U -> multiset<C> {
    y => Sum(xs, GridColumn(f, y))
  }

  /** Summing by rows or by columns is the same. */
  lemma {:induction false} SumSwap<T, U, C>(xs: seq<T>, ys: seq<U>, f: (T, U) -> multiset<C>)
    ensures Sum(xs, RowSum(ys, f)) == Sum(ys, ColumnSum(xs, f))
  {
    if xs == [] {
      SumEmpty(ys, ColumnSum(xs, f));
    } else {
      var n := |xs| - 1;
      SumSwap(xs[..n], ys, f);
      SumPlus(ys, ColumnSum(xs[..n], f), GridRow(f, xs[n]), ColumnSum(xs, f));
    }
  }

  function Compose<T, U, V>(f: U -> V, h: T -> U): T -> V { x => f(h(x)) }

  lemma SumCompose<T, U, C>(xs: seq<T>, ys: seq<U>, f: U -> multiset<C>, h: T -> U)
    requires |xs| == |ys| && forall i :: 0 <= i < |xs| ==> ys[i] == h(xs[i])
    ensures Sum(ys, f) == Sum(xs, Compose(f, h))
  {
    SumEqual(ys, xs, f, Compose(f, h));
  }

  function MapKept<T, U>(xs: seq<T>, live: T -> bool, k: T -> U): seq<U> {
    if xs == [] then []
    else
      var n := |xs| - 1;
      if live(xs[n]) then MapKept(xs[..n], live, k) + [k(xs[n])] else MapKept(xs[..n], live, k)
  }

  lemma {:induction false} MapKeptElems<T, U>(xs: seq<T>, live: T -> bool, k: T -> U)
    ensures forall u :: u in MapKept(xs, live, k) ==> exists i :: 0 <= i < |xs| && live(xs[i]) && k(xs[i]) == u
    ensures forall i :: 0 <= i < |xs| && live(xs[i]) ==> k(xs[i]) in MapKept(xs, live, k)
  {
    if xs != [] {
      var n := |xs| - 1;
      MapKeptElems(xs[..n], live, k);
      forall u | u in MapKept(xs, live, k) ensures exists i :: 0 <= i < |xs| && live(xs[i]) && k(xs[i]) == u {
        if u in MapKept(xs[..n], live, k) {
          var i :| 0 <= i < n && live(xs[..n][i]) && k(xs[..n][i]) == u;
          assert live(xs[i]) && k(xs[i]) == u;
        } else {
          assert live(xs[n]) && k(xs[n]) == u;
        }
      }
      forall i | 0 <= i < |xs| && live(xs[i]) ensures k(xs[i]) in MapKept(xs, live, k) {
        if i < n { assert xs[..n][i] == xs[i]; }
      }
    }
  }

  ghost predicate DistinctUnder<T, U>(xs: seq<T>, live: T -> bool, k: T -> U) {
    forall i, j :: 0 <= i < j < |xs| && live(xs[i]) && live(xs[j]) ==> k(xs[i]) != k(xs[j])
  }

  lemma {:induction false} SumMapKept<T, U, C>(xs: seq<T>, live: T -> bool, k: T -> U, f: T -> multiset<C>,
      g: U -> multiset<C>)
    requires forall x :: x in xs ==> f(x) == if live(x) then g(k(x)) else multiset{}
    requires DistinctUnder(xs, live, k)
    ensures Sum(xs, f) == Sum(MapKept(xs, live, k), g) && NoDup(MapKept(xs, live, k))
  {
    if xs != [] {
      var n := |xs| - 1;
      var ys := MapKept(xs[..n], live, k);
      forall x | x in xs[..n] ensures x in xs {}
      SumMapKept(xs[..n], live, k, f, g);
      MapKeptElems(xs[..n], live, k);
      assert xs[n] in xs;
      if live(xs[n]) {
        assert k(xs[n]) !in ys;
        assert (ys + [k(xs[n])])[..|ys|] == ys;
      }
    }
  }

  /** Sums over two index sets related one to one, up to elements that contribute nothing. */
  lemma SumBijection<T, U, C>(xs: seq<T>, ys: seq<U>, live: T -> bool, k: T -> U, f: T -> multiset<C>,
      g: U -> multiset<C>)
    requires NoDup(ys) && DistinctUnder(xs, live, k)
    requires forall x :: x in xs ==> f(x) == if live(x) then g(k(x)) else multiset{}
    requires forall x :: x in xs && live(x) ==> k(x) in ys
    requires forall y :: y in ys && g(y) != multiset{} ==> exists i :: 0 <= i < |xs| && live(xs[i]) && k(xs[i]) == y
    ensures Sum(xs, f) == Sum(ys, g)
  {
    SumMapKept(xs, live, k, f, g);
    MapKeptElems(xs, live, k);
    SumSupport(MapKept(xs, live, k), ys, g);
  }

  lemma {:induction false} SumAppend<T, C>(xs: seq<T>, ys: seq<T>, f: T -> multiset<C>)
    ensures Sum(xs + ys, f) == Sum(xs, f) + Sum(ys, f)
  {
    if ys == [] {
      assert xs + ys == xs;
    } else {
      var n := |ys| - 1;
      SumAppend(xs, ys[..n], f);
      assert (xs + ys)[..|xs + ys| - 1] == xs + ys[..n];
    }
  }

  predicate Ascends(at: seq<nat>) { forall i, j :: 0 <= i < j < |at| ==> at[i] < at[j] }

  lemma {:induction false} FilterUnique<T>(xs: seq<T>, p: T -> bool, k: nat)
    requires k < |xs| && forall i :: 0 <= i < |xs| ==> (p(xs[i]) <==> i == k)
    ensures Filter(xs, p) == [xs[k]]
  {
    var n := |xs| - 1;
    if k < n { FilterUnique(xs[..n], p, k); } else { FilterNone(xs[..n], p); }
  }

  lemma {:induction false} FilterNone<T>(xs: seq<T>, p: T -> bool)
    requires forall i :: 0 <= i < |xs| ==> !p(xs[i])
    ensures Filter(xs, p) == []
  {
    if xs != [] { FilterNone(xs[..|xs| - 1], p); }
  }

  /** When `p` accepts the image of one key only, filtering the images keeps that key's image or nothing. */
  lemma FilterByKey<K, V>(keys: seq<K>, image: seq<V>, p: V -> bool, want: K, found: V)
    requires |keys| == |image| && NoDup(keys)
    requires forall i :: 0 <= i < |keys| ==> (p(image[i]) <==> keys[i] == want)
    requires forall i :: 0 <= i < |keys| && keys[i] == want ==> image[i] == found
    ensures Filter(image, p) == if want in keys then [found] else []
  {
    if want in keys {
      var k :| 0 <= k < |keys| && keys[k] == want;
      FilterUnique(image, p, k);
    } else {
      FilterNone(image, p);
    }
  }
}
