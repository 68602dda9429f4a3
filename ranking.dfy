/**
 * Rankings (core/api_views.py): `list.sort(key=..., reverse=True)` on the per-student,
 * per-trainer and per-gym rows, and `order_by("-total")` on grouped counts, followed by a
 * `[:n]` cut. Python's sort is stable, also in reverse, so rows with equal keys keep the order in
 * which they were appended.
 */
module Ranking {

  /** Puts `x`, which came before every element of `ys`, in front of the first one whose key is not greater. */
  function Insert<T>(x: T, ys: seq<T>, key: T -> int): (r: seq<T>)
    ensures multiset(r) == multiset(ys) + multiset{x}
    ensures |r| == |ys| + 1
    ensures r[0] == x || (ys != [] && r[0] == ys[0])
  {
    if ys == [] || key(ys[0]) <= key(x) then [x] + ys
    else
      assert ys == [ys[0]] + ys[1..];
      [ys[0]] + Insert(x, ys[1..], key)
  }

  /** `sorted(xs, key=key, reverse=True)`. */
  function SortDesc<T>(xs: seq<T>, key: T -> int): (r: seq<T>)
    ensures multiset(r) == multiset(xs)
    ensures |r| == |xs|
  {
    if xs == [] then []
    else
      assert xs == [xs[0]] + xs[1..];
      Insert(xs[0], SortDesc(xs[1..], key), key)
  }

  /** Every element of the sorted sequence comes from the input. */
  lemma SortDescMembers<T>(xs: seq<T>, key: T -> int)
    ensures forall i :: 0 <= i < |SortDesc(xs, key)| ==> SortDesc(xs, key)[i] in xs
  {
    var r := SortDesc(xs, key);
    forall i | 0 <= i < |r| ensures r[i] in xs {
      assert r[i] in multiset(r);
    }
  }

  /** Keys never increase along the sequence. */
  predicate Descending<T>(ys: seq<T>, key: T -> int) {
    forall i, j :: 0 <= i < j < |ys| ==> key(ys[i]) >= key(ys[j])
  }

  /** The elements with key `v`, in their order. */
  function WithKey<T>(ys: seq<T>, key: T -> int, v: int): seq<T> {
    if ys == [] then [] else (if key(ys[0]) == v then [ys[0]] else []) + WithKey(ys[1..], key, v)
  }

  lemma {:induction false} InsertDescending<T>(x: T, ys: seq<T>, key: T -> int)
    requires Descending(ys, key)
    ensures Descending(Insert(x, ys, key), key)
  {
    if ys != [] && key(ys[0]) > key(x) {
      InsertDescending(x, ys[1..], key);
      var tail := Insert(x, ys[1..], key);
      assert Insert(x, ys, key) == [ys[0]] + tail;
      assert key(ys[0]) >= key(tail[0]);
    }
  }

  /** Inserting `x` puts it ahead of every element with the same key. */
  lemma {:induction false} InsertWithKey<T>(x: T, ys: seq<T>, key: T -> int, v: int)
    ensures WithKey(Insert(x, ys, key), key, v) == (if key(x) == v then [x] else []) + WithKey(ys, key, v)
  {
    if ys == [] || key(ys[0]) <= key(x) {
      assert Insert(x, ys, key) == [x] + ys;
      WithKeyCons(x, ys, key, v);
    } else {
      var tail := Insert(x, ys[1..], key);
      assert Insert(x, ys, key) == [ys[0]] + tail;
      WithKeyCons(ys[0], tail, key, v);
      InsertWithKey(x, ys[1..], key, v);
      assert [ys[0]] + ys[1..] == ys;
      WithKeyCons(ys[0], ys[1..], key, v);
    }
  }

  /** The elements with key `v` of a sequence with one more element in front. */
  lemma WithKeyCons<T>(a: T, s: seq<T>, key: T -> int, v: int)
    ensures WithKey([a] + s, key, v) == (if key(a) == v then [a] else []) + WithKey(s, key, v)
  {
    assert ([a] + s)[0] == a && ([a] + s)[1..] == s;
  }

  /** The result is in descending key order. */
  lemma {:induction false} SortDescOrdered<T>(xs: seq<T>, key: T -> int)
    ensures Descending(SortDesc(xs, key), key)
  {
    if xs != [] {
      SortDescOrdered(xs[1..], key);
      InsertDescending(xs[0], SortDesc(xs[1..], key), key);
    }
  }

  /** Stability: the rows with any one key come out in the order they went in. */
  lemma {:induction false} SortDescStable<T>(xs: seq<T>, key: T -> int, v: int)
    ensures WithKey(SortDesc(xs, key), key, v) == WithKey(xs, key, v)
  {
    if xs != [] {
      SortDescStable(xs[1..], key, v);
      InsertWithKey(xs[0], SortDesc(xs[1..], key), key, v);
    }
  }

  /** `[:n]`. */
  function Take<T>(xs: seq<T>, n: nat): (r: seq<T>)
    ensures |r| == if |xs| <= n then |xs| else n
    ensures r <= xs
  {
    if |xs| <= n then xs else xs[..n]
  }

  /**
   * The top n of a ranking: at most n rows, in descending order, and no row left out has a
   * greater key than a row kept.
   */
  lemma TopRows<T>(xs: seq<T>, key: T -> int, n: nat)
    ensures var s := SortDesc(xs, key);
      && |Take(s, n)| <= n
      && Descending(Take(s, n), key)
      && (forall i, j :: 0 <= i < |Take(s, n)| <= j < |s| ==> key(s[i]) >= key(s[j]))
  {
    SortDescOrdered(xs, key);
  }

  /**
   * The top n of a ranking are rows of the input, and a row left out ranks no higher than the
   * last row kept, which happens only when n rows were kept.
   */
  lemma TopMembers<T>(xs: seq<T>, key: T -> int, n: nat)
    ensures var top := Take(SortDesc(xs, key), n);
      && (forall i :: 0 <= i < |top| ==> top[i] in xs)
      && (forall x :: x in xs && x !in top ==> |top| == n && (n > 0 ==> key(x) <= key(top[n - 1])))
  {
    var s := SortDesc(xs, key);
    var top := Take(s, n);
    SortDescOrdered(xs, key);
    assert forall m :: 0 <= m < |top| ==> top[m] == s[m];
    forall i | 0 <= i < |top| ensures top[i] in xs {
      assert s[i] in multiset(xs);
    }
    forall x | x in xs && x !in top ensures |top| == n && (n > 0 ==> key(x) <= key(top[n - 1])) {
      assert x in multiset(s);
      var k :| 0 <= k < |s| && s[k] == x;
      assert k >= |top|;
    }
  }
}
