/**
 * Grouping a list of (key, amount) entries into one total per key, groups in order of the first
 * entry of each key: the category `reduce` of the admin report page, and the shape of a
 * `.values(field).annotate(total=Count("id"))` query before it is ordered.
 */
module Grouping {

  datatype Group<K> = Group(key: K, total: int)

  /** `acc.find(item => item.key === k)`, as an index; -1 when no group has the key. */
  function IndexOf<K(==)>(gs: seq<Group<K>>, k: K): (i: int)
    ensures -1 <= i < |gs|
    ensures i >= 0 ==> gs[i].key == k && forall j :: 0 <= j < i ==> gs[j].key != k
    ensures i < 0 ==> forall j :: 0 <= j < |gs| ==> gs[j].key != k
  {
    if gs == [] then -1
    else if gs[0].key == k then 0
    else
      var i := IndexOf(gs[1..], k);
      if i < 0 then -1 else i + 1
  }

  /** One step of the reduce: add to the existing group of the key, or append a new group. */
  function AddEntry<K(==)>(gs: seq<Group<K>>, k: K, v: int): (r: seq<Group<K>>)
    ensures IndexOf(gs, k) >= 0 ==> |r| == |gs|
    ensures IndexOf(gs, k) < 0 ==> |r| == |gs| + 1 && r[..|gs|] == gs
  {
    var i := IndexOf(gs, k);
    if i >= 0 then gs[i := Group(k, gs[i].total + v)] else gs + [Group(k, v)]
  }

  /** The whole reduce, from an empty accumulator. */
  function GroupSum<K(==)>(es: seq<(K, int)>): seq<Group<K>> {
    if es == [] then [] else AddEntry(GroupSum(es[..|es| - 1]), es[|es| - 1].0, es[|es| - 1].1)
  }

  predicate DistinctKeys<K(==)>(gs: seq<Group<K>>) {
    forall i, j :: 0 <= i < j < |gs| ==> gs[i].key != gs[j].key
  }

  /** The sum of the amounts of the entries with key `k`. */
  function SumFor<K(==)>(es: seq<(K, int)>, k: K): int {
    if es == [] then 0 else SumFor(es[..|es| - 1], k) + (if es[|es| - 1].0 == k then es[|es| - 1].1 else 0)
  }

  function SumAll<K>(es: seq<(K, int)>): int {
    if es == [] then 0 else SumAll(es[..|es| - 1]) + es[|es| - 1].1
  }

  function TotalOf<K>(gs: seq<Group<K>>): int {
    if gs == [] then 0 else TotalOf(gs[..|gs| - 1]) + gs[|gs| - 1].total
  }

  /** The position of the first entry with key `k`; |es| when there is none. */
  function FirstAt<K(==)>(es: seq<(K, int)>, k: K): (n: nat)
    ensures n <= |es|
    ensures n < |es| ==> es[n].0 == k
    ensures forall j :: 0 <= j < n ==> es[j].0 != k
  {
    if es == [] then 0 else if es[0].0 == k then 0 else FirstAt(es[1..], k) + 1
  }

  /** The first position of a key is the one position holding it with no earlier position holding it. */
  lemma {:induction false} FirstAtIs<K>(es: seq<(K, int)>, k: K, n: nat)
    requires n <= |es| && (n < |es| ==> es[n].0 == k)
    requires forall j :: 0 <= j < n ==> es[j].0 != k
    ensures FirstAt(es, k) == n
  {
    if n > 0 {
      assert es[0].0 != k;
      FirstAtIs(es[1..], k, n - 1);
    }
  }

  /** Appending an entry keeps the first position of a key that already occurred... */
  lemma FirstAtPrefix<K>(es: seq<(K, int)>, k: K)
    requires es != [] && FirstAt(es[..|es| - 1], k) < |es| - 1
    ensures FirstAt(es, k) == FirstAt(es[..|es| - 1], k)
  {
    var front := es[..|es| - 1];
    var n := FirstAt(front, k);
    assert es[n] == front[n];
    forall j | 0 <= j < n ensures es[j].0 != k { assert es[j] == front[j]; }
    FirstAtIs(es, k, n);
  }

  /** ...and the first entry of a new key is the appended one. */
  lemma FirstAtLast<K>(es: seq<(K, int)>, k: K)
    requires es != [] && FirstAt(es[..|es| - 1], k) == |es| - 1
    ensures FirstAt(es, k) == if es[|es| - 1].0 == k then |es| - 1 else |es|
  {
    var front := es[..|es| - 1];
    forall j | 0 <= j < |es| - 1 ensures es[j].0 != k { assert es[j] == front[j]; }
    FirstAtIs(es, k, if es[|es| - 1].0 == k then |es| - 1 else |es|);
  }

  /** Every key that occurs has exactly one group, and no other group exists. */
  lemma {:induction false} GroupSumKeys<K>(es: seq<(K, int)>)
    ensures DistinctKeys(GroupSum(es))
    ensures forall k :: IndexOf(GroupSum(es), k) >= 0 <==> FirstAt(es, k) < |es|
  {
    if es != [] {
      var front := es[..|es| - 1];
      var (k, v) := es[|es| - 1];
      GroupSumKeys(front);
      var gs := GroupSum(front);
      var r := GroupSum(es);
      assert r == AddEntry(gs, k, v);
      forall x ensures IndexOf(r, x) >= 0 <==> FirstAt(es, x) < |es| {
        if FirstAt(front, x) < |front| {
          FirstAtPrefix(es, x);
          assert gs[IndexOf(gs, x)].key == x;
          assert r[IndexOf(gs, x)].key == x;
        } else if x == k {
          FirstAtLast(es, x);
          if IndexOf(gs, k) < 0 { assert r[|gs|].key == k; }
        } else {
          FirstAtLast(es, x);
          forall j | 0 <= j < |r| ensures r[j].key != x {
            if j < |gs| { assert r[j].key == gs[j].key; }
          }
        }
      }
    }
  }

  /** Each group's total is the sum of the amounts of its key's entries. */
  lemma {:induction false} GroupSumTotals<K>(es: seq<(K, int)>, k: K)
    ensures IndexOf(GroupSum(es), k) >= 0 ==> GroupSum(es)[IndexOf(GroupSum(es), k)].total == SumFor(es, k)
  {
    if es != [] {
      var front := es[..|es| - 1];
      var (x, v) := es[|es| - 1];
      GroupSumTotals(front, k);
      GroupSumKeys(front);
      GroupSumKeys(es);
      var gs := GroupSum(front);
      var r := GroupSum(es);
      assert r == AddEntry(gs, x, v);
      var i := IndexOf(gs, k);
      if i >= 0 {
        assert IndexOf(r, k) == i by {
          forall j | 0 <= j < i ensures r[j].key != k {
            assert r[j].key == gs[j].key;
          }
          assert r[i].key == k;
        }
      } else if x == k {
        assert IndexOf(r, k) == |gs|;
        assert SumFor(front, k) == 0 by { SumForAbsent(front, k); }
      }
    }
  }

  lemma {:induction false} SumForAbsent<K>(es: seq<(K, int)>, k: K)
    requires FirstAt(es, k) == |es|
    ensures SumFor(es, k) == 0
  {
    if es != [] {
      var front := es[..|es| - 1];
      assert FirstAt(front, k) == |front| by {
        forall j | 0 <= j < |front| ensures front[j].0 != k { assert front[j] == es[j]; }
      }
      SumForAbsent(front, k);
    }
  }

  /** No amount is lost or counted twice: the groups add up to the entries. */
  lemma {:induction false} GroupSumGrandTotal<K>(es: seq<(K, int)>)
    ensures TotalOf(GroupSum(es)) == SumAll(es)
  {
    if es != [] {
      var front := es[..|es| - 1];
      var (k, v) := es[|es| - 1];
      GroupSumGrandTotal(front);
      var gs := GroupSum(front);
      var i := IndexOf(gs, k);
      if i >= 0 {
        TotalUpdate(gs, i, Group(k, gs[i].total + v));
      } else {
        assert (gs + [Group(k, v)])[..|gs|] == gs;
      }
    }
  }

  lemma {:induction false} TotalUpdate<K>(gs: seq<Group<K>>, i: nat, g: Group<K>)
    requires i < |gs|
    ensures TotalOf(gs[i := g]) == TotalOf(gs) - gs[i].total + g.total
  {
    var n := |gs|;
    if i < n - 1 {
      TotalUpdate(gs[..n - 1], i, g);
      assert gs[i := g][..n - 1] == gs[..n - 1][i := g];
    } else {
      assert gs[i := g][..n - 1] == gs[..n - 1];
    }
  }

  /** Groups in the order of the first entry of their key, every key occurring. */
  predicate InFirstOrder<K(==)>(es: seq<(K, int)>, gs: seq<Group<K>>) {
    forall i, j :: 0 <= i < j < |gs| ==> FirstAt(es, gs[i].key) < FirstAt(es, gs[j].key) < |es|
  }

  /** Groups appear in the order of the first entry of their key. */
  lemma {:induction false} GroupSumOrder<K>(es: seq<(K, int)>)
    ensures InFirstOrder(es, GroupSum(es))
  {
    if es != [] {
      var front := es[..|es| - 1];
      var (k, v) := es[|es| - 1];
      GroupSumOrder(front);
      GroupSumKeys(front);
      var gs := GroupSum(front);
      var r := GroupSum(es);
      assert r == AddEntry(gs, k, v);
      forall i | 0 <= i < |gs| ensures FirstAt(es, gs[i].key) == FirstAt(front, gs[i].key) < |front| {
        assert IndexOf(gs, gs[i].key) >= 0;
        FirstAtPrefix(es, gs[i].key);
      }
      if IndexOf(gs, k) < 0 {
        FirstAtLast(es, k);
        assert r == gs + [Group(k, v)];
        forall i, j | 0 <= i < j < |r| ensures FirstAt(es, r[i].key) < FirstAt(es, r[j].key) < |es| {
          assert r[i] == gs[i];
          if j < |gs| { assert r[j] == gs[j]; }
        }
      } else {
        forall i, j | 0 <= i < j < |r| ensures FirstAt(es, r[i].key) < FirstAt(es, r[j].key) < |es| {
          assert r[i].key == gs[i].key && r[j].key == gs[j].key;
        }
      }
    }
  }
}
