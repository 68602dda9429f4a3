/**
 * The query shapes the report views share: the rows of a table in the order this model gives a
 * queryset (ascending primary key), and the grouped count
 * `.values(field).annotate(total=Count("id")).order_by("-total")`. The database leaves the order of
 * equal totals unspecified; the model puts them in the order of each value's first row.
 */
module Queries {
  import opened Domain
  import opened Grouping
  import opened Ranking

  /** The members of `s` below `n`, ascending. */
  function AscendingBelow(s: set<Id>, n: nat): (r: seq<Id>)
    ensures forall i :: 0 <= i < |r| ==> r[i] in s && r[i] < n
    ensures forall i, j :: 0 <= i < j < |r| ==> r[i] < r[j]
    ensures forall k :: k in s && k < n ==> k in r
  {
    if n == 0 then [] else AscendingBelow(s, n - 1) + (if n - 1 in s then [n - 1] else [])
  }

  /** The primary keys of a set of rows, in queryset order; `bound` is above every key. */
  function Rows(s: set<Id>, bound: Id): (r: seq<Id>)
    requires forall k :: k in s ==> k < bound
    ensures forall k :: k in r <==> k in s
    ensures forall i, j :: 0 <= i < j < |r| ==> r[i] != r[j]
    ensures |r| == |s|
  {
    var r := AscendingBelow(s, bound);
    DistinctCard(r, s);
    r
  }

  /** A sequence without repetitions has as many elements as the set of its elements. */
  lemma {:induction false} DistinctCard(r: seq<Id>, s: set<Id>)
    requires forall k :: k in r <==> k in s
    requires forall i, j :: 0 <= i < j < |r| ==> r[i] < r[j]
    ensures |r| == |s|
  {
    if r != [] {
      var last := r[|r| - 1];
      var front := r[..|r| - 1];
      forall k ensures k in front <==> k in s - {last} {
        if k in front {
          var i :| 0 <= i < |front| && front[i] == k;
          assert r[i] == k;
        }
      }
      DistinctCard(front, s - {last});
    }
  }

  /** `.distinct()` over one column: each value once, in the order of its first row. */
  function Distinct<K(==, !new)>(ks: seq<K>): (r: seq<K>)
    ensures forall k :: k in r <==> k in ks
    ensures forall i, j :: 0 <= i < j < |r| ==> r[i] != r[j]
  {
    if ks == [] then []
    else
      var front := ks[..|ks| - 1];
      assert ks == front + [ks[|ks| - 1]];
      var d := Distinct(front);
      if ks[|ks| - 1] in d then d else d + [ks[|ks| - 1]]
  }

  // ---------------------------------------------------------------- grouped counts

  /** Each row as an entry worth one. */
  function Ones<K>(ks: seq<K>): (es: seq<(K, int)>)
    ensures |es| == |ks| && forall i :: 0 <= i < |ks| ==> es[i] == (ks[i], 1)
  {
    seq(|ks|, i requires 0 <= i < |ks| => (ks[i], 1))
  }

  /** How many rows have the value `k`. */
  function Occurrences<K(==)>(ks: seq<K>, k: K): nat {
    if ks == [] then 0 else Occurrences(ks[..|ks| - 1], k) + (if ks[|ks| - 1] == k then 1 else 0)
  }

  /** A value that occurs is counted at least once. */
  lemma {:induction false} OccurrencesPositive<K>(ks: seq<K>, k: K)
    requires k in ks
    ensures Occurrences(ks, k) > 0
  {
    if ks[|ks| - 1] != k {
      var i :| 0 <= i < |ks| && ks[i] == k;
      assert ks[..|ks| - 1][i] == k;
      OccurrencesPositive(ks[..|ks| - 1], k);
    }
  }

  /** The grouped count of a column, largest total first. */
  function Tally<K(==)>(ks: seq<K>): seq<Group<K>> {
    SortDesc(GroupSum(Ones(ks)), (g: Group<K>) => g.total)
  }

  lemma {:induction false} OnesSum<K>(ks: seq<K>, k: K)
    ensures SumFor(Ones(ks), k) == Occurrences(ks, k)
  {
    if ks != [] {
      assert Ones(ks)[..|ks| - 1] == Ones(ks[..|ks| - 1]);
      OnesSum(ks[..|ks| - 1], k);
    }
  }

  lemma {:induction false} OnesAll<K>(ks: seq<K>)
    ensures SumAll(Ones(ks)) == |ks|
  {
    if ks != [] {
      assert Ones(ks)[..|ks| - 1] == Ones(ks[..|ks| - 1]);
      OnesAll(ks[..|ks| - 1]);
    }
  }

  lemma FirstAtOnes<K>(ks: seq<K>, k: K)
    ensures FirstAt(Ones(ks), k) < |ks| <==> k in ks
  {
    var n := FirstAt(Ones(ks), k);
    if n < |ks| {
      assert ks[n] == k;
    }
  }

  lemma {:induction false} TotalOfCons<K>(g: Group<K>, gs: seq<Group<K>>)
    ensures TotalOf([g] + gs) == g.total + TotalOf(gs)
  {
    if gs != [] {
      assert ([g] + gs)[..|gs|] == [g] + gs[..|gs| - 1];
      TotalOfCons(g, gs[..|gs| - 1]);
    }
  }

  lemma {:induction false} InsertTotal<K>(x: Group<K>, ys: seq<Group<K>>, key: Group<K> -> int)
    ensures TotalOf(Insert(x, ys, key)) == x.total + TotalOf(ys)
  {
    if ys == [] || key(ys[0]) <= key(x) {
      TotalOfCons(x, ys);
    } else {
      InsertTotal(x, ys[1..], key);
      TotalOfCons(ys[0], Insert(x, ys[1..], key));
      TotalOfCons(ys[0], ys[1..]);
      assert [ys[0]] + ys[1..] == ys;
    }
  }

  lemma {:induction false} SortDescTotal<K>(gs: seq<Group<K>>, key: Group<K> -> int)
    ensures TotalOf(SortDesc(gs, key)) == TotalOf(gs)
  {
    if gs != [] {
      SortDescTotal(gs[1..], key);
      InsertTotal(gs[0], SortDesc(gs[1..], key), key);
      TotalOfCons(gs[0], gs[1..]);
      assert [gs[0]] + gs[1..] == gs;
    }
  }

  lemma {:induction false} InsertDistinctKeys<K>(x: Group<K>, ys: seq<Group<K>>, key: Group<K> -> int)
    requires DistinctKeys(ys) && forall i :: 0 <= i < |ys| ==> ys[i].key != x.key
    ensures DistinctKeys(Insert(x, ys, key))
  {
    if ys != [] && key(ys[0]) > key(x) {
      InsertDistinctKeys(x, ys[1..], key);
      var tail := Insert(x, ys[1..], key);
      forall j | 0 <= j < |tail| ensures tail[j].key != ys[0].key {
        assert tail[j] in multiset(ys[1..]) + multiset{x};
        if tail[j] in multiset(ys[1..]) {
          var m :| 0 <= m < |ys[1..]| && ys[1..][m] == tail[j];
          assert ys[m + 1] == tail[j];
        }
      }
    }
  }

  lemma {:induction false} SortDescDistinctKeys<K>(gs: seq<Group<K>>, key: Group<K> -> int)
    requires DistinctKeys(gs)
    ensures DistinctKeys(SortDesc(gs, key))
  {
    if gs != [] {
      SortDescDistinctKeys(gs[1..], key);
      var s := SortDesc(gs[1..], key);
      forall i | 0 <= i < |s| ensures s[i].key != gs[0].key {
        assert s[i] in multiset(gs[1..]);
        var m :| 0 <= m < |gs[1..]| && gs[1..][m] == s[i];
        assert gs[m + 1] == s[i];
      }
      InsertDistinctKeys(gs[0], s, key);
    }
  }

  /**
   * The grouped count has one row per distinct value, each with the number of rows holding it,
   * largest first; the totals add up to the number of rows, and equal totals keep the order of
   * their values' first rows.
   */
  lemma TallyRows<K>(ks: seq<K>)
    ensures var t := Tally(ks);
      && Descending(t, (g: Group<K>) => g.total)
      && DistinctKeys(t)
      && (forall i :: 0 <= i < |t| ==> t[i].key in ks && t[i].total == Occurrences(ks, t[i].key))
      && (forall k :: k in ks ==> exists i :: 0 <= i < |t| && t[i].key == k)
      && TotalOf(t) == |ks|
  {
    var es := Ones(ks);
    var gs := GroupSum(es);
    var key := (g: Group<K>) => g.total;
    var t := SortDesc(gs, key);
    SortDescOrdered(gs, key);
    GroupSumKeys(es);
    SortDescDistinctKeys(gs, key);
    forall i | 0 <= i < |t| ensures t[i].key in ks && t[i].total == Occurrences(ks, t[i].key) {
      assert t[i] in multiset(gs);
      var j :| 0 <= j < |gs| && gs[j] == t[i];
      var k := gs[j].key;
      assert IndexOf(gs, k) == j;
      FirstAtOnes(ks, k);
      GroupSumTotals(es, k);
      OnesSum(ks, k);
    }
    forall k | k in ks ensures exists i :: 0 <= i < |t| && t[i].key == k {
      FirstAtOnes(ks, k);
      var j := IndexOf(gs, k);
      assert gs[j] in multiset(t);
      var i :| 0 <= i < |t| && t[i] == gs[j];
    }
    SortDescTotal(gs, key);
    GroupSumGrandTotal(es);
    OnesAll(ks);
  }

  /** Ties: two values with the same total are listed in the order of their first rows. */
  lemma TallyTies<K>(ks: seq<K>, n: int)
    ensures WithKey(Tally(ks), (g: Group<K>) => g.total, n) == WithKey(GroupSum(Ones(ks)), (g: Group<K>) => g.total, n)
    ensures InFirstOrder(Ones(ks), GroupSum(Ones(ks)))
  {
    SortDescStable(GroupSum(Ones(ks)), (g: Group<K>) => g.total, n);
    GroupSumOrder(Ones(ks));
  }

  /** The first `n` rows of a grouped count (`[:n]`): at most `n` distinct values, largest first. */
  lemma TopTallyRanked<K>(ks: seq<K>, n: nat)
    ensures var t := Take(Tally(ks), n);
      && |t| <= n
      && Descending(t, (g: Group<K>) => g.total)
      && DistinctKeys(t)
  {
    var all := Tally(ks);
    var t := Take(all, n);
    TallyRows(ks);
    TopRows(GroupSum(Ones(ks)), (g: Group<K>) => g.total, n);
    assert forall m :: 0 <= m < |t| ==> t[m] == all[m];
  }

  /** Each of the first `n` rows of a grouped count is a value of the column with its number of rows. */
  lemma TopTallyCounts<K>(ks: seq<K>, n: nat)
    ensures var t := Take(Tally(ks), n);
      forall i :: 0 <= i < |t| ==> t[i].key in ks && t[i].total == Occurrences(ks, t[i].key)
  {
    var all := Tally(ks);
    var t := Take(all, n);
    TallyRows(ks);
    assert forall m :: 0 <= m < |t| ==> t[m] == all[m];
  }

  /**
   * A value the first `n` rows of a grouped count leave out is counted no more often than the last
   * one listed, and is left out only when `n` values were listed.
   */
  lemma TopTallyCutoff<K>(ks: seq<K>, n: nat)
    ensures var t := Take(Tally(ks), n);
      forall k :: k in ks && (forall i :: 0 <= i < |t| ==> t[i].key != k) ==>
        |t| == n && (n > 0 ==> Occurrences(ks, k) <= t[n - 1].total)
  {
    var xs := GroupSum(Ones(ks));
    var all := Tally(ks);
    var t := Take(all, n);
    TallyRows(ks);
    TopMembers(xs, (g: Group<K>) => g.total, n);
    assert forall m :: 0 <= m < |t| ==> t[m] == all[m];
    forall k | k in ks && (forall i :: 0 <= i < |t| ==> t[i].key != k)
      ensures |t| == n && (n > 0 ==> Occurrences(ks, k) <= t[n - 1].total)
    {
      var j :| 0 <= j < |all| && all[j].key == k;
      assert all[j] in multiset(xs);
      assert all[j] !in t;
    }
  }

  /** A prefix one longer is the prefix and the next element. */
  lemma TakeOneMore<T>(s: seq<T>, i: nat)
    requires i < |s|
    ensures s[..i + 1] == s[..i] + [s[i]]
  {
  }
}
