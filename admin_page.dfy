/**
 * The system administrator's report page: the "popular exercises" list folded into one slice per
 * category for the pie chart, the cells of the pie charts coloured by cycling over five chart
 * colours, and the two status badges of the system metrics.
 */
module AdminReportPage {
  import opened Grouping

  /** One row of `exercicios_populares`. */
  datatype PopularExercise = PopularExercise(nome: string, categoria: string, usoTotal: int, academiasUsando: int)

  /** The (category, uses) pairs the reduce reads, in list order. */
  function Entries(exs: seq<PopularExercise>): seq<(string, int)> {
    seq(|exs|, i requires 0 <= i < |exs| => (exs[i].categoria, exs[i].usoTotal))
  }

  /**
   * The `reduce` feeding the category pie: look the category up in the accumulator, add the uses
   * to the group found, or push a new group. The result is one group per category, in order of
   * the category's first row, each holding the sum of its rows' uses.
   */
  method CategoryReduce(exs: seq<PopularExercise>) returns (acc: seq<Group<string>>)
    ensures acc == GroupSum(Entries(exs))
  {
    var es := Entries(exs);
    acc := [];
    var k := 0;
    while k < |exs|
      invariant 0 <= k <= |exs|
      invariant acc == GroupSum(es[..k])
    {
      var curr := exs[k];
      var i := IndexOf(acc, curr.categoria);
      if i >= 0 {
        acc := acc[i := Group(curr.categoria, acc[i].total + curr.usoTotal)];
      } else {
        acc := acc + [Group(curr.categoria, curr.usoTotal)];
      }
      assert es[..k + 1][..k] == es[..k];
      k := k + 1;
    }
    assert es[..k] == es;
  }

  /** The pie has exactly one slice per category that occurs in the list, and no other. */
  lemma CategorySlices(exs: seq<PopularExercise>)
    ensures DistinctKeys(GroupSum(Entries(exs)))
    ensures forall c :: IndexOf(GroupSum(Entries(exs)), c) >= 0 <==> exists i :: 0 <= i < |exs| && exs[i].categoria == c
  {
    var es := Entries(exs);
    GroupSumKeys(es);
    forall c ensures IndexOf(GroupSum(es), c) >= 0 <==> exists i :: 0 <= i < |exs| && exs[i].categoria == c {
      var n := FirstAt(es, c);
      if n < |es| {
        assert exs[n].categoria == es[n].0 == c;
      } else {
        forall i | 0 <= i < |exs| ensures exs[i].categoria != c {
          assert es[i].0 == exs[i].categoria;
        }
      }
    }
  }

  /**
   * Each slice holds the summed uses of its category's rows, the slices come in order of each
   * category's first row, and together they hold all the uses of the list.
   */
  lemma CategoryTotals(exs: seq<PopularExercise>, c: string)
    ensures var gs := GroupSum(Entries(exs));
      IndexOf(gs, c) >= 0 ==> gs[IndexOf(gs, c)].total == SumFor(Entries(exs), c)
    ensures InFirstOrder(Entries(exs), GroupSum(Entries(exs)))
    ensures TotalOf(GroupSum(Entries(exs))) == SumAll(Entries(exs))
  {
    GroupSumTotals(Entries(exs), c);
    GroupSumOrder(Entries(exs));
    GroupSumGrandTotal(Entries(exs));
  }

  /** There are never more groups than entries, so every group of the pie gets a cell. */
  lemma {:induction false} GroupCount<K>(es: seq<(K, int)>)
    ensures |GroupSum(es)| <= |es|
  {
    if es != [] {
      GroupCount(es[..|es| - 1]);
    }
  }

  /** `COLORS`: the five chart colours of the theme. */
  const Colors: seq<string> := [
    "hsl(var(--chart-1))",
    "hsl(var(--chart-2))",
    "hsl(var(--chart-3))",
    "hsl(var(--chart-4))",
    "hsl(var(--chart-5))"
  ]

  /** `COLORS[index % COLORS.length]`: the fill of the cell at `index`. */
  function CellColour(index: nat): (c: string)
    ensures c in Colors
  {
    Colors[index % |Colors|]
  }

  /** The fills repeat every five cells. */
  lemma ColourCycles(index: nat)
    ensures CellColour(index + 5) == CellColour(index)
    ensures CellColour(index) == Colors[index - 5 * (index / 5)]
  {
  }

  /** Five consecutive cells all get different fills. */
  lemma ColoursDistinctWithinFive(i: nat, j: nat)
    requires i < j < i + 5
    ensures CellColour(i) != CellColour(j)
  {
    var a, b := i % 5, j % 5;
    assert a != b;
    assert Colors[a][16] == "12345"[a] && Colors[b][16] == "12345"[b];
  }

  /**
   * The pie cells are listed over the ungrouped rows while the slices are the groups; the k-th
   * slice takes the k-th cell, which exists for every group and is coloured `COLORS[k % 5]`.
   */
  lemma PieSliceColours(exs: seq<PopularExercise>, k: nat)
    requires k < |GroupSum(Entries(exs))|
    ensures k < |exs|
    ensures k < 5 ==> CellColour(k) == Colors[k]
  {
    GroupCount(Entries(exs));
  }

  /** The variants of a shadcn `Badge` the page uses. */
  datatype Variant = Default | Destructive | Secondary

  datatype Badge = Badge(variant: Variant, text: string)

  /** The badge under "Taxa de Erro": healthy below one percent. */
  function ErrorBadge(taxaErro: real): (b: Badge)
    ensures b.text == "Saudável" <==> taxaErro < 1.0
    ensures b.variant == Default <==> taxaErro < 1.0
    ensures b.text == "Saudável" || b.text == "Atenção"
  {
    if taxaErro < 1.0 then Badge(Default, "Saudável") else Badge(Destructive, "Atenção")
  }

  /** The badge under "Uptime": excellent from 99 percent. */
  function UptimeBadge(uptime: real): (b: Badge)
    ensures b.text == "Excelente" <==> uptime >= 99.0
    ensures b.variant == Default <==> uptime >= 99.0
    ensures b.text == "Excelente" || b.text == "Bom"
  {
    if uptime >= 99.0 then Badge(Default, "Excelente") else Badge(Secondary, "Bom")
  }

  /** A lower error rate never turns a healthy badge into a warning. */
  lemma ErrorBadgeMonotone(lower: real, higher: real)
    requires lower <= higher && ErrorBadge(higher).text == "Saudável"
    ensures ErrorBadge(lower).text == "Saudável"
  {
  }

  /** A higher uptime never loses the "Excelente" badge. */
  lemma UptimeBadgeMonotone(lower: real, higher: real)
    requires lower <= higher && UptimeBadge(lower).text == "Excelente"
    ensures UptimeBadge(higher).text == "Excelente"
  {
  }
}
