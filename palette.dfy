/**
 * The category lists of the trainer and gym reports (core/api_views.py): the grouped counts of the
 * exercise category, cut to six and coloured by rank from a six-colour palette, a missing category
 * shown as "Outros".
 */
module Palette {
  import opened Wrappers
  import opened Grouping

  /** `cores`. */
  const Cores: seq<string> := ["#ef4444", "#3b82f6", "#22c55e", "#f59e0b", "#8b5cf6", "#ec4899"]

  /** How many categories a report lists. */
  const Shown: nat := 6

  /** One coloured category: `nome`/`categoria`, `valor`/`total`, `cor`. */
  datatype Slice = Slice(nome: string, valor: int, cor: string)

  /** `category or "Outros"`: a null and an empty category are both shown as "Outros". */
  function CategoryName(c: Option<string>): (n: string)
    ensures n != ""
    ensures c.Some? && c.value != "" ==> n == c.value
    ensures c.None? || c.value == "" ==> n == "Outros"
  {
    if c.Some? && c.value != "" then c.value else "Outros"
  }

  /** The slice for the category ranked `i`: `cores[i % len(cores)]`. */
  function SliceAt(groups: seq<Group<Option<string>>>, i: nat): Slice
    requires i < |groups|
  {
    Slice(CategoryName(groups[i].key), groups[i].total, Cores[i % |Cores|])
  }

  /**
   * The comprehension over `categorias[:6]` of the gym report: the first six categories in rank
   * order with their totals, the i-th coloured with the i-th colour (the palette never wraps).
   */
  function Coloured(groups: seq<Group<Option<string>>>): (r: seq<Slice>)
    ensures |r| == if |groups| < Shown then |groups| else Shown
    ensures forall i :: 0 <= i < |r| ==>
      && r[i].nome == CategoryName(groups[i].key)
      && r[i].valor == groups[i].total
      && r[i].cor == Cores[i]
  {
    var n := if |groups| < Shown then |groups| else Shown;
    assert forall i :: 0 <= i < n ==> i % |Cores| == i;
    seq(n, i requires 0 <= i < n => SliceAt(groups, i))
  }

  /** The `for i, item in enumerate(distribuicao[:6])` loop of the trainer report. */
  method ColourLoop(groups: seq<Group<Option<string>>>) returns (r: seq<Slice>)
    ensures r == Coloured(groups)
  {
    var top := if |groups| < Shown then groups else groups[..Shown];
    r := [];
    var i := 0;
    while i < |top|
      invariant 0 <= i <= |top| && |r| == i
      invariant forall j :: 0 <= j < i ==> r[j] == SliceAt(groups, j)
    {
      r := r + [Slice(CategoryName(top[i].key), top[i].total, Cores[i % |Cores|])];
      i := i + 1;
    }
  }

  /** No two slices share a colour. */
  lemma DistinctColours(groups: seq<Group<Option<string>>>)
    ensures var r := Coloured(groups);
      forall i, j :: 0 <= i < j < |r| ==> r[i].cor != r[j].cor
  {
    CoresDistinct();
  }

  /** The six colours are six different strings. */
  lemma CoresDistinct()
    ensures forall i, j :: 0 <= i < j < |Cores| ==> Cores[i] != Cores[j]
  {
    var tags := ["ef", "3b", "22", "f5", "8b", "ec"];
    forall i | 0 <= i < |Cores| ensures Cores[i][1..3] == tags[i] {
    }
  }
}
