/**
 * The student's report page: the load-evolution chart pivots one series per exercise into one
 * point per date, the category pie colours each category from a fixed table, the total time is
 * split into hours and minutes, and the history card shows the exercise total and the average
 * per session.
 */
module StudentReportPage {
  import opened Wrappers
  import opened Text
  import opened Minutes

  /** One sample of a series: `{ data, carga }`. */
  datatype Sample = Sample(data: string, carga: real)

  /** One entry of `evolucao_carga`: an exercise and its samples. */
  datatype Series = Series(exercicio: string, dados: seq<Sample>)

  /** A value of a chart point: the date label under "data", or a load under an exercise name. */
  datatype PointValue = Label(text: string) | Carga(kg: real)

  /** A chart point: a JS object from keys to values. */
  type Point = map<string, PointValue>

  /** The key of the date label. */
  const DateKey: string := "data"

  /** Whether the series has a sample at `index` (`if (ex.dados[index])`). */
  predicate HasSample(s: Series, index: nat) {
    index < |s.dados|
  }

  /** The point after the `forEach` has visited `series` in order, starting from `base`. */
  function Assign(base: Point, series: seq<Series>, index: nat): Point {
    if series == [] then base
    else
      var p := Assign(base, series[..|series| - 1], index);
      var s := series[|series| - 1];
      if HasSample(s, index) then p[s.exercicio := Carga(s.dados[index].carga)] else p
  }

  /** Point `index` of the chart: the first series' date, then every series' load at that index. */
  function PointOf(series: seq<Series>, index: nat): Point
    requires series != [] && index < |series[0].dados|
  {
    Assign(map[DateKey := Label(series[0].dados[index].data)], series, index)
  }

  /** The callback of `dados.map`: builds one point, assigning into it while iterating the series. */
  method ChartPoint(series: seq<Series>, index: nat) returns (point: Point)
    requires series != [] && index < |series[0].dados|
    ensures point == PointOf(series, index)
  {
    point := map[DateKey := Label(series[0].dados[index].data)];
    var k := 0;
    while k < |series|
      invariant 0 <= k <= |series|
      invariant point == Assign(map[DateKey := Label(series[0].dados[index].data)], series[..k], index)
    {
      var ex := series[k];
      if index < |ex.dados| {
        point := point[ex.exercicio := Carga(ex.dados[index].carga)];
      }
      assert series[..k + 1][..k] == series[..k];
      k := k + 1;
    }
    assert series[..k] == series;
  }

  /** `evolucaoChartData`. */
  function ChartData(series: seq<Series>): (points: seq<Point>)
    ensures series == [] ==> points == []
    ensures series != [] ==> |points| == |series[0].dados|
  {
    if series == [] then []
    else seq(|series[0].dados|, i requires 0 <= i < |series[0].dados| => PointOf(series, i))
  }

  /** The last series named `k` with a sample at `index`; -1 when there is none. */
  function LastWith(series: seq<Series>, k: string, index: nat): (j: int)
    ensures -1 <= j < |series|
    ensures j >= 0 ==> series[j].exercicio == k && HasSample(series[j], index)
    ensures forall i :: j < i < |series| ==> !(series[i].exercicio == k && HasSample(series[i], index))
  {
    if series == [] then -1
    else
      var s := series[|series| - 1];
      if s.exercicio == k && HasSample(s, index) then |series| - 1
      else LastWith(series[..|series| - 1], k, index)
  }

  /**
   * What the `forEach` leaves under a key: the load of the last series of that name with a sample
   * at the index; a key no such series names keeps what the point held before.
   */
  lemma {:induction false} AssignAt(base: Point, series: seq<Series>, index: nat, k: string)
    ensures var p := Assign(base, series, index);
      var j := LastWith(series, k, index);
      && (j >= 0 ==> k in p && p[k] == Carga(series[j].dados[index].carga))
      && (j < 0 ==> (k in p <==> k in base) && (k in base ==> p[k] == base[k]))
  {
    if series != [] {
      AssignAt(base, series[..|series| - 1], index, k);
    }
  }

  /**
   * The keys of a point are "data" and the names of the series that have a sample at the index;
   * each exercise key holds the load of the last series of that name.
   */
  lemma PointKeys(series: seq<Series>, index: nat, k: string)
    requires series != [] && index < |series[0].dados|
    ensures k in PointOf(series, index) <==> k == DateKey || LastWith(series, k, index) >= 0
    ensures LastWith(series, k, index) >= 0 ==>
      PointOf(series, index)[k] == Carga(series[LastWith(series, k, index)].dados[index].carga)
  {
    AssignAt(map[DateKey := Label(series[0].dados[index].data)], series, index, k);
  }

  /**
   * Point i is labelled with the first series' date at i, unless an exercise is itself named
   * "data": then its load overwrites the label.
   */
  lemma PointLabel(series: seq<Series>, index: nat)
    requires series != [] && index < |series[0].dados|
    ensures DateKey in PointOf(series, index)
    ensures LastWith(series, DateKey, index) < 0 ==>
      PointOf(series, index)[DateKey] == Label(series[0].dados[index].data)
    ensures LastWith(series, DateKey, index) >= 0 ==> PointOf(series, index)[DateKey].Carga?
  {
    AssignAt(map[DateKey := Label(series[0].dados[index].data)], series, index, DateKey);
  }

  /** A series too short to reach the index adds nothing to the point. */
  lemma ShortSeriesIgnored(series: seq<Series>, index: nat, j: nat)
    requires series != [] && index < |series[0].dados|
    requires j < |series| && !HasSample(series[j], index) && series[j].exercicio != DateKey
    requires forall i :: 0 <= i < |series| && i != j ==> series[i].exercicio != series[j].exercicio
    ensures series[j].exercicio !in PointOf(series, index)
  {
    PointKeys(series, index, series[j].exercicio);
  }

  /** One entry of `progresso_categoria`, as far as the pie uses it. */
  datatype CategoryProgress = CategoryProgress(categoria: string, exercicios: int)

  /** One slice of the category pie. */
  datatype Slice = Slice(nome: string, valor: int, cor: string)

  /** The grey of `categoriasCores['Outros']`, also the fallback. */
  const Grey: string := "#6b7280"

  /** The eight named categories with their own colour. */
  const Named: set<string> := {"Peito", "Costas", "Pernas", "Ombros", "Bíceps", "Tríceps", "Core", "Cardio"}

  /** `categoriasCores[c] || '#6b7280'`. */
  function CategoryColour(c: string): (cor: string)
    ensures cor == Grey <==> c !in Named
  {
    if c == "Peito" then "#ef4444"
    else if c == "Costas" then "#3b82f6"
    else if c == "Pernas" then "#22c55e"
    else if c == "Ombros" then "#f59e0b"
    else if c == "Bíceps" then "#8b5cf6"
    else if c == "Tríceps" then "#ec4899"
    else if c == "Core" then "#14b8a6"
    else if c == "Cardio" then "#f97316"
    else Grey
  }

  /** Two named categories never share a colour. */
  lemma NamedColoursDistinct(a: string, b: string)
    requires a in Named && b in Named && a != b
    ensures CategoryColour(a) != CategoryColour(b)
  {
    var ca, cb := CategoryColour(a), CategoryColour(b);
    assert ca[1] != cb[1] || ca[2] != cb[2];
  }

  /** `categoriasPieData`: one slice per entry, in order, valued by its exercise count. */
  function PieData(cats: seq<CategoryProgress>): (r: seq<Slice>)
    ensures |r| == |cats|
    ensures forall i :: 0 <= i < |r| ==>
      r[i].nome == cats[i].categoria && r[i].valor == cats[i].exercicios
      && (r[i].cor == Grey <==> cats[i].categoria !in Named)
  {
    seq(|cats|, i requires 0 <= i < |cats| =>
      Slice(cats[i].categoria, cats[i].exercicios, CategoryColour(cats[i].categoria)))
  }

  /** "Tempo Total": `${Math.floor(m / 60)}h ${m % 60}m`, with the hours shown even when zero. */
  function TotalTimeText(minutos: int): string {
    var (horas, mins) := TimeSplit(minutos);
    IntToString(horas) + "h " + IntToString(mins) + "m"
  }

  /** A non-negative total reads back from the card: hours and minutes add up to it. */
  lemma TotalTimeReadsBack(minutos: int)
    requires minutos >= 0
    ensures ParseDuration(TotalTimeText(minutos)) == Some(minutos)
  {
    var hm := TimeSplit(minutos);
    assert 60 * hm.0 + hm.1 == minutos;
    assert TotalTimeText(minutos) == NatToString(hm.0) + "h " + NatToString(hm.1) + "m";
    HoursReadBack(hm.0, hm.1);
  }

  /** One entry of `historico`, as far as the totals use it. */
  datatype HistoryEntry = HistoryEntry(nome: string, exercicios: int)

  /** `historico.reduce((acc, t) => acc + t.exercicios, 0)`. */
  function TotalExercises(h: seq<HistoryEntry>): int {
    if h == [] then 0 else TotalExercises(h[..|h| - 1]) + h[|h| - 1].exercicios
  }

  /** The total grows by each appended session's count. */
  lemma {:induction false} TotalAppend(h: seq<HistoryEntry>, more: seq<HistoryEntry>)
    ensures TotalExercises(h + more) == TotalExercises(h) + TotalExercises(more)
    decreases |more|
  {
    if more != [] {
      var last := |more| - 1;
      assert (h + more)[..|h + more| - 1] == h + more[..last];
      assert (h + more)[|h + more| - 1] == more[last];
      TotalAppend(h, more[..last]);
    } else {
      assert h + more == h;
    }
  }

  /** With no negative counts, the total is at least every single session's count. */
  lemma {:induction false} TotalBounds(h: seq<HistoryEntry>, i: nat)
    requires i < |h| && forall j :: 0 <= j < |h| ==> h[j].exercicios >= 0
    ensures TotalExercises(h) >= h[i].exercicios
  {
    if i < |h| - 1 {
      TotalBounds(h[..|h| - 1], i);
    } else {
      NonNegativeTotal(h[..|h| - 1]);
    }
  }

  lemma {:induction false} NonNegativeTotal(h: seq<HistoryEntry>)
    requires forall j :: 0 <= j < |h| ==> h[j].exercicios >= 0
    ensures TotalExercises(h) >= 0
  {
    if h != [] {
      NonNegativeTotal(h[..|h| - 1]);
    }
  }

  /**
   * "Média por Treino": `Math.round(total / n)` for a non-empty history, 0 otherwise.
   * `Math.round` rounds halves up, so the result is the integer r with r - 1/2 <= total/n < r + 1/2.
   */
  function Average(h: seq<HistoryEntry>): (r: int)
    ensures h == [] ==> r == 0
    ensures h != [] ==>
      2 * |h| * r - |h| <= 2 * TotalExercises(h) < 2 * |h| * r + |h|
  {
    if h == [] then 0
    else
      var n, s := |h|, TotalExercises(h);
      var r := (2 * s + n) / (2 * n);
      assert 2 * n * r <= 2 * s + n < 2 * n * r + 2 * n;
      r
  }
}
