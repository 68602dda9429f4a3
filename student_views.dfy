/**
 * The student's dashboard and report (core/api_views.py, `DashboardAlunoView` and
 * `RelatorioAlunoView`): both answer only an ALUNO with a student profile, and read that student's
 * workouts, their items and the items' exercises.
 */
module StudentViews {
  import opened Wrappers
  import opened Domain
  import opened Visibility
  import opened Periods
  import opened Ranking
  import opened Grouping
  import opened Queries
  import opened Selections
  import opened Palette
  import Sets

  /** `meta_semanal_total`. */
  const MetaSemanalTotal: nat := 5

  /** The minutes the time estimate gives each workout item. */
  const MinutosPorExercicio: nat := 3

  /** The sort key of `order_by("-data_criacao")` over workouts. */
  function CreatedKey(db: Db): Id -> int {
    (t: Id) => if t in db.treinos then db.treinos[t].dataCriacao else 0
  }

  /** `.order_by("-data_criacao")[:n]` over some workouts. */
  function Newest(db: Db, ts: set<Id>, n: nat): seq<Id>
    requires KeysBounded(db) && ts <= db.treinos.Keys
  {
    Take(SortDesc(Rows(ts, db.nextId), CreatedKey(db)), n)
  }

  /** The newest `n` workouts are as many as there are, up to `n`, all of them from the set. */
  lemma NewestMembers(db: Db, ts: set<Id>, n: nat)
    requires KeysBounded(db) && ts <= db.treinos.Keys
    ensures var r := Newest(db, ts, n);
      && |r| == (if |ts| <= n then |ts| else n)
      && (forall i :: 0 <= i < |r| ==> r[i] in ts)
  {
    var rows := Rows(ts, db.nextId);
    SortDescMembers(rows, CreatedKey(db));
  }

  /** The newest workouts are listed newest first. */
  lemma NewestOrder(db: Db, ts: set<Id>, n: nat)
    requires KeysBounded(db) && ts <= db.treinos.Keys
    ensures var r := Newest(db, ts, n);
      forall i, j :: 0 <= i < j < |r| ==> CreatedKey(db)(r[i]) >= CreatedKey(db)(r[j])
  {
    TopRows(Rows(ts, db.nextId), CreatedKey(db), n);
  }

  /** No workout left out is newer than the last one listed, and one is left out only when `n` are listed. */
  lemma NewestCutoff(db: Db, ts: set<Id>, n: nat)
    requires KeysBounded(db) && ts <= db.treinos.Keys
    ensures var r := Newest(db, ts, n);
      forall t :: t in ts && t !in r ==> |r| == n && (n > 0 ==> CreatedKey(db)(t) <= CreatedKey(db)(r[n - 1]))
  {
    TopMembers(Rows(ts, db.nextId), CreatedKey(db), n);
  }

  // ---------------------------------------------------------------- the dashboard

  datatype StudentDashboard = StudentDashboard(
    totalTreinos: nat,
    treinosAtivos: nat,
    sequenciaDias: nat,
    tempoTotalMinutos: nat,
    metaSemanalAtual: nat,
    metaSemanalTotal: nat,
    treinos: seq<Id>)

  /** What `DashboardAlunoView.get` answers. */
  function DashboardAlunoOf(db: Db, u: Id): (r: Result<StudentDashboard, Denied>)
    requires u in db.users && KeysBounded(db)
    ensures r.Err? <==> StudentGate(db, u).Err?
    ensures r.Err? ==> r.error == StudentGate(db, u).error
  {
    var gate := StudentGate(db, u);
    if gate.Err? then Err(gate.error)
    else
      var ts := WorkoutsFor(db, u);
      Ok(StudentDashboard(|ts|, |Active(db, ts)|, 0, 0, 0, MetaSemanalTotal, Newest(db, ts, 5)))
  }

  /**
   * The dashboard counts the student's own workouts and the active ones among them, against a
   * weekly goal of five, and lists five of those workouts, or all when there are fewer.
   */
  lemma DashboardAlunoFacts(db: Db, u: Id)
    requires u in db.users && KeysBounded(db)
    ensures var r := DashboardAlunoOf(db, u);
      r.Ok? ==>
        var d := r.value;
        var ts := VisibleWorkouts(db, u);
        && d.totalTreinos == |ts|
        && d.treinosAtivos <= d.totalTreinos
        && d.metaSemanalTotal == 5
        && |d.treinos| == (if |ts| <= 5 then |ts| else 5)
        && (forall i :: 0 <= i < |d.treinos| ==> d.treinos[i] in ts)
  {
    if StudentGate(db, u).Ok? {
      var ts := WorkoutsFor(db, u);
      assert ts == VisibleWorkouts(db, u);
      Sets.SubsetSize(Active(db, ts), ts);
      NewestMembers(db, ts, 5);
    }
  }

  /** The dashboard's workouts are the newest: none left out is newer than the fifth listed. */
  lemma DashboardAlunoRecent(db: Db, u: Id)
    requires u in db.users && KeysBounded(db)
    ensures var r := DashboardAlunoOf(db, u);
      r.Ok? ==>
        var d := r.value;
        && (forall i, j :: 0 <= i < j < |d.treinos| ==> CreatedKey(db)(d.treinos[i]) >= CreatedKey(db)(d.treinos[j]))
        && (forall t :: t in VisibleWorkouts(db, u) && t !in d.treinos ==>
              |d.treinos| == 5 && db.treinos[t].dataCriacao <= CreatedKey(db)(d.treinos[4]))
  {
    if StudentGate(db, u).Ok? {
      var ts := WorkoutsFor(db, u);
      assert ts == VisibleWorkouts(db, u);
      var r := Newest(db, ts, 5);
      assert DashboardAlunoOf(db, u).value.treinos == r;
      NewestOrder(db, ts, 5);
      NewestCutoff(db, ts, 5);
      forall t | t in ts && t !in r ensures |r| == 5 && db.treinos[t].dataCriacao <= CreatedKey(db)(r[4]) {
        assert CreatedKey(db)(t) == db.treinos[t].dataCriacao;
      }
    }
  }

  // ---------------------------------------------------------------- load evolution

  /** One point of a load series: when the workout was created, and `carga or 0`. */
  datatype LoadPoint = LoadPoint(data: Timestamp, carga: nat)

  /** One entry of `evolucao_carga`. */
  datatype LoadSeries = LoadSeries(exercicio: string, dados: seq<LoadPoint>)

  /** The exercise of each item row: `.values("exercicio_id")`. */
  function ExerciseIds(db: Db, rows: seq<Id>): (es: seq<Id>)
    requires ItemRowsOk(db, rows)
    ensures |es| == |rows|
    ensures forall j :: 0 <= j < |rows| ==> es[j] == db.itens[rows[j]].exercicio
    ensures forall e :: e in es ==> e in db.exercicios
  {
    seq(|rows|, j requires 0 <= j < |rows| => db.itens[rows[j]].exercicio)
  }

  /**
   * `exercicios_aluno`: the first five distinct exercises over the items of the student's workouts,
   * in row order.
   */
  function TrackedExercises(db: Db, a: Id): (es: seq<Id>)
    requires KeysBounded(db) && RefsOk(db)
    ensures forall i :: 0 <= i < |es| ==> es[i] in db.exercicios
  {
    Take(Distinct(ExerciseIds(db, ItemRowsOf(db, WorkoutsFor(db, a)))), 5)
  }

  /** The items of the student's workouts created since `start` that use exercise `e`. */
  function LoadItems(db: Db, a: Id, e: Id, start: Timestamp): (items: set<Id>)
    ensures items <= db.itens.Keys
  {
    set i | i in ItemsIn(db, Since(db, WorkoutsFor(db, a), start)) && db.itens[i].exercicio == e
  }

  /** The sort key of `order_by("treino__data_criacao")`: oldest workout first. */
  function OlderFirst(db: Db): Id -> int {
    (i: Id) => if i in db.itens && db.itens[i].treino in db.treinos then -db.treinos[db.itens[i].treino].dataCriacao else 0
  }

  /** The point of one item row. */
  function PointOf(db: Db, i: Id): LoadPoint
    requires i in db.itens && db.itens[i].treino in db.treinos
  {
    LoadPoint(db.treinos[db.itens[i].treino].dataCriacao, db.itens[i].cargaKg.GetOr(0))
  }

  /** The item rows of a series: `order_by("treino__data_criacao")` over `LoadItems`. */
  function LoadRows(db: Db, a: Id, e: Id, start: Timestamp): (rows: seq<Id>)
    requires KeysBounded(db)
    ensures forall k :: 0 <= k < |rows| ==> rows[k] in LoadItems(db, a, e, start)
  {
    var items := Rows(LoadItems(db, a, e, start), db.nextId);
    SortDescMembers(items, OlderFirst(db));
    SortDesc(items, OlderFirst(db))
  }

  /** The series of one tracked exercise: its items in the window, oldest workout first. */
  function SeriesOf(db: Db, a: Id, e: Id, start: Timestamp): LoadSeries
    requires KeysBounded(db) && e in db.exercicios
  {
    LoadSeries(db.exercicios[e].nome, Points(db, LoadRows(db, a, e, start)))
  }

  /** The points of some item rows, in order. */
  function Points(db: Db, rows: seq<Id>): (ps: seq<LoadPoint>)
    requires forall k :: 0 <= k < |rows| ==> rows[k] in db.itens && db.itens[rows[k]].treino in db.treinos
    ensures |ps| == |rows|
    ensures forall k :: 0 <= k < |rows| ==> ps[k] == PointOf(db, rows[k])
  {
    if rows == [] then [] else Points(db, rows[..|rows| - 1]) + [PointOf(db, rows[|rows| - 1])]
  }

  /** The series of some exercises, in order. */
  function SeriesList(db: Db, a: Id, es: seq<Id>, start: Timestamp): (r: seq<LoadSeries>)
    requires KeysBounded(db) && forall i :: 0 <= i < |es| ==> es[i] in db.exercicios
  {
    seq(|es|, k requires 0 <= k < |es| => SeriesOf(db, a, es[k], start))
  }

  /** `evolucao_carga`. */
  function Evolution(db: Db, a: Id, start: Timestamp): seq<LoadSeries>
    requires KeysBounded(db) && RefsOk(db)
  {
    SeriesList(db, a, TrackedExercises(db, a), start)
  }

  /** The `for ex in exercicios_aluno` loop, over the exercises it is given. */
  method EvolutionLoop(db: Db, a: Id, es: seq<Id>, start: Timestamp) returns (r: seq<LoadSeries>)
    requires KeysBounded(db) && forall i :: 0 <= i < |es| ==> es[i] in db.exercicios
    ensures r == SeriesList(db, a, es, start)
  {
    r := [];
    for k := 0 to |es|
      invariant |r| == k
      invariant forall j :: 0 <= j < k ==> r[j] == SeriesOf(db, a, es[j], start)
    {
      r := r + [SeriesOf(db, a, es[k], start)];
    }
  }

  /**
   * At most five exercises, no exercise twice, each one the student has an item of; an exercise of
   * the student's is left out only when five are tracked.
   */
  lemma TrackedExercisesFacts(db: Db, a: Id)
    requires KeysBounded(db) && RefsOk(db)
    ensures var es := TrackedExercises(db, a);
      && |es| <= 5
      && (forall i, j :: 0 <= i < j < |es| ==> es[i] != es[j])
      && (forall i :: 0 <= i < |es| ==> exists t :: t in ItemsIn(db, WorkoutsFor(db, a)) && db.itens[t].exercicio == es[i])
      && (forall t :: t in ItemsIn(db, WorkoutsFor(db, a)) && db.itens[t].exercicio !in es ==> |es| == 5)
  {
    var rows := ItemRowsOf(db, WorkoutsFor(db, a));
    var ids := ExerciseIds(db, rows);
    var d := Distinct(ids);
    var es := TrackedExercises(db, a);
    forall i | 0 <= i < |es| ensures exists t :: t in ItemsIn(db, WorkoutsFor(db, a)) && db.itens[t].exercicio == es[i] {
      assert es[i] == d[i] && es[i] in ids;
      var j :| 0 <= j < |ids| && ids[j] == es[i];
      assert rows[j] in ItemsIn(db, WorkoutsFor(db, a));
    }
    forall t | t in ItemsIn(db, WorkoutsFor(db, a)) && db.itens[t].exercicio !in es ensures |es| == 5 {
      var j :| 0 <= j < |rows| && rows[j] == t;
      assert ids[j] in d;
    }
  }

  /**
   * Each series lists every item of its exercise in the window once, each point dated by its
   * workout, in the window, and carrying the item's load, 0 when it has none.
   */
  lemma SeriesPoints(db: Db, a: Id, e: Id, start: Timestamp)
    requires KeysBounded(db) && e in db.exercicios
    ensures var s := SeriesOf(db, a, e, start);
      && s.exercicio == db.exercicios[e].nome
      && |s.dados| == |LoadItems(db, a, e, start)|
      && (forall k :: 0 <= k < |s.dados| ==>
            exists i :: i in LoadItems(db, a, e, start) && s.dados[k] == PointOf(db, i) && s.dados[k].data >= start)
  {
    var rows := LoadRows(db, a, e, start);
    var s := SeriesOf(db, a, e, start);
    forall k | 0 <= k < |s.dados|
      ensures exists i :: i in LoadItems(db, a, e, start) && s.dados[k] == PointOf(db, i) && s.dados[k].data >= start
    {
      assert rows[k] in ItemsIn(db, Since(db, WorkoutsFor(db, a), start));
      assert s.dados[k] == PointOf(db, rows[k]);
    }
  }

  /** The points of a series run from the oldest workout to the newest. */
  lemma SeriesOrder(db: Db, a: Id, e: Id, start: Timestamp)
    requires KeysBounded(db) && e in db.exercicios
    ensures var s := SeriesOf(db, a, e, start);
      forall i, j :: 0 <= i < j < |s.dados| ==> s.dados[i].data <= s.dados[j].data
  {
    var rows := LoadRows(db, a, e, start);
    var s := SeriesOf(db, a, e, start);
    SortDescOrdered(Rows(LoadItems(db, a, e, start), db.nextId), OlderFirst(db));
    forall i, j | 0 <= i < j < |s.dados| ensures s.dados[i].data <= s.dados[j].data {
      assert OlderFirst(db)(rows[i]) >= OlderFirst(db)(rows[j]);
    }
  }

  // ---------------------------------------------------------------- progress by category

  /** One entry of `progresso_categoria`. */
  datatype CategoryProgress = CategoryProgress(categoria: string, exercicios: int, totalSeries: int)

  /** The items of the student's workouts created since `start`, in row order. */
  function WindowItemRows(db: Db, a: Id, start: Timestamp): (rows: seq<Id>)
    requires KeysBounded(db) && RefsOk(db)
    ensures ItemRowsOk(db, rows)
  {
    ItemRowsOf(db, Since(db, WorkoutsFor(db, a), start))
  }

  /** `.values("exercicio__category", "series")`. */
  function CategorySeries(db: Db, rows: seq<Id>): (es: seq<(Option<string>, int)>)
    requires ItemRowsOk(db, rows)
    ensures |es| == |rows|
  {
    seq(|rows|, j requires 0 <= j < |rows| => (db.exercicios[db.itens[rows[j]].exercicio].category, db.itens[rows[j]].series as int))
  }

  /**
   * `progresso_categoria`: the items grouped by category, most items first, each with its item
   * count and `Sum("series")`, a missing category shown as "Outros".
   */
  function CategoryProgressOf(db: Db, a: Id, start: Timestamp): seq<CategoryProgress>
    requires KeysBounded(db) && RefsOk(db)
  {
    var rows := WindowItemRows(db, a, start);
    ProgressRows(Tally(Categories(db, rows)), CategorySeries(db, rows))
  }

  /** The comprehension over the grouped count, each category's series summed from the item rows. */
  function ProgressRows(t: seq<Group<Option<string>>>, series: seq<(Option<string>, int)>): (p: seq<CategoryProgress>)
    ensures |p| == |t|
    ensures forall k :: 0 <= k < |t| ==> p[k].categoria == CategoryName(t[k].key) && p[k].exercicios == t[k].total
  {
    seq(|t|, k requires 0 <= k < |t| => CategoryProgress(CategoryName(t[k].key), t[k].total, SumFor(series, t[k].key)))
  }

  /**
   * Over any category column: the categories are listed most items first, each with a positive
   * count of the rows of that category, and the counts add up to the number of rows.
   */
  lemma ProgressRowsFacts(cats: seq<Option<string>>, series: seq<(Option<string>, int)>)
    ensures var p := ProgressRows(Tally(cats), series);
      && (forall i, j :: 0 <= i < j < |p| ==> p[i].exercicios >= p[j].exercicios)
      && (forall i :: 0 <= i < |p| ==>
            exists c :: c in cats && p[i].exercicios == Occurrences(cats, c) > 0 && p[i].categoria == CategoryName(c))
      && SumOfCounts(p) == |cats|
  {
    var t := Tally(cats);
    var p := ProgressRows(t, series);
    TallyRows(cats);
    forall i | 0 <= i < |p|
      ensures exists c :: c in cats && p[i].exercicios == Occurrences(cats, c) > 0 && p[i].categoria == CategoryName(c)
    {
      OccurrencesPositive(cats, t[i].key);
    }
    CountsTotal(p, t);
  }

  /**
   * The report's categories are `ProgressRows` over the categories of the window's items, so the
   * facts above hold of them, and their counts add up to all the window's items.
   */
  lemma CategoryProgressTotal(db: Db, a: Id, start: Timestamp)
    requires KeysBounded(db) && RefsOk(db)
    ensures SumOfCounts(CategoryProgressOf(db, a, start)) == |ItemsIn(db, Since(db, WorkoutsFor(db, a), start))|
  {
    var rows := WindowItemRows(db, a, start);
    ProgressRowsFacts(Categories(db, rows), CategorySeries(db, rows));
  }

  /** The sum of the `exercicios` column. */
  function SumOfCounts(p: seq<CategoryProgress>): int {
    if p == [] then 0 else SumOfCounts(p[..|p| - 1]) + p[|p| - 1].exercicios
  }

  lemma {:induction false} CountsTotal(p: seq<CategoryProgress>, t: seq<Group<Option<string>>>)
    requires |p| == |t| && forall k :: 0 <= k < |p| ==> p[k].exercicios == t[k].total
    ensures SumOfCounts(p) == TotalOf(t)
  {
    if p != [] {
      CountsTotal(p[..|p| - 1], t[..|t| - 1]);
    }
  }

  // ---------------------------------------------------------------- history

  /** One line of a history entry's `detalhes`. */
  datatype ItemDetail = ItemDetail(exercicio: string, series: nat, reps: string, carga: nat)

  /** One entry of `historico`. */
  datatype HistoryEntry = HistoryEntry(
    id: Id,
    nome: string,
    data: Timestamp,
    categoria: string,
    exercicios: nat,
    ativo: bool,
    detalhes: seq<ItemDetail>)

  /** `treino.tipo or "Geral"`. */
  function WorkoutCategory(tipo: Option<string>): (n: string)
    ensures n != ""
    ensures tipo.Some? && tipo.value != "" ==> n == tipo.value
    ensures tipo.None? || tipo.value == "" ==> n == "Geral"
  {
    if tipo.Some? && tipo.value != "" then tipo.value else "Geral"
  }

  /** The detail line of one item. */
  function DetailOf(db: Db, i: Id): ItemDetail
    requires i in db.itens && db.itens[i].exercicio in db.exercicios
  {
    var it := db.itens[i];
    ItemDetail(db.exercicios[it.exercicio].nome, it.series, it.repeticoes, it.cargaKg.GetOr(0))
  }

  /** The history entry of one workout: its items counted, the first five detailed. */
  function EntryOf(db: Db, t: Id): HistoryEntry
    requires KeysBounded(db) && RefsOk(db) && t in db.treinos
  {
    var w := db.treinos[t];
    var items := ItemRowsOf(db, {t});
    var shown := Take(items, 5);
    HistoryEntry(t, w.nomeTreino, w.dataCriacao, WorkoutCategory(w.tipo), |items|, w.ativo, Details(db, shown))
  }

  /** The detail lines of some item rows, in order. */
  function Details(db: Db, rows: seq<Id>): (ds: seq<ItemDetail>)
    requires ItemRowsOk(db, rows)
    ensures |ds| == |rows|
    ensures forall k :: 0 <= k < |rows| ==> ds[k] == DetailOf(db, rows[k])
  {
    if rows == [] then [] else Details(db, rows[..|rows| - 1]) + [DetailOf(db, rows[|rows| - 1])]
  }

  /** The workouts of the history: the student's twenty newest in the window. */
  function HistoryRows(db: Db, a: Id, start: Timestamp): (ts: seq<Id>)
    requires KeysBounded(db)
    ensures |ts| <= 20
    ensures forall i :: 0 <= i < |ts| ==> ts[i] in Since(db, WorkoutsFor(db, a), start)
  {
    NewestMembers(db, Since(db, WorkoutsFor(db, a), start), 20);
    Newest(db, Since(db, WorkoutsFor(db, a), start), 20)
  }

  /** The history entries of some workouts, in order. */
  function Entries(db: Db, ts: seq<Id>): seq<HistoryEntry>
    requires KeysBounded(db) && RefsOk(db) && forall i :: 0 <= i < |ts| ==> ts[i] in db.treinos
  {
    seq(|ts|, k requires 0 <= k < |ts| => EntryOf(db, ts[k]))
  }

  /** `historico`. */
  function History(db: Db, a: Id, start: Timestamp): seq<HistoryEntry>
    requires KeysBounded(db) && RefsOk(db)
  {
    Entries(db, HistoryRows(db, a, start))
  }

  /** The `for treino in treinos_periodo.order_by("-data_criacao")[:20]` loop, over the workouts it is given. */
  method HistoryLoop(db: Db, ts: seq<Id>) returns (r: seq<HistoryEntry>)
    requires KeysBounded(db) && RefsOk(db) && forall i :: 0 <= i < |ts| ==> ts[i] in db.treinos
    ensures r == Entries(db, ts)
  {
    ghost var all := Entries(db, ts);
    r := [];
    var k := 0;
    while k < |ts|
      invariant 0 <= k <= |ts| && r == all[..k]
    {
      TakeOneMore(all, k);
      r := r + [EntryOf(db, ts[k])];
      k := k + 1;
    }
  }

  /** Each entry stands for the workout at its position. */
  lemma EntriesFollowRows(db: Db, ts: seq<Id>)
    requires KeysBounded(db) && RefsOk(db) && forall i :: 0 <= i < |ts| ==> ts[i] in db.treinos
    ensures var h := Entries(db, ts);
      |h| == |ts| && forall i :: 0 <= i < |h| ==> h[i].id == ts[i] && h[i].data == CreatedKey(db)(ts[i])
  {
  }

  /** Entries of workouts listed newest first are dated newest first. */
  lemma EntriesOrder(db: Db, ts: seq<Id>)
    requires KeysBounded(db) && RefsOk(db) && forall i :: 0 <= i < |ts| ==> ts[i] in db.treinos
    requires forall i, j :: 0 <= i < j < |ts| ==> CreatedKey(db)(ts[i]) >= CreatedKey(db)(ts[j])
    ensures var h := Entries(db, ts);
      forall i, j :: 0 <= i < j < |h| ==> h[i].data >= h[j].data
  {
    EntriesFollowRows(db, ts);
  }

  /** The history lists its workouts newest first. */
  lemma HistoryOrder(db: Db, a: Id, start: Timestamp)
    requires KeysBounded(db) && RefsOk(db)
    ensures var h := History(db, a, start);
      forall i, j :: 0 <= i < j < |h| ==> h[i].data >= h[j].data
  {
    NewestOrder(db, Since(db, WorkoutsFor(db, a), start), 20);
    EntriesOrder(db, HistoryRows(db, a, start));
  }

  /** A workout of the window is left out of the history only for twenty newer or as new. */
  lemma HistoryCutoff(db: Db, a: Id, start: Timestamp)
    requires KeysBounded(db) && RefsOk(db)
    ensures var h := History(db, a, start);
      forall t :: t in Since(db, WorkoutsFor(db, a), start) && t !in HistoryRows(db, a, start) ==>
        |h| == 20 && db.treinos[t].dataCriacao <= h[19].data
  {
    var ws := Since(db, WorkoutsFor(db, a), start);
    NewestCutoff(db, ws, 20);
    EntriesFollowRows(db, HistoryRows(db, a, start));
  }

  /** The history holds at most twenty entries, each a workout of the student's in the window. */
  lemma HistoryEntries(db: Db, a: Id, start: Timestamp)
    requires KeysBounded(db) && RefsOk(db)
    ensures var h := History(db, a, start);
      |h| <= 20 && forall i :: 0 <= i < |h| ==> h[i].id in WorkoutsFor(db, a) && h[i].data >= start
  {
  }

  /**
   * Each history entry counts its workout's items, details the first five of them or all when
   * there are fewer, and always has a category.
   */
  lemma HistoryDetails(db: Db, a: Id, start: Timestamp)
    requires KeysBounded(db) && RefsOk(db)
    ensures var h := History(db, a, start);
      forall i :: 0 <= i < |h| ==>
        && h[i].exercicios == |ItemsIn(db, {h[i].id})|
        && |h[i].detalhes| == (if h[i].exercicios <= 5 then h[i].exercicios else 5)
        && h[i].categoria != ""
  {
  }

  // ---------------------------------------------------------------- the report

  datatype StudentReport = StudentReport(
    totalTreinos: nat,
    treinosAtivos: nat,
    treinosPeriodo: nat,
    sequenciaDias: nat,
    tempoTotalMinutos: nat,
    evolucaoCarga: seq<LoadSeries>,
    progressoCategoria: seq<CategoryProgress>,
    historico: seq<HistoryEntry>)

  /** The report of student `a`, the gate passed. */
  function StudentReportOf(db: Db, a: Id, periodo: Option<string>, now: Timestamp): StudentReport
    requires KeysBounded(db) && RefsOk(db)
  {
    var ts := WorkoutsFor(db, a);
    var start := WindowStart(now, periodo);
    StudentReport(
      |ts|, |Active(db, ts)|, |Since(db, ts, start)|, 0,
      |ItemsIn(db, ts)| * MinutosPorExercicio,
      Evolution(db, a, start),
      CategoryProgressOf(db, a, start),
      History(db, a, start))
  }

  /** What `RelatorioAlunoView.get` answers. */
  function RelatorioAlunoOf(db: Db, u: Id, periodo: Option<string>, now: Timestamp): (r: Result<StudentReport, Denied>)
    requires u in db.users && KeysBounded(db) && RefsOk(db)
    ensures r.Err? <==> StudentGate(db, u).Err?
    ensures r.Err? ==> r.error == StudentGate(db, u).error
  {
    var gate := StudentGate(db, u);
    if gate.Err? then Err(gate.error) else Ok(StudentReportOf(db, u, periodo, now))
  }

  /** `RelatorioAlunoView.get`, its loops included. */
  method RelatorioAluno(db: Db, u: Id, periodo: Option<string>, now: Timestamp) returns (r: Result<StudentReport, Denied>)
    requires u in db.users && KeysBounded(db) && RefsOk(db)
    ensures r == RelatorioAlunoOf(db, u, periodo, now)
  {
    var gate := StudentGate(db, u);
    if gate.Err? {
      return Err(gate.error);
    }
    var ts := WorkoutsFor(db, u);
    var start := WindowStart(now, periodo);
    var evolucao := EvolutionLoop(db, u, TrackedExercises(db, u), start);
    var historico := HistoryLoop(db, HistoryRows(db, u, start));
    r := Ok(StudentReport(
      |ts|, |Active(db, ts)|, |Since(db, ts, start)|, 0,
      |ItemsIn(db, ts)| * MinutosPorExercicio,
      evolucao,
      CategoryProgressOf(db, u, start),
      historico));
  }

  /**
   * The counts of the report: active and in-window workouts are among the student's workouts, and
   * the time estimate is three minutes for every item of them.
   */
  lemma StudentReportCounts(db: Db, a: Id, periodo: Option<string>, now: Timestamp)
    requires KeysBounded(db) && RefsOk(db)
    ensures var d := StudentReportOf(db, a, periodo, now);
      && d.treinosAtivos <= d.totalTreinos
      && d.treinosPeriodo <= d.totalTreinos
      && d.tempoTotalMinutos == 3 * |ItemsIn(db, WorkoutsFor(db, a))|
      && |d.evolucaoCarga| <= 5
      && |d.historico| <= 20
  {
    var ts := WorkoutsFor(db, a);
    Sets.SubsetSize(Active(db, ts), ts);
    Sets.SubsetSize(Since(db, ts, WindowStart(now, periodo)), ts);
    TrackedExercisesFacts(db, a);
    HistoryEntries(db, a, WindowStart(now, periodo));
  }
}
