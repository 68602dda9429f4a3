/**
 * The trainer's dashboard and report (core/api_views.py, DashboardPersonalView and
 * RelatorioPersonalView): behind the trainer gate, counts over the trainer's students and the
 * workouts they created, the month and weekday series, the category palette, the exercise
 * rankings and the per-student statistics table.
 */
module TrainerViews {
  import opened Wrappers
  import opened Domain
  import opened Text
  import opened Sets
  import opened Visibility
  import opened Periods
  import opened Buckets
  import opened Ranking
  import opened Grouping
  import opened Queries
  import opened Selections
  import opened Palette

  // ---------------------------------------------------------------- per-student statistics

  /** The latest of some times: what `.order_by("-data_criacao").first()` is read for. */
  function Latest(times: seq<Timestamp>): (r: Option<Timestamp>)
    ensures r.None? <==> times == []
    ensures r.Some? ==> r.value in times && forall j :: 0 <= j < |times| ==> times[j] <= r.value
  {
    if times == [] then None
    else
      var rest := Latest(times[..|times| - 1]);
      var x := times[|times| - 1];
      if rest.Some? && rest.value >= x then rest else Some(x)
  }

  /** The creation times of some workouts, in row order. */
  function TimesOf(db: Db, rows: seq<Id>): (ts: seq<Timestamp>)
    requires forall j :: 0 <= j < |rows| ==> rows[j] in db.treinos
    ensures |ts| == |rows| && forall j :: 0 <= j < |rows| ==> ts[j] == db.treinos[rows[j]].dataCriacao
  {
    seq(|rows|, j requires 0 <= j < |rows| => db.treinos[rows[j]].dataCriacao)
  }

  /** A row of the `alunos` table of the report. */
  datatype StudentStat = StudentStat(id: Id, nome: string, treinos: nat, frequencia: real, ultimo: Option<Timestamp>)

  /** The workouts of student `a` in the window, whoever created them. */
  function WindowWorkouts(db: Db, a: Id, start: Timestamp): set<Id> {
    Since(db, WorkoutsFor(db, a), start)
  }

  /** One iteration of the `for aluno in alunos` loop. */
  function StatOf(db: Db, a: Id, start: Timestamp, days: int): (s: StudentStat)
    requires a in db.users && KeysBounded(db)
    ensures s.id == a && s.nome == DisplayName(db.users[a])
    ensures s.treinos == |WindowWorkouts(db, a, start)|
    ensures s.frequencia == Frequency(s.treinos, days)
    ensures s.ultimo.None? <==> s.treinos == 0
  {
    var ws := WindowWorkouts(db, a, start);
    StudentStat(a, DisplayName(db.users[a]), |ws|, Frequency(|ws|, days), LastCreated(db, ws))
  }

  /** The creation time of the latest of some workouts; absent exactly when there are none. */
  function LastCreated(db: Db, ws: set<Id>): (r: Option<Timestamp>)
    requires KeysBounded(db) && ws <= db.treinos.Keys
    ensures r.None? <==> ws == {}
  {
    Latest(TimesOf(db, Rows(ws, db.nextId)))
  }

  /** The last workout of a row is the latest of the student's workouts in the window. */
  lemma StatOfLatest(db: Db, a: Id, start: Timestamp, days: int)
    requires a in db.users && KeysBounded(db)
    ensures var s := StatOf(db, a, start, days);
      s.ultimo.Some? ==>
        && s.ultimo.value >= start
        && (exists t :: t in WindowWorkouts(db, a, start) && db.treinos[t].dataCriacao == s.ultimo.value)
        && (forall t :: t in WindowWorkouts(db, a, start) ==> db.treinos[t].dataCriacao <= s.ultimo.value)
  {
    var ws := WindowWorkouts(db, a, start);
    var rows := Rows(ws, db.nextId);
    var times := TimesOf(db, rows);
    var last := Latest(times);
    assert last.Some? ==> exists j :: 0 <= j < |rows| && times[j] == last.value;
    assert forall t :: t in ws ==> exists j :: 0 <= j < |rows| && rows[j] == t;
  }

  /** The table before it is sorted: one row per student, in queryset order. */
  function Stats(db: Db, students: seq<Id>, start: Timestamp, days: int): (rows: seq<StudentStat>)
    requires KeysBounded(db) && forall i :: 0 <= i < |students| ==> students[i] in db.users
    ensures |rows| == |students| && forall i :: 0 <= i < |students| ==> rows[i] == StatOf(db, students[i], start, days)
  {
    seq(|students|, i requires 0 <= i < |students| => StatOf(db, students[i], start, days))
  }

  /** The `for aluno in alunos` loop that fills `alunos_stats`. */
  method StatsLoop(db: Db, students: seq<Id>, start: Timestamp, days: int) returns (rows: seq<StudentStat>)
    requires KeysBounded(db) && forall i :: 0 <= i < |students| ==> students[i] in db.users
    ensures rows == Stats(db, students, start, days)
  {
    ghost var all := Stats(db, students, start, days);
    rows := [];
    var i := 0;
    while i < |students|
      invariant 0 <= i <= |students| && rows == all[..i]
    {
      TakeOneMore(all, i);
      rows := rows + [StatOf(db, students[i], start, days)];
      i := i + 1;
    }
  }

  function TreinosKey(s: StudentStat): int {
    s.treinos
  }

  function Frequencies(rows: seq<StudentStat>): (fs: seq<real>)
    ensures |fs| == |rows| && forall i :: 0 <= i < |rows| ==> fs[i] == rows[i].frequencia
  {
    seq(|rows|, i requires 0 <= i < |rows| => rows[i].frequencia)
  }

  /** The average frequency of the sorted table lies in [0, 100], its variation in [0, 5]. */
  lemma AverageFrequencyBounds(rows: seq<StudentStat>)
    requires forall i :: 0 <= i < |rows| ==> 0.0 <= rows[i].frequencia <= 100.0
    ensures var sorted := SortDesc(rows, TreinosKey);
      && 0.0 <= Average(Frequencies(sorted)) <= 100.0
      && 0.0 <= FrequencyVariation(Average(Frequencies(sorted))) <= 5.0
  {
    var sorted := SortDesc(rows, TreinosKey);
    forall i | 0 <= i < |sorted| ensures 0.0 <= sorted[i].frequencia <= 100.0 {
      assert sorted[i] in multiset(rows);
    }
    AverageBounds(Frequencies(sorted));
  }

  // ---------------------------------------------------------------- month series

  /**
   * The month rows of the report: per month, the workouts the trainer created in it and the
   * students of the trainer who had joined before its end; the current month ends a day after now.
   */
  function TrainerMonthsOf(created: map<Id, Timestamp>, joined: map<Id, Timestamp>, now: Timestamp,
                           snap: Timestamp -> Timestamp): seq<(nat, nat)>
  {
    var bounds := MonthBoundSeq(now, 6, snap, now + Day);
    seq(6, k requires 0 <= k < 6 => (CountIn(created, bounds[k].0, bounds[k].1), CountBefore(joined, bounds[k].1)))
  }

  /** The month loop of the report. */
  method TrainerMonths(created: map<Id, Timestamp>, joined: map<Id, Timestamp>, now: Timestamp,
                       snap: Timestamp -> Timestamp)
    returns (months: seq<(nat, nat)>)
    ensures months == TrainerMonthsOf(created, joined, now, snap)
  {
    var bounds := MonthBounds(now, 6, snap, now + Day);
    months := [];
    var k := 0;
    while k < 6
      invariant 0 <= k <= 6 && |months| == k
      invariant forall j :: 0 <= j < k ==> months[j] == (CountIn(created, bounds[j].0, bounds[j].1), CountBefore(joined, bounds[j].1))
    {
      months := months + [(CountIn(created, bounds[k].0, bounds[k].1), CountBefore(joined, bounds[k].1))];
      k := k + 1;
    }
  }

  /**
   * Six months, oldest first, the workouts of each month counted in it; with a month snap the
   * workout counts add up to the whole span, and the running count of students never decreases.
   */
  lemma TrainerMonthsFacts(created: map<Id, Timestamp>, joined: map<Id, Timestamp>, now: Timestamp,
                           snap: Timestamp -> Timestamp)
    ensures var ms := TrainerMonthsOf(created, joined, now, snap);
      && |ms| == 6
      && (forall k :: 0 <= k < 6 ==> ms[k].0 == MonthCounts(created, now, 6, snap, now + Day)[k])
      && (IsMonthSnap(snap) ==> forall k :: 0 <= k < 5 ==> ms[k].1 <= ms[k + 1].1)
  {
    var bounds := MonthBoundSeq(now, 6, snap, now + Day);
    var ms := TrainerMonthsOf(created, joined, now, snap);
    if IsMonthSnap(snap) {
      MonthBoundsTile(now, 6, snap, now + Day);
      forall k | 0 <= k < 5 ensures ms[k].1 <= ms[k + 1].1 {
        CountBeforeMonotone(joined, bounds[k].1, bounds[k + 1].1);
      }
    }
  }

  // ---------------------------------------------------------------- the dashboard

  datatype TrainerDashboard = TrainerDashboard(
    totalAlunos: nat,
    totalAcademias: nat,
    totalTreinos: nat,
    taxaAtividade: real,
    treinosPorMes: seq<nat>,
    topExercicios: seq<Group<string>>,
    alunosRecentes: seq<Id>)

  function JoinedKey(db: Db): Id -> int {
    (a: Id) => if a in db.users then db.users[a].dateJoined else 0
  }

  /** The dashboard of a trainer who passed the gate. */
  function TrainerDashboardOf(db: Db, u: Id, now: Timestamp, snap: Timestamp -> Timestamp): TrainerDashboard
    requires u in db.users && KeysBounded(db) && RefsOk(db)
  {
    var created := CreatedBy(db, u);
    TrainerDashboard(
      |StudentsOf(db, u)|,
      |VisibleGyms(db, u)|,
      |created|,
      Percentage(|Active(db, created)|, |created|),
      MonthCounts(CreationTimes(db, created), now, 6, snap, now),
      Take(Tally(ExerciseNames(db, ItemRowsOf(db, created))), 5),
      Take(SortDesc(Rows(StudentsOf(db, u), db.nextId), JoinedKey(db)), 5))
  }

  /** What `DashboardPersonalView.get` answers. */
  function DashboardPersonalOf(db: Db, u: Id, now: Timestamp, snap: Timestamp -> Timestamp)
    : (r: Result<TrainerDashboard, Denied>)
    requires u in db.users && KeysBounded(db) && RefsOk(db)
    ensures r.Err? <==> TrainerGate(db, u).Err?
    ensures r.Err? ==> r.error == TrainerGate(db, u).error
  {
    var gate := TrainerGate(db, u);
    if gate.Err? then Err(gate.error) else Ok(TrainerDashboardOf(db, u, now, snap))
  }

  /** `DashboardPersonalView.get`, its month loop included. */
  method DashboardPersonal(db: Db, u: Id, now: Timestamp, snap: Timestamp -> Timestamp)
    returns (r: Result<TrainerDashboard, Denied>)
    requires u in db.users && KeysBounded(db) && RefsOk(db)
    ensures r == DashboardPersonalOf(db, u, now, snap)
  {
    var gate := TrainerGate(db, u);
    if gate.Err? {
      return Err(gate.error);
    }
    var created := CreatedBy(db, u);
    var series := MonthSeries(CreationTimes(db, created), now, 6, snap, now);
    r := Ok(TrainerDashboard(
      |StudentsOf(db, u)|,
      |VisibleGyms(db, u)|,
      |created|,
      Percentage(|Active(db, created)|, |created|),
      series,
      Take(Tally(ExerciseNames(db, ItemRowsOf(db, created))), 5),
      Take(SortDesc(Rows(StudentsOf(db, u), db.nextId), JoinedKey(db)), 5)));
  }

  /**
   * The activity rate is a percentage; six months, whose counts add up to the span under a month
   * snap; at most five exercises, most used first, and the five most recently joined students.
   */
  lemma DashboardPersonalFacts(db: Db, u: Id, now: Timestamp, snap: Timestamp -> Timestamp)
    requires u in db.users && KeysBounded(db) && RefsOk(db)
    ensures var r := DashboardPersonalOf(db, u, now, snap);
      r.Ok? ==>
        var d := r.value;
        && 0.0 <= d.taxaAtividade <= 100.0
        && d.totalAlunos == |VisibleStudents(db, u)|
        && |d.treinosPorMes| == 6
        && (IsMonthSnap(snap) ==> SumNat(d.treinosPorMes) == CountIn(CreationTimes(db, CreatedBy(db, u)), MonthStart(now, 5, snap), now))
        && |d.topExercicios| <= 5 && Descending(d.topExercicios, (g: Group<string>) => g.total)
        && |d.alunosRecentes| <= 5 && Descending(d.alunosRecentes, JoinedKey(db))
  {
    if TrainerGate(db, u).Ok? {
      DashboardCounts(db, u, now, snap);
      DashboardRankings(db, u, now, snap);
    }
  }

  /** The counts and the month series of the dashboard. */
  lemma DashboardCounts(db: Db, u: Id, now: Timestamp, snap: Timestamp -> Timestamp)
    requires u in db.users && db.users[u].userType == Personal && KeysBounded(db) && RefsOk(db)
    ensures var d := TrainerDashboardOf(db, u, now, snap);
      && 0.0 <= d.taxaAtividade <= 100.0
      && d.totalAlunos == |VisibleStudents(db, u)|
      && |d.treinosPorMes| == 6
      && (IsMonthSnap(snap) ==> SumNat(d.treinosPorMes) == CountIn(CreationTimes(db, CreatedBy(db, u)), MonthStart(now, 5, snap), now))
  {
    var created := CreatedBy(db, u);
    var d := TrainerDashboardOf(db, u, now, snap);
    assert d.taxaAtividade == Percentage(|Active(db, created)|, |created|);
    SubsetSize(Active(db, created), created);
    DashboardMonths(db, u, now, snap);
  }

  /** Six months, adding up to the span under a month snap. */
  lemma DashboardMonths(db: Db, u: Id, now: Timestamp, snap: Timestamp -> Timestamp)
    requires u in db.users && KeysBounded(db) && RefsOk(db)
    ensures var ms := TrainerDashboardOf(db, u, now, snap).treinosPorMes;
      && |ms| == 6
      && (IsMonthSnap(snap) ==> SumNat(ms) == CountIn(CreationTimes(db, CreatedBy(db, u)), MonthStart(now, 5, snap), now))
  {
    MonthCountsTotal(CreationTimes(db, CreatedBy(db, u)), now, 6, snap, now);
  }

  /** The two top-five lists, each in descending order. */
  lemma DashboardRankings(db: Db, u: Id, now: Timestamp, snap: Timestamp -> Timestamp)
    requires u in db.users && KeysBounded(db) && RefsOk(db)
    ensures var d := TrainerDashboardOf(db, u, now, snap);
      && |d.topExercicios| <= 5 && Descending(d.topExercicios, (g: Group<string>) => g.total)
      && |d.alunosRecentes| <= 5 && Descending(d.alunosRecentes, JoinedKey(db))
  {
    TopTallyRanked(ExerciseNames(db, ItemRowsOf(db, CreatedBy(db, u))), 5);
    TopRows(Rows(StudentsOf(db, u), db.nextId), JoinedKey(db), 5);
  }

  // ---------------------------------------------------------------- the report

  datatype TrainerReport = TrainerReport(
    treinosCriados: nat,
    variacaoTreinos: real,
    taxaFrequencia: real,
    variacaoFrequencia: real,
    alunosTotal: nat,
    treinosPorMes: seq<(nat, nat)>,
    distribuicao: seq<Slice>,
    frequenciaSemanal: seq<nat>,
    topExercicios: seq<Group<(string, Option<string>)>>,
    alunos: seq<StudentStat>)

  /** `treinos`: the trainer's workouts of the window, narrowed to one student when asked. */
  function ReportWorkouts(db: Db, u: Id, periodo: Option<string>, aluno: StudentParam, now: Timestamp): set<Id>
    requires !aluno.Unreadable?
  {
    ForStudent(db, Since(db, CreatedBy(db, u), WindowStart(now, periodo)), aluno)
  }

  /** `treinos_mes_anterior`: the trainer's workouts of the 30 days before the window, never narrowed. */
  function PreviousCount(db: Db, u: Id, periodo: Option<string>, now: Timestamp): nat {
    var w := PreviousWindow(now, periodo);
    CountIn(CreationTimes(db, CreatedBy(db, u)), w.0, w.1)
  }

  /** The items of the trainer's workouts of the window, never narrowed to a student. */
  function WindowItems(db: Db, u: Id, periodo: Option<string>, now: Timestamp): (rows: seq<Id>)
    requires KeysBounded(db) && RefsOk(db)
    ensures ItemRowsOk(db, rows)
  {
    ItemRowsOf(db, Since(db, CreatedBy(db, u), WindowStart(now, periodo)))
  }

  /** The per-student table sorted by workouts, most first. */
  function SortedStats(db: Db, u: Id, periodo: Option<string>, now: Timestamp): seq<StudentStat>
    requires KeysBounded(db) && RefsOk(db)
  {
    SortDesc(Stats(db, Rows(StudentsOf(db, u), db.nextId), WindowStart(now, periodo), LookbackDays(periodo)), TreinosKey)
  }

  /** The report the view builds once the gate lets the trainer through; `progresso_carga` is not part of this model. */
  function TrainerReportOf(db: Db, u: Id, periodo: Option<string>, aluno: StudentParam, now: Timestamp,
                           snap: Timestamp -> Timestamp): TrainerReport
    requires KeysBounded(db) && RefsOk(db) && !aluno.Unreadable?
  {
    var treinos := ReportWorkouts(db, u, periodo, aluno, now);
    var sorted := SortedStats(db, u, periodo, now);
    var taxa := Average(Frequencies(sorted));
    TrainerReport(
      |treinos|,
      Variation(|treinos|, PreviousCount(db, u, periodo, now)),
      taxa,
      FrequencyVariation(taxa),
      |StudentsOf(db, u)|,
      TrainerMonthsOf(CreationTimes(db, CreatedBy(db, u)), JoinTimes(db, StudentsOf(db, u)), now, snap),
      Coloured(Tally(Categories(db, WindowItems(db, u, periodo, now)))),
      WeekdayCounts(CreationTimes(db, treinos)),
      Take(Tally(NamesAndCategories(db, WindowItems(db, u, periodo, now))), 10),
      sorted)
  }

  /**
   * What `RelatorioPersonalView.get` answers: the gate's refusal; past the gate, the server error
   * of an `aluno_id` that `int()` refuses; or the report.
   */
  function RelatorioPersonalOf(db: Db, u: Id, periodo: Option<string>, alunoId: Option<string>, now: Timestamp,
                               snap: Timestamp -> Timestamp)
    : (r: Result<TrainerReport, Denied>)
    requires u in db.users && KeysBounded(db) && RefsOk(db)
    ensures r.Err? <==> TrainerGate(db, u).Err? || ReadStudentParam(alunoId).Unreadable?
    ensures TrainerGate(db, u).Err? ==> r == Err(TrainerGate(db, u).error)
    ensures TrainerGate(db, u).Ok? && ReadStudentParam(alunoId).Unreadable? ==> r == Err(ServerError)
  {
    var gate := TrainerGate(db, u);
    var aluno := ReadStudentParam(alunoId);
    if gate.Err? then Err(gate.error)
    else if aluno.Unreadable? then Err(ServerError)
    else Ok(TrainerReportOf(db, u, periodo, aluno, now, snap))
  }

  /** `RelatorioPersonalView.get`, its loops included. */
  method RelatorioPersonal(db: Db, u: Id, periodo: Option<string>, alunoId: Option<string>, now: Timestamp,
                           snap: Timestamp -> Timestamp)
    returns (r: Result<TrainerReport, Denied>)
    requires u in db.users && KeysBounded(db) && RefsOk(db)
    ensures r == RelatorioPersonalOf(db, u, periodo, alunoId, now, snap)
  {
    var gate := TrainerGate(db, u);
    if gate.Err? {
      return Err(gate.error);
    }
    var aluno := ReadStudentParam(alunoId);
    if aluno.Unreadable? {
      return Err(ServerError);
    }
    var treinos := ReportWorkouts(db, u, periodo, aluno, now);
    var months := TrainerMonths(CreationTimes(db, CreatedBy(db, u)), JoinTimes(db, StudentsOf(db, u)), now, snap);
    var slices := ColourLoop(Tally(Categories(db, WindowItems(db, u, periodo, now))));
    var weekdays := WeekdaySeries(CreationTimes(db, treinos));
    var stats := StatsLoop(db, Rows(StudentsOf(db, u), db.nextId), WindowStart(now, periodo), LookbackDays(periodo));
    var sorted := SortDesc(stats, TreinosKey);
    var taxa := Average(Frequencies(sorted));
    r := Ok(TrainerReport(
      |treinos|,
      Variation(|treinos|, PreviousCount(db, u, periodo, now)),
      taxa,
      FrequencyVariation(taxa),
      |StudentsOf(db, u)|,
      months,
      slices,
      weekdays,
      Take(Tally(NamesAndCategories(db, WindowItems(db, u, periodo, now))), 10),
      sorted));
  }

  /**
   * The student figures of the report: the average frequency is a percentage and its variation
   * lies in [0, 5]; the table holds every student of the trainer once, most workouts first.
   */
  lemma RelatorioPersonalStudents(db: Db, u: Id, periodo: Option<string>, aluno: StudentParam, now: Timestamp,
                                  snap: Timestamp -> Timestamp)
    requires KeysBounded(db) && RefsOk(db) && !aluno.Unreadable?
    ensures var d := TrainerReportOf(db, u, periodo, aluno, now, snap);
        && 0.0 <= d.taxaFrequencia <= 100.0
        && 0.0 <= d.variacaoFrequencia <= 5.0
        && |d.alunos| == d.alunosTotal
        && Descending(d.alunos, TreinosKey)
        && (forall s :: s in d.alunos <==> s in Stats(db, Rows(StudentsOf(db, u), db.nextId), WindowStart(now, periodo), LookbackDays(periodo)))
  {
    var d := TrainerReportOf(db, u, periodo, aluno, now, snap);
    var stats := Stats(db, Rows(StudentsOf(db, u), db.nextId), WindowStart(now, periodo), LookbackDays(periodo));
    var sorted := SortDesc(stats, TreinosKey);
    assert d.alunos == sorted && d.alunosTotal == |StudentsOf(db, u)|;
    assert d.taxaFrequencia == Average(Frequencies(sorted));
    AverageFrequencyBounds(stats);
    SortDescOrdered(stats, TreinosKey);
    forall s ensures s in sorted <==> s in stats {
      assert s in sorted <==> s in multiset(sorted);
      assert s in stats <==> s in multiset(stats);
    }
  }

  /**
   * The charts of the report: the weekday chart adds up to the workouts counted; six months; at
   * most six categories, in distinct colours, and ten exercises.
   */
  lemma RelatorioPersonalCharts(db: Db, u: Id, periodo: Option<string>, aluno: StudentParam, now: Timestamp,
                                snap: Timestamp -> Timestamp)
    requires KeysBounded(db) && RefsOk(db) && !aluno.Unreadable?
    ensures var d := TrainerReportOf(db, u, periodo, aluno, now, snap);
        && |d.frequenciaSemanal| == 7
        && SumNat(d.frequenciaSemanal) == d.treinosCriados
        && |d.treinosPorMes| == 6
        && |d.distribuicao| <= 6
        && (forall i, j :: 0 <= i < j < |d.distribuicao| ==> d.distribuicao[i].cor != d.distribuicao[j].cor)
        && |d.topExercicios| <= 10
  {
    var treinos := ReportWorkouts(db, u, periodo, aluno, now);
    WeekdayTotal(CreationTimes(db, treinos));
    assert CreationTimes(db, treinos).Keys == treinos;
    DistinctColours(Tally(Categories(db, WindowItems(db, u, periodo, now))));
  }
}
