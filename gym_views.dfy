/**
 * The gym dashboard and report (core/api_views.py, DashboardAcademiaView and RelatorioAcademiaView):
 * behind the gym scope, counts over the students, trainers and workouts in scope, the workout-name
 * ranking, the coloured categories, the month growth series and the trainer activity table.
 */
module GymViews {
  import opened Wrappers
  import opened Domain
  import opened Visibility
  import opened Periods
  import opened Buckets
  import opened Ranking
  import opened Grouping
  import opened Queries
  import opened Selections
  import opened Palette
  import opened Sets

  /** The retention rate both views answer with: a fixed figure, never computed. */
  const TaxaRetencao: real := 95.0

  // ---------------------------------------------------------------- the dashboard

  datatype GymDashboard = GymDashboard(
    totalAlunos: nat,
    totalPersonais: nat,
    totalTreinos: nat,
    taxaRetencao: real,
    personais: seq<Id>)

  /** The dashboard for a scope: `personais[:5]` are the first five trainers in queryset order. */
  function GymDashboardOf(db: Db, scope: Option<Id>): GymDashboard
    requires KeysBounded(db) && RefsOk(db)
  {
    GymDashboard(
      |ScopedStudents(db, scope)|,
      |ScopedTrainers(db, scope)|,
      |ScopedWorkouts(db, scope)|,
      TaxaRetencao,
      Take(Rows(ScopedTrainers(db, scope), db.nextId), 5))
  }

  /** What `DashboardAcademiaView.get` answers: the scope's refusal, or the dashboard. */
  function DashboardAcademiaOf(db: Db, u: Id): (r: Result<GymDashboard, Denied>)
    requires u in db.users && KeysBounded(db) && RefsOk(db)
    ensures r.Err? <==> db.users[u].userType !in {Admin, AdminSistema}
    ensures r.Err? ==> r.error == Forbidden
  {
    var scope := GymScope(db, u);
    if scope.Err? then Err(scope.error) else Ok(GymDashboardOf(db, scope.value))
  }

  /**
   * The listed trainers are five of the trainers counted (all of them when there are fewer),
   * distinct, in ascending id order; a gym admin's figures are those of the gym alone.
   */
  lemma GymDashboardFacts(db: Db, scope: Option<Id>)
    requires KeysBounded(db) && RefsOk(db)
    ensures var d := GymDashboardOf(db, scope);
      && |d.personais| == (if d.totalPersonais < 5 then d.totalPersonais else 5)
      && (forall i :: 0 <= i < |d.personais| ==> d.personais[i] in ScopedTrainers(db, scope))
      && (forall i, j :: 0 <= i < j < |d.personais| ==> d.personais[i] < d.personais[j])
      && (scope.Some? ==> forall i :: 0 <= i < |d.personais| ==> db.users[d.personais[i]].academia == scope)
  {
    var rows := Rows(ScopedTrainers(db, scope), db.nextId);
    var top := Take(rows, 5);
    forall i | 0 <= i < |top| ensures top[i] == rows[i] && top[i] in ScopedTrainers(db, scope) {
      assert top[i] == rows[i];
      assert rows[i] in rows;
    }
  }

  // ---------------------------------------------------------------- the report

  /** A row of `personais_ativos`. */
  datatype TrainerActivity = TrainerActivity(id: Id, nome: string, treinos: nat, alunos: nat)

  /** One iteration of the `for p in personais` loop. */
  function ActivityOf(db: Db, p: Id): TrainerActivity
    requires p in db.users
  {
    TrainerActivity(p, DisplayName(db.users[p]), |CreatedBy(db, p)|, |StudentsOf(db, p)|)
  }

  /** The activity table before it is sorted: one row per trainer, in queryset order. */
  function Activities(db: Db, trainers: seq<Id>): (rows: seq<TrainerActivity>)
    requires forall i :: 0 <= i < |trainers| ==> trainers[i] in db.users
    ensures |rows| == |trainers| && forall i :: 0 <= i < |trainers| ==> rows[i] == ActivityOf(db, trainers[i])
  {
    seq(|trainers|, i requires 0 <= i < |trainers| => ActivityOf(db, trainers[i]))
  }

  /** The `for p in personais` loop that fills `personais_ativos`. */
  method ActivityLoop(db: Db, trainers: seq<Id>) returns (rows: seq<TrainerActivity>)
    requires forall i :: 0 <= i < |trainers| ==> trainers[i] in db.users
    ensures rows == Activities(db, trainers)
  {
    rows := [];
    var i := 0;
    while i < |trainers|
      invariant 0 <= i <= |trainers| && |rows| == i
      invariant forall j :: 0 <= j < i ==> rows[j] == ActivityOf(db, trainers[j])
    {
      var p := trainers[i];
      rows := rows + [ActivityOf(db, p)];
      i := i + 1;
    }
  }

  function ActivityKey(a: TrainerActivity): int {
    a.treinos
  }

  /** `.values("nome")` of workouts: the name of each, in row order. */
  function WorkoutNames(db: Db, rows: seq<Id>): (ns: seq<string>)
    requires forall j :: 0 <= j < |rows| ==> rows[j] in db.treinos
    ensures |ns| == |rows| && forall j :: 0 <= j < |rows| ==> ns[j] == db.treinos[rows[j]].nomeTreino
  {
    seq(|rows|, j requires 0 <= j < |rows| => db.treinos[rows[j]].nomeTreino)
  }

  /** A row of `crescimento`: the students who joined and the workouts created in one month. */
  datatype GrowthMonth = GrowthMonth(alunos: nat, treinos: nat)

  /** The growth series: six months, the current one ending a day after now. */
  function GymMonthsOf(joined: map<Id, Timestamp>, created: map<Id, Timestamp>, now: Timestamp,
                       snap: Timestamp -> Timestamp): seq<GrowthMonth>
  {
    var bounds := MonthBoundSeq(now, 6, snap, now + Day);
    seq(6, k requires 0 <= k < 6 => GrowthMonth(CountIn(joined, bounds[k].0, bounds[k].1), CountIn(created, bounds[k].0, bounds[k].1)))
  }

  /** The month loop of the report. */
  method GymMonths(joined: map<Id, Timestamp>, created: map<Id, Timestamp>, now: Timestamp,
                   snap: Timestamp -> Timestamp)
    returns (months: seq<GrowthMonth>)
    ensures months == GymMonthsOf(joined, created, now, snap)
  {
    var bounds := MonthBounds(now, 6, snap, now + Day);
    months := [];
    var k := 0;
    while k < 6
      invariant 0 <= k <= 6 && |months| == k
      invariant forall j :: 0 <= j < k ==>
        months[j] == GrowthMonth(CountIn(joined, bounds[j].0, bounds[j].1), CountIn(created, bounds[j].0, bounds[j].1))
    {
      months := months + [GrowthMonth(CountIn(joined, bounds[k].0, bounds[k].1), CountIn(created, bounds[k].0, bounds[k].1))];
      k := k + 1;
    }
  }

  function AlunosOf(ms: seq<GrowthMonth>): (xs: seq<nat>)
    ensures |xs| == |ms| && forall k :: 0 <= k < |ms| ==> xs[k] == ms[k].alunos
  {
    seq(|ms|, k requires 0 <= k < |ms| => ms[k].alunos)
  }

  function TreinosOf(ms: seq<GrowthMonth>): (xs: seq<nat>)
    ensures |xs| == |ms| && forall k :: 0 <= k < |ms| ==> xs[k] == ms[k].treinos
  {
    seq(|ms|, k requires 0 <= k < |ms| => ms[k].treinos)
  }

  /**
   * Each column of the growth series is the month series of its rows, so with a month snap the
   * new students and the new workouts each add up to the whole six-month span.
   */
  lemma GymMonthsTotals(joined: map<Id, Timestamp>, created: map<Id, Timestamp>, now: Timestamp,
                        snap: Timestamp -> Timestamp)
    ensures var ms := GymMonthsOf(joined, created, now, snap);
      && |ms| == 6
      && (IsMonthSnap(snap) ==>
            && SumNat(AlunosOf(ms)) == CountIn(joined, MonthStart(now, 5, snap), now + Day)
            && SumNat(TreinosOf(ms)) == CountIn(created, MonthStart(now, 5, snap), now + Day))
  {
    var ms := GymMonthsOf(joined, created, now, snap);
    assert AlunosOf(ms) == MonthCounts(joined, now, 6, snap, now + Day);
    assert TreinosOf(ms) == MonthCounts(created, now, 6, snap, now + Day);
    MonthCountsTotal(joined, now, 6, snap, now + Day);
    MonthCountsTotal(created, now, 6, snap, now + Day);
  }

  datatype GymReport = GymReport(
    totalAlunos: nat,
    totalPersonais: nat,
    totalTreinos: nat,
    treinosPeriodo: nat,
    mediaTreinosDia: real,
    taxaRetencao: real,
    treinosRanking: seq<Group<string>>,
    categoriasRanking: seq<Slice>,
    crescimento: seq<GrowthMonth>,
    personaisAtivos: seq<TrainerActivity>)

  /** The sorted activity table, cut to ten. */
  function TopTrainers(db: Db, scope: Option<Id>): seq<TrainerActivity>
    requires KeysBounded(db) && RefsOk(db)
  {
    Take(SortDesc(Activities(db, Rows(ScopedTrainers(db, scope), db.nextId)), ActivityKey), 10)
  }

  /** The report for a scope. */
  function GymReportOf(db: Db, scope: Option<Id>, periodo: Option<string>, now: Timestamp,
                       snap: Timestamp -> Timestamp): GymReport
    requires KeysBounded(db) && RefsOk(db)
  {
    var treinos := ScopedWorkouts(db, scope);
    var periodoCount := |Since(db, treinos, WindowStart(now, periodo))|;
    GymReport(
      |ScopedStudents(db, scope)|,
      |ScopedTrainers(db, scope)|,
      |treinos|,
      periodoCount,
      PerDay(periodoCount, LookbackDays(periodo)),
      TaxaRetencao,
      Take(Tally(WorkoutNames(db, Rows(treinos, db.nextId))), 10),
      Coloured(Tally(Categories(db, ItemRowsOf(db, treinos)))),
      GymMonthsOf(JoinTimes(db, ScopedStudents(db, scope)), CreationTimes(db, treinos), now, snap),
      TopTrainers(db, scope))
  }

  /** What `RelatorioAcademiaView.get` answers: the scope's refusal, or the report. */
  function RelatorioAcademiaOf(db: Db, u: Id, periodo: Option<string>, now: Timestamp, snap: Timestamp -> Timestamp)
    : (r: Result<GymReport, Denied>)
    requires u in db.users && KeysBounded(db) && RefsOk(db)
    ensures r.Err? <==> db.users[u].userType !in {Admin, AdminSistema}
    ensures r.Err? ==> r.error == Forbidden
  {
    var scope := GymScope(db, u);
    if scope.Err? then Err(scope.error) else Ok(GymReportOf(db, scope.value, periodo, now, snap))
  }

  /** `RelatorioAcademiaView.get`, its loops included. */
  method RelatorioAcademia(db: Db, u: Id, periodo: Option<string>, now: Timestamp, snap: Timestamp -> Timestamp)
    returns (r: Result<GymReport, Denied>)
    requires u in db.users && KeysBounded(db) && RefsOk(db)
    ensures r == RelatorioAcademiaOf(db, u, periodo, now, snap)
  {
    var gate := GymScope(db, u);
    if gate.Err? {
      return Err(gate.error);
    }
    var scope := gate.value;
    var treinos := ScopedWorkouts(db, scope);
    var periodoCount := |Since(db, treinos, WindowStart(now, periodo))|;
    var slices := ColourLoop(Tally(Categories(db, ItemRowsOf(db, treinos))));
    var months := GymMonths(JoinTimes(db, ScopedStudents(db, scope)), CreationTimes(db, treinos), now, snap);
    var activity := ActivityLoop(db, Rows(ScopedTrainers(db, scope), db.nextId));
    var sorted := SortDesc(activity, ActivityKey);
    r := Ok(GymReport(
      |ScopedStudents(db, scope)|,
      |ScopedTrainers(db, scope)|,
      |treinos|,
      periodoCount,
      PerDay(periodoCount, LookbackDays(periodo)),
      TaxaRetencao,
      Take(Tally(WorkoutNames(db, Rows(treinos, db.nextId))), 10),
      slices,
      months,
      Take(sorted, 10)));
  }

  /**
   * The trainer table: at most ten rows, most workouts first, each the activity of a trainer in
   * scope: the workouts it created and the students it is responsible for.
   */
  lemma TopTrainersRows(db: Db, scope: Option<Id>)
    requires KeysBounded(db) && RefsOk(db)
    ensures var top := TopTrainers(db, scope);
      && |top| <= 10
      && Descending(top, ActivityKey)
      && (forall i :: 0 <= i < |top| ==> top[i].id in ScopedTrainers(db, scope) && top[i] == ActivityOf(db, top[i].id))
  {
    var all := Activities(db, Rows(ScopedTrainers(db, scope), db.nextId));
    var top := TopTrainers(db, scope);
    TopRows(all, ActivityKey, 10);
    TopMembers(all, ActivityKey, 10);
    forall i | 0 <= i < |top| ensures top[i].id in ScopedTrainers(db, scope) && top[i] == ActivityOf(db, top[i].id) {
      ActivityRow(db, scope, top[i]);
    }
  }

  /** A row of the unsorted table is the activity of a trainer in scope. */
  lemma ActivityRow(db: Db, scope: Option<Id>, a: TrainerActivity)
    requires KeysBounded(db) && RefsOk(db) && a in Activities(db, Rows(ScopedTrainers(db, scope), db.nextId))
    ensures a.id in ScopedTrainers(db, scope) && a == ActivityOf(db, a.id)
  {
    var rows := Rows(ScopedTrainers(db, scope), db.nextId);
    var j :| 0 <= j < |rows| && Activities(db, rows)[j] == a;
    assert rows[j] in rows;
  }

  /** No trainer is left out of the table who created more workouts than the last one listed. */
  lemma TopTrainersCutoff(db: Db, scope: Option<Id>)
    requires KeysBounded(db) && RefsOk(db)
    ensures var top := TopTrainers(db, scope);
      forall p :: p in ScopedTrainers(db, scope) && (forall i :: 0 <= i < |top| ==> top[i].id != p) ==>
        |top| == 10 && |CreatedBy(db, p)| <= top[9].treinos
  {
    var all := Activities(db, Rows(ScopedTrainers(db, scope), db.nextId));
    var top := TopTrainers(db, scope);
    TopMembers(all, ActivityKey, 10);
    forall p | p in ScopedTrainers(db, scope) && (forall i :: 0 <= i < |top| ==> top[i].id != p)
      ensures |top| == 10 && |CreatedBy(db, p)| <= top[9].treinos
    {
      TrainerHasRow(db, scope, p);
      assert ActivityOf(db, p) !in top;
    }
  }

  /** Every trainer in scope has its row in the unsorted table. */
  lemma TrainerHasRow(db: Db, scope: Option<Id>, p: Id)
    requires KeysBounded(db) && RefsOk(db) && p in ScopedTrainers(db, scope)
    ensures ActivityOf(db, p) in Activities(db, Rows(ScopedTrainers(db, scope), db.nextId))
  {
    var rows := Rows(ScopedTrainers(db, scope), db.nextId);
    assert p in rows;
    var j :| 0 <= j < |rows| && rows[j] == p;
    assert Activities(db, rows)[j] == ActivityOf(db, p);
  }

  /**
   * The counts of the report: the workouts of the window are among those counted, and the daily
   * average divides them by the whole days between the window's start and now.
   */
  lemma GymReportCounts(db: Db, scope: Option<Id>, periodo: Option<string>, now: Timestamp,
                        snap: Timestamp -> Timestamp)
    requires KeysBounded(db) && RefsOk(db)
    ensures var d := GymReportOf(db, scope, periodo, now, snap);
      && d.treinosPeriodo <= d.totalTreinos
      && d.mediaTreinosDia == PerDay(d.treinosPeriodo, (now - WindowStart(now, periodo)) / Day)
  {
    var treinos := ScopedWorkouts(db, scope);
    SubsetSize(Since(db, treinos, WindowStart(now, periodo)), treinos);
    WindowDays(now, periodo);
  }

  /**
   * The rankings of the report: at most ten workout names, each with the number of workouts so
   * named, most first; at most six categories, in distinct colours.
   */
  lemma GymReportRankings(db: Db, scope: Option<Id>, periodo: Option<string>, now: Timestamp,
                          snap: Timestamp -> Timestamp)
    requires KeysBounded(db) && RefsOk(db)
    ensures var d := GymReportOf(db, scope, periodo, now, snap);
      && |d.treinosRanking| <= 10
      && Descending(d.treinosRanking, (g: Group<string>) => g.total)
      && (forall i :: 0 <= i < |d.treinosRanking| ==>
            d.treinosRanking[i].total == Occurrences(WorkoutNames(db, Rows(ScopedWorkouts(db, scope), db.nextId)), d.treinosRanking[i].key))
      && |d.categoriasRanking| <= 6
      && (forall i, j :: 0 <= i < j < |d.categoriasRanking| ==> d.categoriasRanking[i].cor != d.categoriasRanking[j].cor)
  {
    var treinos := ScopedWorkouts(db, scope);
    var names := WorkoutNames(db, Rows(treinos, db.nextId));
    TopTallyRanked(names, 10);
    TopTallyCounts(names, 10);
    DistinctColours(Tally(Categories(db, ItemRowsOf(db, treinos))));
  }
}
