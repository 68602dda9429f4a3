/**
 * The system dashboard and report (core/api_views.py, DashboardAdminView and RelatorioAdminView):
 * behind the ADMIN_SISTEMA gate, the system totals, the active-user rate, the month series of new
 * users and of workouts, the gym ranking, the exercise ranking and the user distribution.
 */
module AdminViews {
  import opened Wrappers
  import opened Domain
  import opened Visibility
  import opened Periods
  import opened Buckets
  import opened Ranking
  import opened Grouping
  import opened Queries
  import opened Selections
  import opened Palette

  // ---------------------------------------------------------------- shared columns

  /** `User.objects.filter(user_type=t)`. */
  function UsersOfType(db: Db, t: UserType): (us: set<Id>)
    ensures us <= db.users.Keys
  {
    set u | u in db.users && db.users[u].userType == t
  }

  /** `User.objects.filter(is_active=True)`. */
  function ActiveUsers(db: Db): (us: set<Id>)
    ensures us <= db.users.Keys
  {
    set u | u in db.users && db.users[u].isActive
  }

  /** A row of the gym ranking: the students, trainers and workouts of one gym. */
  datatype GymRow = GymRow(id: Id, nome: string, alunos: nat, personais: nat, treinos: nat)

  /** One iteration of the `for academia in Academia.objects.all()` loop. */
  function GymRowOf(db: Db, g: Id): GymRow
    requires g in db.academias
  {
    GymRow(g, db.academias[g].nomeFantasia,
           |ScopedStudents(db, Some(g))|, |ScopedTrainers(db, Some(g))|, |ScopedWorkouts(db, Some(g))|)
  }

  /** The gym table before it is sorted: one row per gym, in queryset order. */
  function GymRows(db: Db, gyms: seq<Id>): (rows: seq<GymRow>)
    requires forall i :: 0 <= i < |gyms| ==> gyms[i] in db.academias
    ensures |rows| == |gyms| && forall i :: 0 <= i < |gyms| ==> rows[i] == GymRowOf(db, gyms[i])
  {
    seq(|gyms|, i requires 0 <= i < |gyms| => GymRowOf(db, gyms[i]))
  }

  /** The loop that fills `top_academias`. */
  method GymRowsLoop(db: Db, gyms: seq<Id>) returns (rows: seq<GymRow>)
    requires forall i :: 0 <= i < |gyms| ==> gyms[i] in db.academias
    ensures rows == GymRows(db, gyms)
  {
    rows := [];
    var i := 0;
    while i < |gyms|
      invariant 0 <= i <= |gyms| && |rows| == i
      invariant forall j :: 0 <= j < i ==> rows[j] == GymRowOf(db, gyms[j])
    {
      rows := rows + [GymRowOf(db, gyms[i])];
      i := i + 1;
    }
  }

  function AlunosKey(r: GymRow): int {
    r.alunos
  }

  /** Every gym's row, most students first, cut to `n`. */
  function TopGyms(db: Db, n: nat): seq<GymRow>
    requires KeysBounded(db)
  {
    Take(SortDesc(GymRows(db, Rows(db.academias.Keys, db.nextId)), AlunosKey), n)
  }

  /** A row of the unsorted table is the row of a gym. */
  lemma GymRowIn(db: Db, r: GymRow)
    requires KeysBounded(db) && r in GymRows(db, Rows(db.academias.Keys, db.nextId))
    ensures r.id in db.academias && r == GymRowOf(db, r.id)
  {
    var gyms := Rows(db.academias.Keys, db.nextId);
    var j :| 0 <= j < |gyms| && GymRows(db, gyms)[j] == r;
    assert gyms[j] in gyms;
  }

  /** Every gym has its row in the unsorted table. */
  lemma GymHasRow(db: Db, g: Id)
    requires KeysBounded(db) && g in db.academias
    ensures GymRowOf(db, g) in GymRows(db, Rows(db.academias.Keys, db.nextId))
  {
    var gyms := Rows(db.academias.Keys, db.nextId);
    assert g in gyms;
    var j :| 0 <= j < |gyms| && gyms[j] == g;
    assert GymRows(db, gyms)[j] == GymRowOf(db, g);
  }

  /**
   * The gym ranking: at most `n` rows, most students first, each the row of a gym: its students,
   * the trainers whose user belongs to it and the workouts of its students.
   */
  lemma TopGymsRows(db: Db, n: nat)
    requires KeysBounded(db)
    ensures var top := TopGyms(db, n);
      && |top| <= n
      && Descending(top, AlunosKey)
      && (forall i :: 0 <= i < |top| ==> top[i].id in db.academias && top[i] == GymRowOf(db, top[i].id))
  {
    var all := GymRows(db, Rows(db.academias.Keys, db.nextId));
    var top := TopGyms(db, n);
    TopRows(all, AlunosKey, n);
    TopMembers(all, AlunosKey, n);
    forall i | 0 <= i < |top| ensures top[i].id in db.academias && top[i] == GymRowOf(db, top[i].id) {
      GymRowIn(db, top[i]);
    }
  }

  /** No gym is left out of the ranking that has more students than the last one listed. */
  lemma TopGymsCutoff(db: Db, n: nat)
    requires KeysBounded(db)
    ensures var top := TopGyms(db, n);
      forall g :: g in db.academias && (forall i :: 0 <= i < |top| ==> top[i].id != g) ==>
        |top| == n && (n > 0 ==> |ScopedStudents(db, Some(g))| <= top[n - 1].alunos)
  {
    var top := TopGyms(db, n);
    forall g | g in db.academias && (forall i :: 0 <= i < |top| ==> top[i].id != g)
      ensures |top| == n && (n > 0 ==> |ScopedStudents(db, Some(g))| <= top[n - 1].alunos)
    {
      GymLeftOut(db, n, g);
    }
  }

  lemma GymLeftOut(db: Db, n: nat, g: Id)
    requires KeysBounded(db) && g in db.academias
    requires forall i :: 0 <= i < |TopGyms(db, n)| ==> TopGyms(db, n)[i].id != g
    ensures |TopGyms(db, n)| == n && (n > 0 ==> GymRowOf(db, g).alunos <= TopGyms(db, n)[n - 1].alunos)
  {
    TopMembers(GymRows(db, Rows(db.academias.Keys, db.nextId)), AlunosKey, n);
    GymHasRow(db, g);
    assert GymRowOf(db, g) !in TopGyms(db, n);
  }

  // ---------------------------------------------------------------- month series

  /** A row of the dashboard's `crescimento_usuarios`: new students and new trainers of a month. */
  datatype UserGrowth = UserGrowth(alunos: nat, personais: nat)

  function UserGrowthOf(alunos: map<Id, Timestamp>, personais: map<Id, Timestamp>, now: Timestamp, months: nat,
                        snap: Timestamp -> Timestamp, last: Timestamp): seq<UserGrowth>
  {
    var b := MonthBoundSeq(now, months, snap, last);
    seq(months, k requires 0 <= k < months => UserGrowth(CountIn(alunos, b[k].0, b[k].1), CountIn(personais, b[k].0, b[k].1)))
  }

  /** The month loop of `crescimento_usuarios`. */
  method UserGrowthLoop(alunos: map<Id, Timestamp>, personais: map<Id, Timestamp>, now: Timestamp, months: nat,
                        snap: Timestamp -> Timestamp, last: Timestamp)
    returns (rows: seq<UserGrowth>)
    ensures rows == UserGrowthOf(alunos, personais, now, months, snap, last)
  {
    var b := MonthBounds(now, months, snap, last);
    rows := [];
    var k := 0;
    while k < months
      invariant 0 <= k <= months && |rows| == k
      invariant forall j :: 0 <= j < k ==> rows[j] == UserGrowth(CountIn(alunos, b[j].0, b[j].1), CountIn(personais, b[j].0, b[j].1))
    {
      rows := rows + [UserGrowth(CountIn(alunos, b[k].0, b[k].1), CountIn(personais, b[k].0, b[k].1))];
      k := k + 1;
    }
  }

  /** A row of the report's `crescimento_usuarios`: new students, trainers and gyms of a month. */
  datatype SystemGrowth = SystemGrowth(alunos: nat, personais: nat, academias: nat)

  function SystemGrowthOf(alunos: map<Id, Timestamp>, personais: map<Id, Timestamp>, academias: map<Id, Timestamp>,
                          now: Timestamp, months: nat, snap: Timestamp -> Timestamp, last: Timestamp): seq<SystemGrowth>
  {
    var b := MonthBoundSeq(now, months, snap, last);
    seq(months, k requires 0 <= k < months =>
      SystemGrowth(CountIn(alunos, b[k].0, b[k].1), CountIn(personais, b[k].0, b[k].1), CountIn(academias, b[k].0, b[k].1)))
  }

  /** The month loop of the report's `crescimento_usuarios`. */
  method SystemGrowthLoop(alunos: map<Id, Timestamp>, personais: map<Id, Timestamp>, academias: map<Id, Timestamp>,
                          now: Timestamp, months: nat, snap: Timestamp -> Timestamp, last: Timestamp)
    returns (rows: seq<SystemGrowth>)
    ensures rows == SystemGrowthOf(alunos, personais, academias, now, months, snap, last)
  {
    var b := MonthBounds(now, months, snap, last);
    rows := [];
    var k := 0;
    while k < months
      invariant 0 <= k <= months && |rows| == k
      invariant forall j :: 0 <= j < k ==>
        rows[j] == SystemGrowth(CountIn(alunos, b[j].0, b[j].1), CountIn(personais, b[j].0, b[j].1), CountIn(academias, b[j].0, b[j].1))
    {
      rows := rows + [SystemGrowth(CountIn(alunos, b[k].0, b[k].1), CountIn(personais, b[k].0, b[k].1), CountIn(academias, b[k].0, b[k].1))];
      k := k + 1;
    }
  }

  /** Each column of a growth series is the month series of its rows. */
  lemma UserGrowthColumns(alunos: map<Id, Timestamp>, personais: map<Id, Timestamp>, now: Timestamp, months: nat,
                          snap: Timestamp -> Timestamp, last: Timestamp)
    ensures var g := UserGrowthOf(alunos, personais, now, months, snap, last);
      && |g| == months
      && (forall k :: 0 <= k < months ==>
            && g[k].alunos == MonthCounts(alunos, now, months, snap, last)[k]
            && g[k].personais == MonthCounts(personais, now, months, snap, last)[k])
  {
    MonthCountsTotal(alunos, now, months, snap, last);
    MonthCountsTotal(personais, now, months, snap, last);
  }

  lemma SystemGrowthColumns(alunos: map<Id, Timestamp>, personais: map<Id, Timestamp>, academias: map<Id, Timestamp>,
                            now: Timestamp, months: nat, snap: Timestamp -> Timestamp, last: Timestamp)
    ensures var g := SystemGrowthOf(alunos, personais, academias, now, months, snap, last);
      && |g| == months
      && (forall k :: 0 <= k < months ==>
            && g[k].alunos == MonthCounts(alunos, now, months, snap, last)[k]
            && g[k].personais == MonthCounts(personais, now, months, snap, last)[k]
            && g[k].academias == MonthCounts(academias, now, months, snap, last)[k])
  {
    MonthCountsTotal(alunos, now, months, snap, last);
    MonthCountsTotal(personais, now, months, snap, last);
    MonthCountsTotal(academias, now, months, snap, last);
  }

  // ---------------------------------------------------------------- the dashboard

  datatype SystemDashboard = SystemDashboard(
    totalUsuarios: nat,
    totalAcademias: nat,
    totalPersonais: nat,
    totalAlunos: nat,
    totalTreinos: nat,
    crescimentoUsuarios: seq<UserGrowth>,
    volumeTreinos: seq<nat>,
    topAcademias: seq<Id>)

  function GymStudents(db: Db): Id -> int {
    (g: Id) => |ScopedStudents(db, Some(g))|
  }

  /** The dashboard: six months, the current one ending now. */
  function SystemDashboardOf(db: Db, now: Timestamp, snap: Timestamp -> Timestamp): SystemDashboard
    requires KeysBounded(db) && RefsOk(db)
  {
    SystemDashboard(
      |db.users|, |db.academias|, |db.personais|, |db.alunos|, |db.treinos|,
      UserGrowthOf(JoinTimes(db, db.alunos.Keys), JoinTimes(db, db.personais.Keys), now, 6, snap, now),
      MonthCounts(CreationTimes(db, db.treinos.Keys), now, 6, snap, now),
      Take(SortDesc(Rows(db.academias.Keys, db.nextId), GymStudents(db)), 5))
  }

  /** What `DashboardAdminView.get` answers: the gate's refusal, or the dashboard. */
  function DashboardAdminOf(db: Db, u: Id, now: Timestamp, snap: Timestamp -> Timestamp)
    : (r: Result<SystemDashboard, Denied>)
    requires u in db.users && KeysBounded(db) && RefsOk(db)
    ensures r.Err? <==> db.users[u].userType != AdminSistema
    ensures r.Err? ==> r.error == Forbidden
  {
    if SystemGate(db, u).Fail? then Err(Forbidden) else Ok(SystemDashboardOf(db, now, snap))
  }

  /** `DashboardAdminView.get`, its two month loops included. */
  method DashboardAdmin(db: Db, u: Id, now: Timestamp, snap: Timestamp -> Timestamp)
    returns (r: Result<SystemDashboard, Denied>)
    requires u in db.users && KeysBounded(db) && RefsOk(db)
    ensures r == DashboardAdminOf(db, u, now, snap)
  {
    if SystemGate(db, u).Fail? {
      return Err(Forbidden);
    }
    var growth := UserGrowthLoop(JoinTimes(db, db.alunos.Keys), JoinTimes(db, db.personais.Keys), now, 6, snap, now);
    var volume := MonthSeries(CreationTimes(db, db.treinos.Keys), now, 6, snap, now);
    r := Ok(SystemDashboard(
      |db.users|, |db.academias|, |db.personais|, |db.alunos|, |db.treinos|,
      growth, volume,
      Take(SortDesc(Rows(db.academias.Keys, db.nextId), GymStudents(db)), 5)));
  }

  /**
   * Six months in both series; with a month snap the workout volume adds up to the workouts
   * created since the first month began; at most five gyms, most students first.
   */
  lemma SystemDashboardFacts(db: Db, now: Timestamp, snap: Timestamp -> Timestamp)
    requires KeysBounded(db) && RefsOk(db)
    ensures var d := SystemDashboardOf(db, now, snap);
      && |d.crescimentoUsuarios| == 6 && |d.volumeTreinos| == 6
      && (IsMonthSnap(snap) ==> SumNat(d.volumeTreinos) == CountIn(CreationTimes(db, db.treinos.Keys), MonthStart(now, 5, snap), now))
      && |d.topAcademias| <= 5
      && Descending(d.topAcademias, GymStudents(db))
      && (forall i :: 0 <= i < |d.topAcademias| ==> d.topAcademias[i] in db.academias)
  {
    var d := SystemDashboardOf(db, now, snap);
    MonthCountsTotal(CreationTimes(db, db.treinos.Keys), now, 6, snap, now);
    var gyms := Rows(db.academias.Keys, db.nextId);
    TopRows(gyms, GymStudents(db), 5);
    TopMembers(gyms, GymStudents(db), 5);
  }

  // ---------------------------------------------------------------- the report

  /** A row of `exercicios_populares`. */
  datatype ExerciseUse = ExerciseUse(exercicio: string, categoria: string, usos: int)

  function ExerciseUses(groups: seq<Group<(string, Option<string>)>>): (r: seq<ExerciseUse>)
    ensures |r| == |groups|
    ensures forall i :: 0 <= i < |groups| ==>
      r[i] == ExerciseUse(groups[i].key.0, CategoryName(groups[i].key.1), groups[i].total)
  {
    seq(|groups|, i requires 0 <= i < |groups| => ExerciseUse(groups[i].key.0, CategoryName(groups[i].key.1), groups[i].total))
  }

  /** The fixed `performance` block: nothing is measured. */
  datatype Performance = Performance(totalRequisicoes: nat, tempoMedioResposta: nat, uptime: real, erros24h: nat)

  const FixedPerformance: Performance := Performance(0, 0, 99.9, 0)

  datatype SystemReport = SystemReport(
    totalUsuarios: nat,
    totalAcademias: nat,
    totalPersonais: nat,
    totalAlunos: nat,
    totalTreinos: nat,
    totalExercicios: nat,
    usuariosAtivos: nat,
    taxaUsuariosAtivos: real,
    treinosPeriodo: nat,
    treinosPorDia: real,
    crescimentoUsuarios: seq<SystemGrowth>,
    volumeTreinos: seq<nat>,
    distribuicaoUsuarios: seq<Slice>,
    topAcademias: seq<GymRow>,
    exerciciosPopulares: seq<ExerciseUse>,
    performance: Performance)

  /** `distribuicao_usuarios`: four fixed rows, in fixed colours. */
  function Distribution(db: Db): (r: seq<Slice>)
    ensures |r| == 4
  {
    [Slice("Alunos", |db.alunos|, "#3b82f6"),
     Slice("Personal Trainers", |db.personais|, "#22c55e"),
     Slice("Admins Academia", |UsersOfType(db, Admin)|, "#f59e0b"),
     Slice("Admins Sistema", |UsersOfType(db, AdminSistema)|, "#ef4444")]
  }

  /** The creation time of each gym. */
  function GymTimes(db: Db): (m: map<Id, Timestamp>)
    ensures m.Keys == db.academias.Keys
  {
    map g | g in db.academias :: db.academias[g].dataCriacao
  }

  /**
   * The report's growth series as the source computes it: twelve months, the current one ending a
   * day after now, and no gym counted in any month, because the count is guarded by
   * `hasattr(Academia, "created_at")` while the gym's creation column is `data_criacao`.
   */
  function ReportGrowthAsWritten(db: Db, now: Timestamp, snap: Timestamp -> Timestamp): seq<SystemGrowth>
    requires KeysBounded(db) && RefsOk(db)
  {
    SystemGrowthOf(JoinTimes(db, db.alunos.Keys), JoinTimes(db, db.personais.Keys), map[], now, 12, snap, now + Day)
  }

  /** The report's growth series with the gyms created in each month counted. */
  function ReportGrowth(db: Db, now: Timestamp, snap: Timestamp -> Timestamp): seq<SystemGrowth>
    requires KeysBounded(db) && RefsOk(db)
  {
    SystemGrowthOf(JoinTimes(db, db.alunos.Keys), JoinTimes(db, db.personais.Keys), GymTimes(db), now, 12, snap, now + Day)
  }

  /** `exercicios_populares`: the ten most used (exercise, category) pairs over every workout item. */
  function PopularExercises(db: Db): seq<ExerciseUse>
    requires KeysBounded(db) && RefsOk(db)
  {
    ExerciseUses(Take(Tally(ItemPairs(db)), 10))
  }

  /** The (exercise name, category) of every workout item, in row order. */
  function ItemPairs(db: Db): seq<(string, Option<string>)>
    requires KeysBounded(db) && RefsOk(db)
  {
    NamesAndCategories(db, ItemRows(db, db.itens.Keys))
  }

  /** The report, the gate passed. */
  function SystemReportOf(db: Db, periodo: Option<string>, now: Timestamp, snap: Timestamp -> Timestamp): SystemReport
    requires KeysBounded(db) && RefsOk(db)
  {
    var periodoCount := |Since(db, db.treinos.Keys, WindowStart(now, periodo))|;
    SystemReport(
      |db.users|, |db.academias|, |db.personais|, |db.alunos|, |db.treinos|, |db.exercicios|,
      |ActiveUsers(db)|,
      Percentage(|ActiveUsers(db)|, |db.users|),
      periodoCount,
      PerDay(periodoCount, LookbackDays(periodo)),
      ReportGrowth(db, now, snap),
      MonthCounts(CreationTimes(db, db.treinos.Keys), now, 12, snap, now + Day),
      Distribution(db),
      TopGyms(db, 10),
      PopularExercises(db),
      FixedPerformance)
  }

  /** What `RelatorioAdminView.get` answers: the gate's refusal, or the report. */
  function RelatorioAdminOf(db: Db, u: Id, periodo: Option<string>, now: Timestamp, snap: Timestamp -> Timestamp)
    : (r: Result<SystemReport, Denied>)
    requires u in db.users && KeysBounded(db) && RefsOk(db)
    ensures r.Err? <==> db.users[u].userType != AdminSistema
    ensures r.Err? ==> r.error == Forbidden
  {
    if SystemGate(db, u).Fail? then Err(Forbidden) else Ok(SystemReportOf(db, periodo, now, snap))
  }

  /** `RelatorioAdminView.get`, its loops included. */
  method RelatorioAdmin(db: Db, u: Id, periodo: Option<string>, now: Timestamp, snap: Timestamp -> Timestamp)
    returns (r: Result<SystemReport, Denied>)
    requires u in db.users && KeysBounded(db) && RefsOk(db)
    ensures r == RelatorioAdminOf(db, u, periodo, now, snap)
  {
    if SystemGate(db, u).Fail? {
      return Err(Forbidden);
    }
    var periodoCount := |Since(db, db.treinos.Keys, WindowStart(now, periodo))|;
    var growth := SystemGrowthLoop(JoinTimes(db, db.alunos.Keys), JoinTimes(db, db.personais.Keys), GymTimes(db), now, 12, snap, now + Day);
    var volume := MonthSeries(CreationTimes(db, db.treinos.Keys), now, 12, snap, now + Day);
    var gymRows := GymRowsLoop(db, Rows(db.academias.Keys, db.nextId));
    var sorted := SortDesc(gymRows, AlunosKey);
    r := Ok(SystemReport(
      |db.users|, |db.academias|, |db.personais|, |db.alunos|, |db.treinos|, |db.exercicios|,
      |ActiveUsers(db)|,
      Percentage(|ActiveUsers(db)|, |db.users|),
      periodoCount,
      PerDay(periodoCount, LookbackDays(periodo)),
      growth,
      volume,
      Distribution(db),
      Take(sorted, 10),
      PopularExercises(db),
      FixedPerformance));
  }

  /**
   * The rates of the report: the active users are a percentage of all users, the workouts of the
   * window are among all workouts, and the daily figure divides them by the whole days of the window.
   */
  lemma SystemReportRates(db: Db, periodo: Option<string>, now: Timestamp, snap: Timestamp -> Timestamp)
    requires KeysBounded(db) && RefsOk(db)
    ensures var d := SystemReportOf(db, periodo, now, snap);
      && d.usuariosAtivos <= d.totalUsuarios
      && 0.0 <= d.taxaUsuariosAtivos <= 100.0
      && d.treinosPeriodo <= d.totalTreinos
      && d.treinosPorDia == PerDay(d.treinosPeriodo, (now - WindowStart(now, periodo)) / Day)
  {
    Sets.SubsetSize(ActiveUsers(db), db.users.Keys);
    Sets.SubsetSize(Since(db, db.treinos.Keys, WindowStart(now, periodo)), db.treinos.Keys);
    WindowDays(now, periodo);
  }

  /**
   * The series of the report: twelve months each, every column the month series of its rows, and
   * with a month snap the workout volume adds up to the whole span.
   */
  lemma SystemReportSeries(db: Db, periodo: Option<string>, now: Timestamp, snap: Timestamp -> Timestamp)
    requires KeysBounded(db) && RefsOk(db)
    ensures var d := SystemReportOf(db, periodo, now, snap);
      && |d.crescimentoUsuarios| == 12 && |d.volumeTreinos| == 12
      && (forall k :: 0 <= k < 12 ==>
            && d.crescimentoUsuarios[k].alunos == MonthCounts(JoinTimes(db, db.alunos.Keys), now, 12, snap, now + Day)[k]
            && d.crescimentoUsuarios[k].personais == MonthCounts(JoinTimes(db, db.personais.Keys), now, 12, snap, now + Day)[k]
            && d.crescimentoUsuarios[k].academias == MonthCounts(GymTimes(db), now, 12, snap, now + Day)[k])
      && (IsMonthSnap(snap) ==>
            SumNat(d.volumeTreinos) == CountIn(CreationTimes(db, db.treinos.Keys), MonthStart(now, 11, snap), now + Day))
  {
    SystemGrowthColumns(JoinTimes(db, db.alunos.Keys), JoinTimes(db, db.personais.Keys), GymTimes(db), now, 12, snap, now + Day);
    MonthCountsTotal(CreationTimes(db, db.treinos.Keys), now, 12, snap, now + Day);
  }

  /**
   * The exercise ranking: at most ten (exercise, category) pairs, most used first, each with the
   * number of workout items using it, which is never zero; a missing category reads "Outros".
   */
  lemma PopularExercisesFacts(db: Db)
    requires KeysBounded(db) && RefsOk(db)
    ensures var r := PopularExercises(db);
      && |r| <= 10
      && (forall i, j :: 0 <= i < j < |r| ==> r[i].usos >= r[j].usos)
      && (forall i :: 0 <= i < |r| ==>
            exists k :: k in ItemPairs(db) && r[i].exercicio == k.0 && r[i].categoria == CategoryName(k.1)
                     && r[i].usos == Occurrences(ItemPairs(db), k) > 0)
  {
    var pairs := ItemPairs(db);
    var top := Take(Tally(pairs), 10);
    TopTallyRanked(pairs, 10);
    TopTallyCounts(pairs, 10);
    forall i | 0 <= i < |top| ensures Occurrences(pairs, top[i].key) > 0 {
      OccurrencesPositive(pairs, top[i].key);
    }
  }

  /** Student and trainer profiles are the users of those roles when every profile matches its role. */
  lemma ProfilesAreRoles(db: Db)
    requires ProfilesMatchRoles(db) && db.alunos.Keys <= db.users.Keys && db.personais.Keys <= db.users.Keys
    ensures db.alunos.Keys == UsersOfType(db, Aluno) && db.personais.Keys == UsersOfType(db, Personal)
  {
    forall v | v in db.users ensures (v in db.alunos <==> v in UsersOfType(db, Aluno)) && (v in db.personais <==> v in UsersOfType(db, Personal)) {
      assert RoleMatches(db, v);
    }
  }

  /** Every user has exactly one of the four roles. */
  lemma RolesPartitionUsers(db: Db)
    ensures |UsersOfType(db, Aluno)| + |UsersOfType(db, Personal)| + |UsersOfType(db, Admin)| + |UsersOfType(db, AdminSistema)|
            == |db.users|
  {
    var a := UsersOfType(db, Aluno);
    var p := UsersOfType(db, Personal);
    var ad := UsersOfType(db, Admin);
    var s := UsersOfType(db, AdminSistema);
    assert db.users.Keys == a + p + ad + s;
    assert a * p == {};
    assert (a + p) * ad == {};
    assert (a + p + ad) * s == {};
  }

  /**
   * With every profile matching its user's role, the four rows of the distribution count every
   * user exactly once.
   */
  lemma DistributionCoversUsers(db: Db)
    requires RefsOk(db) && ProfilesMatchRoles(db)
    ensures var r := Distribution(db);
      r[0].valor + r[1].valor + r[2].valor + r[3].valor == |db.users|
  {
    ProfilesAreRoles(db);
    RolesPartitionUsers(db);
  }

  // ---------------------------------------------------------------- the gym column of the growth series

  /** As written, the `academias` column is zero in every month, whatever gyms exist. */
  lemma GymGrowthAsWrittenIsZero(db: Db, now: Timestamp, snap: Timestamp -> Timestamp)
    requires KeysBounded(db) && RefsOk(db)
    ensures var g := ReportGrowthAsWritten(db, now, snap);
      |g| == 12 && forall k :: 0 <= k < 12 ==> g[k].academias == 0
  {
    var none: map<Id, Timestamp> := map[];
    forall lo, hi ensures CountIn(none, lo, hi) == 0 {
      CountInAtMost(none, lo, hi);
    }
  }

  /**
   * The two disagree for any gym created in the current month: the corrected series counts it in
   * the last row, the series as written shows zero there.
   */
  lemma GymGrowthDiffers(db: Db, now: Timestamp, snap: Timestamp -> Timestamp, g: Id)
    requires KeysBounded(db) && RefsOk(db) && g in db.academias
    requires MonthStart(now, 0, snap) <= db.academias[g].dataCriacao < now + Day
    ensures ReportGrowth(db, now, snap)[11].academias >= 1
    ensures ReportGrowthAsWritten(db, now, snap)[11].academias == 0
  {
    GymGrowthAsWrittenIsZero(db, now, snap);
    var times := GymTimes(db);
    var b := MonthBound(now, 12, 11, snap, now + Day);
    var s := set r | r in times && b.0 <= times[r] < b.1;
    assert g in s;
    Sets.SubsetSize({g}, s);
  }
}
