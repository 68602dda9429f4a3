/**
 * Who sees what (core/api_views.py): the `get_queryset` of the gym, trainer, student and workout
 * viewsets, the role gates in front of the dashboards and reports, and the gym scope the gym-level
 * dashboard and report compute. Every query result is the set of primary keys it returns.
 */
module Visibility {
  import opened Wrappers
  import opened Domain

  // ---------------------------------------------------------------- viewset querysets

  /** The requester's gym, when the requester is a gym ADMIN attached to one. */
  function AdminGym(db: Db, u: Id): Option<Id>
    requires u in db.users
  {
    if db.users[u].userType == Admin then db.users[u].academia else None
  }

  /** `AcademiaViewSet.get_queryset`. */
  function VisibleGyms(db: Db, u: Id): (gs: set<Id>)
    requires u in db.users
    ensures gs <= db.academias.Keys
  {
    match db.users[u].userType
    case AdminSistema => db.academias.Keys
    case Personal =>
      set g | g in db.academias &&
        exists a :: a in db.alunos && db.alunos[a].academia == Some(g) && db.alunos[a].personalResponsavel == Some(u)
    case Admin =>
      var g := db.users[u].academia;
      if g.Some? && g.value in db.academias then {g.value} else {}
    case Aluno => {}
  }

  /** `PersonalTrainerViewSet.get_queryset`. */
  function VisibleTrainers(db: Db, u: Id): (ps: set<Id>)
    requires u in db.users
    ensures ps <= db.personais.Keys
  {
    match db.users[u].userType
    case AdminSistema => db.personais.Keys
    case Admin =>
      var g := db.users[u].academia;
      if g.Some? then set p | p in db.personais && p in db.users && db.users[p].academia == g else {}
    case _ => {}
  }

  /** `AlunoViewSet.get_queryset`. */
  function VisibleStudents(db: Db, u: Id): (as_: set<Id>)
    requires u in db.users
    ensures as_ <= db.alunos.Keys
  {
    match db.users[u].userType
    case AdminSistema => db.alunos.Keys
    case Personal =>
      if u in db.personais then set a | a in db.alunos && db.alunos[a].personalResponsavel == Some(u) else {}
    case Admin =>
      var g := db.users[u].academia;
      if g.Some? then set a | a in db.alunos && db.alunos[a].academia == g else {}
    case Aluno => if u in db.alunos then {u} else {}
  }

  /** `TreinoViewSet.get_queryset`. */
  function VisibleWorkouts(db: Db, u: Id): (ts: set<Id>)
    requires u in db.users
    ensures ts <= db.treinos.Keys
  {
    match db.users[u].userType
    case AdminSistema => db.treinos.Keys
    case Personal =>
      if u in db.personais then set t | t in db.treinos && db.treinos[t].personalCriador == Some(u) else {}
    case Admin =>
      var g := db.users[u].academia;
      if g.Some? then
        set t | t in db.treinos && db.treinos[t].aluno in db.alunos && db.alunos[db.treinos[t].aluno].academia == g
      else {}
    case Aluno => if u in db.alunos then set t | t in db.treinos && db.treinos[t].aluno == u else {}
  }

  // ---------------------------------------------------------------- properties of the querysets

  /**
   * For every role but PERSONAL, the visible workouts are exactly the workouts of the visible
   * students. (A trainer sees the workouts they created, whoever the student is.)
   */
  lemma WorkoutsFollowStudents(db: Db, u: Id)
    requires u in db.users && db.users[u].userType != Personal
    requires WorkoutRefs(db.treinos, db.alunos, db.personais)
    ensures forall t :: t in VisibleWorkouts(db, u) <==> t in db.treinos && db.treinos[t].aluno in VisibleStudents(db, u)
  {
  }

  /** A trainer sees a gym exactly when one of the students they can see belongs to it. */
  lemma TrainerGymsAreStudentGyms(db: Db, u: Id)
    requires u in db.users && db.users[u].userType == Personal
    requires StudentTrainerRefs(db.alunos, db.personais)
    ensures forall g :: g in VisibleGyms(db, u) <==>
      g in db.academias && exists a :: a in VisibleStudents(db, u) && db.alunos[a].academia == Some(g)
  {
  }

  /** A gym ADMIN without a gym, like any role without a profile, gets four empty querysets. */
  lemma GymlessAdminSeesNothing(db: Db, u: Id)
    requires u in db.users && db.users[u].userType == Admin && db.users[u].academia.None?
    ensures VisibleGyms(db, u) == VisibleTrainers(db, u) == VisibleStudents(db, u) == VisibleWorkouts(db, u) == {}
  {
  }

  /** A student sees their own profile and no gym or trainer. */
  lemma StudentSeesOnlySelf(db: Db, u: Id)
    requires u in db.users && db.users[u].userType == Aluno
    ensures VisibleStudents(db, u) == (if u in db.alunos then {u} else {})
    ensures VisibleGyms(db, u) == VisibleTrainers(db, u) == {}
    ensures forall t :: t in VisibleWorkouts(db, u) ==> db.treinos[t].aluno == u
  {
  }

  /** A system ADMIN sees every gym, trainer, student and workout. */
  lemma SystemAdminSeesAll(db: Db, u: Id)
    requires u in db.users && db.users[u].userType == AdminSistema
    ensures VisibleGyms(db, u) == db.academias.Keys && VisibleTrainers(db, u) == db.personais.Keys
    ensures VisibleStudents(db, u) == db.alunos.Keys && VisibleWorkouts(db, u) == db.treinos.Keys
  {
  }

  /**
   * A PERSONAL with a profile sees exactly the students they are responsible for and the workouts
   * they created; without a profile, none; and never a trainer.
   */
  lemma TrainerScope(db: Db, u: Id)
    requires u in db.users && db.users[u].userType == Personal
    requires StudentTrainerRefs(db.alunos, db.personais)
    ensures u in db.personais ==>
      forall a :: a in VisibleStudents(db, u) <==> a in db.alunos && db.alunos[a].personalResponsavel == Some(u)
    ensures u in db.personais ==>
      forall t :: t in VisibleWorkouts(db, u) <==> t in db.treinos && db.treinos[t].personalCriador == Some(u)
    ensures u !in db.personais ==> VisibleStudents(db, u) == VisibleWorkouts(db, u) == VisibleGyms(db, u) == {}
    ensures VisibleTrainers(db, u) == {}
  {
    if u !in db.personais {
      assert forall a :: a in db.alunos ==> db.alunos[a].personalResponsavel != Some(u);
    }
  }

  /** A gym ADMIN sees exactly their gym and every trainer, student and workout that belongs to it. */
  lemma GymAdminSeesOwnGym(db: Db, u: Id)
    requires u in db.users && AdminGym(db, u).Some?
    requires UserGymRefs(db.users, db.academias)
    ensures var g := AdminGym(db, u).value;
      && VisibleGyms(db, u) == {g}
      && (forall p :: p in VisibleTrainers(db, u) <==> p in db.personais && p in db.users && db.users[p].academia == Some(g))
      && (forall a :: a in VisibleStudents(db, u) <==> a in db.alunos && db.alunos[a].academia == Some(g))
      && (forall t :: t in VisibleWorkouts(db, u) <==>
            t in db.treinos && db.treinos[t].aluno in db.alunos && db.alunos[db.treinos[t].aluno].academia == Some(g))
  {
  }

  // ---------------------------------------------------------------- role gates

  /**
   * The error responses of the dashboards: 403 "Acesso negado", 404 profile not found, and the
   * 500 of an exception the view lets escape.
   */
  datatype Denied = Forbidden | NotFound | ServerError

  /** The gate of the trainer dashboard and report: PERSONAL with a trainer profile. */
  function TrainerGate(db: Db, u: Id): (r: Result<Id, Denied>)
    requires u in db.users
    ensures r.Ok? <==> db.users[u].userType == Personal && u in db.personais
    ensures r == Err(Forbidden) <==> db.users[u].userType != Personal
    ensures r.Ok? ==> r.value == u
  {
    if db.users[u].userType != Personal then Err(Forbidden)
    else if u !in db.personais then Err(NotFound)
    else Ok(u)
  }

  /** The gate of the student dashboard and report: ALUNO with a student profile. */
  function StudentGate(db: Db, u: Id): (r: Result<Id, Denied>)
    requires u in db.users
    ensures r.Ok? <==> db.users[u].userType == Aluno && u in db.alunos
    ensures r == Err(Forbidden) <==> db.users[u].userType != Aluno
    ensures r.Ok? ==> r.value == u
  {
    if db.users[u].userType != Aluno then Err(Forbidden)
    else if u !in db.alunos then Err(NotFound)
    else Ok(u)
  }

  /** The gate of the system dashboard and report: ADMIN_SISTEMA only. */
  function SystemGate(db: Db, u: Id): (r: Outcome<Denied>)
    requires u in db.users
    ensures r.Pass? <==> db.users[u].userType == AdminSistema
    ensures r.Fail? ==> r.error == Forbidden
  {
    if db.users[u].userType == AdminSistema then Pass else Fail(Forbidden)
  }

  /**
   * The gate and scope of the gym dashboard and report: the two admin roles pass; an ADMIN with a
   * gym is scoped to it (`Some(g)`), anybody else who passes sees the whole system (`None`).
   */
  function GymScope(db: Db, u: Id): (r: Result<Option<Id>, Denied>)
    requires u in db.users
    ensures r.Err? <==> db.users[u].userType !in {Admin, AdminSistema}
    ensures r.Err? ==> r.error == Forbidden
    ensures r.Ok? ==> r.value == AdminGym(db, u)
  {
    var t := db.users[u].userType;
    if t != Admin && t != AdminSistema then Err(Forbidden)
    else if t == Admin && db.users[u].academia.Some? then Ok(db.users[u].academia)
    else Ok(None)
  }

  /** A data view answers only after its gate passed; nothing is computed for a refused request. */
  lemma GatesRefuseOtherRoles(db: Db, u: Id)
    requires u in db.users
    ensures TrainerGate(db, u).Ok? ==> StudentGate(db, u) == Err(Forbidden) && GymScope(db, u).Err?
    ensures StudentGate(db, u).Ok? ==> TrainerGate(db, u) == Err(Forbidden) && SystemGate(db, u).Fail?
    ensures SystemGate(db, u).Pass? ==> GymScope(db, u) == Ok(None)
  {
  }

  /** `alunos`, `personais`, `treinos` of the gym dashboard and report for a scope. */
  function ScopedStudents(db: Db, scope: Option<Id>): (as_: set<Id>)
    ensures as_ <= db.alunos.Keys
    ensures scope.None? ==> as_ == db.alunos.Keys
  {
    if scope.Some? then set a | a in db.alunos && db.alunos[a].academia == scope else db.alunos.Keys
  }

  function ScopedTrainers(db: Db, scope: Option<Id>): (ps: set<Id>)
    ensures ps <= db.personais.Keys
    ensures scope.None? ==> ps == db.personais.Keys
  {
    if scope.Some? then set p | p in db.personais && p in db.users && db.users[p].academia == scope
    else db.personais.Keys
  }

  function ScopedWorkouts(db: Db, scope: Option<Id>): (ts: set<Id>)
    ensures ts <= db.treinos.Keys
    ensures scope.None? ==> ts == db.treinos.Keys
  {
    if scope.Some? then
      set t | t in db.treinos && db.treinos[t].aluno in db.alunos && db.alunos[db.treinos[t].aluno].academia == scope
    else db.treinos.Keys
  }

  /**
   * The gym views agree with the viewsets for a system admin and for a gym ADMIN with a gym; a
   * gym ADMIN without a gym falls into the global branch, so the report shows the whole system
   * while the viewsets show nothing.
   */
  lemma GymScopeAgreesWithViewsets(db: Db, u: Id)
    requires u in db.users && GymScope(db, u).Ok?
    ensures var s := GymScope(db, u).value;
      !(db.users[u].userType == Admin && s.None?) ==>
        && ScopedStudents(db, s) == VisibleStudents(db, u)
        && ScopedTrainers(db, s) == VisibleTrainers(db, u)
        && ScopedWorkouts(db, s) == VisibleWorkouts(db, u)
  {
  }

  lemma GymlessAdminSeesEverythingInReports(db: Db, u: Id)
    requires u in db.users && db.users[u].userType == Admin && db.users[u].academia.None?
    ensures GymScope(db, u) == Ok(None)
    ensures ScopedStudents(db, None) == db.alunos.Keys && VisibleStudents(db, u) == {}
  {
  }
}
