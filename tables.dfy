/**
 * What the database does with one write, as a function of the database before it: the unique
 * constraints that refuse an insert or an update (IntegrityError), and what a delete takes with it
 * through the foreign keys (CASCADE removes the referring rows, SET_NULL clears the reference).
 *
 *   PersonalTrainer.user, Aluno.user, Academia.aluno ........ CASCADE from the user
 *   Aluno.personal_responsavel, Treino.personal_criador ..... SET_NULL from the trainer
 *   CustomUser.academia (and the student's gym) ............. SET_NULL from the gym
 *   Treino.aluno ............................................ CASCADE from the student
 *   ItemTreino.treino, ItemTreino.exercicio ................. CASCADE
 *
 * Every write comes with a lemma saying that it keeps the constraints of `Domain.Valid`.
 */
module Tables {
  import opened Wrappers
  import opened Domain

  /** The database refused the write. */
  datatype DbError = IntegrityError

  // ---------------------------------------------------------------- deletes

  /** SET_NULL read on one reference: a reference to a deleted row becomes no reference. */
  function NullIfIn(x: Option<Id>, gone: set<Id>): (y: Option<Id>)
    ensures y.Some? <==> x.Some? && x.value !in gone
    ensures y.Some? ==> y == x
  {
    if x.Some? && x.value in gone then None else x
  }

  /** Deleting a set of workouts deletes their items with them. */
  function DeleteWorkouts(db: Db, ts: set<Id>): (r: Db)
    ensures forall t :: t in r.treinos <==> t in db.treinos && t !in ts
    ensures forall t :: t in r.treinos ==> r.treinos[t] == db.treinos[t]
    ensures forall i :: i in r.itens <==> i in db.itens && db.itens[i].treino !in ts
    ensures forall i :: i in r.itens ==> r.itens[i] == db.itens[i]
    ensures r == db.(treinos := r.treinos, itens := r.itens)
  {
    db.(treinos := map t | t in db.treinos && t !in ts :: db.treinos[t],
        itens := map i | i in db.itens && db.itens[i].treino !in ts :: db.itens[i])
  }

  lemma DeleteWorkoutsKeepsValid(db: Db, ts: set<Id>)
    requires Valid(db)
    ensures Valid(DeleteWorkouts(db, ts))
  {
    var r := DeleteWorkouts(db, ts);
    assert WorkoutRefs(r.treinos, r.alunos, r.personais);
    assert ItemRefs(r.itens, r.treinos, r.exercicios);
    assert UniquePairs(r.itens);
    assert KeysBounded(r);
  }

  /** The workouts of student `a`. */
  function WorkoutsOf(db: Db, a: Id): (ts: set<Id>)
    ensures forall t :: t in ts <==> t in db.treinos && db.treinos[t].aluno == a
  {
    set t | t in db.treinos && db.treinos[t].aluno == a
  }

  /** Deleting a student profile deletes that student's workouts and, through them, their items. */
  function DeleteStudent(db: Db, a: Id): (r: Db)
    ensures forall s :: s in r.alunos <==> s in db.alunos && s != a
    ensures forall s :: s in r.alunos ==> r.alunos[s] == db.alunos[s]
    ensures forall t :: t in r.treinos <==> t in db.treinos && db.treinos[t].aluno != a
    ensures forall t :: t in r.treinos ==> r.treinos[t] == db.treinos[t]
    ensures forall i :: i in r.itens <==> i in db.itens && db.itens[i].treino !in WorkoutsOf(db, a)
    ensures forall i :: i in r.itens ==> r.itens[i] == db.itens[i]
    ensures r == db.(alunos := r.alunos, treinos := r.treinos, itens := r.itens)
  {
    var d := DeleteWorkouts(db, WorkoutsOf(db, a));
    d.(alunos := d.alunos - {a})
  }

  lemma DeleteStudentKeepsValid(db: Db, a: Id)
    requires Valid(db)
    ensures Valid(DeleteStudent(db, a))
  {
    var d := DeleteWorkouts(db, WorkoutsOf(db, a));
    DeleteWorkoutsKeepsValid(db, WorkoutsOf(db, a));
    var r := DeleteStudent(db, a);
    assert r == d.(alunos := d.alunos - {a});
    assert r.alunos.Keys <= r.users.Keys;
    assert StudentTrainerRefs(r.alunos, r.personais);
    assert StudentGymRefs(r.alunos, r.academias);
    assert WorkoutRefs(r.treinos, r.alunos, r.personais);
  }

  /** `treino.itens.all().delete()`: the items of workout `t` go, every other row stays. */
  function DeleteItemsOf(db: Db, t: Id): (r: Db)
    ensures forall i :: i in r.itens <==> i in db.itens && db.itens[i].treino != t
    ensures forall i :: i in r.itens ==> r.itens[i] == db.itens[i]
    ensures r == db.(itens := r.itens)
  {
    db.(itens := map i | i in db.itens && db.itens[i].treino != t :: db.itens[i])
  }

  lemma DeleteItemsOfKeepsValid(db: Db, t: Id)
    requires Valid(db)
    ensures Valid(DeleteItemsOf(db, t))
  {
    var r := DeleteItemsOf(db, t);
    assert ItemRefs(r.itens, r.treinos, r.exercicios);
    assert UniquePairs(r.itens);
    assert KeysBelow(r.itens, r.nextId);
  }

  /** SET_NULL of `personal_responsavel` on the students of trainer `p`. */
  function ClearTrainer(alunos: map<Id, Student>, p: Id): (r: map<Id, Student>)
    ensures r.Keys == alunos.Keys
    ensures forall s :: s in r ==> r[s] == alunos[s].(personalResponsavel := NullIfIn(alunos[s].personalResponsavel, {p}))
  {
    map s | s in alunos :: alunos[s].(personalResponsavel := NullIfIn(alunos[s].personalResponsavel, {p}))
  }

  /** SET_NULL of `personal_criador` on the workouts trainer `p` created. */
  function ClearCreator(treinos: map<Id, Workout>, p: Id): (r: map<Id, Workout>)
    ensures r.Keys == treinos.Keys
    ensures forall t :: t in r ==> r[t] == treinos[t].(personalCriador := NullIfIn(treinos[t].personalCriador, {p}))
  {
    map t | t in treinos :: treinos[t].(personalCriador := NullIfIn(treinos[t].personalCriador, {p}))
  }

  /**
   * Deleting a trainer profile keeps every student and every workout; the ones that referred to the
   * trainer now refer to nobody.
   */
  function DeleteTrainer(db: Db, p: Id): (r: Db)
    ensures forall q :: q in r.personais <==> q in db.personais && q != p
    ensures forall q :: q in r.personais ==> r.personais[q] == db.personais[q]
    ensures r.alunos.Keys == db.alunos.Keys && r.treinos.Keys == db.treinos.Keys
    ensures forall s :: s in r.alunos ==>
      r.alunos[s] == db.alunos[s].(personalResponsavel := NullIfIn(db.alunos[s].personalResponsavel, {p}))
    ensures forall t :: t in r.treinos ==>
      r.treinos[t] == db.treinos[t].(personalCriador := NullIfIn(db.treinos[t].personalCriador, {p}))
    ensures r == db.(personais := r.personais, alunos := r.alunos, treinos := r.treinos)
  {
    db.(personais := db.personais - {p}, alunos := ClearTrainer(db.alunos, p), treinos := ClearCreator(db.treinos, p))
  }

  lemma DeleteTrainerKeepsValid(db: Db, p: Id)
    requires Valid(db)
    ensures Valid(DeleteTrainer(db, p))
  {
    ClearTrainerRefs(db.alunos, db.personais, db.academias, p);
    ClearCreatorRefs(db.treinos, db.alunos, db.personais, db.itens, db.exercicios, db.nextId, p);
    assert UniqueCrefs(db.personais - {p});
  }

  lemma ClearTrainerRefs(alunos: map<Id, Student>, personais: map<Id, Trainer>, academias: map<Id, Gym>, p: Id)
    requires StudentTrainerRefs(alunos, personais) && StudentGymRefs(alunos, academias)
    ensures StudentTrainerRefs(ClearTrainer(alunos, p), personais - {p})
    ensures StudentGymRefs(ClearTrainer(alunos, p), academias)
  {
  }

  lemma ClearCreatorRefs(treinos: map<Id, Workout>, alunos: map<Id, Student>, personais: map<Id, Trainer>,
                         itens: map<Id, WorkoutItem>, exercicios: map<Id, Exercise>, n: Id, p: Id)
    requires WorkoutRefs(treinos, alunos, personais) && ItemRefs(itens, treinos, exercicios) && KeysBelow(treinos, n)
    ensures WorkoutRefs(ClearCreator(treinos, p), ClearTrainer(alunos, p), personais - {p})
    ensures ItemRefs(itens, ClearCreator(treinos, p), exercicios)
    ensures KeysBelow(ClearCreator(treinos, p), n)
  {
  }

  /** Deleting an exercise deletes the workout items that use it. */
  function DeleteExercise(db: Db, e: Id): (r: Db)
    ensures forall x :: x in r.exercicios <==> x in db.exercicios && x != e
    ensures forall x :: x in r.exercicios ==> r.exercicios[x] == db.exercicios[x]
    ensures forall i :: i in r.itens <==> i in db.itens && db.itens[i].exercicio != e
    ensures forall i :: i in r.itens ==> r.itens[i] == db.itens[i]
    ensures r == db.(exercicios := r.exercicios, itens := r.itens)
  {
    db.(exercicios := db.exercicios - {e}, itens := map i | i in db.itens && db.itens[i].exercicio != e :: db.itens[i])
  }

  lemma DeleteExerciseKeepsValid(db: Db, e: Id)
    requires Valid(db)
    ensures Valid(DeleteExercise(db, e))
  {
    var r := DeleteExercise(db, e);
    assert ItemRefs(r.itens, r.treinos, r.exercicios);
    assert UniqueExerciseNames(r.exercicios) && UniqueSlugs(r.exercicios);
    assert UniquePairs(r.itens);
    assert KeysBounded(r);
  }

  /** SET_NULL of the gym reference on the users of the deleted gyms. */
  function ClearUserGym(users: map<Id, User>, gs: set<Id>): (r: map<Id, User>)
    ensures r.Keys == users.Keys
    ensures forall u :: u in r ==> r[u] == users[u].(academia := NullIfIn(users[u].academia, gs))
  {
    map u | u in users :: users[u].(academia := NullIfIn(users[u].academia, gs))
  }

  /** SET_NULL of the gym reference on the students of the deleted gyms. */
  function ClearStudentGym(alunos: map<Id, Student>, gs: set<Id>): (r: map<Id, Student>)
    ensures r.Keys == alunos.Keys
    ensures forall s :: s in r ==> r[s] == alunos[s].(academia := NullIfIn(alunos[s].academia, gs))
  {
    map s | s in alunos :: alunos[s].(academia := NullIfIn(alunos[s].academia, gs))
  }

  /** Deleting gyms clears the gym of their users and students; nobody else is touched. */
  function DeleteGyms(db: Db, gs: set<Id>): (r: Db)
    ensures forall g :: g in r.academias <==> g in db.academias && g !in gs
    ensures forall g :: g in r.academias ==> r.academias[g] == db.academias[g]
    ensures r.users.Keys == db.users.Keys && r.alunos.Keys == db.alunos.Keys
    ensures forall u :: u in r.users ==> r.users[u] == db.users[u].(academia := NullIfIn(db.users[u].academia, gs))
    ensures forall s :: s in r.alunos ==> r.alunos[s] == db.alunos[s].(academia := NullIfIn(db.alunos[s].academia, gs))
    ensures r == db.(academias := r.academias, users := r.users, alunos := r.alunos)
  {
    db.(academias := map g | g in db.academias && g !in gs :: db.academias[g],
        users := ClearUserGym(db.users, gs), alunos := ClearStudentGym(db.alunos, gs))
  }

  lemma DeleteGymsKeepsValid(db: Db, gs: set<Id>)
    requires Valid(db)
    ensures Valid(DeleteGyms(db, gs))
  {
    var r := DeleteGyms(db, gs);
    ClearUserGymRefs(db.users, db.academias, gs);
    ClearStudentGymRefs(db.alunos, db.personais, db.academias, db.treinos, gs);
    assert GymUserRefs(r.academias, r.users);
    assert UniqueCnpjs(r.academias);
    assert KeysBounded(r);
  }

  lemma ClearUserGymRefs(users: map<Id, User>, academias: map<Id, Gym>, gs: set<Id>)
    requires UserGymRefs(users, academias) && UniqueEmails(users) && UniqueUsernames(users)
    ensures UserGymRefs(ClearUserGym(users, gs), map g | g in academias && g !in gs :: academias[g])
    ensures UniqueEmails(ClearUserGym(users, gs)) && UniqueUsernames(ClearUserGym(users, gs))
  {
    var r := ClearUserGym(users, gs);
    assert forall u :: u in r ==> r[u].email == users[u].email && r[u].username == users[u].username;
  }

  lemma ClearStudentGymRefs(alunos: map<Id, Student>, personais: map<Id, Trainer>, academias: map<Id, Gym>,
                            treinos: map<Id, Workout>, gs: set<Id>)
    requires StudentGymRefs(alunos, academias) && StudentTrainerRefs(alunos, personais)
    requires WorkoutRefs(treinos, alunos, personais)
    ensures StudentGymRefs(ClearStudentGym(alunos, gs), map g | g in academias && g !in gs :: academias[g])
    ensures StudentTrainerRefs(ClearStudentGym(alunos, gs), personais)
    ensures WorkoutRefs(treinos, ClearStudentGym(alunos, gs), personais)
  {
  }

  /** The gyms whose responsible user is `u`. */
  function GymsOf(db: Db, u: Id): (gs: set<Id>)
    ensures forall g :: g in gs <==> g in db.academias && db.academias[g].responsavel == Some(u)
  {
    set g | g in db.academias && db.academias[g].responsavel == Some(u)
  }

  /**
   * Deleting a user deletes their trainer and student profiles (with what those take along) and
   * every gym whose responsible user they are; all other users survive.
   */
  function DeleteUser(db: Db, u: Id): (r: Db)
    ensures forall v :: v in r.users <==> v in db.users && v != u
    ensures u !in r.personais && u !in r.alunos
    ensures forall q :: q in r.personais <==> q in db.personais && q != u
    ensures forall s :: s in r.alunos <==> s in db.alunos && s != u
    ensures forall g :: g in r.academias <==> g in db.academias && db.academias[g].responsavel != Some(u)
    ensures forall t :: t in r.treinos <==> t in db.treinos && db.treinos[t].aluno != u
    ensures r.exercicios == db.exercicios
  {
    var d1 := DeleteTrainer(db, u);
    assert forall t :: t in d1.treinos ==> d1.treinos[t].aluno == db.treinos[t].aluno;
    var d2 := DeleteStudent(d1, u);
    var d3 := DeleteGyms(d2, GymsOf(d2, u));
    d3.(users := d3.users - {u})
  }

  /**
   * The rows that survive deleting user `u`: trainers, gyms and items unchanged; users lose the
   * deleted gyms; students lose `u` as trainer and the deleted gyms; workouts lose `u` as creator.
   * The items that go are exactly those of `u`'s workouts as a student.
   */
  lemma DeleteUserRows(db: Db, u: Id)
    ensures var r, gs := DeleteUser(db, u), GymsOf(db, u);
      && (forall v :: v in r.users ==> r.users[v] == db.users[v].(academia := NullIfIn(db.users[v].academia, gs)))
      && (forall q :: q in r.personais ==> r.personais[q] == db.personais[q])
      && (forall g :: g in r.academias ==> r.academias[g] == db.academias[g])
      && (forall s :: s in r.alunos ==>
            r.alunos[s] == db.alunos[s].(personalResponsavel := NullIfIn(db.alunos[s].personalResponsavel, {u}),
                                         academia := NullIfIn(db.alunos[s].academia, gs)))
      && (forall t :: t in r.treinos ==>
            r.treinos[t] == db.treinos[t].(personalCriador := NullIfIn(db.treinos[t].personalCriador, {u})))
      && (forall i :: i in r.itens <==> i in db.itens && db.itens[i].treino !in WorkoutsOf(db, u))
      && (forall i :: i in r.itens ==> r.itens[i] == db.itens[i])
      && r.exercicios == db.exercicios && r.nextId == db.nextId
  {
    DeleteUserOthers(db, u);
    DeleteUserStudents(db, u);
    DeleteUserWorkouts(db, u);
  }

  lemma DeleteUserOthers(db: Db, u: Id)
    ensures var r, gs := DeleteUser(db, u), GymsOf(db, u);
      && (forall v :: v in r.users ==> r.users[v] == db.users[v].(academia := NullIfIn(db.users[v].academia, gs)))
      && (forall q :: q in r.personais ==> r.personais[q] == db.personais[q])
      && (forall g :: g in r.academias ==> r.academias[g] == db.academias[g])
      && r.exercicios == db.exercicios && r.nextId == db.nextId
  {
    var d2 := DeleteStudent(DeleteTrainer(db, u), u);
    assert d2.users == db.users && d2.academias == db.academias;
    assert GymsOf(d2, u) == GymsOf(db, u);
  }

  lemma DeleteUserStudents(db: Db, u: Id)
    ensures var r, gs := DeleteUser(db, u), GymsOf(db, u);
      forall s :: s in r.alunos ==>
        r.alunos[s] == db.alunos[s].(personalResponsavel := NullIfIn(db.alunos[s].personalResponsavel, {u}),
                                     academia := NullIfIn(db.alunos[s].academia, gs))
  {
    var d1 := DeleteTrainer(db, u);
    var d2 := DeleteStudent(d1, u);
    assert d2.academias == db.academias;
    assert GymsOf(d2, u) == GymsOf(db, u);
    assert forall s :: s in d2.alunos ==> d2.alunos[s] == d1.alunos[s];
  }

  lemma DeleteUserWorkouts(db: Db, u: Id)
    ensures var r := DeleteUser(db, u);
      && (forall t :: t in r.treinos ==>
            r.treinos[t] == db.treinos[t].(personalCriador := NullIfIn(db.treinos[t].personalCriador, {u})))
      && (forall i :: i in r.itens <==> i in db.itens && db.itens[i].treino !in WorkoutsOf(db, u))
      && (forall i :: i in r.itens ==> r.itens[i] == db.itens[i])
  {
    var d1 := DeleteTrainer(db, u);
    assert forall t :: t in d1.treinos ==> d1.treinos[t].aluno == db.treinos[t].aluno;
    assert WorkoutsOf(d1, u) == WorkoutsOf(db, u);
    var d2 := DeleteStudent(d1, u);
    assert DeleteUser(db, u).treinos == d2.treinos && DeleteUser(db, u).itens == d2.itens;
  }

  lemma DeleteUserKeepsValid(db: Db, u: Id)
    requires Valid(db)
    ensures Valid(DeleteUser(db, u))
  {
    var d1 := DeleteTrainer(db, u);
    DeleteTrainerKeepsValid(db, u);
    var d2 := DeleteStudent(d1, u);
    DeleteStudentKeepsValid(d1, u);
    var d3 := DeleteGyms(d2, GymsOf(d2, u));
    DeleteGymsKeepsValid(d2, GymsOf(d2, u));
    var r := d3.(users := d3.users - {u});
    assert r == DeleteUser(db, u);
    assert KeysBounded(r);
    assert UserGymRefs(r.users, r.academias);
    assert GymUserRefs(r.academias, r.users);
    assert r.personais.Keys <= r.users.Keys && r.alunos.Keys <= r.users.Keys;
    assert UniqueEmails(r.users) && UniqueUsernames(r.users);
  }

  // ---------------------------------------------------------------- inserts and updates

  /** No other user than `except` holds the email or the username of `u`. */
  predicate UserKeysFree(db: Db, u: User, except: Option<Id>) {
    forall v :: v in db.users && Some(v) != except ==>
      db.users[v].email != u.email && db.users[v].username != u.username
  }

  predicate UserRefsOk(db: Db, u: User) {
    u.academia.Some? ==> u.academia.value in db.academias
  }

  /** INSERT of a user row: a fresh id, refused when the email or the username is taken. */
  function InsertUser(db: Db, u: User): (r: (Db, Result<Id, DbError>))
    ensures r.1.Ok? <==> UserKeysFree(db, u, None)
    ensures r.1.Err? ==> r.0 == db
    ensures r.1.Ok? ==>
      && (KeysBounded(db) ==> r.1.value !in db.users)
      && r.0.users == db.users[r.1.value := u] && r.0.nextId == r.1.value + 1
      && r.0 == db.(users := r.0.users, nextId := r.0.nextId)
  {
    if UserKeysFree(db, u, None) then (db.(users := db.users[db.nextId := u], nextId := db.nextId + 1), Ok(db.nextId))
    else (db, Err(IntegrityError))
  }

  lemma InsertUserKeepsValid(db: Db, u: User)
    requires Valid(db) && UserRefsOk(db, u)
    ensures Valid(InsertUser(db, u).0)
  {
    if UserKeysFree(db, u, None) {
      PutUser(db.users, db.academias, db.nextId, u);
      assert KeysBelow(db.users, db.nextId + 1) && KeysBelow(db.academias, db.nextId + 1);
      assert KeysBelow(db.exercicios, db.nextId + 1) && KeysBelow(db.treinos, db.nextId + 1);
      assert KeysBelow(db.itens, db.nextId + 1);
    }
  }

  /** Writing a user row whose email and username no other row holds keeps the user constraints. */
  lemma PutUser(users: map<Id, User>, academias: map<Id, Gym>, id: Id, u: User)
    requires UserGymRefs(users, academias) && GymUserRefs(academias, users)
    requires UniqueEmails(users) && UniqueUsernames(users)
    requires u.academia.Some? ==> u.academia.value in academias
    requires forall v :: v in users && v != id ==> users[v].email != u.email && users[v].username != u.username
    ensures UserGymRefs(users[id := u], academias) && GymUserRefs(academias, users[id := u])
    ensures UniqueEmails(users[id := u]) && UniqueUsernames(users[id := u])
  {
  }

  /** UPDATE of an existing user row; refused when another user holds the email or the username. */
  function UpdateUser(db: Db, id: Id, u: User): (r: (Db, Outcome<DbError>))
    ensures r.1.Pass? <==> UserKeysFree(db, u, Some(id))
    ensures r.1.Pass? ==> r.0.users == db.users[id := u] && r.0 == db.(users := r.0.users)
    ensures r.1.Fail? ==> r.0 == db
  {
    if UserKeysFree(db, u, Some(id)) then (db.(users := db.users[id := u]), Pass)
    else (db, Fail(IntegrityError))
  }

  lemma UpdateUserKeepsValid(db: Db, id: Id, u: User)
    requires Valid(db) && id in db.users && UserRefsOk(db, u)
    ensures Valid(UpdateUser(db, id, u).0)
  {
    if UserKeysFree(db, u, Some(id)) {
      PutUser(db.users, db.academias, id, u);
      assert KeysBelow(db.users[id := u], db.nextId);
    }
  }

  predicate StudentRefsOk(db: Db, s: Student) {
    && (s.personalResponsavel.Some? ==> s.personalResponsavel.value in db.personais)
    && (s.academia.Some? ==> s.academia.value in db.academias)
  }

  /** INSERT of a student profile keyed by its user: refused when that user already has one. */
  function InsertStudent(db: Db, id: Id, s: Student): (r: (Db, Outcome<DbError>))
    ensures r.1.Pass? <==> id !in db.alunos
    ensures r.1.Pass? ==> r.0.alunos == db.alunos[id := s] && r.0 == db.(alunos := r.0.alunos)
    ensures r.1.Fail? ==> r.0 == db
  {
    if id in db.alunos then (db, Fail(IntegrityError)) else (db.(alunos := db.alunos[id := s]), Pass)
  }

  /** `save()` of a student instance whose key is set: an UPDATE, or an INSERT when no row has it. */
  function SaveStudent(db: Db, id: Id, s: Student): (r: Db)
    ensures id in r.alunos && r.alunos[id] == s
    ensures forall x :: x in r.alunos && x != id ==> x in db.alunos && r.alunos[x] == db.alunos[x]
    ensures forall x :: x in db.alunos ==> x in r.alunos
    ensures r == db.(alunos := r.alunos)
  {
    db.(alunos := db.alunos[id := s])
  }

  lemma SaveStudentKeepsValid(db: Db, id: Id, s: Student)
    requires Valid(db) && id in db.users && StudentRefsOk(db, s)
    ensures Valid(SaveStudent(db, id, s))
    ensures Valid(InsertStudent(db, id, s).0)
  {
    var r := SaveStudent(db, id, s);
    assert r.alunos.Keys <= r.users.Keys;
    assert StudentTrainerRefs(r.alunos, r.personais);
    assert StudentGymRefs(r.alunos, r.academias);
    assert WorkoutRefs(r.treinos, r.alunos, r.personais);
  }

  /** No trainer other than `id` holds `cref`. */
  predicate CrefFree(db: Db, cref: string, id: Id) {
    forall q :: q in db.personais && q != id ==> db.personais[q].cref != cref
  }

  /** INSERT of a trainer profile: refused when the user has one or the CREF is taken. */
  function InsertTrainer(db: Db, id: Id, t: Trainer): (r: (Db, Outcome<DbError>))
    ensures r.1.Pass? <==> id !in db.personais && CrefFree(db, t.cref, id)
    ensures r.1.Pass? ==> r.0.personais == db.personais[id := t] && r.0 == db.(personais := r.0.personais)
    ensures r.1.Fail? ==> r.0 == db
  {
    if id in db.personais || !CrefFree(db, t.cref, id) then (db, Fail(IntegrityError))
    else (db.(personais := db.personais[id := t]), Pass)
  }

  /** `save()` of a trainer instance whose key is set (UPDATE or INSERT); refused on a CREF clash. */
  function SaveTrainer(db: Db, id: Id, t: Trainer): (r: (Db, Outcome<DbError>))
    ensures r.1.Pass? <==> CrefFree(db, t.cref, id)
    ensures r.1.Pass? ==> r.0.personais == db.personais[id := t] && r.0 == db.(personais := r.0.personais)
    ensures r.1.Fail? ==> r.0 == db
  {
    if CrefFree(db, t.cref, id) then (db.(personais := db.personais[id := t]), Pass)
    else (db, Fail(IntegrityError))
  }

  lemma SaveTrainerKeepsValid(db: Db, id: Id, t: Trainer)
    requires Valid(db) && id in db.users
    ensures Valid(SaveTrainer(db, id, t).0)
    ensures Valid(InsertTrainer(db, id, t).0)
  {
    if CrefFree(db, t.cref, id) {
      PutTrainer(db.personais, db.alunos, db.treinos, id, t);
    }
  }

  /** Writing a trainer row whose CREF no other trainer holds keeps the trainer constraints. */
  lemma PutTrainer(personais: map<Id, Trainer>, alunos: map<Id, Student>, treinos: map<Id, Workout>, id: Id, t: Trainer)
    requires StudentTrainerRefs(alunos, personais) && WorkoutRefs(treinos, alunos, personais) && UniqueCrefs(personais)
    requires forall q :: q in personais && q != id ==> personais[q].cref != t.cref
    ensures StudentTrainerRefs(alunos, personais[id := t]) && WorkoutRefs(treinos, alunos, personais[id := t])
    ensures UniqueCrefs(personais[id := t])
  {
  }

  predicate WorkoutRefsOk(db: Db, w: Workout) {
    w.aluno in db.alunos && (w.personalCriador.Some? ==> w.personalCriador.value in db.personais)
  }

  /** INSERT of a workout: always accepted, under a fresh id. */
  function InsertWorkout(db: Db, w: Workout): (r: (Db, Id))
    ensures KeysBounded(db) ==> r.1 !in db.treinos && r.1 !in db.itens
    ensures r.0.treinos == db.treinos[r.1 := w] && r.0.nextId == r.1 + 1
    ensures r.0 == db.(treinos := r.0.treinos, nextId := r.0.nextId)
  {
    (db.(treinos := db.treinos[db.nextId := w], nextId := db.nextId + 1), db.nextId)
  }

  lemma InsertWorkoutKeepsValid(db: Db, w: Workout)
    requires Valid(db) && WorkoutRefsOk(db, w)
    ensures Valid(InsertWorkout(db, w).0)
  {
    PutWorkoutRefs(db.treinos, db.alunos, db.personais, db.itens, db.exercicios, db.nextId, w);
    assert KeysBelow(db.users, db.nextId + 1) && KeysBelow(db.academias, db.nextId + 1);
    assert KeysBelow(db.exercicios, db.nextId + 1) && KeysBelow(db.itens, db.nextId + 1);
  }

  /** Writing a workout row whose references exist keeps the workout and item references intact. */
  lemma PutWorkoutRefs(treinos: map<Id, Workout>, alunos: map<Id, Student>, personais: map<Id, Trainer>,
                       itens: map<Id, WorkoutItem>, exercicios: map<Id, Exercise>, t: Id, w: Workout)
    requires WorkoutRefs(treinos, alunos, personais) && ItemRefs(itens, treinos, exercicios)
    requires w.aluno in alunos && (w.personalCriador.Some? ==> w.personalCriador.value in personais)
    ensures WorkoutRefs(treinos[t := w], alunos, personais) && ItemRefs(itens, treinos[t := w], exercicios)
  {
  }

  /** UPDATE of an existing workout row. */
  function UpdateWorkout(db: Db, t: Id, w: Workout): (r: Db)
    requires t in db.treinos
    ensures r.treinos.Keys == db.treinos.Keys && r.treinos[t] == w
    ensures forall x :: x in r.treinos && x != t ==> r.treinos[x] == db.treinos[x]
    ensures r == db.(treinos := r.treinos)
  {
    db.(treinos := db.treinos[t := w])
  }

  lemma UpdateWorkoutKeepsValid(db: Db, t: Id, w: Workout)
    requires Valid(db) && t in db.treinos && WorkoutRefsOk(db, w)
    ensures Valid(UpdateWorkout(db, t, w))
  {
    PutWorkoutRefs(db.treinos, db.alunos, db.personais, db.itens, db.exercicios, t, w);
    assert KeysBelow(db.treinos[t := w], db.nextId);
  }

  predicate ItemRefsOk(db: Db, it: WorkoutItem) {
    it.treino in db.treinos && it.exercicio in db.exercicios
  }

  /** The workout already lists the exercise (unique_together on treino and exercicio). */
  predicate PairTaken(db: Db, it: WorkoutItem) {
    exists i :: i in db.itens && db.itens[i].treino == it.treino && db.itens[i].exercicio == it.exercicio
  }

  /** INSERT of a workout item: refused when the workout already lists that exercise. */
  function InsertItem(db: Db, it: WorkoutItem): (r: (Db, Outcome<DbError>))
    ensures r.1.Pass? <==> !PairTaken(db, it)
    ensures r.1.Pass? ==>
      && (KeysBounded(db) ==> db.nextId !in db.itens)
      && r.0.itens == db.itens[db.nextId := it] && r.0.nextId == db.nextId + 1
      && r.0 == db.(itens := r.0.itens, nextId := r.0.nextId)
    ensures r.1.Fail? ==> r.0 == db
  {
    if PairTaken(db, it) then (db, Fail(IntegrityError))
    else (db.(itens := db.itens[db.nextId := it], nextId := db.nextId + 1), Pass)
  }

  lemma InsertItemKeepsValid(db: Db, it: WorkoutItem)
    requires Valid(db) && ItemRefsOk(db, it)
    ensures Valid(InsertItem(db, it).0)
  {
    if !PairTaken(db, it) {
      PutItem(db.itens, db.treinos, db.exercicios, db.nextId, it);
      assert KeysBelow(db.users, db.nextId + 1) && KeysBelow(db.academias, db.nextId + 1);
      assert KeysBelow(db.exercicios, db.nextId + 1) && KeysBelow(db.treinos, db.nextId + 1);
    }
  }

  /** A new item row whose pair is free keeps the item references and the pair constraint. */
  lemma PutItem(itens: map<Id, WorkoutItem>, treinos: map<Id, Workout>, exercicios: map<Id, Exercise>, n: Id,
                it: WorkoutItem)
    requires ItemRefs(itens, treinos, exercicios) && UniquePairs(itens) && KeysBelow(itens, n)
    requires it.treino in treinos && it.exercicio in exercicios
    requires forall i :: i in itens ==> !(itens[i].treino == it.treino && itens[i].exercicio == it.exercicio)
    ensures ItemRefs(itens[n := it], treinos, exercicios) && UniquePairs(itens[n := it])
    ensures KeysBelow(itens[n := it], n + 1)
  {
  }

  /** No gym other than `except` holds the CNPJ. */
  predicate CnpjFree(db: Db, cnpj: string, except: Option<Id>) {
    forall x :: x in db.academias && Some(x) != except ==> db.academias[x].cnpj != cnpj
  }

  /** The gym's responsible user, if any, exists. */
  predicate GymRefsOk(db: Db, g: Gym) {
    g.responsavel.Some? ==> g.responsavel.value in db.users
  }

  /**
   * INSERT of a gym: a fresh id and the creation date `now` (`auto_now_add`); refused when another
   * gym holds the CNPJ.
   */
  function InsertGym(db: Db, g: Gym, now: Timestamp): (r: (Db, Result<Id, DbError>))
    ensures r.1.Ok? <==> CnpjFree(db, g.cnpj, None)
    ensures r.1.Err? ==> r.0 == db
    ensures r.1.Ok? ==>
      && (KeysBounded(db) ==> r.1.value !in db.academias)
      && r.0.academias == db.academias[r.1.value := g.(dataCriacao := now)] && r.0.nextId == r.1.value + 1
      && r.0 == db.(academias := r.0.academias, nextId := r.0.nextId)
  {
    if CnpjFree(db, g.cnpj, None) then
      (db.(academias := db.academias[db.nextId := g.(dataCriacao := now)], nextId := db.nextId + 1), Ok(db.nextId))
    else (db, Err(IntegrityError))
  }

  lemma InsertGymKeepsValid(db: Db, g: Gym, now: Timestamp)
    requires Valid(db) && GymRefsOk(db, g)
    ensures Valid(InsertGym(db, g, now).0)
  {
    var r := InsertGym(db, g, now).0;
    if CnpjFree(db, g.cnpj, None) {
      PutGym(db.academias, db.users, db.alunos, db.nextId, g.(dataCriacao := now));
      assert r == db.(academias := db.academias[db.nextId := g.(dataCriacao := now)], nextId := db.nextId + 1);
      assert KeysBelow(db.users, db.nextId + 1) && KeysBelow(r.academias, db.nextId + 1);
      assert KeysBelow(db.exercicios, db.nextId + 1) && KeysBelow(db.treinos, db.nextId + 1);
      assert KeysBelow(db.itens, db.nextId + 1);
    }
  }

  /** A gym written under a new key, with a CNPJ no other gym holds, keeps the gym constraints. */
  lemma PutGym(academias: map<Id, Gym>, users: map<Id, User>, alunos: map<Id, Student>, id: Id, g: Gym)
    requires UniqueCnpjs(academias) && GymUserRefs(academias, users)
    requires UserGymRefs(users, academias) && StudentGymRefs(alunos, academias)
    requires forall x :: x in academias && x != id ==> academias[x].cnpj != g.cnpj
    requires g.responsavel.Some? ==> g.responsavel.value in users
    ensures UniqueCnpjs(academias[id := g]) && GymUserRefs(academias[id := g], users)
    ensures UserGymRefs(users, academias[id := g]) && StudentGymRefs(alunos, academias[id := g])
  {
  }

  /** A second gym with the CNPJ of one just inserted is refused. */
  lemma InsertGymTwiceRefused(db: Db, g: Gym, h: Gym, now: Timestamp, later: Timestamp)
    requires KeysBounded(db) && h.cnpj == g.cnpj
    ensures var (d, r) := InsertGym(db, g, now);
      r.Ok? ==> InsertGym(d, h, later).1.Err?
  {
    var (d, r) := InsertGym(db, g, now);
    if r.Ok? {
      assert d.academias[r.value].cnpj == h.cnpj;
    }
  }

  /** UPDATE of gym `x`: its creation date stays; refused when another gym holds the CNPJ. */
  function UpdateGym(db: Db, x: Id, g: Gym): (r: (Db, Outcome<DbError>))
    requires x in db.academias
    ensures r.1.Pass? <==> CnpjFree(db, g.cnpj, Some(x))
    ensures r.1.Pass? ==>
      && r.0.academias == db.academias[x := g.(dataCriacao := db.academias[x].dataCriacao)]
      && r.0 == db.(academias := r.0.academias)
    ensures r.1.Fail? ==> r.0 == db
  {
    if CnpjFree(db, g.cnpj, Some(x)) then
      (db.(academias := db.academias[x := g.(dataCriacao := db.academias[x].dataCriacao)]), Pass)
    else (db, Fail(IntegrityError))
  }

  lemma UpdateGymKeepsValid(db: Db, x: Id, g: Gym)
    requires Valid(db) && x in db.academias && GymRefsOk(db, g)
    ensures Valid(UpdateGym(db, x, g).0)
  {
    var r := UpdateGym(db, x, g).0;
    if r != db {
      assert UniqueCnpjs(r.academias);
      assert GymUserRefs(r.academias, r.users);
      assert UserGymRefs(r.users, r.academias) && StudentGymRefs(r.alunos, r.academias);
      assert KeysBelow(r.academias, r.nextId);
    }
  }

  /** No exercise other than `except` has the name, or (when present) the slug, of `e`. */
  predicate ExerciseKeysFree(db: Db, e: Exercise, except: Option<Id>) {
    forall x :: x in db.exercicios && Some(x) != except ==>
      db.exercicios[x].nome != e.nome && (e.slug.Some? ==> db.exercicios[x].slug != e.slug)
  }

  /** INSERT of an exercise: refused on a name or slug clash. */
  function InsertExercise(db: Db, e: Exercise): (r: (Db, Result<Id, DbError>))
    ensures r.1.Ok? <==> ExerciseKeysFree(db, e, None)
    ensures r.1.Ok? ==>
      && (KeysBounded(db) ==> r.1.value !in db.exercicios)
      && r.0.exercicios == db.exercicios[r.1.value := e] && r.0.nextId == r.1.value + 1
      && r.0 == db.(exercicios := r.0.exercicios, nextId := r.0.nextId)
    ensures r.1.Err? ==> r.0 == db
  {
    if ExerciseKeysFree(db, e, None) then
      (db.(exercicios := db.exercicios[db.nextId := e], nextId := db.nextId + 1), Ok(db.nextId))
    else (db, Err(IntegrityError))
  }

  lemma InsertExerciseKeepsValid(db: Db, e: Exercise)
    requires Valid(db)
    ensures Valid(InsertExercise(db, e).0)
  {
    var r := InsertExercise(db, e).0;
    if r != db {
      assert ItemRefs(r.itens, r.treinos, r.exercicios);
      assert UniqueExerciseNames(r.exercicios) && UniqueSlugs(r.exercicios);
      assert KeysBounded(r);
    }
  }

  /** UPDATE of an existing exercise: refused when another exercise holds the name or the slug. */
  function UpdateExercise(db: Db, x: Id, e: Exercise): (r: (Db, Outcome<DbError>))
    ensures r.1.Pass? <==> ExerciseKeysFree(db, e, Some(x))
    ensures r.1.Pass? ==> r.0.exercicios == db.exercicios[x := e] && r.0 == db.(exercicios := r.0.exercicios)
    ensures r.1.Fail? ==> r.0 == db
  {
    if ExerciseKeysFree(db, e, Some(x)) then (db.(exercicios := db.exercicios[x := e]), Pass)
    else (db, Fail(IntegrityError))
  }

  lemma UpdateExerciseKeepsValid(db: Db, x: Id, e: Exercise)
    requires Valid(db) && x in db.exercicios
    ensures Valid(UpdateExercise(db, x, e).0)
  {
    var r := UpdateExercise(db, x, e).0;
    if r != db {
      assert ItemRefs(r.itens, r.treinos, r.exercicios);
      assert UniqueExerciseNames(r.exercicios) && UniqueSlugs(r.exercicios);
      assert KeysBelow(r.exercicios, r.nextId);
    }
  }
}
