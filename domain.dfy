/**
 * The tables of the gym system as one database value: users (CustomUser), gyms (Academia), the two
 * profile tables keyed by their user (PersonalTrainer, Aluno), the exercise catalogue, workouts
 * (Treino) and workout lines (ItemTreino). Every table is a map from primary key to row; `nextId`
 * bounds every key in use, so the keys can be listed in ascending order.
 *
 * A few fields are read by the report views although the shown models do not declare them:
 * `Aluno.academia` and the workout's `tipo`. They are modelled as ordinary nullable columns.
 */
module Domain {
  import opened Wrappers

  type Id = nat

  /** Seconds since the epoch (UTC). */
  type Timestamp = int

  const Day: int := 86400

  /** CustomUser.TipoUsuario; the column defaults to ALUNO. */
  datatype UserType = AdminSistema | Admin | Personal | Aluno

  const DefaultUserType: UserType := Aluno

  /** A calendar date (birth dates, "today"). */
  datatype Date = Date(year: int, month: int, day: int)

  /**
   * The stored password column: `make_password(raw)`, identified by the text it was made from.
   * Two different texts never give the same stored value; the salt and the hash algorithm are
   * not modelled.
   */
  datatype Password = Hashed(raw: string)

  datatype User = User(
    email: string,
    username: string,
    firstName: string,
    lastName: string,
    password: Password,
    userType: UserType,
    academia: Option<Id>,
    dateJoined: Timestamp,
    isActive: bool)

  /** `aluno` is the responsible user (an ADMIN by convention), deleted in cascade with that user. */
  datatype Gym = Gym(
    responsavel: Option<Id>,
    nomeFantasia: string,
    cnpj: string,
    endereco: string,
    telefone: string,
    dataCriacao: Timestamp)

  datatype Trainer = Trainer(cref: string, especialidade: Option<string>)

  datatype Student = Student(
    personalResponsavel: Option<Id>,
    academia: Option<Id>,
    dataNascimento: Option<Date>,
    objetivo: Option<string>)

  datatype Exercise = Exercise(
    nome: string,
    slug: Option<string>,
    force: Option<string>,
    level: Option<string>,
    mechanic: Option<string>,
    equipment: Option<string>,
    category: Option<string>,
    primaryMuscles: seq<string>,
    secondaryMuscles: seq<string>,
    instructions: seq<string>,
    images: seq<string>)

  datatype Workout = Workout(
    aluno: Id,
    personalCriador: Option<Id>,
    nomeTreino: string,
    dataCriacao: Timestamp,
    ativo: bool,
    tipo: Option<string>)

  datatype WorkoutItem = WorkoutItem(
    treino: Id,
    exercicio: Id,
    series: nat,
    repeticoes: string,
    cargaKg: Option<nat>,
    observacoes: Option<string>)

  datatype Db = Db(
    users: map<Id, User>,
    academias: map<Id, Gym>,
    personais: map<Id, Trainer>,
    alunos: map<Id, Student>,
    exercicios: map<Id, Exercise>,
    treinos: map<Id, Workout>,
    itens: map<Id, WorkoutItem>,
    nextId: Id)

  function EmptyDb(): (db: Db)
    ensures Valid(db)
  {
    Db(map[], map[], map[], map[], map[], map[], map[], 0)
  }

  /** Every key of the table lies below `n`. */
  predicate KeysBelow<T>(m: map<Id, T>, n: Id) {
    forall k :: k in m ==> k < n
  }

  predicate KeysBounded(db: Db) {
    && KeysBelow(db.users, db.nextId) && KeysBelow(db.academias, db.nextId) && KeysBelow(db.exercicios, db.nextId)
    && KeysBelow(db.treinos, db.nextId) && KeysBelow(db.itens, db.nextId)
  }

  // Foreign keys, one predicate per referring column, over the two tables it joins.

  predicate UserGymRefs(users: map<Id, User>, academias: map<Id, Gym>) {
    forall u :: u in users && users[u].academia.Some? ==> users[u].academia.value in academias
  }

  predicate GymUserRefs(academias: map<Id, Gym>, users: map<Id, User>) {
    forall g :: g in academias && academias[g].responsavel.Some? ==> academias[g].responsavel.value in users
  }

  predicate StudentTrainerRefs(alunos: map<Id, Student>, personais: map<Id, Trainer>) {
    forall a :: a in alunos && alunos[a].personalResponsavel.Some? ==> alunos[a].personalResponsavel.value in personais
  }

  predicate StudentGymRefs(alunos: map<Id, Student>, academias: map<Id, Gym>) {
    forall a :: a in alunos && alunos[a].academia.Some? ==> alunos[a].academia.value in academias
  }

  predicate WorkoutRefs(treinos: map<Id, Workout>, alunos: map<Id, Student>, personais: map<Id, Trainer>) {
    forall t :: t in treinos ==>
      treinos[t].aluno in alunos && (treinos[t].personalCriador.Some? ==> treinos[t].personalCriador.value in personais)
  }

  predicate ItemRefs(itens: map<Id, WorkoutItem>, treinos: map<Id, Workout>, exercicios: map<Id, Exercise>) {
    forall i :: i in itens ==> itens[i].treino in treinos && itens[i].exercicio in exercicios
  }

  /** Foreign keys point at existing rows; profiles are keyed by an existing user. */
  predicate RefsOk(db: Db) {
    && UserGymRefs(db.users, db.academias) && GymUserRefs(db.academias, db.users)
    && db.personais.Keys <= db.users.Keys && db.alunos.Keys <= db.users.Keys
    && StudentTrainerRefs(db.alunos, db.personais) && StudentGymRefs(db.alunos, db.academias)
    && WorkoutRefs(db.treinos, db.alunos, db.personais)
    && ItemRefs(db.itens, db.treinos, db.exercicios)
  }

  // Unique columns, one predicate per constraint, over its own table.

  predicate UniqueEmails(users: map<Id, User>) {
    forall a, b :: a in users && b in users && users[a].email == users[b].email ==> a == b
  }

  predicate UniqueUsernames(users: map<Id, User>) {
    forall a, b :: a in users && b in users && users[a].username == users[b].username ==> a == b
  }

  predicate UniqueCnpjs(academias: map<Id, Gym>) {
    forall a, b :: a in academias && b in academias && academias[a].cnpj == academias[b].cnpj ==> a == b
  }

  predicate UniqueCrefs(personais: map<Id, Trainer>) {
    forall a, b :: a in personais && b in personais && personais[a].cref == personais[b].cref ==> a == b
  }

  predicate UniqueExerciseNames(exercicios: map<Id, Exercise>) {
    forall a, b :: a in exercicios && b in exercicios && exercicios[a].nome == exercicios[b].nome ==> a == b
  }

  /** Several exercises may lack a slug; a present slug is held once. */
  predicate UniqueSlugs(exercicios: map<Id, Exercise>) {
    forall a, b ::
      a in exercicios && b in exercicios && exercicios[a].slug.Some? && exercicios[a].slug == exercicios[b].slug
      ==> a == b
  }

  /** ItemTreino's unique_together on (treino, exercicio). */
  predicate UniquePairs(itens: map<Id, WorkoutItem>) {
    forall a, b ::
      a in itens && b in itens && itens[a].treino == itens[b].treino && itens[a].exercicio == itens[b].exercicio
      ==> a == b
  }

  predicate UniqueOk(db: Db) {
    && UniqueEmails(db.users) && UniqueUsernames(db.users) && UniqueCnpjs(db.academias)
    && UniqueCrefs(db.personais) && UniqueExerciseNames(db.exercicios) && UniqueSlugs(db.exercicios)
    && UniquePairs(db.itens)
  }

  /** The database constraints the models declare. */
  predicate Valid(db: Db) {
    KeysBounded(db) && RefsOk(db) && UniqueOk(db)
  }

  /** User `v` has a student profile exactly when ALUNO and a trainer profile exactly when PERSONAL. */
  predicate RoleMatches(db: Db, v: Id)
    requires v in db.users
  {
    && (v in db.alunos <==> db.users[v].userType == Aluno)
    && (v in db.personais <==> db.users[v].userType == Personal)
  }

  /** The state the post-save profile handlers maintain, for every user. */
  predicate ProfilesMatchRoles(db: Db) {
    forall v :: v in db.users ==> RoleMatches(db, v)
  }
}
