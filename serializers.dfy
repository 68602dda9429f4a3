/**
 * The write paths of the REST serializers of core/serializers.py: the age and trainer-count
 * getters, creating and editing a trainer or a student together with its user, and creating and
 * editing a workout with its items. projeto-pratico/core/serializers.py holds the same getters and
 * workout serializer, and no trainer or student write.
 *
 * Creating a user runs `CustomUser.save` and the post-save profile handlers (`Users.Register`), so
 * the profile the serializer then inserts already exists. `CreateTrainerAsWrittenOf` and
 * `CreateStudentAsWrittenOf` keep that INSERT and show that it is always refused;
 * `CreateTrainerOf` and `CreateStudentOf` write the supplied fields onto the profile instead.
 */
module Serializers {
  import opened Wrappers
  import opened Domain
  import Tables
  import Store
  import Signals
  import Users
  import Emails
  import Visibility

  // ---------------------------------------------------------------- getters

  /** Dates compared as (year, month, day) tuples, the order of `datetime.date`. */
  predicate DateLe(a: Date, b: Date) {
    a.year < b.year || (a.year == b.year && (a.month < b.month || (a.month == b.month && a.day <= b.day)))
  }

  /** The k-th anniversary of a date: same month and day, k years on. */
  function YearsLater(d: Date, k: int): Date {
    d.(year := d.year + k)
  }

  /** `(today.month, today.day) < (birth.month, birth.day)`: this year's birthday is still to come. */
  predicate BirthdayAhead(today: Date, birth: Date) {
    today.month < birth.month || (today.month == birth.month && today.day < birth.day)
  }

  /**
   * `get_idade`: no age without a birth date; otherwise the year difference, less one while this
   * year's birthday is still ahead. It is the number of anniversaries reached by today.
   */
  function Age(birth: Option<Date>, today: Date): (r: Option<int>)
    ensures r.None? <==> birth.None?
    ensures r.Some? ==>
      DateLe(YearsLater(birth.value, r.value), today) && !DateLe(YearsLater(birth.value, r.value + 1), today)
    ensures r.Some? && DateLe(birth.value, today) ==> r.value >= 0
    ensures r.Some? && today.month == birth.value.month && today.day == birth.value.day ==>
      r.value == today.year - birth.value.year
  {
    if birth.None? then None
    else Some(today.year - birth.value.year - (if BirthdayAhead(today, birth.value) then 1 else 0))
  }

  /** Exactly one number of years has its anniversary reached and the next one not: the age. */
  lemma AgeIsUnique(birth: Date, today: Date, k: int)
    requires DateLe(YearsLater(birth, k), today) && !DateLe(YearsLater(birth, k + 1), today)
    ensures Age(Some(birth), today) == Some(k)
  {
  }

  /** `get_total_personais`: the PERSONAL users attached to the gym. */
  function TotalPersonais(db: Db, g: Id): nat {
    |set v | v in db.users && db.users[v].academia == Some(g) && db.users[v].userType == Personal|
  }

  /**
   * While every user's profiles follow their role, the count equals the number of trainers the
   * gym's ADMIN sees (`PersonalTrainerViewSet` scoped to the gym).
   */
  lemma TotalPersonaisCountsTrainers(db: Db, g: Id)
    requires ProfilesMatchRoles(db) && db.personais.Keys <= db.users.Keys
    ensures TotalPersonais(db, g) == |Visibility.ScopedTrainers(db, Some(g))|
  {
    var users := set v | v in db.users && db.users[v].academia == Some(g) && db.users[v].userType == Personal;
    var trainers := Visibility.ScopedTrainers(db, Some(g));
    forall v | v in users ensures v in trainers {
      assert RoleMatches(db, v);
    }
    forall v | v in trainers ensures v in users {
      assert RoleMatches(db, v);
    }
    assert users == trainers;
  }

  // ---------------------------------------------------------------- trainer and student create

  /** Why a serializer write did not complete. */
  datatype SaveError =
    | KeyMissing(field: string)        // `validated_data.pop(field)` without the field: KeyError
    | Refused(error: Tables.DbError)   // the database refused a write

  /** The user fields of a create payload; all four are optional in the serializer. */
  datatype UserFields = UserFields(
    email: Option<string>,
    password: Option<string>,
    firstName: Option<string>,
    lastName: Option<string>)

  /**
   * `User.objects.create_user(username=email, email=email, ...)`: the username is the email as
   * given, the email column holds its normalized form, the password is stored hashed, and the
   * names default to "".
   */
  function NewUser(f: UserFields, role: UserType, now: Timestamp): (u: User)
    requires f.email.Some? && f.password.Some?
  {
    User(Emails.NormalizeEmail(f.email.value), f.email.value, f.firstName.GetOr(""), f.lastName.GetOr(""),
         Hashed(f.password.value), role, None, now, true)
  }

  /** The pops of `email` and `password`, in that order, and the KeyError of the first one missing. */
  function MissingKey(f: UserFields): (r: Option<SaveError>)
    ensures r.None? <==> f.email.Some? && f.password.Some?
    ensures f.email.None? ==> r == Some(KeyMissing("email"))
  {
    if f.email.None? then Some(KeyMissing("email"))
    else if f.password.None? then Some(KeyMissing("password"))
    else None
  }

  /** A user the post-save handler gave its profile, as `create_user` leaves it. */
  function RegisterAs(db: Db, f: UserFields, role: UserType, now: Timestamp): (r: (Db, Result<Id, Tables.DbError>))
    requires f.email.Some? && f.password.Some?
    ensures r.1.Ok? ==> r.1.value in r.0.users && r.0.users[r.1.value] == NewUser(f, role, now)
    ensures r.1.Ok? && role == Personal ==> r.1.value in r.0.personais
    ensures r.1.Ok? && role == Aluno ==> r.1.value in r.0.alunos
  {
    Users.RegisterWritesRow(db, NewUser(f, role, now));
    Users.Register(db, NewUser(f, role, now))
  }

  /**
   * The INSERT compares the normalized email: a payload whose email normalizes to one a user
   * already holds ("ana@X.com" against "ana@x.com") is refused, whatever the role.
   */
  lemma NormalizedEmailClashRefused(db: Db, f: UserFields, role: UserType, now: Timestamp, v: Id)
    requires f.email.Some? && f.password.Some?
    requires v in db.users && db.users[v].email == Emails.NormalizeEmail(f.email.value)
    ensures RegisterAs(db, f, role, now).1.Err?
  {
  }

  /**
   * So a trainer whose email differs from a held one only in the case of the domain ("ana@X.com"
   * once "ana@x.com" is registered) is refused by the user INSERT.
   */
  lemma DomainCaseVariantRefused(db: Db, f: UserFields, t: Trainer, now: Timestamp, v: Id, name: string, domain: string)
    requires '@' !in domain && Emails.Unpadded(name + "@" + domain)
    requires f.email == Some(name + "@" + domain) && f.password.Some?
    requires v in db.users && db.users[v].email == name + "@" + Emails.AsciiLower(domain)
    ensures CreateTrainerOf(db, f, t, now).1 == Err(Refused(Tables.IntegrityError))
  {
    Emails.NormalizeEmailOf(name, domain);
    NormalizedEmailClashRefused(db, f, Personal, now, v);
  }

  /**
   * `PersonalTrainerCreateUpdateSerializer.create` as written: create the user, then
   * `PersonalTrainer.objects.create(user=user, ...)`. A refused insert leaves the new user in place.
   */
  function CreateTrainerAsWrittenOf(db: Db, f: UserFields, t: Trainer, now: Timestamp): (r: (Db, Result<Id, SaveError>))
  {
    if MissingKey(f).Some? then (db, Err(MissingKey(f).value))
    else
      var (d, reg) := RegisterAs(db, f, Personal, now);
      if reg.Err? then (d, Err(Refused(reg.error)))
      else
        var (e, ins) := Tables.InsertTrainer(d, reg.value, t);
        (e, if ins.Fail? then Err(Refused(ins.error)) else Ok(reg.value))
  }

  /**
   * The trainer create never succeeds: the post-save handler has already given the new PERSONAL its
   * profile, so the INSERT keyed by the same user is refused. The user row and the default profile
   * stay, and the supplied CREF and speciality are lost.
   */
  lemma CreateTrainerAsWrittenFails(db: Db, f: UserFields, t: Trainer, now: Timestamp)
    ensures CreateTrainerAsWrittenOf(db, f, t, now).1.Err?
    ensures f.email.Some? && f.password.Some? && RegisterAs(db, f, Personal, now).1.Ok? ==>
      CreateTrainerAsWrittenOf(db, f, t, now) ==
        (RegisterAs(db, f, Personal, now).0, Err(Refused(Tables.IntegrityError)))
  {
  }

  /** The evidently intended create: the supplied fields are saved onto the profile the handler made. */
  function CreateTrainerOf(db: Db, f: UserFields, t: Trainer, now: Timestamp): (r: (Db, Result<Id, SaveError>))
  {
    if MissingKey(f).Some? then (db, Err(MissingKey(f).value))
    else
      var (d, reg) := RegisterAs(db, f, Personal, now);
      if reg.Err? then (d, Err(Refused(reg.error)))
      else
        var (e, out) := Tables.SaveTrainer(d, reg.value, t);
        (e, if out.Fail? then Err(Refused(out.error)) else Ok(reg.value))
  }

  /**
   * A created trainer is a new PERSONAL user whose username is its email as given and whose email
   * column holds the normalized email, with the hashed password and the supplied profile;
   * the create fails only on a missing key, a refused user row or a CREF another trainer holds.
   */
  lemma CreateTrainerGivesProfile(db: Db, f: UserFields, t: Trainer, now: Timestamp)
    requires KeysBounded(db)
    ensures var (r, res) := CreateTrainerOf(db, f, t, now);
      && (res.Ok? ==>
        && res.value !in db.users && res.value in r.users
        && r.users[res.value].userType == Personal && r.users[res.value].username == f.email.value
        && r.users[res.value].email == Emails.NormalizeEmail(f.email.value)
        && r.users[res.value].password == Hashed(f.password.value)
        && r.users[res.value].firstName == f.firstName.GetOr("") && r.users[res.value].lastName == f.lastName.GetOr("")
        && res.value in r.personais && r.personais[res.value] == t)
      && (MissingKey(f).None? && RegisterAs(db, f, Personal, now).1.Ok? ==>
        var (d, reg) := RegisterAs(db, f, Personal, now);
        (res.Ok? <==> Tables.CrefFree(d, t.cref, reg.value)))
  {
  }

  /** `AlunoCreateUpdateSerializer.create` as written: create the user, then `Aluno.objects.create(...)`. */
  function CreateStudentAsWrittenOf(db: Db, f: UserFields, s: Student, now: Timestamp): (r: (Db, Result<Id, SaveError>))
  {
    if MissingKey(f).Some? then (db, Err(MissingKey(f).value))
    else
      var (d, reg) := RegisterAs(db, f, Aluno, now);
      if reg.Err? then (d, Err(Refused(reg.error)))
      else
        var (e, ins) := Tables.InsertStudent(d, reg.value, s);
        (e, if ins.Fail? then Err(Refused(ins.error)) else Ok(reg.value))
  }

  /** The student create never succeeds either: the handler has already made the Aluno row. */
  lemma CreateStudentAsWrittenFails(db: Db, f: UserFields, s: Student, now: Timestamp)
    ensures CreateStudentAsWrittenOf(db, f, s, now).1.Err?
    ensures f.email.Some? && f.password.Some? && RegisterAs(db, f, Aluno, now).1.Ok? ==>
      CreateStudentAsWrittenOf(db, f, s, now) ==
        (RegisterAs(db, f, Aluno, now).0, Err(Refused(Tables.IntegrityError)))
  {
  }

  /** The evidently intended student create: the supplied fields are saved onto the new profile. */
  function CreateStudentOf(db: Db, f: UserFields, s: Student, now: Timestamp): (r: (Db, Result<Id, SaveError>))
  {
    if MissingKey(f).Some? then (db, Err(MissingKey(f).value))
    else
      var (d, reg) := RegisterAs(db, f, Aluno, now);
      if reg.Err? then (d, Err(Refused(reg.error)))
      else (Tables.SaveStudent(d, reg.value, s), Ok(reg.value))
  }

  /**
   * A created student is a new ALUNO user named by its email, with the normalized email, the hashed
   * password and the supplied profile; only the user row can be refused.
   */
  lemma CreateStudentGivesProfile(db: Db, f: UserFields, s: Student, now: Timestamp)
    requires KeysBounded(db)
    ensures var (r, res) := CreateStudentOf(db, f, s, now);
      && (res.Ok? ==>
        && res.value !in db.users && res.value in r.users
        && r.users[res.value].userType == Aluno && r.users[res.value].username == f.email.value
        && r.users[res.value].email == Emails.NormalizeEmail(f.email.value)
        && r.users[res.value].password == Hashed(f.password.value)
        && r.users[res.value].firstName == f.firstName.GetOr("") && r.users[res.value].lastName == f.lastName.GetOr("")
        && res.value in r.alunos && r.alunos[res.value] == s)
      && (res.Ok? <==> MissingKey(f).None? && RegisterAs(db, f, Aluno, now).1.Ok?)
  {
  }

  /** The corrected trainer create on the database object. */
  method CreateTrainer(db: Store.Database, f: UserFields, t: Trainer, now: Timestamp) returns (r: Result<Id, SaveError>)
    requires f.email.Some? ==> f.email.value != ""
    modifies db
    ensures (db.Snapshot(), r) == CreateTrainerOf(old(db.Snapshot()), f, t, now)
  {
    var missing := MissingKey(f);
    if missing.Some? {
      return Err(missing.value);
    }
    var filled, reg := Users.SaveNew(db, NewUser(f, Personal, now));
    if reg.Err? {
      return Err(Refused(reg.error));
    }
    var out := db.SaveTrainer(reg.value, t);
    r := if out.Fail? then Err(Refused(out.error)) else Ok(reg.value);
  }

  /** The corrected student create on the database object. */
  method CreateStudent(db: Store.Database, f: UserFields, s: Student, now: Timestamp) returns (r: Result<Id, SaveError>)
    requires f.email.Some? ==> f.email.value != ""
    modifies db
    ensures (db.Snapshot(), r) == CreateStudentOf(old(db.Snapshot()), f, s, now)
  {
    var missing := MissingKey(f);
    if missing.Some? {
      return Err(missing.value);
    }
    var filled, reg := Users.SaveNew(db, NewUser(f, Aluno, now));
    if reg.Err? {
      return Err(Refused(reg.error));
    }
    db.SaveStudent(reg.value, s);
    r := Ok(reg.value);
  }

  // ---------------------------------------------------------------- trainer and student update

  /** The name fields an update payload may carry; `email` and `password` are popped and dropped. */
  datatype NamePatch = NamePatch(firstName: Option<string>, lastName: Option<string>)

  /** The supplied names set on the user; nothing else of the user changes. */
  function Renamed(u: User, p: NamePatch): (v: User)
    ensures v == u.(firstName := v.firstName, lastName := v.lastName)
    ensures v.firstName == p.firstName.GetOr(u.firstName) && v.lastName == p.lastName.GetOr(u.lastName)
  {
    u.(firstName := p.firstName.GetOr(u.firstName), lastName := p.lastName.GetOr(u.lastName))
  }

  /** `if user_data:` — the user row is saved only when a name was supplied. */
  predicate Renames(p: NamePatch) {
    p.firstName.Some? || p.lastName.Some?
  }

  /** The profile fields of a trainer update, each copied by the `setattr` loop only when supplied. */
  datatype TrainerPatch = TrainerPatch(cref: Option<string>, especialidade: Option<Option<string>>)

  function PatchTrainer(t: Trainer, p: TrainerPatch): (r: Trainer)
    ensures p.cref.None? ==> r.cref == t.cref
    ensures p.cref.Some? ==> r.cref == p.cref.value
    ensures p.especialidade.None? ==> r.especialidade == t.especialidade
    ensures p.especialidade.Some? ==> r.especialidade == p.especialidade.value
  {
    Trainer(p.cref.GetOr(t.cref), p.especialidade.GetOr(t.especialidade))
  }

  /** The profile fields of a student update. */
  datatype StudentPatch = StudentPatch(
    personalResponsavel: Option<Option<Id>>,
    academia: Option<Option<Id>>,
    dataNascimento: Option<Option<Date>>,
    objetivo: Option<Option<string>>)

  function PatchStudent(s: Student, p: StudentPatch): (r: Student)
    ensures p.personalResponsavel.None? ==> r.personalResponsavel == s.personalResponsavel
    ensures p.personalResponsavel.Some? ==> r.personalResponsavel == p.personalResponsavel.value
    ensures p.academia.None? ==> r.academia == s.academia
    ensures p.academia.Some? ==> r.academia == p.academia.value
    ensures p.dataNascimento.None? ==> r.dataNascimento == s.dataNascimento
    ensures p.dataNascimento.Some? ==> r.dataNascimento == p.dataNascimento.value
    ensures p.objetivo.None? ==> r.objetivo == s.objetivo
    ensures p.objetivo.Some? ==> r.objetivo == p.objetivo.value
  {
    Student(p.personalResponsavel.GetOr(s.personalResponsavel), p.academia.GetOr(s.academia),
            p.dataNascimento.GetOr(s.dataNascimento), p.objetivo.GetOr(s.objetivo))
  }

  /**
   * The user half of an update: `instance.user.save()` when a name was supplied. `saved` is the
   * row that save writes, the renamed user with its username filled as `CustomUser.save` does.
   */
  function SaveNames(db: Db, id: Id, p: NamePatch, saved: User): (r: (Db, Outcome<Tables.DbError>))
    requires id in db.users
    ensures !Renames(p) ==> r == (db, Pass)
  {
    if Renames(p) then Users.Resave(db, id, saved) else (db, Pass)
  }

  /** `PersonalTrainerCreateUpdateSerializer.update` for the profile of user `id`. */
  function UpdateTrainerOf(db: Db, id: Id, names: NamePatch, p: TrainerPatch, saved: User): (r: (Db, Outcome<SaveError>))
    requires id in db.users && id in db.personais
  {
    var (d, out) := SaveNames(db, id, names, saved);
    if out.Fail? then (d, Fail(Refused(out.error)))
    else
      var (e, w) := Tables.SaveTrainer(d, id, PatchTrainer(db.personais[id], p));
      (e, if w.Fail? then Fail(Refused(w.error)) else Pass)
  }

  /** `AlunoCreateUpdateSerializer.update` for the profile of user `id`. */
  function UpdateStudentOf(db: Db, id: Id, names: NamePatch, p: StudentPatch, saved: User): (r: (Db, Outcome<SaveError>))
    requires id in db.users && id in db.alunos
  {
    var (d, out) := SaveNames(db, id, names, saved);
    if out.Fail? then (d, Fail(Refused(out.error)))
    else (Tables.SaveStudent(d, id, PatchStudent(db.alunos[id], p)), Pass)
  }

  /**
   * The user half never changes the email or the password, and sets exactly the supplied names;
   * no name supplied leaves the user table as it was.
   */
  lemma SaveNamesKeepsCredentials(db: Db, id: Id, p: NamePatch, saved: User)
    requires id in db.users && saved == Renamed(db.users[id], p).(username := saved.username)
    ensures var (r, out) := SaveNames(db, id, p, saved);
      && (!Renames(p) ==> r.users == db.users)
      && (out.Pass? ==>
        && id in r.users && r.users[id].email == db.users[id].email && r.users[id].password == db.users[id].password
        && r.users[id].userType == db.users[id].userType
        && r.users[id].firstName == p.firstName.GetOr(db.users[id].firstName)
        && r.users[id].lastName == p.lastName.GetOr(db.users[id].lastName))
  {
    if Renames(p) {
      Users.ResaveFollowsRole(db, id, saved);
    }
  }

  /**
   * After a trainer update the profile holds the patched fields, the user keeps its email and
   * password, and the update is refused only for a taken CREF (or a refused user row).
   */
  lemma UpdateTrainerFacts(db: Db, id: Id, names: NamePatch, p: TrainerPatch, saved: User)
    requires id in db.users && id in db.personais
    requires saved == Renamed(db.users[id], names).(username := saved.username)
    ensures var (r, out) := UpdateTrainerOf(db, id, names, p, saved);
      out.Pass? ==>
        && id in r.personais && r.personais[id] == PatchTrainer(db.personais[id], p)
        && id in r.users && r.users[id].email == db.users[id].email && r.users[id].password == db.users[id].password
        && r.users[id].firstName == names.firstName.GetOr(db.users[id].firstName)
        && r.users[id].lastName == names.lastName.GetOr(db.users[id].lastName)
    ensures !Renames(names) ==>
      (UpdateTrainerOf(db, id, names, p, saved).1.Pass? <==> Tables.CrefFree(db, PatchTrainer(db.personais[id], p).cref, id))
  {
    SaveNamesKeepsCredentials(db, id, names, saved);
  }

  /** After a student update the profile holds the patched fields and the user keeps email and password. */
  lemma UpdateStudentFacts(db: Db, id: Id, names: NamePatch, p: StudentPatch, saved: User)
    requires id in db.users && id in db.alunos
    requires saved == Renamed(db.users[id], names).(username := saved.username)
    ensures var (r, out) := UpdateStudentOf(db, id, names, p, saved);
      && (out.Pass? ==>
        && id in r.alunos && r.alunos[id] == PatchStudent(db.alunos[id], p)
        && id in r.users && r.users[id].email == db.users[id].email && r.users[id].password == db.users[id].password
        && r.users[id].firstName == names.firstName.GetOr(db.users[id].firstName)
        && r.users[id].lastName == names.lastName.GetOr(db.users[id].lastName))
      && (!Renames(names) ==> out.Pass?)
  {
    SaveNamesKeepsCredentials(db, id, names, saved);
  }

  /** The trainer update on the database object; `saved` is the user row written, if any. */
  method UpdateTrainer(db: Store.Database, id: Id, names: NamePatch, p: TrainerPatch)
    returns (saved: User, out: Outcome<SaveError>)
    requires id in db.users && id in db.personais
    modifies db
    ensures saved == Renamed(old(db.users[id]), names).(username := saved.username)
    ensures old(db.users[id].username) != "" ==> saved == Renamed(old(db.users[id]), names)
    ensures (db.Snapshot(), out) == UpdateTrainerOf(old(db.Snapshot()), id, names, p, saved)
  {
    var profile := db.personais[id];
    saved := Renamed(db.users[id], names);
    var w: Outcome<Tables.DbError> := Pass;
    if Renames(names) {
      saved, w := Users.SaveExisting(db, id, saved);
      if w.Pass? {
        Users.ResaveFollowsRole(old(db.Snapshot()), id, saved);
      }
    }
    if w.Fail? {
      return saved, Fail(Refused(w.error));
    }
    var v := db.SaveTrainer(id, PatchTrainer(profile, p));
    out := if v.Fail? then Fail(Refused(v.error)) else Pass;
  }

  /** The student update on the database object. */
  method UpdateStudent(db: Store.Database, id: Id, names: NamePatch, p: StudentPatch)
    returns (saved: User, out: Outcome<SaveError>)
    requires id in db.users && id in db.alunos
    modifies db
    ensures saved == Renamed(old(db.users[id]), names).(username := saved.username)
    ensures old(db.users[id].username) != "" ==> saved == Renamed(old(db.users[id]), names)
    ensures (db.Snapshot(), out) == UpdateStudentOf(old(db.Snapshot()), id, names, p, saved)
  {
    var profile := db.alunos[id];
    saved := Renamed(db.users[id], names);
    var w: Outcome<Tables.DbError> := Pass;
    if Renames(names) {
      saved, w := Users.SaveExisting(db, id, saved);
      if w.Pass? {
        Users.ResaveFollowsRole(old(db.Snapshot()), id, saved);
      }
    }
    if w.Fail? {
      return saved, Fail(Refused(w.error));
    }
    db.SaveStudent(id, PatchStudent(profile, p));
    out := Pass;
  }

  // ---------------------------------------------------------------- workout create and update

  /** One entry of `itens`: `exercicio_id`, `series`, `repeticoes`, `carga_kg`. */
  datatype ItemFields = ItemFields(exercicio: Id, series: nat, repeticoes: string, cargaKg: Option<nat>)

  /** `ItemTreino.objects.create(treino=t, **item_data)`: the row written, without observations. */
  function ItemRow(t: Id, f: ItemFields): WorkoutItem {
    WorkoutItem(t, f.exercicio, f.series, f.repeticoes, f.cargaKg, None)
  }

  /** The exercises workout `t` already lists. */
  function ExercisesOf(itens: map<Id, WorkoutItem>, t: Id): (es: set<Id>)
    ensures forall i :: i in itens && itens[i].treino == t ==> itens[i].exercicio in es
  {
    set i | i in itens && itens[i].treino == t :: itens[i].exercicio
  }

  /** An entry's INSERT is refused exactly when the workout already lists its exercise. */
  lemma PairTakenIff(db: Db, t: Id, f: ItemFields)
    ensures Tables.PairTaken(db, ItemRow(t, f)) <==> f.exercicio in ExercisesOf(db.itens, t)
  {
    if f.exercicio in ExercisesOf(db.itens, t) {
      var i :| i in db.itens && db.itens[i].treino == t && db.itens[i].exercicio == f.exercicio;
    }
  }

  /**
   * `for item_data in itens_data: ItemTreino.objects.create(...)` on the item table and the key
   * sequence: one INSERT per entry, in order, until one is refused; the rows inserted before a
   * refused one stay.
   */
  function InsertRows(itens: map<Id, WorkoutItem>, next: Id, t: Id, fs: seq<ItemFields>)
    : (r: (map<Id, WorkoutItem>, Id, Outcome<Tables.DbError>))
    ensures next <= r.1
    ensures KeysBelow(itens, next) ==> KeysBelow(r.0, r.1)
    ensures KeysBelow(itens, next) ==> forall i :: i in itens ==> i in r.0 && r.0[i] == itens[i]
    decreases |fs|
  {
    if fs == [] then (itens, next, Pass)
    else if fs[0].exercicio in ExercisesOf(itens, t) then (itens, next, Fail(Tables.IntegrityError))
    else InsertRows(itens[next := ItemRow(t, fs[0])], next + 1, t, fs[1..])
  }

  /** The same loop over the whole database: only the item table and the key sequence change. */
  function InsertItems(db: Db, t: Id, fs: seq<ItemFields>): (r: (Db, Outcome<Tables.DbError>))
  {
    var (m, n, out) := InsertRows(db.itens, db.nextId, t, fs);
    (db.(itens := m, nextId := n), out)
  }

  /** The first INSERT of the loop is `Tables.InsertItem`. */
  lemma InsertItemsStep(db: Db, t: Id, fs: seq<ItemFields>)
    requires fs != []
    ensures var (d, out) := Tables.InsertItem(db, ItemRow(t, fs[0]));
      InsertItems(db, t, fs) == if out.Fail? then (d, out) else InsertItems(d, t, fs[1..])
  {
    PairTakenIff(db, t, fs[0]);
  }

  /** The entries name exercises not in `taken` and none twice. */
  predicate NewExercises(fs: seq<ItemFields>, taken: set<Id>) {
    && (forall j :: 0 <= j < |fs| ==> fs[j].exercicio !in taken)
    && (forall j, k :: 0 <= j < k < |fs| ==> fs[j].exercicio != fs[k].exercicio)
  }

  /** Peeling the first entry off `NewExercises`. */
  lemma NewExercisesStep(fs: seq<ItemFields>, taken: set<Id>)
    requires fs != []
    ensures NewExercises(fs, taken) <==>
      fs[0].exercicio !in taken && NewExercises(fs[1..], taken + {fs[0].exercicio})
  {
    if fs[0].exercicio !in taken && NewExercises(fs[1..], taken + {fs[0].exercicio}) {
      forall j, k | 0 <= j < k < |fs| ensures fs[j].exercicio != fs[k].exercicio {
        if j > 0 {
          assert fs[j].exercicio == fs[1..][j - 1].exercicio && fs[k].exercicio == fs[1..][k - 1].exercicio;
        } else {
          assert fs[k].exercicio == fs[1..][k - 1].exercicio;
        }
      }
    }
  }

  /** A row for `t` under a fresh key adds its exercise to those `t` lists. */
  lemma ExercisesAfterPut(itens: map<Id, WorkoutItem>, next: Id, t: Id, f: ItemFields)
    requires next !in itens
    ensures ExercisesOf(itens[next := ItemRow(t, f)], t) == ExercisesOf(itens, t) + {f.exercicio}
  {
    var m := itens[next := ItemRow(t, f)];
    forall e | e in ExercisesOf(m, t) ensures e in ExercisesOf(itens, t) + {f.exercicio} {
      var i :| i in m && m[i].treino == t && m[i].exercicio == e;
      if i != next {
        assert i in itens && itens[i].treino == t;
      }
    }
    forall e | e in ExercisesOf(itens, t) ensures e in ExercisesOf(m, t) {
      var i :| i in itens && itens[i].treino == t && itens[i].exercicio == e;
      assert i in m && m[i].treino == t;
    }
    assert m[next].treino == t;
  }

  /** Hence the inserts all go through exactly when no entry repeats an exercise of the workout. */
  lemma {:induction false} InsertRowsPassIff(itens: map<Id, WorkoutItem>, next: Id, t: Id, fs: seq<ItemFields>)
    requires KeysBelow(itens, next)
    ensures InsertRows(itens, next, t, fs).2.Pass? <==> NewExercises(fs, ExercisesOf(itens, t))
    decreases |fs|
  {
    if fs != [] {
      NewExercisesStep(fs, ExercisesOf(itens, t));
      if fs[0].exercicio !in ExercisesOf(itens, t) {
        ExercisesAfterPut(itens, next, t, fs[0]);
        InsertRowsPassIff(itens[next := ItemRow(t, fs[0])], next + 1, t, fs[1..]);
      }
    }
  }

  /** The inserts that all go through add one row per entry, in order, under fresh keys. */
  lemma {:induction false} InsertRowsPlaces(itens: map<Id, WorkoutItem>, next: Id, t: Id, fs: seq<ItemFields>)
    requires KeysBelow(itens, next)
    ensures var (m, n, out) := InsertRows(itens, next, t, fs);
      out.Pass? ==>
        && n == next + |fs|
        && (forall i :: next <= i < n ==> i in m && m[i] == ItemRow(t, fs[i - next]))
        && (forall i :: i in m ==> i in itens || next <= i < n)
    decreases |fs|
  {
    if fs != [] && fs[0].exercicio !in ExercisesOf(itens, t) {
      var itens' := itens[next := ItemRow(t, fs[0])];
      InsertRowsPlaces(itens', next + 1, t, fs[1..]);
      var (m, n, out) := InsertRows(itens', next + 1, t, fs[1..]);
      if out.Pass? {
        forall i | next <= i < n ensures i in m && m[i] == ItemRow(t, fs[i - next]) {
          if i > next {
            assert fs[i - next] == fs[1..][i - (next + 1)];
          }
        }
      }
    }
  }

  /** The rows of workout `t` are exactly the entries, in order, under the keys start, start + 1, ... */
  predicate ItemsAre(itens: map<Id, WorkoutItem>, t: Id, start: Id, fs: seq<ItemFields>) {
    && (forall i :: start <= i < start + |fs| ==> i in itens && itens[i] == ItemRow(t, fs[i - start]))
    && (forall i :: i in itens && itens[i].treino == t ==> start <= i < start + |fs|)
  }

  /**
   * When workout `t` had no rows: the loop goes through exactly when no exercise repeats, and then
   * leaves exactly the entries as its rows; every earlier row is kept either way.
   */
  lemma InsertItemsIntoEmpty(db: Db, t: Id, fs: seq<ItemFields>)
    requires KeysBelow(db.itens, db.nextId)
    requires forall i :: i in db.itens ==> db.itens[i].treino != t
    ensures var (r, out) := InsertItems(db, t, fs);
      && (out.Pass? <==> NewExercises(fs, {}))
      && (out.Pass? ==> ItemsAre(r.itens, t, db.nextId, fs))
      && (forall i :: i in db.itens ==> i in r.itens && r.itens[i] == db.itens[i])
  {
    EmptyWorkoutPass(db.itens, db.nextId, t, fs);
    EmptyWorkoutRows(db.itens, db.nextId, t, fs);
  }

  /** Into a workout without rows, the inserts go through exactly when no exercise repeats. */
  lemma EmptyWorkoutPass(itens: map<Id, WorkoutItem>, next: Id, t: Id, fs: seq<ItemFields>)
    requires KeysBelow(itens, next) && forall i :: i in itens ==> itens[i].treino != t
    ensures InsertRows(itens, next, t, fs).2.Pass? <==> NewExercises(fs, {})
  {
    assert ExercisesOf(itens, t) == {};
    InsertRowsPassIff(itens, next, t, fs);
  }

  /** ...and then the workout's rows are exactly the entries. */
  lemma EmptyWorkoutRows(itens: map<Id, WorkoutItem>, next: Id, t: Id, fs: seq<ItemFields>)
    requires KeysBelow(itens, next) && forall i :: i in itens ==> itens[i].treino != t
    ensures var r := InsertRows(itens, next, t, fs);
      r.2.Pass? ==> ItemsAre(r.0, t, next, fs)
  {
    InsertRowsPlaces(itens, next, t, fs);
  }

  /** The item table satisfies its constraints and the workout and every entry's exercise exist. */
  predicate ReadyToInsert(itens: map<Id, WorkoutItem>, next: Id, t: Id, fs: seq<ItemFields>,
                          treinos: map<Id, Workout>, exercicios: map<Id, Exercise>) {
    && ItemRefs(itens, treinos, exercicios) && UniquePairs(itens) && KeysBelow(itens, next)
    && t in treinos && forall j :: 0 <= j < |fs| ==> fs[j].exercicio in exercicios
  }

  /** The inserted rows keep the item constraints when the workout and the exercises exist. */
  lemma {:induction false} InsertRowsKeepRefs(itens: map<Id, WorkoutItem>, next: Id, t: Id, fs: seq<ItemFields>,
                                             treinos: map<Id, Workout>, exercicios: map<Id, Exercise>)
    requires ReadyToInsert(itens, next, t, fs, treinos, exercicios)
    ensures var m := InsertRows(itens, next, t, fs).0;
      ItemRefs(m, treinos, exercicios) && UniquePairs(m)
    decreases |fs|
  {
    if fs != [] && fs[0].exercicio !in ExercisesOf(itens, t) {
      KeepRefsStep(itens, next, t, fs, treinos, exercicios);
      InsertRowsKeepRefs(itens[next := ItemRow(t, fs[0])], next + 1, t, fs[1..], treinos, exercicios);
    }
  }

  /** One accepted INSERT leaves the item table ready for the rest of the loop. */
  lemma KeepRefsStep(itens: map<Id, WorkoutItem>, next: Id, t: Id, fs: seq<ItemFields>,
                     treinos: map<Id, Workout>, exercicios: map<Id, Exercise>)
    requires ReadyToInsert(itens, next, t, fs, treinos, exercicios)
    requires fs != [] && fs[0].exercicio !in ExercisesOf(itens, t)
    ensures ReadyToInsert(itens[next := ItemRow(t, fs[0])], next + 1, t, fs[1..], treinos, exercicios)
  {
    Tables.PutItem(itens, treinos, exercicios, next, ItemRow(t, fs[0]));
    assert forall j :: 0 <= j < |fs[1..]| ==> fs[1..][j] == fs[j + 1];
  }

  /** Hence the loop keeps the database constraints. */
  lemma InsertItemsKeepsValid(db: Db, t: Id, fs: seq<ItemFields>)
    requires Valid(db) && t in db.treinos
    requires forall j :: 0 <= j < |fs| ==> fs[j].exercicio in db.exercicios
    ensures Valid(InsertItems(db, t, fs).0)
  {
    InsertRowsKeepRefs(db.itens, db.nextId, t, fs, db.treinos, db.exercicios);
    var r := InsertItems(db, t, fs).0;
    assert KeysBelow(db.users, r.nextId) && KeysBelow(db.academias, r.nextId);
    assert KeysBelow(db.exercicios, r.nextId) && KeysBelow(db.treinos, r.nextId);
  }

  /** The loop of item inserts on the database object. */
  method InsertItemsLoop(db: Store.Database, t: Id, fs: seq<ItemFields>) returns (out: Outcome<Tables.DbError>)
    modifies db
    ensures (db.Snapshot(), out) == InsertItems(old(db.Snapshot()), t, fs)
  {
    out := Pass;
    var k := 0;
    while k < |fs| && out.Pass?
      invariant 0 <= k <= |fs|
      invariant out.Pass? ==> InsertItems(db.Snapshot(), t, fs[k..]) == InsertItems(old(db.Snapshot()), t, fs)
      invariant out.Fail? ==> (db.Snapshot(), out) == InsertItems(old(db.Snapshot()), t, fs)
      decreases |fs| - k
    {
      InsertItemsStep(db.Snapshot(), t, fs[k..]);
      assert fs[k..][1..] == fs[k + 1..];
      out := db.InsertItem(ItemRow(t, fs[k]));
      k := k + 1;
    }
  }

  /** A create payload: `nome_treino`, `aluno`, `ativo` (default true) and the item entries. */
  datatype NewWorkout = NewWorkout(nomeTreino: string, aluno: Id, ativo: Option<bool>, itens: seq<ItemFields>)

  /** The requester is a PERSONAL user with a trainer profile. */
  predicate IsTrainer(db: Db, requester: Option<Id>) {
    requester.Some? && requester.value in db.users && db.users[requester.value].userType == Personal
    && requester.value in db.personais
  }

  /**
   * `personal_criador`: the requester's trainer profile when the requester is a PERSONAL with one;
   * otherwise the field is not set.
   */
  function Creator(db: Db, requester: Option<Id>): (c: Option<Id>)
    ensures c.Some? <==> IsTrainer(db, requester)
    ensures c.Some? ==> c == requester && c.value in db.personais
  {
    if IsTrainer(db, requester) then requester else None
  }

  /** `TreinoCreateSerializer.create`: the workout row, stamped and dated now, then its items. */
  function CreateWorkoutOf(db: Db, requester: Option<Id>, w: NewWorkout, now: Timestamp): (r: (Db, Id, Outcome<Tables.DbError>))
  {
    var row := Workout(w.aluno, Creator(db, requester), w.nomeTreino, now, w.ativo.GetOr(true), None);
    var (d, t) := Tables.InsertWorkout(db, row);
    var (e, out) := InsertItems(d, t, w.itens);
    (e, t, out)
  }

  /** The new workout row: fresh id, the payload's fields, `ativo` defaulting to true, the creator stamp. */
  lemma CreateWorkoutRow(db: Db, requester: Option<Id>, w: NewWorkout, now: Timestamp)
    requires KeysBounded(db)
    ensures var (r, t, out) := CreateWorkoutOf(db, requester, w, now);
      && t !in db.treinos && t in r.treinos
      && r.treinos[t] == Workout(w.aluno, Creator(db, requester), w.nomeTreino, now, w.ativo.GetOr(true), None)
      && r.treinos == db.treinos[t := r.treinos[t]]
  {
  }

  /**
   * The items of the new workout are exactly the entries, one row each in order, and every other
   * row is kept; the create is refused exactly when an exercise is listed twice.
   */
  lemma CreateWorkoutItems(db: Db, requester: Option<Id>, w: NewWorkout, now: Timestamp)
    requires KeysBounded(db) && ItemRefs(db.itens, db.treinos, db.exercicios)
    ensures var (r, t, out) := CreateWorkoutOf(db, requester, w, now);
      && (out.Pass? <==> NewExercises(w.itens, {}))
      && (out.Pass? ==> ItemsAre(r.itens, t, t + 1, w.itens))
      && (forall i :: i in db.itens ==> i in r.itens && r.itens[i] == db.itens[i])
  {
    var row := Workout(w.aluno, Creator(db, requester), w.nomeTreino, now, w.ativo.GetOr(true), None);
    var (d, t) := Tables.InsertWorkout(db, row);
    assert forall i :: i in d.itens ==> d.itens[i].treino != t;
    InsertItemsIntoEmpty(d, t, w.itens);
  }

  /** Creating a workout for an existing student, with existing exercises, keeps the constraints. */
  lemma CreateWorkoutKeepsValid(db: Db, requester: Option<Id>, w: NewWorkout, now: Timestamp)
    requires Valid(db) && w.aluno in db.alunos
    requires forall j :: 0 <= j < |w.itens| ==> w.itens[j].exercicio in db.exercicios
    ensures Valid(CreateWorkoutOf(db, requester, w, now).0)
  {
    var row := Workout(w.aluno, Creator(db, requester), w.nomeTreino, now, w.ativo.GetOr(true), None);
    Tables.InsertWorkoutKeepsValid(db, row);
    var (d, t) := Tables.InsertWorkout(db, row);
    InsertItemsKeepsValid(d, t, w.itens);
  }

  /** The create on the database object. */
  method CreateWorkout(db: Store.Database, requester: Option<Id>, w: NewWorkout, now: Timestamp)
    returns (t: Id, out: Outcome<Tables.DbError>)
    modifies db
    ensures (db.Snapshot(), t, out) == CreateWorkoutOf(old(db.Snapshot()), requester, w, now)
  {
    var creator := Creator(db.Snapshot(), requester);
    t := db.InsertWorkout(Workout(w.aluno, creator, w.nomeTreino, now, w.ativo.GetOr(true), None));
    out := InsertItemsLoop(db, t, w.itens);
  }

  /** An update payload: each field may be omitted, and `itens` may be absent altogether. */
  datatype WorkoutPatch = WorkoutPatch(
    nomeTreino: Option<string>,
    aluno: Option<Id>,
    ativo: Option<bool>,
    itens: Option<seq<ItemFields>>)

  /** `instance.x = validated_data.get("x", instance.x)` for the three columns. */
  function PatchWorkout(w: Workout, p: WorkoutPatch): (v: Workout)
    ensures v == w.(nomeTreino := v.nomeTreino, aluno := v.aluno, ativo := v.ativo)
    ensures p.nomeTreino.None? ==> v.nomeTreino == w.nomeTreino
    ensures p.nomeTreino.Some? ==> v.nomeTreino == p.nomeTreino.value
    ensures p.aluno.None? ==> v.aluno == w.aluno
    ensures p.aluno.Some? ==> v.aluno == p.aluno.value
    ensures p.ativo.None? ==> v.ativo == w.ativo
    ensures p.ativo.Some? ==> v.ativo == p.ativo.value
  {
    w.(nomeTreino := p.nomeTreino.GetOr(w.nomeTreino), aluno := p.aluno.GetOr(w.aluno), ativo := p.ativo.GetOr(w.ativo))
  }

  /**
   * `TreinoCreateSerializer.update`: save the patched row; when `itens` is given, delete the
   * workout's rows and insert the entries.
   */
  function UpdateWorkoutOf(db: Db, t: Id, p: WorkoutPatch): (r: (Db, Outcome<Tables.DbError>))
    requires t in db.treinos
  {
    var d := Tables.UpdateWorkout(db, t, PatchWorkout(db.treinos[t], p));
    if p.itens.None? then (d, Pass) else InsertItems(Tables.DeleteItemsOf(d, t), t, p.itens.value)
  }

  /** Without `itens` the update changes the workout row only. */
  lemma UpdateWithoutItems(db: Db, t: Id, p: WorkoutPatch)
    requires t in db.treinos && p.itens.None?
    ensures UpdateWorkoutOf(db, t, p) == (db.(treinos := db.treinos[t := PatchWorkout(db.treinos[t], p)]), Pass)
  {
  }

  /**
   * With `itens`, the workout's rows afterwards are exactly the entries (none for an empty list),
   * the other workouts' rows are kept, and the update is refused exactly when an exercise repeats.
   */
  lemma UpdateReplacesItems(db: Db, t: Id, p: WorkoutPatch)
    requires t in db.treinos && p.itens.Some? && KeysBelow(db.itens, db.nextId)
    ensures var (r, out) := UpdateWorkoutOf(db, t, p);
      && t in r.treinos && r.treinos[t] == PatchWorkout(db.treinos[t], p)
      && (out.Pass? <==> NewExercises(p.itens.value, {}))
      && (out.Pass? ==> ItemsAre(r.itens, t, db.nextId, p.itens.value))
      && (forall i :: i in db.itens && db.itens[i].treino != t ==> i in r.itens && r.itens[i] == db.itens[i])
  {
    var d := Tables.DeleteItemsOf(Tables.UpdateWorkout(db, t, PatchWorkout(db.treinos[t], p)), t);
    InsertItemsIntoEmpty(d, t, p.itens.value);
  }

  /** The update on the database object. */
  method UpdateWorkout(db: Store.Database, t: Id, p: WorkoutPatch) returns (out: Outcome<Tables.DbError>)
    requires t in db.treinos
    modifies db
    ensures (db.Snapshot(), out) == UpdateWorkoutOf(old(db.Snapshot()), t, p)
  {
    db.UpdateWorkout(t, PatchWorkout(db.treinos[t], p));
    out := Pass;
    if p.itens.Some? {
      db.DeleteItemsOf(t);
      out := InsertItemsLoop(db, t, p.itens.value);
    }
  }
}
