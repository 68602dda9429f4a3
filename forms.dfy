/**
 * The server-rendered forms: `AlunoForm` (academias/forms.py), which creates or edits a student
 * together with its user, and `TreinoForm`, `ItemTreinoForm` and the item formset
 * (treinos/forms.py). `__init__` restricts the choice lists by the requesting user; `save` writes
 * through the database object.
 */
module Forms {
  import opened Wrappers
  import opened Domain
  import opened Text
  import Tables
  import Store
  import Signals
  import Users
  import Emails
  import Visibility
  import Queries
  import Serializers

  /** The requesting user is a PERSONAL. */
  predicate IsPersonal(db: Db, requester: Option<Id>) {
    requester.Some? && requester.value in db.users && db.users[requester.value].userType == Personal
  }

  // ---------------------------------------------------------------- AlunoForm

  /**
   * A model choice field after `__init__`: its queryset, the initial value a bound form falls back
   * on, whether it is disabled.
   */
  datatype ChoiceField = ChoiceField(choices: set<Id>, initial: Option<Id>, disabled: bool)

  /**
   * `personal_responsavel` after `AlunoForm.__init__`: a PERSONAL with a profile is the only and
   * locked choice; a PERSONAL without one has no choice; anyone else chooses among all trainers.
   * Editing, the initial value is the student's current trainer (the form's initial data comes
   * from the instance); creating, it is the field's own initial, the PERSONAL's profile.
   */
  function TrainerField(db: Db, requester: Option<Id>, instance: Option<Id>): (f: ChoiceField)
    requires instance.Some? ==> instance.value in db.alunos
    ensures f.disabled <==> IsPersonal(db, requester) && requester.value in db.personais
    ensures f.disabled ==> f.choices == {requester.value}
    ensures IsPersonal(db, requester) && requester.value !in db.personais ==> f.choices == {}
    ensures !IsPersonal(db, requester) ==> f.choices == db.personais.Keys
    ensures instance.Some? ==> f.initial == db.alunos[instance.value].personalResponsavel
    ensures instance.None? ==> (f.initial.Some? <==> f.disabled) && (f.disabled ==> f.initial == requester)
  {
    var stored := if instance.Some? then db.alunos[instance.value].personalResponsavel else None;
    if IsPersonal(db, requester) then
      if requester.value in db.personais then
        ChoiceField({requester.value}, if instance.Some? then stored else requester, true)
      else ChoiceField({}, stored, false)
    else ChoiceField(db.personais.Keys, stored, false)
  }

  /** The value the form binds: a disabled field ignores the submission and keeps its initial value. */
  function Bound(f: ChoiceField, submitted: Option<Id>): (v: Option<Id>)
    ensures f.disabled ==> v == f.initial
    ensures !f.disabled ==> v == submitted
  {
    if f.disabled then f.initial else submitted
  }

  /**
   * The field validates: the bound value is blank (the column allows null) or among the choices;
   * a disabled field's value is checked like a submitted one.
   */
  predicate Accepts(f: ChoiceField, submitted: Option<Id>) {
    Bound(f, submitted).None? || Bound(f, submitted).value in f.choices
  }

  /**
   * Creating a student, a PERSONAL with a profile always ends up as the responsible trainer,
   * whatever was submitted; one without a profile can only leave the field blank.
   */
  lemma PersonalChoosesSelf(db: Db, requester: Option<Id>, submitted: Option<Id>)
    requires IsPersonal(db, requester)
    ensures requester.value in db.personais ==>
      Accepts(TrainerField(db, requester, None), submitted) && Bound(TrainerField(db, requester, None), submitted) == requester
    ensures requester.value !in db.personais ==>
      (Accepts(TrainerField(db, requester, None), submitted) <==> submitted.None?)
  {
  }

  /**
   * Editing a student, a PERSONAL with a profile cannot change the trainer: the student keeps the
   * current one, and the form is refused exactly when that is another trainer. A student with no
   * trainer stays without one.
   */
  lemma PersonalEditKeepsTrainer(db: Db, requester: Option<Id>, pk: Id, submitted: Option<Id>)
    requires IsPersonal(db, requester) && requester.value in db.personais && pk in db.alunos
    ensures Bound(TrainerField(db, requester, Some(pk)), submitted) == db.alunos[pk].personalResponsavel
    ensures Accepts(TrainerField(db, requester, Some(pk)), submitted) <==>
      db.alunos[pk].personalResponsavel.None? || db.alunos[pk].personalResponsavel == requester
  {
  }

  /** Why `AlunoForm.save` writes nothing: the form did not validate, or the database refused. */
  datatype SaveError = InvalidForm | Refused(error: Tables.DbError)

  /** The cleaned data of an `AlunoForm`: the user fields and the profile columns as submitted. */
  datatype AlunoData = AlunoData(email: string, firstName: string, lastName: string, password: string, profile: Student)

  /**
   * The username `save` passes to `create_user`: the email's local part followed by the number of
   * users. Nothing makes it free.
   */
  function CountUsername(users: map<Id, User>, email: string): (name: string)
    ensures Users.LocalPart(email) <= name && |name| > |Users.LocalPart(email)|
  {
    Users.LocalPart(email) + NatToString(|users|)
  }

  /**
   * A user table where that name is held: a student "ana@x.com" named "ana1" exists after another
   * user was deleted, so the count is back at 1 and the next "ana@..." clashes on the username.
   */
  lemma CountUsernameCanClash()
    ensures var users := map[7 := ClashingUser()];
      && CountUsername(users, "ana@y.com") in Users.Usernames(users)
      && Tables.InsertUser(Db(users, map[], map[], map[], map[], map[], map[], 8),
           User("ana@y.com", CountUsername(users, "ana@y.com"), "Ana", "", Hashed("s"), Aluno, None, 0, true)).1.Err?
  {
    var users := map[7 := ClashingUser()];
    CountUsernameOfAna(users);
    assert users[7].username == "ana1";
  }

  /** A student who registered as "ana@x.com" when one other user existed. */
  function ClashingUser(): User {
    User("ana@x.com", "ana1", "Ana", "", Hashed(""), Aluno, None, 0, true)
  }

  lemma CountUsernameOfAna(users: map<Id, User>)
    requires |users| == 1
    ensures CountUsername(users, "ana@y.com") == "ana1"
  {
    LocalPartOfAna();
    RenderOne(|users|);
    assert "ana" + "1" == "ana1";
  }

  lemma RenderOne(n: nat)
    requires n == 1
    ensures NatToString(n) == "1"
  {
    assert Digit(1) == '1';
  }

  lemma LocalPartOfAna()
    ensures Users.LocalPart("ana@y.com") == "ana"
  {
    var b := Users.LocalPart("ana@y.com");
    assert b[..|b|] == "ana@y.com"[..|b|];
  }

  /**
   * The username the corrected `save` uses: the same name when no user holds it, otherwise the
   * first free one of name + "1", name + "2", ... (the scheme `CustomUser.save` uses).
   */
  method FormUsername(users: map<Id, User>, email: string) returns (name: string)
    ensures name !in Users.Usernames(users)
    ensures CountUsername(users, email) !in Users.Usernames(users) ==> name == CountUsername(users, email)
    ensures CountUsername(users, email) <= name
  {
    name := Users.FreeUsername(Users.Usernames(users), CountUsername(users, email));
  }

  /** The user `create_user` writes for a new student: the email normalized, the password hashed. */
  function NewFormUser(data: AlunoData, username: string, now: Timestamp): (u: User)
    ensures u.email == Emails.NormalizeEmail(data.email) && u.password == Hashed(data.password)
    ensures u.username == username && u.userType == Aluno && u.academia.None? && u.isActive
  {
    User(Emails.NormalizeEmail(data.email), username, data.firstName, data.lastName, Hashed(data.password), Aluno,
         None, now, true)
  }

  /**
   * The edited user: email and names overwritten, the email as typed (`save` sets the field
   * directly, without `normalize_email`); `set_password` stores a new hash only when a non-empty
   * password is given.
   */
  function EditedUser(u: User, data: AlunoData): (v: User)
    ensures v == u.(email := data.email, firstName := data.firstName, lastName := data.lastName, password := v.password)
    ensures data.password == "" ==> v.password == u.password
    ensures data.password != "" ==> v.password == Hashed(data.password)
  {
    u.(email := data.email, firstName := data.firstName, lastName := data.lastName,
       password := if data.password != "" then Hashed(data.password) else u.password)
  }

  /**
   * `AlunoForm.save`: a new student's user is created (and the post-save handler gives it a blank
   * profile); an existing one is edited and saved. The profile columns are written only on commit.
   * `saved` is the user row written.
   */
  function SaveAlunoOf(db: Db, instance: Option<Id>, profile: Student, saved: User, commit: bool)
    : (r: (Db, Result<Id, Tables.DbError>))
    requires instance.Some? ==> instance.value in db.users
  {
    if instance.None? then
      var (d, reg) := Users.Register(db, saved);
      if reg.Err? || !commit then (d, reg) else (Tables.SaveStudent(d, reg.value, profile), reg)
    else
      var (d, out) := Users.Resave(db, instance.value, saved);
      if out.Fail? then (d, Err(out.error))
      else (if commit then Tables.SaveStudent(d, instance.value, profile) else d, Ok(instance.value))
  }

  /**
   * A new student: the user row is the one given, an ALUNO with a fresh id; on commit the profile
   * holds the form's columns, without commit it is the handler's blank profile.
   */
  lemma NewStudentThroughForm(db: Db, profile: Student, saved: User, commit: bool)
    requires KeysBounded(db) && saved.userType == Aluno
    ensures var (r, res) := SaveAlunoOf(db, None, profile, saved, commit);
      res.Ok? ==>
        && res.value !in db.users && res.value in r.users && r.users[res.value] == saved
        && res.value in r.alunos
        && (commit ==> r.alunos[res.value] == profile)
        && (!commit && res.value !in db.alunos ==> r.alunos[res.value] == Signals.NewStudent())
  {
    Users.RegisterWritesRow(db, saved);
  }

  /**
   * Editing a student whose profile follows its role: the user gets the new email and names, and
   * a new password only when one was typed; the profile changes only on commit.
   */
  lemma EditStudentThroughForm(db: Db, pk: Id, data: AlunoData, profile: Student, saved: User, commit: bool)
    requires pk in db.users && db.users[pk].userType == Aluno && RoleMatches(db, pk)
    requires saved == EditedUser(db.users[pk], data).(username := saved.username)
    ensures var (r, res) := SaveAlunoOf(db, Some(pk), profile, saved, commit);
      res.Ok? ==>
        && res.value == pk && pk in r.users
        && r.users[pk].email == data.email && r.users[pk].firstName == data.firstName
        && r.users[pk].lastName == data.lastName
        && r.users[pk].password == (if data.password != "" then Hashed(data.password) else db.users[pk].password)
        && (commit ==> pk in r.alunos && r.alunos[pk] == profile)
        && (!commit ==> r.alunos == db.alunos)
  {
    var (d, out) := Tables.UpdateUser(db, pk, saved);
    if out.Pass? {
      assert RoleMatches(d, pk);
      Signals.ResaveIsNoOp(d, pk);
    }
  }

  /**
   * A student created and committed through the form of a PERSONAL with a profile is assigned to
   * that trainer, and so appears among the students the trainer's viewset shows.
   */
  lemma PersonalSeesFormStudent(db: Db, requester: Option<Id>, data: AlunoData, saved: User)
    requires KeysBounded(db) && IsPersonal(db, requester) && requester.value in db.personais
    requires saved.userType == Aluno
    ensures var profile := data.profile.(personalResponsavel := Bound(TrainerField(db, requester, None), data.profile.personalResponsavel));
      var (r, res) := SaveAlunoOf(db, None, profile, saved, true);
      res.Ok? ==>
        && requester.value in r.users && res.value in Visibility.VisibleStudents(r, requester.value)
  {
    var profile := data.profile.(personalResponsavel := Bound(TrainerField(db, requester, None), data.profile.personalResponsavel));
    Users.RegisterWritesRow(db, saved);
    var (d, ins) := Tables.InsertUser(db, saved);
    if ins.Ok? {
      Signals.PostSaveTouchesOnlyUser(d, ins.value, true);
      assert requester.value != ins.value;
    }
  }

  class AlunoForm {
    /** The primary key of the student being edited, if any. */
    var instance: Option<Id>
    var initialEmail: Option<string>
    var initialFirstName: Option<string>
    var initialLastName: Option<string>
    var passwordRequired: bool
    var personalResponsavel: ChoiceField

    /**
     * `AlunoForm.__init__`: editing prefills the user fields and makes the password optional;
     * creating requires it. The trainer field follows the requester and the edited student.
     */
    constructor (db: Db, instance: Option<Id>, requester: Option<Id>)
      requires instance.Some? ==> instance.value in db.users && instance.value in db.alunos
      ensures this.instance == instance
      ensures passwordRequired <==> instance.None?
      ensures instance.Some? ==>
        var u := db.users[instance.value];
        initialEmail == Some(u.email) && initialFirstName == Some(u.firstName) && initialLastName == Some(u.lastName)
      ensures instance.None? ==> initialEmail.None? && initialFirstName.None? && initialLastName.None?
      ensures personalResponsavel == TrainerField(db, requester, instance)
    {
      this.instance := instance;
      if instance.Some? {
        var u := db.users[instance.value];
        initialEmail, initialFirstName, initialLastName := Some(u.email), Some(u.firstName), Some(u.lastName);
        passwordRequired := false;
      } else {
        initialEmail, initialFirstName, initialLastName := None, None, None;
        passwordRequired := true;
      }
      personalResponsavel := TrainerField(db, requester, instance);
    }

    /** Whether the trainer field validates the submitted data. */
    predicate Valid(data: AlunoData)
      reads this
    {
      Accepts(personalResponsavel, data.profile.personalResponsavel)
    }

    /**
     * The profile columns `super().save(commit=False)` puts on the instance: those submitted, with
     * the trainer the field binds, which for a valid form is one of its choices or none.
     */
    function Profile(data: AlunoData): (s: Student)
      reads this
      ensures s == data.profile.(personalResponsavel := s.personalResponsavel)
      ensures personalResponsavel.disabled ==> s.personalResponsavel == personalResponsavel.initial
      ensures !personalResponsavel.disabled ==> s.personalResponsavel == data.profile.personalResponsavel
      ensures Valid(data) ==> s.personalResponsavel.None? || s.personalResponsavel.value in personalResponsavel.choices
    {
      data.profile.(personalResponsavel := Bound(personalResponsavel, data.profile.personalResponsavel))
    }

    /**
     * `AlunoForm.save`, with the username of a new user made free (see `FormUsername`). A form that
     * did not validate writes nothing. Returns the student's key and the user row written.
     */
    method Save(db: Store.Database, data: AlunoData, commit: bool, now: Timestamp)
      returns (r: Result<Id, SaveError>, saved: User)
      requires instance.Some? ==> instance.value in db.users
      modifies db
      ensures !Valid(data) ==> r == Err(InvalidForm) && db.Snapshot() == old(db.Snapshot())
      ensures Valid(data) && instance.None? ==>
        && saved == NewFormUser(data, saved.username, now)
        && saved.username !in Users.Usernames(old(db.users))
        && (CountUsername(old(db.users), data.email) !in Users.Usernames(old(db.users)) ==>
              saved.username == CountUsername(old(db.users), data.email))
      ensures Valid(data) && instance.Some? ==> saved == EditedUser(old(db.users[instance.value]), data).(username := saved.username)
      ensures Valid(data) && instance.Some? && old(db.users[instance.value].username) != "" ==>
        saved == EditedUser(old(db.users[instance.value]), data)
      ensures Valid(data) ==>
        var (d, res) := SaveAlunoOf(old(db.Snapshot()), instance, Profile(data), saved, commit);
        db.Snapshot() == d && r == (if res.Ok? then Ok(res.value) else Err(Refused(res.error)))
    {
      if !Valid(data) {
        return Err(InvalidForm), NewFormUser(data, "", now);
      }
      var profile := Profile(data);
      if instance.None? {
        var name := FormUsername(db.users, data.email);
        var reg;
        saved, reg := Users.SaveNew(db, NewFormUser(data, name, now));
        Users.RegisterWritesRow(old(db.Snapshot()), saved);
        r := if reg.Ok? then Ok(reg.value) else Err(Refused(reg.error));
        if reg.Ok? && commit {
          db.SaveStudent(reg.value, profile);
        }
      } else {
        var pk := instance.value;
        var out;
        saved, out := Users.SaveExisting(db, pk, EditedUser(db.users[pk], data));
        if out.Fail? {
          r := Err(Refused(out.error));
        } else {
          Users.ResaveFollowsRole(old(db.Snapshot()), pk, saved);
          if commit {
            db.SaveStudent(pk, profile);
          }
          r := Ok(pk);
        }
      }
    }
  }

  // ---------------------------------------------------------------- TreinoForm

  /**
   * The `aluno` queryset after `TreinoForm.__init__`: a PERSONAL picks among their own students
   * (none without a profile); anyone else among all students.
   */
  function StudentChoices(db: Db, requester: Option<Id>): (as_: set<Id>)
    ensures as_ <= db.alunos.Keys
    ensures !IsPersonal(db, requester) ==> as_ == db.alunos.Keys
    ensures IsPersonal(db, requester) && requester.value !in db.personais ==> as_ == {}
  {
    if IsPersonal(db, requester) then
      if requester.value in db.personais then set a | a in db.alunos && db.alunos[a].personalResponsavel == requester
      else {}
    else db.alunos.Keys
  }

  /** For a PERSONAL the choices are exactly the students the student viewset shows them. */
  lemma TrainerChoicesMatchViewset(db: Db, requester: Option<Id>)
    requires IsPersonal(db, requester)
    ensures StudentChoices(db, requester) == Visibility.VisibleStudents(db, requester.value)
  {
  }

  /** The cleaned data of a `TreinoForm`. */
  datatype TreinoData = TreinoData(aluno: Id, nomeTreino: string, ativo: bool)

  /**
   * The instance `save` ends with: the form's columns on the edited (or a blank) workout, and the
   * requester as creator when a PERSONAL with a profile; otherwise the creator is left as it was.
   */
  function FormWorkout(db: Db, base: Workout, data: TreinoData, requester: Option<Id>): (w: Workout)
    ensures w.aluno == data.aluno && w.nomeTreino == data.nomeTreino && w.ativo == data.ativo
    ensures w.dataCriacao == base.dataCriacao && w.tipo == base.tipo
    ensures Serializers.IsTrainer(db, requester) ==> w.personalCriador == requester
    ensures !Serializers.IsTrainer(db, requester) ==> w.personalCriador == base.personalCriador
  {
    Workout(data.aluno, if Serializers.IsTrainer(db, requester) then requester else base.personalCriador, data.nomeTreino,
            base.dataCriacao, data.ativo, base.tipo)
  }

  class TreinoForm {
    var requester: Option<Id>
    /** The primary key of the workout being edited, if any. */
    var instance: Option<Id>
    var alunoChoices: set<Id>

    /** `TreinoForm.__init__`. */
    constructor (db: Db, requester: Option<Id>, instance: Option<Id>)
      ensures this.requester == requester && this.instance == instance
      ensures alunoChoices == StudentChoices(db, requester)
    {
      this.requester := requester;
      this.instance := instance;
      alunoChoices := StudentChoices(db, requester);
    }

    /**
     * `TreinoForm.save`: a student outside the choices fails validation, and `save` raises
     * ValueError before writing anything. Otherwise it builds the workout and writes it only on
     * commit (INSERT of a new one, dated now; UPDATE of the edited one). Returns the workout and,
     * when written, its key.
     */
    method Save(db: Store.Database, data: TreinoData, commit: bool, now: Timestamp)
      returns (r: Result<Workout, SaveError>, t: Option<Id>)
      requires instance.Some? ==> instance.value in db.treinos
      modifies db
      ensures r.Err? <==> data.aluno !in alunoChoices
      ensures r.Err? ==> r.error == InvalidForm && t.None? && db.Snapshot() == old(db.Snapshot())
      ensures r.Ok? && instance.None? ==>
        r.value == FormWorkout(old(db.Snapshot()), Workout(data.aluno, None, data.nomeTreino, now, data.ativo, None), data, requester)
      ensures r.Ok? && instance.Some? ==> r.value == FormWorkout(old(db.Snapshot()), old(db.treinos[instance.value]), data, requester)
      ensures r.Ok? && !commit ==> t.None? && db.Snapshot() == old(db.Snapshot())
      ensures r.Ok? && commit && instance.None? ==>
        t.Some? && (db.Snapshot(), t.value) == Tables.InsertWorkout(old(db.Snapshot()), r.value)
      ensures r.Ok? && commit && instance.Some? ==>
        t == instance && db.Snapshot() == Tables.UpdateWorkout(old(db.Snapshot()), instance.value, r.value)
    {
      t := None;
      if data.aluno !in alunoChoices {
        return Err(InvalidForm), None;
      }
      var base := if instance.Some? then db.treinos[instance.value] else Workout(data.aluno, None, data.nomeTreino, now, data.ativo, None);
      var w := FormWorkout(db.Snapshot(), base, data, requester);
      r := Ok(w);
      if commit {
        if instance.Some? {
          db.UpdateWorkout(instance.value, w);
          t := instance;
        } else {
          var id := db.InsertWorkout(w);
          t := Some(id);
        }
      }
    }
  }

  /**
   * A workout a PERSONAL saves through the form is for one of their own students, and names them
   * as its creator when they have a profile.
   */
  lemma PersonalFormWorkoutForOwnStudent(db: Db, requester: Option<Id>, base: Workout, data: TreinoData)
    requires IsPersonal(db, requester) && data.aluno in StudentChoices(db, requester)
    ensures var w := FormWorkout(db, base, data, requester);
      && requester.value in db.personais && w.personalCriador == requester
      && w.aluno in Visibility.VisibleStudents(db, requester.value)
  {
    TrainerChoicesMatchViewset(db, requester);
  }

  // ---------------------------------------------------------------- ItemTreinoForm and the formset

  /** The exercises in ascending name order. */
  predicate SortedByName(ys: seq<Id>, exs: map<Id, Exercise>)
    requires forall j :: 0 <= j < |ys| ==> ys[j] in exs
  {
    forall j :: 0 <= j < |ys| - 1 ==> StrLe(exs[ys[j]].nome, exs[ys[j + 1]].nome)
  }

  /** Insert `x` before the first exercise whose name is not smaller. */
  function InsertByName(x: Id, ys: seq<Id>, exs: map<Id, Exercise>): (r: seq<Id>)
    requires x in exs && forall j :: 0 <= j < |ys| ==> ys[j] in exs
    ensures multiset(r) == multiset(ys) + multiset{x}
    ensures forall j :: 0 <= j < |r| ==> r[j] in exs
    ensures r[0] == x || (ys != [] && r[0] == ys[0])
  {
    if ys == [] || StrLe(exs[x].nome, exs[ys[0]].nome) then [x] + ys
    else
      assert ys == [ys[0]] + ys[1..];
      [ys[0]] + InsertByName(x, ys[1..], exs)
  }

  /** Inserting into a list sorted by name keeps it sorted. */
  lemma {:induction false} InsertByNameSorted(x: Id, ys: seq<Id>, exs: map<Id, Exercise>)
    requires x in exs && forall j :: 0 <= j < |ys| ==> ys[j] in exs
    requires SortedByName(ys, exs)
    ensures SortedByName(InsertByName(x, ys, exs), exs)
  {
    if ys != [] && !StrLe(exs[x].nome, exs[ys[0]].nome) {
      StrLeTotal(exs[x].nome, exs[ys[0]].nome);
      InsertByNameSorted(x, ys[1..], exs);
    }
  }

  /** Insertion sort by name. */
  function ByName(xs: seq<Id>, exs: map<Id, Exercise>): (r: seq<Id>)
    requires forall j :: 0 <= j < |xs| ==> xs[j] in exs
    ensures multiset(r) == multiset(xs)
    ensures forall j :: 0 <= j < |r| ==> r[j] in exs
    ensures SortedByName(r, exs)
  {
    if xs == [] then []
    else
      assert xs == [xs[0]] + xs[1..];
      InsertByNameSorted(xs[0], ByName(xs[1..], exs), exs);
      InsertByName(xs[0], ByName(xs[1..], exs), exs)
  }

  /** `Exercicio.objects.all().order_by("nome")`: every exercise once, in ascending name order. */
  function ExerciseChoices(db: Db): (r: seq<Id>)
    requires KeysBelow(db.exercicios, db.nextId)
    ensures forall e :: e in r <==> e in db.exercicios
    ensures |r| == |db.exercicios|
    ensures forall j :: 0 <= j < |r| ==> r[j] in db.exercicios
    ensures SortedByName(r, db.exercicios)
  {
    var rows := Queries.Rows(db.exercicios.Keys, db.nextId);
    var r := ByName(rows, db.exercicios);
    assert forall e :: e in r <==> e in multiset(r);
    assert forall e :: e in rows <==> e in multiset(rows);
    assert |r| == |multiset(r)| == |multiset(rows)| == |rows|;
    r
  }

  /** `inlineformset_factory(..., extra=1, can_delete=True, min_num=0, validate_min=False)`. */
  const FormsetExtra: nat := 1
  const FormsetCanDelete: bool := true
  const FormsetMinNum: nat := 0
  const FormsetValidateMin: bool := false

  /** An unbound formset shows the workout's items followed by the blank extra forms. */
  function FormsetForms(items: nat): (n: nat)
    ensures n == items + 1
  {
    items + FormsetExtra
  }

  /** `max_num` left at its default (1000), so `absolute_max` is 1000 more. */
  const FormsetMaxNum: nat := 1000
  const FormsetAbsoluteMax: nat := FormsetMaxNum + 1000

  /**
   * One form of a bound formset: the item it edits (none for an extra form), whether its DELETE
   * box is ticked, and whether its data differs from the initial data.
   */
  datatype ItemForm = ItemForm(pk: Option<Id>, delete: bool, changed: bool)

  /**
   * The count checks of `full_clean`: more forms than `absolute_max` are refused; with
   * `validate_max` and `validate_min` off, no other count is.
   */
  predicate FormsetCountOk(forms: seq<ItemForm>) {
    |forms| <= FormsetAbsoluteMax && (!FormsetValidateMin || |forms| >= FormsetMinNum)
  }

  /** The forms of the formset as first shown: one per item, unmarked, then the blank extra form. */
  function InitialForms(rows: seq<Id>): (forms: seq<ItemForm>)
    ensures |forms| == FormsetForms(|rows|)
    ensures forall k :: 0 <= k < |rows| ==> forms[k] == ItemForm(Some(rows[k]), false, false)
    ensures forms[|rows|] == ItemForm(None, false, false)
  {
    seq(|rows|, k requires 0 <= k < |rows| => ItemForm(Some(rows[k]), false, false)) + [ItemForm(None, false, false)]
  }

  /** `save_existing_objects`: the edited items that stay, those whose DELETE box is clear. */
  function KeptItems(forms: seq<ItemForm>): (kept: set<Id>)
    ensures forall i :: i in kept <==> exists k :: 0 <= k < |forms| && forms[k].pk == Some(i) && !forms[k].delete
  {
    set k | 0 <= k < |forms| && forms[k].pk.Some? && !forms[k].delete :: forms[k].pk.value
  }

  /** An extra form `save_new_objects` saves: changed and not marked for deletion. */
  predicate SavesNew(f: ItemForm) {
    f.pk.None? && f.changed && !f.delete
  }

  /** `save_new_objects`: how many new items the extra forms add. */
  function NewItems(forms: seq<ItemForm>): (n: nat)
    ensures n <= |forms|
    ensures n == 0 <==> forall k :: 0 <= k < |forms| ==> !SavesNew(forms[k])
  {
    if forms == [] then 0
    else NewItems(forms[..|forms| - 1]) + (if SavesNew(forms[|forms| - 1]) then 1 else 0)
  }

  /**
   * Sending the formset back as it was shown passes the count checks, keeps every item and adds
   * none: the blank extra form is skipped.
   */
  lemma ResubmittedFormsetKeepsItems(rows: seq<Id>)
    requires |rows| < FormsetAbsoluteMax
    ensures FormsetCountOk(InitialForms(rows))
    ensures KeptItems(InitialForms(rows)) == set k | 0 <= k < |rows| :: rows[k]
    ensures NewItems(InitialForms(rows)) == 0
  {
    var forms := InitialForms(rows);
    forall i ensures i in KeptItems(forms) <==> i in set k | 0 <= k < |rows| :: rows[k] {
      if i in KeptItems(forms) {
        var k :| 0 <= k < |forms| && forms[k].pk == Some(i) && !forms[k].delete;
        assert k < |rows| && rows[k] == i;
      }
      if i in set k | 0 <= k < |rows| :: rows[k] {
        var k :| 0 <= k < |rows| && rows[k] == i;
        assert forms[k].pk == Some(i);
      }
    }
  }

  /**
   * Ticking DELETE on every form still validates, since no minimum is enforced, and saves a
   * workout with no items left and none added.
   */
  lemma DeletingEveryItemLeavesNone(forms: seq<ItemForm>)
    requires |forms| <= FormsetAbsoluteMax
    requires forall k :: 0 <= k < |forms| ==> forms[k].delete
    ensures FormsetCountOk(forms)
    ensures KeptItems(forms) == {} && NewItems(forms) == 0
  {
  }

  /** More forms than `absolute_max` are refused, however many are marked for deletion. */
  lemma TooManyFormsRefused(forms: seq<ItemForm>)
    requires |forms| > FormsetAbsoluteMax
    ensures !FormsetCountOk(forms)
  {
  }
}
