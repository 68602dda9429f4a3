/**
 * The two post-save handlers on the user model (academias/signals.py). After a user row is
 * written, `criar_perfil_usuario` gives a new ALUNO a student profile and a new PERSONAL a trainer
 * profile; `atualizar_perfil_usuario` makes the profiles of an existing user follow a change of
 * role. Profiles are fetched with `get_or_create`, so an existing profile is left as it is.
 */
module Signals {
  import opened Wrappers
  import opened Domain
  import opened Text
  import Tables
  import Store

  /** The `especialidade` a generated trainer profile gets. */
  const DefaultEspecialidade: string := "A definir"

  /** `f"CREF-{id:06d}"`. */
  function DefaultCref(id: Id): (c: string)
    ensures |c| >= 11 && c[..5] == "CREF-" && IsDigits(c[5..])
    ensures c[5..] == ZeroPad(NatToString(id), 6)
    ensures id < 1000000 ==> |c| == 11
  {
    var digits := ZeroPad(NatToString(id), 6);
    assert IsDigits(digits) by {
      forall i | 0 <= i < |digits| ensures '0' <= digits[i] <= '9' {
        var n := NatToString(id);
        if i >= |digits| - |n| { assert digits[i] == n[i - (|digits| - |n|)]; }
      }
    }
    assert id < 1000000 ==> |NatToString(id)| <= 6 by {
      if id < 1000000 { assert Pow10(6) == 1000000; ShortRendering(id, 6); }
    }
    var c := "CREF-" + digits;
    assert c[..5] == "CREF-" && c[5..] == digits;
    c
  }

  /** Generated CREFs of different users differ, so two generated profiles never clash. */
  lemma {:induction false} DefaultCrefInjective(a: Id, b: Id)
    requires DefaultCref(a) == DefaultCref(b)
    ensures a == b
  {
    // The rendering has no leading zero unless it is "0" itself, so the padding can be peeled off.
    PaddedRenderingUnique(a, b);
  }

  lemma {:induction false} PaddedRenderingUnique(a: Id, b: Id)
    requires ZeroPad(NatToString(a), 6) == ZeroPad(NatToString(b), 6)
    ensures a == b
  {
    var na, nb := NatToString(a), NatToString(b);
    var p := ZeroPad(na, 6);
    NoLeadingZero(a);
    NoLeadingZero(b);
    if |na| != |nb| {
      assert false;
    }
    assert na == p[|p| - |na|..] == nb;
    NatToStringInjective(a, b);
  }

  /** A rendering starts with '0' only when it is the single digit of zero. */
  lemma {:induction false} NoLeadingZero(n: nat)
    ensures NatToString(n)[0] == '0' ==> n == 0
    decreases n
  {
    if n >= 10 {
      NoLeadingZero(n / 10);
      assert NatToString(n)[0] == NatToString(n / 10)[0];
    } else if n > 0 {
      assert NatToString(n) == [Digit(n)];
    }
  }

  /** The student profile `get_or_create` makes: every optional field empty. */
  function NewStudent(): Student {
    Student(None, None, None, None)
  }

  /** `Aluno.objects.get_or_create(user=u)`: afterwards u has a student profile; an existing one is kept. */
  function GetOrCreateStudent(db: Db, u: Id): (r: Db)
    ensures u in r.alunos && r.users == db.users && r.personais == db.personais
    ensures forall v :: v != u ==> (v in r.alunos <==> v in db.alunos)
    ensures u in db.alunos ==> r == db
    ensures u !in db.alunos ==> r.alunos == db.alunos[u := NewStudent()] && r == db.(alunos := r.alunos)
  {
    if u in db.alunos then db else Tables.InsertStudent(db, u, NewStudent()).0
  }

  /**
   * `PersonalTrainer.objects.get_or_create(user=u, defaults=...)`: an existing profile is kept; a
   * new one gets the generated CREF, and the insert fails when another trainer already holds it.
   */
  function GetOrCreateTrainer(db: Db, u: Id): (r: (Db, Outcome<Tables.DbError>))
    ensures r.1.Pass? <==> u in db.personais || Tables.CrefFree(db, DefaultCref(u), u)
    ensures r.1.Pass? ==> u in r.0.personais
    ensures r.0.users == db.users && r.0.alunos == db.alunos
    ensures forall v :: v != u ==> (v in r.0.personais <==> v in db.personais)
    ensures u in db.personais || r.1.Fail? ==> r.0 == db
    ensures u !in db.personais && r.1.Pass? ==>
      && r.0.personais == db.personais[u := Trainer(DefaultCref(u), Some(DefaultEspecialidade))]
      && r.0 == db.(personais := r.0.personais)
  {
    if u in db.personais then (db, Pass)
    else Tables.InsertTrainer(db, u, Trainer(DefaultCref(u), Some(DefaultEspecialidade)))
  }

  /** `instance.aluno.delete()` guarded by `except Aluno.DoesNotExist`. */
  function DropStudent(db: Db, u: Id): (r: Db)
    ensures u !in r.alunos && r.users == db.users && r.personais == db.personais
    ensures forall v :: v != u ==> (v in r.alunos <==> v in db.alunos)
    ensures u !in db.alunos ==> r == db
  {
    if u in db.alunos then Tables.DeleteStudent(db, u) else db
  }

  /** `instance.personaltrainer.delete()` guarded by `except PersonalTrainer.DoesNotExist`. */
  function DropTrainer(db: Db, u: Id): (r: Db)
    ensures u !in r.personais && r.users == db.users && r.alunos.Keys == db.alunos.Keys
    ensures forall v :: v != u ==> (v in r.personais <==> v in db.personais)
    ensures u !in db.personais ==> r == db
  {
    if u in db.personais then Tables.DeleteTrainer(db, u) else db
  }

  /** `criar_perfil_usuario`, for a user row that was just inserted. */
  function OnCreate(db: Db, u: Id): (Db, Outcome<Tables.DbError>)
    requires u in db.users
  {
    match db.users[u].userType
    case Aluno => (GetOrCreateStudent(db, u), Pass)
    case Personal => GetOrCreateTrainer(db, u)
    case _ => (db, Pass)
  }

  /**
   * `atualizar_perfil_usuario`, for an existing user row that was saved again. When creating the
   * trainer profile fails, the exception leaves the student profile in place.
   */
  function OnUpdate(db: Db, u: Id): (Db, Outcome<Tables.DbError>)
    requires u in db.users
  {
    match db.users[u].userType
    case Aluno => (DropTrainer(GetOrCreateStudent(db, u), u), Pass)
    case Personal =>
      var (d, r) := GetOrCreateTrainer(db, u);
      if r.Fail? then (d, r) else (DropStudent(d, u), Pass)
    case _ => (DropTrainer(DropStudent(db, u), u), Pass)
  }

  /** Both receivers, in the order they are registered; `created` tells which one acts. */
  function PostSave(db: Db, u: Id, created: bool): (Db, Outcome<Tables.DbError>)
    requires u in db.users
  {
    if created then OnCreate(db, u) else OnUpdate(db, u)
  }

  // ---------------------------------------------------------------- properties

  /**
   * After a successful post-save, the user has a student profile exactly when ALUNO and a trainer
   * profile exactly when PERSONAL. A user that was just inserted has no profile yet.
   */
  lemma PostSaveMatchesRole(db: Db, u: Id, created: bool)
    requires u in db.users
    requires created ==> u !in db.alunos && u !in db.personais
    ensures var (r, out) := PostSave(db, u, created);
      out.Pass? ==> u in r.users && RoleMatches(r, u)
  {
  }

  /** The handlers only ever add or remove profiles of the saved user; no user row changes. */
  lemma PostSaveTouchesOnlyUser(db: Db, u: Id, created: bool)
    requires u in db.users
    ensures var r := PostSave(db, u, created).0;
      && r.users == db.users
      && (forall v :: v != u ==> (v in r.alunos <==> v in db.alunos))
      && (forall v :: v != u ==> (v in r.personais <==> v in db.personais))
  {
    if !created {
      match db.users[u].userType
      case Aluno =>
        var s := GetOrCreateStudent(db, u);
        assert OnUpdate(db, u).0 == DropTrainer(s, u);
      case Personal =>
      case _ =>
        var s := DropStudent(db, u);
        assert OnUpdate(db, u).0 == DropTrainer(s, u);
    }
  }

  /** Hence, when every other user's profiles already matched their role, they all match afterwards. */
  lemma PostSaveKeepsRolesMatched(db: Db, u: Id, created: bool)
    requires u in db.users
    requires created ==> u !in db.alunos && u !in db.personais
    requires forall v :: v in db.users && v != u ==> RoleMatches(db, v)
    ensures var (r, out) := PostSave(db, u, created);
      out.Pass? ==> ProfilesMatchRoles(r)
  {
    PostSaveMatchesRole(db, u, created);
    PostSaveTouchesOnlyUser(db, u, created);
  }

  /** Saving again without a change of role changes nothing once the profiles match the role. */
  lemma ResaveIsNoOp(db: Db, u: Id)
    requires u in db.users && RoleMatches(db, u)
    ensures PostSave(db, u, false) == (db, Pass)
  {
  }

  /** Running the update handler twice is the same as running it once. */
  lemma OnUpdateIdempotent(db: Db, u: Id)
    requires u in db.users
    ensures var (r, out) := OnUpdate(db, u);
      out.Pass? ==> u in r.users && OnUpdate(r, u) == (r, Pass)
  {
    PostSaveMatchesRole(db, u, false);
    var (r, out) := OnUpdate(db, u);
    if out.Pass? {
      PostSaveTouchesOnlyUser(db, u, false);
      ResaveIsNoOp(r, u);
    }
  }

  /** A new PERSONAL whose generated CREF is free gets it, with the default speciality. */
  lemma NewTrainerGetsDefaults(db: Db, u: Id)
    requires u in db.users && db.users[u].userType == Personal && u !in db.personais
    requires Tables.CrefFree(db, DefaultCref(u), u)
    ensures var (r, out) := OnCreate(db, u);
      out.Pass? && r.personais[u] == Trainer(DefaultCref(u), Some("A definir"))
  {
  }

  /** The handlers keep the database constraints. */
  lemma PostSaveKeepsValid(db: Db, u: Id, created: bool)
    requires Valid(db) && u in db.users
    ensures Valid(PostSave(db, u, created).0)
  {
    match db.users[u].userType
    case Aluno => StudentSaveKeepsValid(db, u, created);
    case Personal => TrainerSaveKeepsValid(db, u, created);
    case _ => OtherSaveKeepsValid(db, u, created);
  }

  lemma StudentSaveKeepsValid(db: Db, u: Id, created: bool)
    requires Valid(db) && u in db.users && db.users[u].userType == Aluno
    ensures Valid(PostSave(db, u, created).0)
  {
    Tables.SaveStudentKeepsValid(db, u, NewStudent());
    var s := GetOrCreateStudent(db, u);
    if !created && u in s.personais { Tables.DeleteTrainerKeepsValid(s, u); }
  }

  lemma TrainerSaveKeepsValid(db: Db, u: Id, created: bool)
    requires Valid(db) && u in db.users && db.users[u].userType == Personal
    ensures Valid(PostSave(db, u, created).0)
  {
    Tables.SaveTrainerKeepsValid(db, u, Trainer(DefaultCref(u), Some(DefaultEspecialidade)));
    var t := GetOrCreateTrainer(db, u).0;
    if !created && u in t.alunos { Tables.DeleteStudentKeepsValid(t, u); }
  }

  lemma OtherSaveKeepsValid(db: Db, u: Id, created: bool)
    requires Valid(db) && u in db.users && db.users[u].userType in {Admin, AdminSistema}
    ensures Valid(PostSave(db, u, created).0)
  {
    if !created {
      if u in db.alunos { Tables.DeleteStudentKeepsValid(db, u); }
      var a := DropStudent(db, u);
      if u in a.personais { Tables.DeleteTrainerKeepsValid(a, u); }
    }
  }

  // ---------------------------------------------------------------- the handlers, step by step

  /** `criar_perfil_usuario(instance=u, created=True)`. */
  method CreateProfile(db: Store.Database, u: Id) returns (out: Outcome<Tables.DbError>)
    requires u in db.users
    modifies db
    ensures (db.Snapshot(), out) == OnCreate(old(db.Snapshot()), u)
  {
    var kind := db.users[u].userType;
    out := Pass;
    if kind == Aluno {
      if u !in db.alunos {
        var _ := db.InsertStudent(u, NewStudent());
      }
    } else if kind == Personal {
      if u !in db.personais {
        out := db.InsertTrainer(u, Trainer(DefaultCref(u), Some(DefaultEspecialidade)));
      }
    }
  }

  /** `atualizar_perfil_usuario(instance=u, created=False)`. */
  method UpdateProfile(db: Store.Database, u: Id) returns (out: Outcome<Tables.DbError>)
    requires u in db.users
    modifies db
    ensures (db.Snapshot(), out) == OnUpdate(old(db.Snapshot()), u)
  {
    var kind := db.users[u].userType;
    out := Pass;
    if kind == Aluno {
      if u !in db.alunos {
        var _ := db.InsertStudent(u, NewStudent());
      }
      if u in db.personais {
        db.DeleteTrainer(u);
      }
    } else if kind == Personal {
      if u !in db.personais {
        out := db.InsertTrainer(u, Trainer(DefaultCref(u), Some(DefaultEspecialidade)));
      }
      if out.Pass? && u in db.alunos {
        db.DeleteStudent(u);
      }
    } else {
      if u in db.alunos {
        db.DeleteStudent(u);
      }
      if u in db.personais {
        db.DeleteTrainer(u);
      }
    }
  }

  /** The `post_save` dispatch: both receivers run, each acting on its own value of `created`. */
  method OnPostSave(db: Store.Database, u: Id, created: bool) returns (out: Outcome<Tables.DbError>)
    requires u in db.users
    modifies db
    ensures (db.Snapshot(), out) == PostSave(old(db.Snapshot()), u, created)
  {
    if created {
      out := CreateProfile(db, u);
    } else {
      out := UpdateProfile(db, u);
    }
  }
}
