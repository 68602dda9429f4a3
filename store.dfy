/**
 * The database the views, serializers, forms and commands write through, as an object whose
 * tables are updated in place. Each method performs one write and leaves the tables exactly as the
 * matching function of `Tables` describes, whose lemmas show that it keeps the constraints of
 * `Domain.Valid`.
 */
module Store {
  import opened Wrappers
  import opened Domain
  import Tables

  class Database {
    var users: map<Id, User>
    var academias: map<Id, Gym>
    var personais: map<Id, Trainer>
    var alunos: map<Id, Student>
    var exercicios: map<Id, Exercise>
    var treinos: map<Id, Workout>
    var itens: map<Id, WorkoutItem>
    /** The next primary key the sequence hands out. */
    var nextId: Id

    /** The tables as one value. */
    function Snapshot(): Db
      reads this
    {
      Db(users, academias, personais, alunos, exercicios, treinos, itens, nextId)
    }

    /** A fresh, empty database. */
    constructor ()
      ensures Snapshot() == EmptyDb()
    {
      users, academias, personais, alunos := map[], map[], map[], map[];
      exercicios, treinos, itens, nextId := map[], map[], map[], 0;
    }

    method InsertUser(u: User) returns (r: Result<Id, Tables.DbError>)
      modifies this
      ensures (Snapshot(), r) == Tables.InsertUser(old(Snapshot()), u)
    {
      if Tables.UserKeysFree(Snapshot(), u, None) {
        r := Ok(nextId);
        users := users[nextId := u];
        nextId := nextId + 1;
      } else {
        r := Err(Tables.IntegrityError);
      }
    }

    method UpdateUser(id: Id, u: User) returns (r: Outcome<Tables.DbError>)
      requires id in users
      modifies this
      ensures (Snapshot(), r) == Tables.UpdateUser(old(Snapshot()), id, u)
    {
      if Tables.UserKeysFree(Snapshot(), u, Some(id)) {
        users := users[id := u];
        r := Pass;
      } else {
        r := Fail(Tables.IntegrityError);
      }
    }

    method InsertStudent(id: Id, s: Student) returns (r: Outcome<Tables.DbError>)
      requires id in users
      modifies this
      ensures (Snapshot(), r) == Tables.InsertStudent(old(Snapshot()), id, s)
    {
      if id in alunos {
        r := Fail(Tables.IntegrityError);
      } else {
        alunos := alunos[id := s];
        r := Pass;
      }
    }

    method SaveStudent(id: Id, s: Student)
      requires id in users
      modifies this
      ensures Snapshot() == Tables.SaveStudent(old(Snapshot()), id, s)
    {
      alunos := alunos[id := s];
    }

    method InsertTrainer(id: Id, t: Trainer) returns (r: Outcome<Tables.DbError>)
      requires id in users
      modifies this
      ensures (Snapshot(), r) == Tables.InsertTrainer(old(Snapshot()), id, t)
    {
      if id in personais || !Tables.CrefFree(Snapshot(), t.cref, id) {
        r := Fail(Tables.IntegrityError);
      } else {
        personais := personais[id := t];
        r := Pass;
      }
    }

    method SaveTrainer(id: Id, t: Trainer) returns (r: Outcome<Tables.DbError>)
      requires id in users
      modifies this
      ensures (Snapshot(), r) == Tables.SaveTrainer(old(Snapshot()), id, t)
    {
      if Tables.CrefFree(Snapshot(), t.cref, id) {
        personais := personais[id := t];
        r := Pass;
      } else {
        r := Fail(Tables.IntegrityError);
      }
    }

    method InsertWorkout(w: Workout) returns (t: Id)
      modifies this
      ensures (Snapshot(), t) == Tables.InsertWorkout(old(Snapshot()), w)
    {
      t := nextId;
      treinos := treinos[t := w];
      nextId := nextId + 1;
    }

    method UpdateWorkout(t: Id, w: Workout)
      requires t in treinos
      modifies this
      ensures Snapshot() == Tables.UpdateWorkout(old(Snapshot()), t, w)
    {
      treinos := treinos[t := w];
    }

    method InsertItem(it: WorkoutItem) returns (r: Outcome<Tables.DbError>)
      modifies this
      ensures (Snapshot(), r) == Tables.InsertItem(old(Snapshot()), it)
    {
      if Tables.PairTaken(Snapshot(), it) {
        r := Fail(Tables.IntegrityError);
      } else {
        itens := itens[nextId := it];
        nextId := nextId + 1;
        r := Pass;
      }
    }

    method InsertGym(g: Gym, now: Timestamp) returns (r: Result<Id, Tables.DbError>)
      modifies this
      ensures (Snapshot(), r) == Tables.InsertGym(old(Snapshot()), g, now)
    {
      if Tables.CnpjFree(Snapshot(), g.cnpj, None) {
        r := Ok(nextId);
        academias := academias[nextId := g.(dataCriacao := now)];
        nextId := nextId + 1;
      } else {
        r := Err(Tables.IntegrityError);
      }
    }

    method UpdateGym(x: Id, g: Gym) returns (r: Outcome<Tables.DbError>)
      requires x in academias
      modifies this
      ensures (Snapshot(), r) == Tables.UpdateGym(old(Snapshot()), x, g)
    {
      if Tables.CnpjFree(Snapshot(), g.cnpj, Some(x)) {
        academias := academias[x := g.(dataCriacao := academias[x].dataCriacao)];
        r := Pass;
      } else {
        r := Fail(Tables.IntegrityError);
      }
    }

    method InsertExercise(e: Exercise) returns (r: Result<Id, Tables.DbError>)
      modifies this
      ensures (Snapshot(), r) == Tables.InsertExercise(old(Snapshot()), e)
    {
      if Tables.ExerciseKeysFree(Snapshot(), e, None) {
        r := Ok(nextId);
        exercicios := exercicios[nextId := e];
        nextId := nextId + 1;
      } else {
        r := Err(Tables.IntegrityError);
      }
    }

    method UpdateExercise(x: Id, e: Exercise) returns (r: Outcome<Tables.DbError>)
      requires x in exercicios
      modifies this
      ensures (Snapshot(), r) == Tables.UpdateExercise(old(Snapshot()), x, e)
    {
      if Tables.ExerciseKeysFree(Snapshot(), e, Some(x)) {
        exercicios := exercicios[x := e];
        r := Pass;
      } else {
        r := Fail(Tables.IntegrityError);
      }
    }

    /** `treino.itens.all().delete()`. */
    method DeleteItemsOf(t: Id)
      modifies this
      ensures Snapshot() == Tables.DeleteItemsOf(old(Snapshot()), t)
    {
      itens := map i | i in itens && itens[i].treino != t :: itens[i];
    }

    /** Deleting a student profile: its workouts, then their items, go with it. */
    method DeleteStudent(a: Id)
      modifies this
      ensures Snapshot() == Tables.DeleteStudent(old(Snapshot()), a)
    {
      var gone := Tables.DeleteWorkouts(Snapshot(), Tables.WorkoutsOf(Snapshot(), a));
      itens := gone.itens;
      treinos := gone.treinos;
      alunos := alunos - {a};
    }

    /** Deleting a trainer profile: the references to it are set to null. */
    method DeleteTrainer(p: Id)
      modifies this
      ensures Snapshot() == Tables.DeleteTrainer(old(Snapshot()), p)
    {
      alunos := Tables.ClearTrainer(alunos, p);
      treinos := Tables.ClearCreator(treinos, p);
      personais := personais - {p};
    }

    /** Deleting an exercise: the items that use it go with it. */
    method DeleteExercise(e: Id)
      modifies this
      ensures Snapshot() == Tables.DeleteExercise(old(Snapshot()), e)
    {
      itens := map i | i in itens && itens[i].exercicio != e :: itens[i];
      exercicios := exercicios - {e};
    }

    /** Deleting a user: profiles and the gyms they are responsible for go first, then the row. */
    method DeleteUser(u: Id)
      modifies this
      ensures Snapshot() == Tables.DeleteUser(old(Snapshot()), u)
    {
      DeleteTrainer(u);
      DeleteStudent(u);
      var gs := Tables.GymsOf(Snapshot(), u);
      users := Tables.ClearUserGym(users, gs);
      alunos := Tables.ClearStudentGym(alunos, gs);
      academias := map g | g in academias && g !in gs :: academias[g];
      users := users - {u};
    }
  }
}
