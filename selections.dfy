/**
 * The ORM filters the dashboards and reports (core/api_views.py) build their querysets from, over
 * the database value: each is the set of primary keys the filter selects, and the row order of a
 * queryset is the one `Queries.Rows` gives.
 */
module Selections {
  import opened Wrappers
  import opened Domain
  import opened Text
  import opened Queries

  /** `Treino.objects.filter(personal_criador=p)`. */
  function CreatedBy(db: Db, p: Id): (ts: set<Id>)
    ensures ts <= db.treinos.Keys
  {
    set t | t in db.treinos && db.treinos[t].personalCriador == Some(p)
  }

  /** `Aluno.objects.filter(personal_responsavel=p)`. */
  function StudentsOf(db: Db, p: Id): (as_: set<Id>)
    ensures as_ <= db.alunos.Keys
  {
    set a | a in db.alunos && db.alunos[a].personalResponsavel == Some(p)
  }

  /** `Treino.objects.filter(aluno=a)`. */
  function WorkoutsFor(db: Db, a: Id): (ts: set<Id>)
    ensures ts <= db.treinos.Keys
  {
    set t | t in db.treinos && db.treinos[t].aluno == a
  }

  /** `.filter(ativo=True)`. */
  function Active(db: Db, ts: set<Id>): (r: set<Id>)
    ensures r <= ts
  {
    set t | t in ts && t in db.treinos && db.treinos[t].ativo
  }

  /** `.filter(data_criacao__gte=start)`. */
  function Since(db: Db, ts: set<Id>, start: Timestamp): (r: set<Id>)
    ensures r <= ts
    ensures forall t :: t in r ==> t in db.treinos && db.treinos[t].dataCriacao >= start
  {
    set t | t in ts && t in db.treinos && db.treinos[t].dataCriacao >= start
  }

  /** The creation time of each of some workouts: what the month and weekday counts read. */
  function CreationTimes(db: Db, ts: set<Id>): (m: map<Id, Timestamp>)
    ensures m.Keys == ts * db.treinos.Keys
  {
    map t | t in ts && t in db.treinos :: db.treinos[t].dataCriacao
  }

  /** The `user__date_joined` of each of some profiles. */
  function JoinTimes(db: Db, us: set<Id>): (m: map<Id, Timestamp>)
    ensures m.Keys == us * db.users.Keys
  {
    map u | u in us && u in db.users :: db.users[u].dateJoined
  }

  /** `ItemTreino.objects.filter(treino__in=ts)`. */
  function ItemsIn(db: Db, ts: set<Id>): (items: set<Id>)
    ensures items <= db.itens.Keys
  {
    set i | i in db.itens && db.itens[i].treino in ts
  }

  /** `aluno_id and aluno_id != "todos"`: whether the trainer report narrows to one student. */
  predicate NarrowsToStudent(alunoId: Option<string>) {
    alunoId.Some? && alunoId.value != "" && alunoId.value != "todos"
  }

  /** What `aluno_id` asks for: every student, the number `int()` reads, or text it refuses. */
  datatype StudentParam = AllStudents | OneStudent(id: int) | Unreadable

  /**
   * The parameter as the ORM reads it: the lookup turns the text into a number with Python's
   * `int()` before it builds the query, so "07" and " 7 " name student 7, and text `int()`
   * refuses raises `ValueError` there.
   */
  function ReadStudentParam(alunoId: Option<string>): (p: StudentParam)
    ensures p == AllStudents <==> !NarrowsToStudent(alunoId)
    ensures p == Unreadable <==> NarrowsToStudent(alunoId) && PyInt(alunoId.value).None?
    ensures p.OneStudent? ==> PyInt(alunoId.value) == Some(p.id)
  {
    if !NarrowsToStudent(alunoId) then AllStudents
    else
      match PyInt(alunoId.value)
      case None => Unreadable
      case Some(a) => OneStudent(a)
  }

  /** `treinos.filter(aluno_id=n)` for a parameter that was read: no student has a negative id. */
  function ForStudent(db: Db, ts: set<Id>, p: StudentParam): (r: set<Id>)
    requires !p.Unreadable?
    ensures r <= ts
    ensures p == AllStudents ==> r == ts
    ensures p.OneStudent? && p.id >= 0 ==> r == ts * WorkoutsFor(db, p.id)
    ensures p.OneStudent? && p.id < 0 ==> r == {}
  {
    if p == AllStudents then ts else set t | t in ts && t in db.treinos && db.treinos[t].aluno == p.id
  }

  /** `treinos.filter(aluno_id=aluno_id)` when the parameter narrows; `None` when the query cannot be built. */
  function ForStudentParam(db: Db, ts: set<Id>, alunoId: Option<string>): (r: Option<set<Id>>)
    ensures r.None? <==> NarrowsToStudent(alunoId) && PyInt(alunoId.value).None?
    ensures !NarrowsToStudent(alunoId) ==> r == Some(ts)
    ensures r.Some? ==> r.value <= ts
  {
    var p := ReadStudentParam(alunoId);
    if p.Unreadable? then None else Some(ForStudent(db, ts, p))
  }

  /** Any text `int()` reads as a student's id keeps exactly that student's workouts. */
  lemma ForStudentParamSelects(db: Db, ts: set<Id>, a: Id, s: string)
    requires PyInt(s) == Some(a)
    ensures ForStudentParam(db, ts, Some(s)) == Some(ts * WorkoutsFor(db, a))
  {
    ParsedNarrows(s);
  }

  /** Text `int()` reads is neither empty nor "todos". */
  lemma ParsedNarrows(s: string)
    requires PyInt(s).Some?
    ensures NarrowsToStudent(Some(s))
  {
    PyIntRejects("todos", 0);
  }

  /**
   * The id as the client writes it, with zeros in front and blanks around it, selects the same
   * workouts as the plain decimal id.
   */
  lemma ForStudentParamWritten(db: Db, ts: set<Id>, a: Id, width: nat, pre: string, post: string)
    requires AllSpace(pre, PyBlanks) && AllSpace(post, PyBlanks)
    ensures ForStudentParam(db, ts, Some(pre + ZeroPad(NatToString(a), width) + post)) == Some(ts * WorkoutsFor(db, a))
  {
    PyIntIgnoresBlanks(pre, ZeroPad(NatToString(a), width), post);
    PyIntLeadingZeros(a, width);
    ForStudentParamSelects(db, ts, a, pre + ZeroPad(NatToString(a), width) + post);
  }

  /** A parameter that narrows but holds a character `int()` never accepts fails the query. */
  lemma ForStudentParamRejects(db: Db, ts: set<Id>, s: string, k: nat)
    requires s != "todos" && k < |s| && !NumberChar(s[k])
    ensures ForStudentParam(db, ts, Some(s)).None?
  {
    PyIntRejects(s, k);
  }

  // ---------------------------------------------------------------- item columns

  /** The items of a queryset with their exercise present, the foreign key the database enforces. */
  predicate ItemRowsOk(db: Db, rows: seq<Id>) {
    forall j :: 0 <= j < |rows| ==> rows[j] in db.itens && db.itens[rows[j]].exercicio in db.exercicios
  }

  /** The item rows of a set of items. */
  function ItemRows(db: Db, items: set<Id>): (rows: seq<Id>)
    requires KeysBounded(db) && ItemRefs(db.itens, db.treinos, db.exercicios) && items <= db.itens.Keys
    ensures ItemRowsOk(db, rows)
    ensures forall i :: i in rows <==> i in items
    ensures |rows| == |items|
  {
    Rows(items, db.nextId)
  }

  /** `.values("exercicio__category")`. */
  function Categories(db: Db, rows: seq<Id>): (cs: seq<Option<string>>)
    requires ItemRowsOk(db, rows)
    ensures |cs| == |rows|
    ensures forall j :: 0 <= j < |rows| ==> cs[j] == db.exercicios[db.itens[rows[j]].exercicio].category
  {
    seq(|rows|, j requires 0 <= j < |rows| => db.exercicios[db.itens[rows[j]].exercicio].category)
  }

  /** `.values("exercicio__nome")`. */
  function ExerciseNames(db: Db, rows: seq<Id>): (ns: seq<string>)
    requires ItemRowsOk(db, rows)
    ensures |ns| == |rows|
    ensures forall j :: 0 <= j < |rows| ==> ns[j] == db.exercicios[db.itens[rows[j]].exercicio].nome
  {
    seq(|rows|, j requires 0 <= j < |rows| => db.exercicios[db.itens[rows[j]].exercicio].nome)
  }

  /** `.values("exercicio__nome", "exercicio__category")`. */
  function NamesAndCategories(db: Db, rows: seq<Id>): (ps: seq<(string, Option<string>)>)
    requires ItemRowsOk(db, rows)
    ensures |ps| == |rows|
    ensures forall j :: 0 <= j < |rows| ==>
      var e := db.exercicios[db.itens[rows[j]].exercicio]; ps[j] == (e.nome, e.category)
  {
    seq(|rows|, j requires 0 <= j < |rows| =>
      var e := db.exercicios[db.itens[rows[j]].exercicio]; (e.nome, e.category))
  }

  /** The items of some workouts, in row order. */
  function ItemRowsOf(db: Db, ts: set<Id>): (rows: seq<Id>)
    requires KeysBounded(db) && RefsOk(db)
    ensures ItemRowsOk(db, rows)
  {
    ItemRows(db, ItemsIn(db, ts))
  }

  // ---------------------------------------------------------------- names

  /**
   * `f"{first_name} {last_name}".strip() or email`: the full name without the blanks Python's
   * `str.strip` removes at either end, or the e-mail when nothing else is left.
   */
  function DisplayName(u: User): (n: string)
    ensures AllSpace(u.firstName + " " + u.lastName, PyBlanks) ==> n == u.email
    ensures !AllSpace(u.firstName + " " + u.lastName, PyBlanks) ==>
      var full := u.firstName + " " + u.lastName;
      n == full[LeadingSpace(full, PyBlanks)..|full| - TrailingSpace(full, PyBlanks)]
    ensures !AllSpace(u.firstName + " " + u.lastName, PyBlanks) ==>
      n != [] && !IsSpace(n[0], PyBlanks) && !IsSpace(n[|n| - 1], PyBlanks)
  {
    var full := Trim(u.firstName + " " + u.lastName, PyBlanks);
    if full != [] then full else u.email
  }
}
