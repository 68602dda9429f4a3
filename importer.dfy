/**
 * The `import_exercicios` management command: a parsed JSON document is read as a list of
 * exercise objects, each upserted into the exercise table by name, with a count of the rows
 * created and updated. Opening and decoding the file are not part of this model; the command
 * starts here from the decoded value.
 */
module Importer {
  import opened Wrappers
  import opened Domain
  import Tables
  import Store
  import Queries

  /** A decoded JSON value. */
  datatype Json =
    | JNull
    | JBool(b: bool)
    | JNum(n: int)
    | JStr(s: string)
    | JArr(elems: seq<Json>)
    | JObj(fields: map<string, Json>)

  /** Why one item was not imported. */
  datatype ItemError =
    | NotAnObject             // `item.get` on a value that is not a dictionary
    | NoName                  // a missing or null name: the NOT NULL column refuses the row
    | Unsupported(key: string) // a value of a type the exercise row of this model does not hold
    | Refused(error: Tables.DbError)

  /** The command's stop without writing anything. */
  datatype ImportError = NotAList

  /** What became of one item. */
  datatype StepResult = Created | Updated | Failed(error: ItemError)

  /** The counters `total_criados` and `total_atualizados`, and the number of items reported. */
  datatype Tally = Tally(criados: nat, atualizados: nat, falhas: nat)

  // ---------------------------------------------------------------- reading an item

  /** The JSON text values of a list, when all its elements are strings. */
  function Texts(vs: seq<Json>): (r: Option<seq<string>>)
    ensures r.Some? <==> forall i :: 0 <= i < |vs| ==> vs[i].JStr?
    ensures r.Some? ==> |r.value| == |vs| && forall i :: 0 <= i < |vs| ==> r.value[i] == vs[i].s
  {
    if vs == [] then Some([])
    else if !vs[0].JStr? then None
    else
      var rest := Texts(vs[1..]);
      if rest.None? then None else Some([vs[0].s] + rest.value)
  }

  /** `item.get(key)` for a nullable text column: absent and null both give None. */
  function TextField(fields: map<string, Json>, key: string): (r: Result<Option<string>, ItemError>)
    ensures r.Ok? <==> key !in fields || fields[key].JNull? || fields[key].JStr?
    ensures r.Ok? && r.value.Some? ==> key in fields && fields[key] == JStr(r.value.value)
    ensures r.Err? ==> r.error == Unsupported(key)
  {
    if key !in fields || fields[key].JNull? then Ok(None)
    else if fields[key].JStr? then Ok(Some(fields[key].s))
    else Err(Unsupported(key))
  }

  /** `item.get(key, [])` for a list column: absent gives the empty list. */
  function ListField(fields: map<string, Json>, key: string): (r: Result<seq<string>, ItemError>)
    ensures key !in fields ==> r == Ok([])
    ensures key in fields ==> (r.Ok? <==> fields[key].JArr? && Texts(fields[key].elems).Some?)
    ensures r.Err? ==> r.error == Unsupported(key)
  {
    if key !in fields then Ok([])
    else if fields[key].JArr? && Texts(fields[key].elems).Some? then Ok(Texts(fields[key].elems).value)
    else Err(Unsupported(key))
  }

  /** The name an item carries, when it is an object with a text name. */
  function ItemName(item: Json): Option<string> {
    if item.JObj? && "name" in item.fields && item.fields["name"].JStr? then Some(item.fields["name"].s) else None
  }

  /** The row an item describes: its name and the `defaults` of `update_or_create`. */
  function ParseItem(item: Json): (r: Result<Exercise, ItemError>)
    ensures !item.JObj? ==> r == Err(NotAnObject)
    ensures r.Ok? ==> ItemName(item) == Some(r.value.nome)
    ensures item.JObj? && ("name" !in item.fields || item.fields["name"].JNull?) ==> r == Err(NoName)
  {
    if !item.JObj? then Err(NotAnObject)
    else
      var f := item.fields;
      if "name" !in f || f["name"].JNull? then Err(NoName)
      else if !f["name"].JStr? then Err(Unsupported("name"))
      else
        var slug := TextField(f, "id");
        var force := TextField(f, "force");
        var level := TextField(f, "level");
        var mechanic := TextField(f, "mechanic");
        var equipment := TextField(f, "equipment");
        var category := TextField(f, "category");
        var primary := ListField(f, "primaryMuscles");
        var secondary := ListField(f, "secondaryMuscles");
        var instructions := ListField(f, "instructions");
        var images := ListField(f, "images");
        if slug.Err? then Err(slug.error)
        else if force.Err? then Err(force.error)
        else if level.Err? then Err(level.error)
        else if mechanic.Err? then Err(mechanic.error)
        else if equipment.Err? then Err(equipment.error)
        else if category.Err? then Err(category.error)
        else if primary.Err? then Err(primary.error)
        else if secondary.Err? then Err(secondary.error)
        else if instructions.Err? then Err(instructions.error)
        else if images.Err? then Err(images.error)
        else Ok(Exercise(f["name"].s, slug.value, force.value, level.value, mechanic.value, equipment.value,
                         category.value, primary.value, secondary.value, instructions.value, images.value))
  }

  /** A JSON value that lists the given strings. */
  function TextArray(xs: seq<string>): (j: Json)
    ensures j.JArr? && |j.elems| == |xs|
    ensures forall i :: 0 <= i < |xs| ==> j.elems[i] == JStr(xs[i])
  {
    if xs == [] then JArr([]) else JArr([JStr(xs[0])] + TextArray(xs[1..]).elems)
  }

  function OptText(v: Option<string>): Json {
    if v.Some? then JStr(v.value) else JNull
  }

  /** The object the exercise file holds for an exercise, under the keys the command reads. */
  function ToJson(e: Exercise): (j: Json)
    ensures j.JObj?
  {
    JObj(map[
      "name" := JStr(e.nome), "id" := OptText(e.slug), "force" := OptText(e.force), "level" := OptText(e.level),
      "mechanic" := OptText(e.mechanic), "equipment" := OptText(e.equipment), "category" := OptText(e.category),
      "primaryMuscles" := TextArray(e.primaryMuscles), "secondaryMuscles" := TextArray(e.secondaryMuscles),
      "instructions" := TextArray(e.instructions), "images" := TextArray(e.images)])
  }

  lemma {:induction false} TextsOfTextArray(xs: seq<string>)
    ensures Texts(TextArray(xs).elems) == Some(xs)
  {
    var r := Texts(TextArray(xs).elems);
    assert r.value == xs;
  }

  /** The keys of the object written for an exercise hold its columns. */
  lemma {:induction false} ToJsonName(e: Exercise)
    ensures var f := ToJson(e).fields;
      "name" in f && f["name"] == JStr(e.nome) && TextField(f, "id") == Ok(e.slug)
  {
  }

  lemma {:induction false} ToJsonTexts(e: Exercise)
    ensures var f := ToJson(e).fields;
      && TextField(f, "force") == Ok(e.force) && TextField(f, "level") == Ok(e.level)
  {
  }

  lemma {:induction false} ToJsonMoreTexts(e: Exercise)
    ensures var f := ToJson(e).fields;
      && TextField(f, "mechanic") == Ok(e.mechanic) && TextField(f, "equipment") == Ok(e.equipment)
      && TextField(f, "category") == Ok(e.category)
  {
  }

  lemma {:induction false} ToJsonLists(e: Exercise)
    ensures var f := ToJson(e).fields;
      && ListField(f, "primaryMuscles") == Ok(e.primaryMuscles)
      && ListField(f, "secondaryMuscles") == Ok(e.secondaryMuscles)
      && ListField(f, "instructions") == Ok(e.instructions) && ListField(f, "images") == Ok(e.images)
  {
    TextsOfTextArray(e.primaryMuscles);
    TextsOfTextArray(e.secondaryMuscles);
    TextsOfTextArray(e.instructions);
    TextsOfTextArray(e.images);
  }

  /** Reading the object written for an exercise gives back that exercise, column for column. */
  lemma {:induction false} ParseToJson(e: Exercise)
    ensures ParseItem(ToJson(e)) == Ok(e)
  {
    ToJsonName(e);
    ToJsonTexts(e);
    ToJsonMoreTexts(e);
    ToJsonLists(e);
  }

  // ---------------------------------------------------------------- the upsert

  /** The exercise names held by the table. */
  function Names(exs: map<Id, Exercise>): (ns: set<string>)
    ensures forall x :: x in exs ==> exs[x].nome in ns
  {
    set x | x in exs :: exs[x].nome
  }

  /** The first row of the list whose name is `n`. */
  function FindName(exs: map<Id, Exercise>, ids: seq<Id>, n: string): (r: Option<Id>)
    requires forall j :: 0 <= j < |ids| ==> ids[j] in exs
    ensures r.Some? ==> r.value in exs && exs[r.value].nome == n
    ensures r.None? ==> forall j :: 0 <= j < |ids| ==> exs[ids[j]].nome != n
  {
    if ids == [] then None
    else if exs[ids[0]].nome == n then Some(ids[0])
    else FindName(exs, ids[1..], n)
  }

  /** The lookup `update_or_create` makes on `nome`. */
  function Named(db: Db, n: string): (r: Option<Id>)
    requires KeysBelow(db.exercicios, db.nextId)
    ensures r.Some? ==> r.value in db.exercicios && db.exercicios[r.value].nome == n
    ensures r.None? <==> n !in Names(db.exercicios)
  {
    var ids := Queries.Rows(db.exercicios.Keys, db.nextId);
    MissedByAll(db.exercicios, ids, n);
    FindName(db.exercicios, ids, n)
  }

  /** A name no listed row carries, when every row is listed, is not in the table. */
  lemma {:induction false} MissedByAll(exs: map<Id, Exercise>, ids: seq<Id>, n: string)
    requires forall k :: k in ids <==> k in exs
    ensures FindName(exs, ids, n).None? ==> n !in Names(exs)
  {
    if FindName(exs, ids, n).None? {
      forall x | x in exs ensures exs[x].nome != n {
        var j :| 0 <= j < |ids| && ids[j] == x;
      }
    }
  }

  /**
   * `Exercicio.objects.update_or_create(nome=..., defaults=...)`: the row with that name gets the
   * new columns (an UPDATE), or a row is INSERTed; `Ok(true)` means created. Either write is
   * refused when another row holds the name or the slug, and a refused write changes nothing.
   */
  function Upsert(db: Db, e: Exercise): (r: (Db, Result<bool, Tables.DbError>))
    requires KeysBelow(db.exercicios, db.nextId)
    ensures KeysBelow(r.0.exercicios, r.0.nextId)
    ensures r.1.Err? ==> r.0 == db
    ensures r.1.Ok? ==> (r.1.value <==> e.nome !in Names(db.exercicios))
    ensures r.1.Ok? ==> Names(r.0.exercicios) == Names(db.exercicios) + {e.nome}
  {
    var found := Named(db, e.nome);
    if found.Some? then
      UpdateRow(db, found.value, e);
      var (d, out) := Tables.UpdateExercise(db, found.value, e);
      (d, if out.Pass? then Ok(false) else Err(out.error))
    else
      InsertRow(db, e);
      var (d, ins) := Tables.InsertExercise(db, e);
      (d, if ins.Ok? then Ok(true) else Err(ins.error))
  }

  lemma {:induction false} UpdateRow(db: Db, x: Id, e: Exercise)
    requires KeysBelow(db.exercicios, db.nextId) && x in db.exercicios && db.exercicios[x].nome == e.nome
    ensures var d := Tables.UpdateExercise(db, x, e).0;
      KeysBelow(d.exercicios, d.nextId) && Names(d.exercicios) == Names(db.exercicios) + {e.nome}
  {
    PutNames(db.exercicios, x, e);
  }

  lemma {:induction false} InsertRow(db: Db, e: Exercise)
    requires KeysBelow(db.exercicios, db.nextId)
    ensures var (d, ins) := Tables.InsertExercise(db, e);
      && KeysBelow(d.exercicios, d.nextId)
      && (ins.Ok? ==> ins.value !in db.exercicios && Names(d.exercicios) == Names(db.exercicios) + {e.nome})
  {
    var (d, ins) := Tables.InsertExercise(db, e);
    if ins.Ok? {
      assert ins.value == db.nextId;
      PutNames(db.exercicios, ins.value, e);
    }
  }

  /** Writing row `x` adds its name and keeps every name another row holds. */
  lemma {:induction false} PutNames(exs: map<Id, Exercise>, x: Id, e: Exercise)
    requires x in exs ==> exs[x].nome == e.nome
    ensures Names(exs[x := e]) == Names(exs) + {e.nome}
  {
    var r := exs[x := e];
    forall n | n in Names(r) ensures n in Names(exs) + {e.nome} {
      var y :| y in r && r[y].nome == n;
      if y != x { assert exs[y].nome in Names(exs); }
    }
    forall n | n in Names(exs) ensures n in Names(r) {
      var y :| y in exs && exs[y].nome == n;
      assert r[y].nome in Names(r);
    }
    assert r[x].nome in Names(r);
  }

  /**
   * One pass of the loop body: read the item, upsert it, classify the outcome. Every failure is
   * caught and reported; the corrected handler names an item that is not an object without
   * calling `get` on it.
   */
  function Step(db: Db, item: Json): (r: (Db, StepResult))
    requires KeysBelow(db.exercicios, db.nextId)
    ensures KeysBelow(r.0.exercicios, r.0.nextId)
    ensures r.1.Failed? ==> r.0 == db
    ensures !r.1.Failed? ==> ParseItem(item).Ok? && r.0 == Upsert(db, ParseItem(item).value).0
    ensures r.1.Created? ==> ItemName(item).value !in Names(db.exercicios)
    ensures r.1.Updated? ==> ItemName(item).value in Names(db.exercicios)
  {
    var e := ParseItem(item);
    if e.Err? then (db, Failed(e.error))
    else
      var (d, res) := Upsert(db, e.value);
      if res.Err? then (db, Failed(Refused(res.error)))
      else (d, if res.value then Created else Updated)
  }

  function Count(t: Tally, s: StepResult): Tally {
    match s
    case Created => t.(criados := t.criados + 1)
    case Updated => t.(atualizados := t.atualizados + 1)
    case Failed(_) => t.(falhas := t.falhas + 1)
  }

  /** The `for item in dados` loop, from counters `t`. */
  function Run(db: Db, items: seq<Json>, t: Tally): (r: (Db, Tally))
    requires KeysBelow(db.exercicios, db.nextId)
    ensures KeysBelow(r.0.exercicios, r.0.nextId)
    ensures r.1.criados + r.1.atualizados + r.1.falhas == t.criados + t.atualizados + t.falhas + |items|
    ensures r.1.criados >= t.criados && r.1.atualizados >= t.atualizados && r.1.falhas >= t.falhas
    ensures Names(db.exercicios) <= Names(r.0.exercicios)
    decreases |items|
  {
    if items == [] then (db, t)
    else
      var (d, s) := Step(db, items[0]);
      Run(d, items[1..], Count(t, s))
  }

  const NoneYet: Tally := Tally(0, 0, 0)

  /** The command from the decoded document: a value that is not a list stops it before any write. */
  function ImportOf(db: Db, dados: Json): (r: (Db, Result<Tally, ImportError>))
    requires KeysBelow(db.exercicios, db.nextId)
    ensures r.1.Err? <==> !dados.JArr?
    ensures r.1.Err? ==> r.0 == db && r.1.error == NotAList
    ensures r.1.Ok? ==> r.1.value.criados + r.1.value.atualizados + r.1.value.falhas == |dados.elems|
    ensures r.1.Ok? ==> r.1.value.criados + r.1.value.atualizados <= |dados.elems|
  {
    if !dados.JArr? then (db, Err(NotAList))
    else
      var (d, t) := Run(db, dados.elems, NoneYet);
      (d, Ok(t))
  }

  /** `handle`, on the database object. */
  method Import(db: Store.Database, dados: Json) returns (r: Result<Tally, ImportError>)
    requires KeysBelow(db.exercicios, db.nextId)
    modifies db
    ensures (db.Snapshot(), r) == ImportOf(old(db.Snapshot()), dados)
  {
    if !dados.JArr? {
      return Err(NotAList);
    }
    var items := dados.elems;
    var t := NoneYet;
    var k := 0;
    while k < |items|
      invariant 0 <= k <= |items|
      invariant KeysBelow(db.exercicios, db.nextId)
      invariant Run(db.Snapshot(), items[k..], t) == Run(old(db.Snapshot()), items, NoneYet)
    {
      assert items[k..][1..] == items[k + 1..];
      var s := ImportItem(db, items[k]);
      t := Count(t, s);
      k := k + 1;
    }
    r := Ok(t);
  }

  /** The loop body on the database object. */
  method ImportItem(db: Store.Database, item: Json) returns (s: StepResult)
    requires KeysBelow(db.exercicios, db.nextId)
    modifies db
    ensures (db.Snapshot(), s) == Step(old(db.Snapshot()), item)
  {
    var e := ParseItem(item);
    if e.Err? {
      return Failed(e.error);
    }
    var found := Named(db.Snapshot(), e.value.nome);
    if found.Some? {
      var out := db.UpdateExercise(found.value, e.value);
      s := if out.Pass? then Updated else Failed(Refused(out.error));
    } else {
      var ins := db.InsertExercise(e.value);
      s := if ins.Ok? then Created else Failed(Refused(ins.error));
    }
  }

  // ---------------------------------------------------------------- the handler as written

  /** The loop as written: the handler's own `item.get` raises for an item that is not an object. */
  function RunAsWritten(db: Db, items: seq<Json>, t: Tally): (r: (Db, Option<Tally>))
    requires KeysBelow(db.exercicios, db.nextId)
    decreases |items|
  {
    if items == [] then (db, Some(t))
    else if !items[0].JObj? then (db, None)
    else
      var (d, s) := Step(db, items[0]);
      RunAsWritten(d, items[1..], Count(t, s))
  }

  /**
   * An item that is not an object, ahead of a new exercise, aborts the command as written before
   * the exercise is written; the corrected loop reports the item and imports the exercise.
   */
  lemma {:induction false} NonObjectAbortsImport(db: Db, junk: Json, e: Exercise)
    requires KeysBelow(db.exercicios, db.nextId) && !junk.JObj? && Tables.ExerciseKeysFree(db, e, None)
    ensures RunAsWritten(db, [junk, ToJson(e)], NoneYet) == (db, None)
    ensures Run(db, [junk, ToJson(e)], NoneYet).1 == Tally(1, 0, 1)
    ensures Holds(Run(db, [junk, ToJson(e)], NoneYet).0, e)
  {
    var items := [junk, ToJson(e)];
    assert Step(db, junk) == (db, Failed(NotAnObject));
    RunCons(db, junk, [ToJson(e)], NoneYet);
    assert [junk] + [ToJson(e)] == items;
    NewItemWritten(db, e, Tally(0, 0, 1));
  }

  /** A one-item file holding a new exercise whose keys are free creates its row. */
  lemma {:induction false} NewItemWritten(db: Db, e: Exercise, t: Tally)
    requires KeysBelow(db.exercicios, db.nextId) && Tables.ExerciseKeysFree(db, e, None)
    ensures Run(db, [ToJson(e)], t).1 == t.(criados := t.criados + 1)
    ensures Holds(Run(db, [ToJson(e)], t).0, e)
  {
    ParseToJson(e);
    assert Named(db, e.nome).None?;
    var (d, s) := Step(db, ToJson(e));
    assert s == Created;
    UpsertHolds(db, e);
    RunCons(db, ToJson(e), [], t);
    assert [ToJson(e)] + [] == [ToJson(e)];
  }

  /** The loop's first pass. */
  lemma {:induction false} RunCons(db: Db, item: Json, rest: seq<Json>, t: Tally)
    requires KeysBelow(db.exercicios, db.nextId)
    ensures Run(db, [item] + rest, t) == Run(Step(db, item).0, rest, Count(t, Step(db, item).1))
  {
    assert ([item] + rest)[0] == item && ([item] + rest)[1..] == rest;
  }

  /** Without such an item the written loop and the corrected one agree. */
  lemma {:induction false} AsWrittenAgreesOnObjects(db: Db, items: seq<Json>, t: Tally)
    requires KeysBelow(db.exercicios, db.nextId)
    requires forall i :: 0 <= i < |items| ==> items[i].JObj?
    ensures RunAsWritten(db, items, t) == (Run(db, items, t).0, Some(Run(db, items, t).1))
    decreases |items|
  {
    if items != [] {
      var (d, s) := Step(db, items[0]);
      AsWrittenAgreesOnObjects(d, items[1..], Count(t, s));
    }
  }

  // ---------------------------------------------------------------- properties of the loop

  /** Splitting the list splits the loop. */
  lemma {:induction false} RunAppend(db: Db, a: seq<Json>, b: seq<Json>, t: Tally)
    requires KeysBelow(db.exercicios, db.nextId)
    ensures Run(db, a + b, t) == Run(Run(db, a, t).0, b, Run(db, a, t).1)
    decreases |a|
  {
    if a != [] {
      assert (a + b)[0] == a[0] && (a + b)[1..] == a[1..] + b;
      var (d, s) := Step(db, a[0]);
      RunAppend(d, a[1..], b, Count(t, s));
    } else {
      assert a + b == b;
    }
  }

  /** Exercise `e` is the one row named `e.nome`. */
  predicate Holds(db: Db, e: Exercise) {
    HoldsIn(db.exercicios, e)
  }

  predicate HoldsIn(exs: map<Id, Exercise>, e: Exercise) {
    && (exists x :: x in exs && exs[x] == e)
    && forall x :: x in exs && exs[x].nome == e.nome ==> exs[x] == e
  }

  /** The row a successful upsert writes: the one of that name, or a fresh one. */
  lemma {:induction false} UpsertRow(db: Db, e: Exercise) returns (z: Id)
    requires KeysBelow(db.exercicios, db.nextId) && Upsert(db, e).1.Ok?
    ensures Upsert(db, e).0.exercicios == db.exercicios[z := e]
    ensures z in db.exercicios ==> db.exercicios[z].nome == e.nome
    ensures forall y :: y in db.exercicios && y != z ==> db.exercicios[y].nome != e.nome
    ensures Tables.ExerciseKeysFree(db, e, Some(z))
  {
    var found := Named(db, e.nome);
    if found.Some? {
      z := found.value;
    } else {
      var (d, ins) := Tables.InsertExercise(db, e);
      InsertRow(db, e);
      z := ins.value;
    }
  }

  lemma {:induction false} PutHolds(exs: map<Id, Exercise>, z: Id, e: Exercise)
    requires forall y :: y in exs && y != z ==> exs[y].nome != e.nome
    ensures HoldsIn(exs[z := e], e)
  {
    assert exs[z := e][z] == e;
  }

  lemma {:induction false} PutKeepsHolds(exs: map<Id, Exercise>, z: Id, e': Exercise, e: Exercise)
    requires HoldsIn(exs, e) && e'.nome != e.nome
    requires z in exs ==> exs[z].nome == e'.nome
    ensures HoldsIn(exs[z := e'], e)
  {
    var x :| x in exs && exs[x] == e;
    assert exs[z := e'][x] == e;
  }

  /** A successful upsert leaves its exercise as the one row of that name. */
  lemma {:induction false} UpsertHolds(db: Db, e: Exercise)
    requires KeysBelow(db.exercicios, db.nextId) && Upsert(db, e).1.Ok?
    ensures Holds(Upsert(db, e).0, e)
  {
    var z := UpsertRow(db, e);
    PutHolds(db.exercicios, z, e);
  }

  /** An item under another name does not touch the rows named `e.nome`. */
  lemma {:induction false} StepKeepsHolds(db: Db, e: Exercise, item: Json)
    requires KeysBelow(db.exercicios, db.nextId) && Holds(db, e)
    requires ItemName(item) != Some(e.nome)
    ensures Holds(Step(db, item).0, e)
  {
    var (d, s) := Step(db, item);
    if !s.Failed? {
      var e' := ParseItem(item).value;
      var z := UpsertRow(db, e');
      PutKeepsHolds(db.exercicios, z, e', e);
    }
  }

  lemma {:induction false} RunKeepsHolds(db: Db, e: Exercise, items: seq<Json>, t: Tally)
    requires KeysBelow(db.exercicios, db.nextId) && Holds(db, e)
    requires forall j :: 0 <= j < |items| ==> ItemName(items[j]) != Some(e.nome)
    ensures Holds(Run(db, items, t).0, e)
    decreases |items|
  {
    if items != [] {
      var (d, s) := Step(db, items[0]);
      StepKeepsHolds(db, e, items[0]);
      RunKeepsHolds(d, e, items[1..], Count(t, s));
    }
  }

  /**
   * When a file names an exercise more than once, the last of those items that was written
   * decides the row: afterwards the one row of that name holds exactly its columns.
   */
  lemma {:induction false} LaterItemWins(db: Db, pre: seq<Json>, item: Json, post: seq<Json>)
    requires KeysBelow(db.exercicios, db.nextId)
    requires !Step(Run(db, pre, NoneYet).0, item).1.Failed?
    requires forall j :: 0 <= j < |post| ==> ItemName(post[j]) != ItemName(item)
    ensures ParseItem(item).Ok?
    ensures Holds(Run(db, pre + [item] + post, NoneYet).0, ParseItem(item).value)
  {
    var r := Run(db, pre, NoneYet);
    var rest := [item] + post;
    assert pre + [item] + post == pre + rest;
    RunAppend(db, pre, rest, NoneYet);
    WrittenThenOthers(r.0, item, post, r.1);
  }

  lemma {:induction false} WrittenThenOthers(d: Db, item: Json, post: seq<Json>, t: Tally)
    requires KeysBelow(d.exercicios, d.nextId) && !Step(d, item).1.Failed?
    requires forall j :: 0 <= j < |post| ==> ItemName(post[j]) != ItemName(item)
    ensures ParseItem(item).Ok?
    ensures Holds(Run(d, [item] + post, t).0, ParseItem(item).value)
  {
    var e := ParseItem(item).value;
    RunCons(d, item, post, t);
    UpsertHolds(d, e);
    RunKeepsHolds(Step(d, item).0, e, post, Count(t, Step(d, item).1));
  }

  /**
   * Once every item named in a file has been written, running the file again finds every name
   * and so creates nothing.
   */
  lemma {:induction false} KnownNamesCreateNothing(db: Db, items: seq<Json>, t: Tally)
    requires KeysBelow(db.exercicios, db.nextId)
    requires forall j :: 0 <= j < |items| && ItemName(items[j]).Some? ==> ItemName(items[j]).value in Names(db.exercicios)
    ensures Run(db, items, t).1.criados == t.criados
    decreases |items|
  {
    if items != [] {
      var (d, s) := Step(db, items[0]);
      assert !s.Created?;
      RunKeepsNames(db, d, items[1..]);
      KnownNamesCreateNothing(d, items[1..], Count(t, s));
    }
  }

  lemma {:induction false} RunKeepsNames(db: Db, d: Db, items: seq<Json>)
    requires forall j :: 0 <= j < |items| && ItemName(items[j]).Some? ==> ItemName(items[j]).value in Names(db.exercicios)
    requires Names(db.exercicios) <= Names(d.exercicios)
    ensures forall j :: 0 <= j < |items| && ItemName(items[j]).Some? ==> ItemName(items[j]).value in Names(d.exercicios)
  {
  }

  /** A run without reports leaves the name of every item in the table. */
  lemma {:induction false} CleanRunNamesAll(db: Db, items: seq<Json>, t: Tally)
    requires KeysBelow(db.exercicios, db.nextId)
    requires Run(db, items, t).1.falhas == t.falhas
    ensures forall j :: 0 <= j < |items| ==> ItemName(items[j]).Some? && ItemName(items[j]).value in Names(Run(db, items, t).0.exercicios)
    decreases |items|
  {
    if items != [] {
      var d := Step(db, items[0]).0;
      var t1 := Count(t, Step(db, items[0]).1);
      RunHead(db, items, t);
      assert !Step(db, items[0]).1.Failed?;
      CleanRunNamesAll(d, items[1..], t1);
      StepWritesName(db, items[0]);
      NamedAll(items, Names(Run(d, items[1..], t1).0.exercicios));
    }
  }

  lemma {:induction false} RunHead(db: Db, items: seq<Json>, t: Tally)
    requires KeysBelow(db.exercicios, db.nextId) && items != []
    ensures Run(db, items, t).0 == Run(Step(db, items[0]).0, items[1..], Count(t, Step(db, items[0]).1)).0
    ensures Run(db, items, t).1 == Run(Step(db, items[0]).0, items[1..], Count(t, Step(db, items[0]).1)).1
  {
  }

  lemma {:induction false} NamedAll(items: seq<Json>, ns: set<string>)
    requires items != [] && ItemName(items[0]).Some? && ItemName(items[0]).value in ns
    requires forall j :: 0 <= j < |items[1..]| ==> ItemName(items[1..][j]).Some? && ItemName(items[1..][j]).value in ns
    ensures forall j :: 0 <= j < |items| ==> ItemName(items[j]).Some? && ItemName(items[j]).value in ns
  {
    forall j | 0 < j < |items|
      ensures ItemName(items[j]).Some? && ItemName(items[j]).value in ns
    {
      assert items[j] == items[1..][j - 1];
    }
  }

  lemma {:induction false} StepWritesName(db: Db, item: Json)
    requires KeysBelow(db.exercicios, db.nextId) && !Step(db, item).1.Failed?
    ensures ItemName(item).Some? && ItemName(item).value in Names(Step(db, item).0.exercicios)
  {
    var e := ParseItem(item).value;
    assert ItemName(item) == Some(e.nome);
    assert Names(Step(db, item).0.exercicios) == Names(db.exercicios) + {e.nome};
  }

  /** Re-running a file whose import reported nothing creates no row. */
  lemma {:induction false} RerunCreatesNothing(db: Db, items: seq<Json>)
    requires KeysBelow(db.exercicios, db.nextId)
    requires Run(db, items, NoneYet).1.falhas == 0
    ensures Run(Run(db, items, NoneYet).0, items, NoneYet).1.criados == 0
  {
    var r := Run(db, items, NoneYet).0;
    CleanRunNamesAll(db, items, NoneYet);
    KnownNamesCreateNothing(r, items, NoneYet);
  }

  /** Names no two items of the list share. */
  predicate DistinctNames(items: seq<Json>) {
    forall i, j :: 0 <= i < j < |items| && ItemName(items[i]).Some? ==> ItemName(items[i]) != ItemName(items[j])
  }

  /** Exercise `e` is a row, and writing it over that row again would clash with no other row. */
  predicate Settled(db: Db, e: Exercise) {
    SettledIn(db.exercicios, e)
  }

  predicate SettledIn(exs: map<Id, Exercise>, e: Exercise) {
    exists x :: x in exs && exs[x] == e && KeysFreeIn(exs, e, x)
  }

  /** No row but `x` holds the name of `e`, or its slug when it has one. */
  predicate KeysFreeIn(exs: map<Id, Exercise>, e: Exercise, x: Id) {
    forall y :: y in exs && y != x ==> exs[y].nome != e.nome && (e.slug.Some? ==> exs[y].slug != e.slug)
  }

  /** Upserting a settled exercise finds its row and changes nothing. */
  lemma {:induction false} SettledUpsertIsNoOp(db: Db, e: Exercise)
    requires KeysBelow(db.exercicios, db.nextId) && Settled(db, e)
    ensures Upsert(db, e) == (db, Ok(false))
  {
    var x :| x in db.exercicios && db.exercicios[x] == e && KeysFreeIn(db.exercicios, e, x);
    var found := Named(db, e.nome);
    assert found == Some(x);
    assert Tables.ExerciseKeysFree(db, e, Some(x));
    assert db.exercicios[x := e] == db.exercicios;
  }

  /** A successful upsert settles its exercise. */
  lemma {:induction false} UpsertSettles(db: Db, e: Exercise)
    requires KeysBelow(db.exercicios, db.nextId) && Upsert(db, e).1.Ok?
    ensures Settled(Upsert(db, e).0, e)
  {
    var z := UpsertRow(db, e);
    assert KeysFreeIn(db.exercicios, e, z);
    PutSettles(db.exercicios, z, e);
  }

  lemma {:induction false} PutSettles(exs: map<Id, Exercise>, z: Id, e: Exercise)
    requires KeysFreeIn(exs, e, z)
    ensures SettledIn(exs[z := e], e)
  {
    assert exs[z := e][z] == e;
    assert KeysFreeIn(exs[z := e], e, z);
  }

  lemma {:induction false} PutKeepsSettled(exs: map<Id, Exercise>, z: Id, e': Exercise, e: Exercise)
    requires SettledIn(exs, e) && e'.nome != e.nome
    requires z in exs ==> exs[z].nome == e'.nome
    requires KeysFreeIn(exs, e', z)
    ensures SettledIn(exs[z := e'], e)
  {
    var x :| x in exs && exs[x] == e && KeysFreeIn(exs, e, x);
    var r := exs[z := e'];
    assert x != z;
    assert r[x] == e;
    assert KeysFreeIn(r, e, x);
  }

  /** An item under another name, written or refused, leaves a settled exercise settled. */
  lemma {:induction false} StepKeepsSettled(db: Db, e: Exercise, item: Json)
    requires KeysBelow(db.exercicios, db.nextId) && Settled(db, e)
    requires ItemName(item) != Some(e.nome)
    ensures Settled(Step(db, item).0, e)
  {
    var (d, s) := Step(db, item);
    if !s.Failed? {
      var e' := ParseItem(item).value;
      var z := UpsertRow(db, e');
      assert KeysFreeIn(db.exercicios, e', z);
      PutKeepsSettled(db.exercicios, z, e', e);
    }
  }

  lemma {:induction false} RunKeepsSettled(db: Db, e: Exercise, items: seq<Json>, t: Tally)
    requires KeysBelow(db.exercicios, db.nextId) && Settled(db, e)
    requires forall j :: 0 <= j < |items| ==> ItemName(items[j]) != Some(e.nome)
    ensures Settled(Run(db, items, t).0, e)
    decreases |items|
  {
    if items != [] {
      StepKeepsSettled(db, e, items[0]);
      var (d, s) := Step(db, items[0]);
      RunKeepsSettled(d, e, items[1..], Count(t, s));
    }
  }

  /** After a run without reports over distinct names, every item's exercise is settled. */
  lemma {:induction false} CleanRunSettles(db: Db, items: seq<Json>, t: Tally)
    requires KeysBelow(db.exercicios, db.nextId) && DistinctNames(items)
    requires Run(db, items, t).1.falhas == t.falhas
    ensures AllSettled(Run(db, items, t).0, items)
    decreases |items|
  {
    if items != [] {
      var (d, s) := Step(db, items[0]);
      assert !s.Failed?;
      var e := ParseItem(items[0]).value;
      var rest := items[1..];
      assert DistinctNames(rest) by {
        forall i, j | 0 <= i < j < |rest| && ItemName(rest[i]).Some?
          ensures ItemName(rest[i]) != ItemName(rest[j])
        {
          assert rest[i] == items[i + 1] && rest[j] == items[j + 1];
        }
      }
      CleanRunSettles(d, rest, Count(t, s));
      UpsertSettles(db, e);
      assert forall j :: 0 <= j < |rest| ==> ItemName(rest[j]) != Some(e.nome) by {
        forall j | 0 <= j < |rest| ensures ItemName(rest[j]) != Some(e.nome) {
          assert rest[j] == items[j + 1];
        }
      }
      RunKeepsSettled(d, e, rest, Count(t, s));
      forall j | 0 <= j < |items|
        ensures ParseItem(items[j]).Ok? && Settled(Run(d, rest, Count(t, s)).0, ParseItem(items[j]).value)
      {
        if j > 0 {
          assert items[j] == rest[j - 1];
        }
      }
    }
  }

  /** Every item reads as an exercise that is settled in `db`. */
  predicate AllSettled(db: Db, items: seq<Json>) {
    forall j :: 0 <= j < |items| ==> ParseItem(items[j]).Ok? && Settled(db, ParseItem(items[j]).value)
  }

  /** Over settled exercises the loop writes nothing and counts every item as updated. */
  lemma {:induction false} SettledRunIsNoOp(db: Db, items: seq<Json>, t: Tally)
    requires KeysBelow(db.exercicios, db.nextId) && AllSettled(db, items)
    ensures Run(db, items, t).0 == db
    ensures Run(db, items, t).1 == Tally(t.criados, t.atualizados + |items|, t.falhas)
    decreases |items|
  {
    if items != [] {
      var t1 := t.(atualizados := t.atualizados + 1);
      SettledFirstStep(db, items, t);
      AllSettledTail(db, items);
      SettledRunIsNoOp(db, items[1..], t1);
      assert |items[1..]| == |items| - 1;
    }
  }

  lemma {:induction false} SettledFirstStep(db: Db, items: seq<Json>, t: Tally)
    requires KeysBelow(db.exercicios, db.nextId) && items != []
    requires ParseItem(items[0]).Ok? && Settled(db, ParseItem(items[0]).value)
    ensures Run(db, items, t) == Run(db, items[1..], t.(atualizados := t.atualizados + 1))
  {
    SettledStep(db, items[0]);
    RunFirstUpdated(db, items, t);
  }

  lemma {:induction false} RunFirstUpdated(db: Db, items: seq<Json>, t: Tally)
    requires KeysBelow(db.exercicios, db.nextId) && items != [] && Step(db, items[0]).1 == Updated
    ensures Run(db, items, t) == Run(Step(db, items[0]).0, items[1..], t.(atualizados := t.atualizados + 1))
  {
  }

  lemma {:induction false} SettledStep(db: Db, item: Json)
    requires KeysBelow(db.exercicios, db.nextId) && ParseItem(item).Ok? && Settled(db, ParseItem(item).value)
    ensures Step(db, item) == (db, Updated)
  {
    SettledUpsertIsNoOp(db, ParseItem(item).value);
  }

  lemma {:induction false} AllSettledTail(db: Db, items: seq<Json>)
    requires items != [] && AllSettled(db, items)
    ensures AllSettled(db, items[1..])
  {
    forall j | 0 <= j < |items[1..]|
      ensures ParseItem(items[1..][j]).Ok? && Settled(db, ParseItem(items[1..][j]).value)
    {
      assert items[1..][j] == items[j + 1];
    }
  }

  /**
   * Importing again a file of distinct names whose import reported nothing creates nothing,
   * updates every item, and leaves the table as it was.
   */
  lemma {:induction false} ImportIsIdempotent(db: Db, items: seq<Json>)
    requires KeysBelow(db.exercicios, db.nextId) && DistinctNames(items)
    requires Run(db, items, NoneYet).1.falhas == 0
    ensures var r := Run(db, items, NoneYet).0;
      Run(r, items, NoneYet).0 == r && Run(r, items, NoneYet).1 == Tally(0, |items|, 0)
  {
    CleanRunSettles(db, items, NoneYet);
    SettledRunIsNoOp(Run(db, items, NoneYet).0, items, NoneYet);
  }
}
