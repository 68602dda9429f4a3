/**
 * The exercise list of the trainer's "new workout" page: the page state holds a list of items,
 * each with a numeric id and four text inputs; the handlers add a blank item with a fresh id,
 * remove an item (never the last one), change one input of one item, and submit the items that
 * name an exercise. Each handler computes the new list from the old one and replaces the state.
 */
module ItemEditor {

  /** One row of the editor: the inputs are the strings the form fields hold. */
  datatype Item = Item(id: int, exercicioId: string, series: string, repeticoes: string, cargaKg: string)

  /** The inputs the page lets a row change. */
  datatype Field = ExercicioId | Series | Repeticoes | CargaKg

  function Blank(id: int): Item {
    Item(id, "", "", "", "")
  }

  predicate DistinctIds(items: seq<Item>) {
    forall i, j :: 0 <= i < j < |items| ==> items[i].id != items[j].id
  }

  predicate HasId(items: seq<Item>, id: int) {
    exists i :: 0 <= i < |items| && items[i].id == id
  }

  /** `Math.max(...itens.map(i => i.id), 0)`. */
  function MaxId(items: seq<Item>): (m: int)
    ensures m >= 0
    ensures forall i :: 0 <= i < |items| ==> items[i].id <= m
    ensures m == 0 || HasId(items, m)
  {
    if items == [] then 0
    else
      var rest := MaxId(items[1..]);
      if items[0].id > rest then items[0].id
      else
        assert rest != 0 ==> items[1..][ItemWith(items[1..], rest)].id == rest;
        rest
  }

  /** An index holding `id`, for a list that has one. */
  ghost function ItemWith(items: seq<Item>, id: int): (k: nat)
    requires HasId(items, id)
    ensures k < |items| && items[k].id == id
  {
    var k :| 0 <= k < |items| && items[k].id == id;
    k
  }

  /** The id `adicionarExercicio` gives the new row: above every id in the list. */
  function NextId(items: seq<Item>): (id: int)
    ensures id >= 1
    ensures !HasId(items, id)
  {
    MaxId(items) + 1
  }

  /** `itens.filter(item => item.id !== id)`. */
  function Without(items: seq<Item>, id: int): (r: seq<Item>)
    ensures forall k :: 0 <= k < |r| ==> r[k].id != id && r[k] in items
    ensures forall k :: 0 <= k < |items| && items[k].id != id ==> items[k] in r
    ensures |r| <= |items|
  {
    if items == [] then []
    else if items[0].id == id then Without(items[1..], id)
    else [items[0]] + Without(items[1..], id)
  }

  /** `{ ...item, [campo]: valor }`. */
  function Set(item: Item, field: Field, value: string): Item {
    match field
    case ExercicioId => item.(exercicioId := value)
    case Series => item.(series := value)
    case Repeticoes => item.(repeticoes := value)
    case CargaKg => item.(cargaKg := value)
  }

  /** The input `field` of `item`. */
  function Get(item: Item, field: Field): string {
    match field
    case ExercicioId => item.exercicioId
    case Series => item.series
    case Repeticoes => item.repeticoes
    case CargaKg => item.cargaKg
  }

  /** `itens.map(item => item.id === id ? { ...item, [campo]: valor } : item)`. */
  function Updated(items: seq<Item>, id: int, field: Field, value: string): (r: seq<Item>)
    ensures |r| == |items|
    ensures forall k :: 0 <= k < |r| ==> r[k].id == items[k].id
    ensures forall k :: 0 <= k < |r| && items[k].id != id ==> r[k] == items[k]
    ensures forall k :: 0 <= k < |r| && items[k].id == id ==>
      Get(r[k], field) == value && forall f :: f != field ==> Get(r[k], f) == Get(items[k], f)
  {
    seq(|items|, k requires 0 <= k < |items| => if items[k].id == id then Set(items[k], field, value) else items[k])
  }

  /** `itens.filter(i => i.exercicio_id)`: the rows that name an exercise, in order. */
  function Submitted(items: seq<Item>): (r: seq<Item>)
    ensures forall k :: 0 <= k < |r| ==> r[k].exercicioId != "" && r[k] in items
    ensures forall k :: 0 <= k < |items| && items[k].exercicioId != "" ==> items[k] in r
    ensures |r| <= |items|
  {
    if items == [] then []
    else if items[0].exercicioId == "" then Submitted(items[1..])
    else [items[0]] + Submitted(items[1..])
  }

  /**
   * The filter works row by row: it distributes over concatenation and keeps a single row exactly
   * when its id differs, so it keeps the order and the multiplicity of the rows it keeps.
   */
  lemma {:induction false} WithoutAppend(a: seq<Item>, b: seq<Item>, id: int)
    ensures Without(a + b, id) == Without(a, id) + Without(b, id)
    ensures forall x: Item :: Without([x], id) == if x.id == id then [] else [x]
    decreases |a|
  {
    if a == [] {
      assert a + b == b;
    } else {
      assert (a + b)[1..] == a[1..] + b;
      WithoutAppend(a[1..], b, id);
    }
    forall x: Item ensures Without([x], id) == if x.id == id then [] else [x] {
      WithoutOne(x, id);
    }
  }

  lemma WithoutOne(x: Item, id: int)
    ensures Without([x], id) == if x.id == id then [] else [x]
  {
    assert [x][1..] == [];
  }

  /** The submitted rows likewise: the filter distributes over concatenation, row by row. */
  lemma {:induction false} SubmittedAppend(a: seq<Item>, b: seq<Item>)
    ensures Submitted(a + b) == Submitted(a) + Submitted(b)
    ensures forall x: Item :: Submitted([x]) == if x.exercicioId == "" then [] else [x]
    decreases |a|
  {
    if a == [] {
      assert a + b == b;
    } else {
      assert (a + b)[1..] == a[1..] + b;
      SubmittedAppend(a[1..], b);
    }
    forall x: Item ensures Submitted([x]) == if x.exercicioId == "" then [] else [x] {
      SubmittedOne(x);
    }
  }

  lemma SubmittedOne(x: Item)
    ensures Submitted([x]) == if x.exercicioId == "" then [] else [x]
  {
    assert [x][1..] == [];
  }

  /** With distinct ids, the filter drops at most one row. */
  lemma {:induction false} WithoutDropsAtMostOne(items: seq<Item>, id: int)
    requires DistinctIds(items)
    ensures |Without(items, id)| >= |items| - 1
    ensures !HasId(items, id) ==> Without(items, id) == items
  {
    if items != [] {
      var tail := items[1..];
      TailDistinct(items);
      WithoutDropsAtMostOne(tail, id);
      if items[0].id == id {
        TailLacksId(items, id);
        assert Without(tail, id) == tail;
      } else if !HasId(items, id) {
        TailLacksId(items, id);
        assert [items[0]] + tail == items;
      }
    }
  }

  /** The rest of the list lacks an id its head holds (ids distinct), or one the whole list lacks. */
  lemma TailLacksId(items: seq<Item>, id: int)
    requires items != []
    requires (items[0].id == id && DistinctIds(items)) || !HasId(items, id)
    ensures !HasId(items[1..], id)
  {
    var tail := items[1..];
    forall k | 0 <= k < |tail| ensures tail[k].id != id {
      assert tail[k] == items[k + 1];
    }
  }

  /** The filter keeps the rows' order, so distinct ids stay distinct. */
  lemma {:induction false} WithoutKeepsDistinct(items: seq<Item>, id: int)
    requires DistinctIds(items)
    ensures DistinctIds(Without(items, id))
  {
    if items != [] {
      var tail := items[1..];
      TailDistinct(items);
      WithoutKeepsDistinct(tail, id);
      if items[0].id != id {
        var rt := Without(tail, id);
        forall k | 0 <= k < |rt| ensures rt[k].id != items[0].id {
          HeadIdNotInTail(items, rt[k]);
        }
        ConsDistinct(items[0], rt);
      }
    }
  }

  lemma TailDistinct(items: seq<Item>)
    requires items != [] && DistinctIds(items)
    ensures DistinctIds(items[1..])
  {
    var tail := items[1..];
    forall i, j | 0 <= i < j < |tail| ensures tail[i].id != tail[j].id {
      assert tail[i] == items[i + 1] && tail[j] == items[j + 1];
    }
  }

  lemma HeadIdNotInTail(items: seq<Item>, x: Item)
    requires items != [] && DistinctIds(items) && x in items[1..]
    ensures x.id != items[0].id
  {
    var m :| 0 <= m < |items[1..]| && items[1..][m] == x;
    assert items[m + 1] == x;
  }

  lemma ConsDistinct(x: Item, rest: seq<Item>)
    requires DistinctIds(rest) && forall k :: 0 <= k < |rest| ==> rest[k].id != x.id
    ensures DistinctIds([x] + rest)
  {
    var r := [x] + rest;
    forall i, j | 0 <= i < j < |r| ensures r[i].id != r[j].id {
      assert r[j] == rest[j - 1];
      if i > 0 {
        assert r[i] == rest[i - 1];
      }
    }
  }

  /** The page's list is never empty and its ids are pairwise distinct and positive. */
  predicate WellFormed(items: seq<Item>) {
    |items| >= 1 && DistinctIds(items) && forall k :: 0 <= k < |items| ==> items[k].id >= 1
  }

  /** Removing keeps the list well formed: with one row left nothing happens, otherwise at most one row goes. */
  lemma RemoveKeepsWellFormed(items: seq<Item>, id: int)
    requires WellFormed(items)
    ensures WellFormed(if |items| > 1 then Without(items, id) else items)
  {
    if |items| > 1 {
      WithoutDropsAtMostOne(items, id);
      WithoutKeepsDistinct(items, id);
    }
  }

  /** Adding a blank row with the next id keeps the list well formed. */
  lemma AddKeepsWellFormed(items: seq<Item>)
    requires WellFormed(items)
    ensures WellFormed(items + [Blank(NextId(items))])
  {
    var r := items + [Blank(NextId(items))];
    forall i, j | 0 <= i < j < |r| ensures r[i].id != r[j].id {
      if j == |items| {
        assert r[i] == items[i];
      } else {
        assert r[i] == items[i] && r[j] == items[j];
      }
    }
  }

  /** The editor's state: the `itens` list of the page. */
  class Editor {
    var itens: seq<Item>

    predicate Valid()
      reads this
    {
      WellFormed(itens)
    }

    /** The page starts with one blank row whose id is 1. */
    constructor()
      ensures itens == [Blank(1)]
      ensures Valid()
    {
      itens := [Blank(1)];
    }

    /** `adicionarExercicio`: one blank row at the end, with an id above all others. */
    method Add()
      requires Valid()
      modifies this
      ensures itens == old(itens) + [Blank(NextId(old(itens)))]
      ensures Valid()
    {
      AddKeepsWellFormed(itens);
      itens := itens + [Blank(NextId(itens))];
    }

    /** `removerExercicio`: filters the row out, unless it is the only one. */
    method Remove(id: int)
      requires Valid()
      modifies this
      ensures itens == if |old(itens)| > 1 then Without(old(itens), id) else old(itens)
      ensures Valid()
    {
      RemoveKeepsWellFormed(itens, id);
      if |itens| > 1 {
        itens := Without(itens, id);
      }
    }

    /** `atualizarItem`: sets one input of the row with that id. */
    method Update(id: int, field: Field, value: string)
      requires Valid()
      modifies this
      ensures itens == Updated(old(itens), id, field, value)
      ensures Valid()
    {
      itens := Updated(itens, id, field, value);
    }

    /** The items `handleSubmit` sends. */
    method Submit() returns (sent: seq<Item>)
      ensures sent == Submitted(itens)
    {
      sent := Submitted(itens);
    }
  }
}
