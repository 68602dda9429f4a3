/**
 * The trainer's report page: the label of each student in the selector, the trend indicators of
 * the variations, the colour, width and status of each student's frequency, and the lines of the
 * weekly load chart.
 */
module TrainerReportPage {
  import opened Wrappers
  import opened Text

  /** The user fields the label falls back on; each may be missing. */
  datatype UserInfo = UserInfo(firstName: Option<string>, lastName: Option<string>, email: Option<string>)

  /** A student as the list endpoint returns it. */
  datatype StudentRow = StudentRow(id: int, nome: Option<string>, user: Option<UserInfo>)

  /** `x || ''`: a missing text reads as empty. */
  function OrEmpty(x: Option<string>): string {
    if x.Some? then x.value else ""
  }

  /** `${first || ''} ${last || ''}`.trim(), with the blanks JavaScript's `trim` removes. */
  function FullName(u: Option<UserInfo>): string {
    if u.None? then Trim(" ", JsBlanks) else Trim(OrEmpty(u.value.firstName) + " " + OrEmpty(u.value.lastName), JsBlanks)
  }

  /** `a.user?.email`, empty when missing. */
  function Email(u: Option<UserInfo>): string {
    if u.None? then "" else OrEmpty(u.value.email)
  }

  /**
   * The selector label: `nome`, else the trimmed full name, else the e-mail, else "Aluno". Each
   * choice is taken exactly when every earlier one is empty, and the label is never empty.
   */
  function StudentLabel(a: StudentRow): (shown: string)
    ensures shown != ""
    ensures OrEmpty(a.nome) != "" ==> shown == a.nome.value
    ensures OrEmpty(a.nome) == "" && FullName(a.user) != "" ==> shown == FullName(a.user)
    ensures OrEmpty(a.nome) == "" && FullName(a.user) == "" && Email(a.user) != "" ==> shown == Email(a.user)
    ensures OrEmpty(a.nome) == "" && FullName(a.user) == "" && Email(a.user) == "" ==> shown == "Aluno"
  {
    if OrEmpty(a.nome) != "" then OrEmpty(a.nome)
    else if FullName(a.user) != "" then FullName(a.user)
    else if Email(a.user) != "" then Email(a.user)
    else "Aluno"
  }

  /** A student with only a first name (no surrounding blanks) is labelled by it. */
  lemma FirstNameOnly(a: StudentRow, first: string)
    requires OrEmpty(a.nome) == "" && a.user.Some?
    requires a.user.value.firstName == Some(first) && OrEmpty(a.user.value.lastName) == ""
    requires first != [] && !IsSpace(first[0], JsBlanks) && !IsSpace(first[|first| - 1], JsBlanks)
    ensures StudentLabel(a) == first
  {
    var s := first + " " + "";
    assert s == first + " ";
    assert TrailingSpace(s, JsBlanks) == 1 by {
      assert s[..|s| - 1] == first;
    }
    assert LeadingSpace(s, JsBlanks) == 0;
    assert s[0..|s| - 1] == first;
  }

  /** A student whose names are blank and who has no e-mail is labelled "Aluno". */
  lemma BlankNamesGiveAluno(a: StudentRow)
    requires OrEmpty(a.nome) == "" && a.user.Some?
    requires AllSpace(OrEmpty(a.user.value.firstName), JsBlanks) && AllSpace(OrEmpty(a.user.value.lastName), JsBlanks)
    requires a.user.value.email.None?
    ensures StudentLabel(a) == "Aluno"
  {
    var u := a.user.value;
    var s := OrEmpty(u.firstName) + " " + OrEmpty(u.lastName);
    forall i | 0 <= i < |s| ensures IsSpace(s[i], JsBlanks) {
      if i < |OrEmpty(u.firstName)| {
        assert s[i] == OrEmpty(u.firstName)[i];
      } else if i > |OrEmpty(u.firstName)| {
        assert s[i] == OrEmpty(u.lastName)[i - |OrEmpty(u.firstName)| - 1];
      }
    }
  }

  /** The icon and text of a variation: up and "+" from zero on, down otherwise. */
  datatype Trend = Trend(up: bool, text: string)

  /** `v >= 0 ? +{v}% : {v}%`, given how the number `v` is shown. */
  function TrendOf(v: real, shown: string): (t: Trend)
    ensures t.up <==> v >= 0.0
    ensures t.up ==> t.text == "+" + shown + "%"
    ensures !t.up ==> t.text == shown + "%"
  {
    if v >= 0.0 then Trend(true, "+" + shown + "%") else Trend(false, shown + "%")
  }

  /** As long as the number is not shown with a sign of its own, the text starts with "+" exactly for a rise. */
  lemma PlusMeansRise(v: real, shown: string)
    requires shown == [] || shown[0] != '+'
    ensures var t := TrendOf(v, shown);
      t.text[0] == '+' <==> v >= 0.0
  {
  }

  /** The bar colours. */
  datatype BarColour = Green | Yellow | Red

  /** The bar of a student's frequency: green from 80, yellow from 60, red below. */
  function FrequencyColour(f: real): (c: BarColour)
    ensures c == Green <==> f >= 80.0
    ensures c == Yellow <==> 60.0 <= f < 80.0
    ensures c == Red <==> f < 60.0
  {
    if f >= 80.0 then Green else if f >= 60.0 then Yellow else Red
  }

  /** How good a colour is, for comparing them. */
  function Rank(c: BarColour): nat {
    match c
    case Red => 0
    case Yellow => 1
    case Green => 2
  }

  /** A higher frequency never gets a worse colour. */
  lemma ColourMonotone(f: real, g: real)
    requires f <= g
    ensures Rank(FrequencyColour(f)) <= Rank(FrequencyColour(g))
  {
  }

  /** `Math.min(frequencia, 100)`: the bar never overflows and is exact up to 100. */
  function BarWidth(f: real): (w: real)
    ensures w <= 100.0
    ensures f <= 100.0 ==> w == f
    ensures f > 100.0 ==> w == 100.0
  {
    if f < 100.0 then f else 100.0
  }

  /** The status badge: "Ativo" from 70, "Irregular" below. */
  datatype Status = Ativo | Irregular

  function StatusOf(f: real): (s: Status)
    ensures s == Ativo <==> f >= 70.0
  {
    if f >= 70.0 then Ativo else Irregular
  }

  /** A green bar always comes with "Ativo" and a red one with "Irregular"; a yellow bar can have either. */
  lemma ColourAndStatus(f: real)
    ensures FrequencyColour(f) == Green ==> StatusOf(f) == Ativo
    ensures FrequencyColour(f) == Red ==> StatusOf(f) == Irregular
    ensures FrequencyColour(65.0) == Yellow && StatusOf(65.0) == Irregular
    ensures FrequencyColour(75.0) == Yellow && StatusOf(75.0) == Ativo
  {
  }

  /** The key of the week label in each chart row. */
  const WeekKey: string := "semana"

  /** `keys.filter(key => key !== 'semana')`, in order. */
  function WithoutWeek(keys: seq<string>): (r: seq<string>)
    ensures WeekKey !in r
    ensures forall k :: k in r <==> k in keys && k != WeekKey
    ensures |r| <= |keys|
  {
    if keys == [] then []
    else if keys[0] == WeekKey then WithoutWeek(keys[1..])
    else [keys[0]] + WithoutWeek(keys[1..])
  }

  /**
   * The filter works key by key: it distributes over concatenation and keeps a single key exactly
   * when it is not "semana", so it keeps the order and the multiplicity of the other keys.
   */
  lemma {:induction false} WithoutWeekAppend(a: seq<string>, b: seq<string>)
    ensures WithoutWeek(a + b) == WithoutWeek(a) + WithoutWeek(b)
    ensures forall k: string :: WithoutWeek([k]) == if k == WeekKey then [] else [k]
    decreases |a|
  {
    if a == [] {
      assert a + b == b;
    } else {
      assert (a + b)[1..] == a[1..] + b;
      WithoutWeekAppend(a[1..], b);
    }
    forall k: string ensures WithoutWeek([k]) == if k == WeekKey then [] else [k] {
      WithoutWeekOne(k);
    }
  }

  lemma WithoutWeekOne(k: string)
    ensures WithoutWeek([k]) == if k == WeekKey then [] else [k]
  {
    assert [k][1..] == [];
  }

  /** Removing a key that is not there changes nothing: the filter keeps order. */
  lemma {:induction false} WithoutWeekKeepsOrder(keys: seq<string>)
    requires WeekKey !in keys
    ensures WithoutWeek(keys) == keys
  {
    if keys != [] {
      assert keys[0] != WeekKey;
      WithoutWeekKeepsOrder(keys[1..]);
      assert [keys[0]] + keys[1..] == keys;
    }
  }

  /** How many lines the chart draws. */
  const MaxLines: nat := 3

  /**
   * `Object.keys(rows[0] || {}).filter(key => key !== 'semana').slice(0, 3)`, each row given by
   * its keys in order: the first three keys of the first row other than "semana".
   */
  function ChartKeys(rows: seq<seq<string>>): (ks: seq<string>)
    ensures |ks| <= MaxLines && WeekKey !in ks
    ensures rows == [] ==> ks == []
    ensures rows != [] ==> ks <= WithoutWeek(rows[0])
    ensures rows != [] && |WithoutWeek(rows[0])| <= MaxLines ==> ks == WithoutWeek(rows[0])
    ensures rows != [] && |WithoutWeek(rows[0])| > MaxLines ==> |ks| == MaxLines
  {
    var keys := if rows == [] then [] else rows[0];
    var rest := WithoutWeek(keys);
    var ks := if |rest| <= MaxLines then rest else rest[..MaxLines];
    assert forall k :: k in ks ==> k in rest;
    ks
  }

  /** The line colours. */
  const LineColours: seq<string> := ["#ef4444", "#3b82f6", "#22c55e"]

  /** `colors[index % colors.length]`. */
  function LineColour(index: nat): (c: string)
    ensures c in LineColours
  {
    LineColours[index % |LineColours|]
  }

  /** Since at most three lines are drawn, no two lines share a colour. */
  lemma LineColoursDistinct(rows: seq<seq<string>>, i: nat, j: nat)
    requires i < j < |ChartKeys(rows)|
    ensures LineColour(i) != LineColour(j)
  {
    assert LineColour(i) == LineColours[i] && LineColour(j) == LineColours[j];
    assert LineColours[i][1] != LineColours[j][1];
  }
}
