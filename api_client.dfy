/**
 * The URL builders of the frontend's API client (`alunoAPI.list`, `treinoAPI.list`,
 * `personalAPI.list`, `relatorioAPI.*`). The HTTP call itself is not modelled: each builder
 * returns the URL it would request. `URLSearchParams.toString()` is modelled down to the bytes
 * (application/x-www-form-urlencoded serialisation of the UTF-8 encoding), so that the query a
 * builder produces can be parsed back and decoded.
 */
module ApiClient {
  import opened Wrappers
  import opened Text

  /** A filter value as the pages pass it (`string | number`). */
  datatype Param = PStr(s: string) | PNum(n: int)

  /** JavaScript truthiness of an optional filter: absent, `""` and `0` are falsy. */
  predicate Truthy(p: Option<Param>) {
    p.Some? && match p.value
      case PStr(s) => s != ""
      case PNum(n) => n != 0
  }

  /** A truthy optional string (`periodo`, `alunoId`). */
  predicate Given(p: Option<string>) {
    p.Some? && p.value != ""
  }

  /** `String(x)`, as `toString()` and template literals render a filter value. */
  function Render(p: Param): (s: string)
    ensures p.PStr? ==> s == p.s
    ensures p.PNum? && p.n >= 0 ==> IsDigits(s)
  {
    match p
    case PStr(s) => s
    case PNum(n) => IntToString(n)
  }

  // ------------------------------------------------------------------ form encoding

  type Byte = b: int | 0 <= b < 0x100

  /** The UTF-8 encoding of one Unicode scalar value. */
  function Utf8(c: char): (bs: seq<Byte>)
    ensures 1 <= |bs| <= 4
    ensures c as int < 0x80 ==> bs == [c as int]
    ensures c as int >= 0x80 ==> forall i :: 0 <= i < |bs| ==> bs[i] >= 0x80
  {
    var cp := c as int;
    if cp < 0x80 then [cp]
    else if cp < 0x800 then [0xC0 + cp / 0x40, 0x80 + cp % 0x40]
    else if cp < 0x1_0000 then [0xE0 + cp / 0x1000, 0x80 + (cp / 0x40) % 0x40, 0x80 + cp % 0x40]
    else [0xF0 + cp / 0x4_0000, 0x80 + (cp / 0x1000) % 0x40, 0x80 + (cp / 0x40) % 0x40, 0x80 + cp % 0x40]
  }

  function Utf8String(s: string): seq<Byte> {
    if s == [] then [] else Utf8(s[0]) + Utf8String(s[1..])
  }

  /** The bytes the form serialiser writes as themselves: `*`, `-`, `.`, `_`, digits and ASCII letters. */
  predicate Unreserved(b: int) {
    b == 0x2A || b == 0x2D || b == 0x2E || b == 0x5F
    || (0x30 <= b <= 0x39) || (0x41 <= b <= 0x5A) || (0x61 <= b <= 0x7A)
  }

  /** A character that can appear in a form-encoded string. */
  predicate EncodedChar(c: char) {
    c == '+' || c == '%' || Unreserved(c as int)
  }

  function HexDigit(d: nat): (c: char)
    requires d < 16
    ensures Unreserved(c as int)
  {
    "0123456789ABCDEF"[d]
  }

  function HexValue(c: char): Option<nat> {
    if '0' <= c <= '9' then Some(c as int - '0' as int)
    else if 'A' <= c <= 'F' then Some(c as int - 'A' as int + 10)
    else None
  }

  /** One byte as the form serialiser writes it: itself, `+` for a space, or `%XY` in upper-case hex. */
  function EncodeByte(b: Byte): (r: string)
    ensures 1 <= |r| <= 3
    ensures forall i :: 0 <= i < |r| ==> EncodedChar(r[i])
    ensures Unreserved(b) ==> r == [b as char]
    ensures b == 0x20 ==> r == "+"
    ensures !Unreserved(b) && b != 0x20 ==> |r| == 3 && r[0] == '%'
  {
    if Unreserved(b) then [b as char]
    else if b == 0x20 then "+"
    else "%" + [HexDigit(b / 16), HexDigit(b % 16)]
  }

  function EncodeBytes(bs: seq<Byte>): (r: string)
    ensures forall i :: 0 <= i < |r| ==> EncodedChar(r[i])
  {
    if bs == [] then "" else EncodeByte(bs[0]) + EncodeBytes(bs[1..])
  }

  /** The form encoding of a string: every character becomes the encoding of its UTF-8 bytes. */
  function FormEncode(s: string): (r: string)
    ensures forall i :: 0 <= i < |r| ==> EncodedChar(r[i])
    ensures |r| >= |s|
  {
    if s == [] then "" else EncodeBytes(Utf8(s[0])) + FormEncode(s[1..])
  }

  /** The form decoder: the inverse of `EncodeBytes`, refusing text no encoder writes. */
  function DecodeBytes(s: string): Option<seq<Byte>>
    decreases |s|
  {
    if s == [] then Some([])
    else if s[0] == '+' then Prepend([0x20], DecodeBytes(s[1..]))
    else if s[0] == '%' then
      if |s| >= 3 && HexValue(s[1]).Some? && HexValue(s[2]).Some? && HexValue(s[1]).value < 16
        && HexValue(s[2]).value < 16
      then Prepend([16 * HexValue(s[1]).value + HexValue(s[2]).value], DecodeBytes(s[3..]))
      else None
    else if s[0] as int < 0x100 && Unreserved(s[0] as int) then Prepend([s[0] as int], DecodeBytes(s[1..]))
    else None
  }

  function Prepend(bs: seq<Byte>, o: Option<seq<Byte>>): Option<seq<Byte>> {
    if o.Some? then Some(bs + o.value) else None
  }

  lemma PrependTwice(a: seq<Byte>, b: seq<Byte>, o: Option<seq<Byte>>)
    ensures Prepend(a, Prepend(b, o)) == Prepend(a + b, o)
  {
    if o.Some? {
      assert a + (b + o.value) == (a + b) + o.value;
    }
  }

  lemma HexRoundTrip(d: nat)
    requires d < 16
    ensures HexValue(HexDigit(d)) == Some(d)
  {
  }

  /** Decoding reads one encoded byte off the front. */
  lemma DecodeByteThen(b: Byte, rest: string)
    ensures DecodeBytes(EncodeByte(b) + rest) == Prepend([b], DecodeBytes(rest))
  {
    var s := EncodeByte(b) + rest;
    if Unreserved(b) {
      assert s[0] == b as char && s[1..] == rest;
    } else if b == 0x20 {
      assert s[0] == '+' && s[1..] == rest;
    } else {
      HexRoundTrip(b / 16);
      HexRoundTrip(b % 16);
      assert s[0] == '%' && s[1] == HexDigit(b / 16) && s[2] == HexDigit(b % 16) && s[3..] == rest;
    }
  }

  lemma {:induction false} DecodeBytesThen(bs: seq<Byte>, rest: string)
    ensures DecodeBytes(EncodeBytes(bs) + rest) == Prepend(bs, DecodeBytes(rest))
    decreases |bs|
  {
    if bs != [] {
      var x := EncodeBytes(bs[1..]) + rest;
      assert EncodeBytes(bs) + rest == EncodeByte(bs[0]) + x;
      DecodeByteThen(bs[0], x);
      DecodeBytesThen(bs[1..], rest);
      PrependTwice([bs[0]], bs[1..], DecodeBytes(rest));
      assert [bs[0]] + bs[1..] == bs;
    } else {
      assert EncodeBytes(bs) + rest == rest;
      assert DecodeBytes(rest).Some? ==> bs + DecodeBytes(rest).value == DecodeBytes(rest).value;
    }
  }

  /** Form decoding inverts form encoding: the decoded bytes are the UTF-8 encoding of the original. */
  lemma {:induction false} DecodeFormEncode(s: string)
    ensures DecodeBytes(FormEncode(s)) == Some(Utf8String(s))
  {
    if s == [] {
    } else {
      DecodeBytesThen(Utf8(s[0]), FormEncode(s[1..]));
      DecodeFormEncode(s[1..]);
    }
  }

  /** A string of letters, digits and `*-._` (such as a parameter name) encodes as itself. */
  lemma {:induction false} PlainEncodesAsItself(s: string)
    requires forall i :: 0 <= i < |s| ==> s[i] as int < 0x80 && Unreserved(s[i] as int)
    ensures FormEncode(s) == s
  {
    if s != [] {
      PlainEncodesAsItself(s[1..]);
      var b: Byte := s[0] as int;
      assert Utf8(s[0]) == [b];
      assert EncodeBytes([b]) == EncodeByte(b) + EncodeBytes([]);
      assert EncodeByte(b) == [s[0]];
      assert [s[0]] + s[1..] == s;
    }
  }

  // ------------------------------------------------------------------ query strings

  /** `URLSearchParams.toString()` of the appended pairs: `name=value` joined by `&`. */
  function Serialize(pairs: seq<(string, string)>): (q: string)
    ensures q == "" <==> pairs == []
  {
    if pairs == [] then ""
    else
      var q := FormEncode(pairs[0].0) + "=" + FormEncode(pairs[0].1);
      if |pairs| == 1 then q else q + "&" + Serialize(pairs[1..])
  }

  /** The pairs as they stand in a serialised query, each side form-encoded. */
  function Encoded(pairs: seq<(string, string)>): (r: seq<(string, string)>)
    ensures |r| == |pairs|
  {
    seq(|pairs|, i requires 0 <= i < |pairs| => (FormEncode(pairs[i].0), FormEncode(pairs[i].1)))
  }

  /** A query split at `&`, each piece split at its first `=`. */
  function ParseQuery(q: string): seq<(string, string)> {
    if q == "" then []
    else
      var pieces := Split(q, '&');
      seq(|pieces|, i requires 0 <= i < |pieces| => ParsePair(pieces[i]))
  }

  function ParsePair(piece: string): (string, string) {
    var name := Before(piece, '=');
    (name, if |name| < |piece| then piece[|name| + 1..] else "")
  }

  /** The pieces `Serialize` joins with `&`. */
  function Pieces(pairs: seq<(string, string)>): (r: seq<string>)
    ensures |r| == |pairs|
    ensures forall i :: 0 <= i < |r| ==> r[i] == FormEncode(pairs[i].0) + "=" + FormEncode(pairs[i].1)
  {
    seq(|pairs|, i requires 0 <= i < |pairs| => FormEncode(pairs[i].0) + "=" + FormEncode(pairs[i].1))
  }

  lemma {:induction false} SerializeIsJoin(pairs: seq<(string, string)>)
    requires pairs != []
    ensures Serialize(pairs) == Join(Pieces(pairs), '&')
    decreases |pairs|
  {
    if |pairs| > 1 {
      SerializeIsJoin(pairs[1..]);
      assert Pieces(pairs)[1..] == Pieces(pairs[1..]);
    }
  }

  /** Neither `=` nor `&` nor `?` can appear in a form-encoded string. */
  lemma NotInEncoding(s: string, c: char)
    requires !EncodedChar(c)
    ensures c !in FormEncode(s)
  {
    var e := FormEncode(s);
    forall i | 0 <= i < |e| ensures e[i] != c {
      assert EncodedChar(e[i]);
    }
  }

  /** A pair written as `name=value` splits back at its first `=`. */
  lemma PairRoundTrip(k: string, v: string)
    ensures ParsePair(FormEncode(k) + "=" + FormEncode(v)) == (FormEncode(k), FormEncode(v))
  {
    var ek, ev := FormEncode(k), FormEncode(v);
    var piece := ek + "=" + ev;
    NotInEncoding(k, '=');
    assert piece[..|ek|] == ek && piece[|ek|] == '=';
    BeforeFirst(piece, ek, '=');
    assert piece[|ek| + 1..] == ev;
  }

  /** Parsing a serialised query gives back every pair, in order, form-encoded. */
  lemma {:induction false} ParseSerialize(pairs: seq<(string, string)>)
    ensures ParseQuery(Serialize(pairs)) == Encoded(pairs)
  {
    if pairs != [] {
      var pieces := Pieces(pairs);
      SerializeIsJoin(pairs);
      forall i | 0 <= i < |pieces| ensures '&' !in pieces[i] {
        var p := pieces[i];
        forall j | 0 <= j < |p| ensures p[j] != '&' {
          var ek := FormEncode(pairs[i].0);
          if j < |ek| {
            assert EncodedChar(ek[j]);
          } else if j > |ek| {
            assert p[j] == FormEncode(pairs[i].1)[j - |ek| - 1];
            assert EncodedChar(FormEncode(pairs[i].1)[j - |ek| - 1]);
          }
        }
      }
      SplitJoin(pieces, '&');
      forall i | 0 <= i < |pairs| ensures ParseQuery(Serialize(pairs))[i] == Encoded(pairs)[i] {
        PairRoundTrip(pairs[i].0, pairs[i].1);
      }
    }
  }

  /** Every name and value of a serialised query decodes to the UTF-8 bytes of what was appended. */
  lemma QueryRoundTrip(pairs: seq<(string, string)>)
    ensures |ParseQuery(Serialize(pairs))| == |pairs|
    ensures forall i :: 0 <= i < |pairs| ==>
      DecodeBytes(ParseQuery(Serialize(pairs))[i].0) == Some(Utf8String(pairs[i].0))
      && DecodeBytes(ParseQuery(Serialize(pairs))[i].1) == Some(Utf8String(pairs[i].1))
  {
    ParseSerialize(pairs);
    forall i | 0 <= i < |pairs|
      ensures DecodeBytes(Encoded(pairs)[i].0) == Some(Utf8String(pairs[i].0))
      ensures DecodeBytes(Encoded(pairs)[i].1) == Some(Utf8String(pairs[i].1))
    {
      DecodeFormEncode(pairs[i].0);
      DecodeFormEncode(pairs[i].1);
    }
  }

  // ------------------------------------------------------------------ URLs

  /** The text after the first `?`, or nothing when the URL has none. */
  function QueryOf(url: string): string {
    var path := Before(url, '?');
    if |path| < |url| then url[|path| + 1..] else ""
  }

  /** A prefix free of `sep` that `sep` follows is the text before the first `sep`. */
  lemma BeforeFirst(s: string, p: string, sep: char)
    requires sep !in p && |p| < |s| && s[..|p|] == p && s[|p|] == sep
    ensures Before(s, sep) == p
  {
    var b := Before(s, sep);
    assert forall i :: 0 <= i < |p| ==> s[i] == p[i];
  }

  /** A URL of a path without `?` and a query splits back into the two. */
  lemma PathAndQuery(path: string, q: string)
    requires '?' !in path
    ensures Before(path + "?" + q, '?') == path
    ensures QueryOf(path + "?" + q) == q
    ensures '?' in path + "?" + q
  {
    var url := path + "?" + q;
    assert url[|path|] == '?';
    BeforeFirst(url, path, '?');
    assert url[|path| + 1..] == q;
  }

  lemma BarePath(path: string)
    requires '?' !in path
    ensures Before(path, '?') == path && QueryOf(path) == ""
  {
  }

  /** A path and a serialised query joined by `?` parse back into the path and the encoded pairs. */
  lemma QueryUrl(path: string, pairs: seq<(string, string)>)
    requires '?' !in path
    ensures var url := path + "?" + Serialize(pairs);
      Before(url, '?') == path && '?' in url && ParseQuery(QueryOf(url)) == Encoded(pairs)
  {
    PathAndQuery(path, Serialize(pairs));
    ParseSerialize(pairs);
  }

  /** The filters `alunoAPI.list` appends: `personal` before `academia`, each only when truthy. */
  function StudentFilters(personal: Option<Param>, academia: Option<Param>): (r: seq<(string, string)>)
    ensures |r| == (if Truthy(personal) then 1 else 0) + (if Truthy(academia) then 1 else 0)
    ensures Truthy(personal) ==> r[0] == ("personal", Render(personal.value))
    ensures Truthy(academia) ==> r[|r| - 1] == ("academia", Render(academia.value))
  {
    (if Truthy(personal) then [("personal", Render(personal.value))] else [])
    + (if Truthy(academia) then [("academia", Render(academia.value))] else [])
  }

  /**
   * `alunoAPI.list`: the bare path without filters; otherwise `?` and the serialised filters,
   * which parse back to exactly the truthy filters in order.
   */
  method StudentList(personal: Option<Param>, academia: Option<Param>) returns (url: string)
    ensures Before(url, '?') == "/alunos/"
    ensures '?' in url <==> Truthy(personal) || Truthy(academia)
    ensures ParseQuery(QueryOf(url)) == Encoded(StudentFilters(personal, academia))
  {
    url := "/alunos/";
    var searchParams: seq<(string, string)> := [];
    if Truthy(personal) {
      searchParams := searchParams + [("personal", Render(personal.value))];
    }
    if Truthy(academia) {
      searchParams := searchParams + [("academia", Render(academia.value))];
    }
    assert searchParams == StudentFilters(personal, academia);
    var query := Serialize(searchParams);
    if query != "" {
      QueryUrl(url, searchParams);
      url := url + "?" + query;
    } else {
      BarePath(url);
    }
  }

  /** `${path}?${name}=${value}` when the value is truthy, the bare path otherwise; the value is not encoded. */
  function FilteredPath(path: string, name: string, value: Option<Param>): (url: string)
    requires '?' !in path
    ensures Before(url, '?') == path
    ensures '?' in url <==> Truthy(value)
    ensures QueryOf(url) == if Truthy(value) then name + "=" + Render(value.value) else ""
  {
    if Truthy(value) then
      var q := name + "=" + Render(value.value);
      PathAndQuery(path, q);
      path + "?" + q
    else
      BarePath(path);
      path
  }

  /** `treinoAPI.list`: `?aluno=` only for a truthy student. */
  function WorkoutList(aluno: Option<Param>): (url: string)
    ensures Before(url, '?') == "/treinos/"
    ensures QueryOf(url) == if Truthy(aluno) then "aluno=" + Render(aluno.value) else ""
  {
    FilteredPath("/treinos/", "aluno", aluno)
  }

  /** `personalAPI.list`: `?academia=` only for a truthy gym. */
  function TrainerList(academia: Option<Param>): (url: string)
    ensures Before(url, '?') == "/personais/"
    ensures QueryOf(url) == if Truthy(academia) then "academia=" + Render(academia.value) else ""
  {
    FilteredPath("/personais/", "academia", academia)
  }

  function AsParam(p: Option<string>): (r: Option<Param>)
    ensures Truthy(r) <==> Given(p)
  {
    if p.Some? then Some(PStr(p.value)) else None
  }

  /** `getAlunoReport`: `?periodo=X` exactly when a period is given. */
  function StudentReport(periodo: Option<string>): (url: string)
    ensures Before(url, '?') == "/relatorios/aluno/"
    ensures QueryOf(url) == if Given(periodo) then "periodo=" + periodo.value else ""
  {
    FilteredPath("/relatorios/aluno/", "periodo", AsParam(periodo))
  }

  /** `getAcademiaReport`: `?periodo=X` exactly when a period is given. */
  function GymReport(periodo: Option<string>): (url: string)
    ensures Before(url, '?') == "/relatorios/academia/"
    ensures QueryOf(url) == if Given(periodo) then "periodo=" + periodo.value else ""
  {
    FilteredPath("/relatorios/academia/", "periodo", AsParam(periodo))
  }

  /** `getAdminReport`: `?periodo=X` exactly when a period is given. */
  function AdminReport(periodo: Option<string>): (url: string)
    ensures Before(url, '?') == "/relatorios/admin/"
    ensures QueryOf(url) == if Given(periodo) then "periodo=" + periodo.value else ""
  {
    FilteredPath("/relatorios/admin/", "periodo", AsParam(periodo))
  }

  /** `alunoId && alunoId !== 'todos'`: a student to filter by, rather than all of them. */
  predicate SendsStudent(alunoId: Option<string>) {
    Given(alunoId) && alunoId.value != "todos"
  }

  /** The filters `getPersonalReport` appends: `aluno_id` never for an absent, empty or `'todos'` student. */
  function TrainerReportFilters(periodo: Option<string>, alunoId: Option<string>): (r: seq<(string, string)>)
    ensures |r| == (if Given(periodo) then 1 else 0) + (if SendsStudent(alunoId) then 1 else 0)
    ensures Given(periodo) ==> r[0] == ("periodo", periodo.value)
    ensures !Given(periodo) ==> forall i :: 0 <= i < |r| ==> r[i].0 != "periodo"
    ensures SendsStudent(alunoId) ==> r[|r| - 1] == ("aluno_id", alunoId.value)
    ensures !(SendsStudent(alunoId)) ==> forall i :: 0 <= i < |r| ==> r[i].0 != "aluno_id"
  {
    (if Given(periodo) then [("periodo", periodo.value)] else [])
    + (if SendsStudent(alunoId) then [("aluno_id", alunoId.value)] else [])
  }

  /** `getPersonalReport`: always `?`, followed by the serialised filters. */
  method TrainerReport(periodo: Option<string>, alunoId: Option<string>) returns (url: string)
    ensures Before(url, '?') == "/relatorios/personal/" && '?' in url
    ensures ParseQuery(QueryOf(url)) == Encoded(TrainerReportFilters(periodo, alunoId))
  {
    var params: seq<(string, string)> := [];
    if Given(periodo) {
      params := params + [("periodo", periodo.value)];
    }
    if SendsStudent(alunoId) {
      params := params + [("aluno_id", alunoId.value)];
    }
    assert params == TrainerReportFilters(periodo, alunoId);
    assert '?' !in "/relatorios/personal/";
    url := "/relatorios/personal/" + "?" + Serialize(params);
    QueryUrl("/relatorios/personal/", params);
  }
}
