/**
 * String helpers the system relies on: decimal rendering of integers (Python `str`, JS template
 * literals), `f"{n:06d}"` zero padding, `str.split`, JS `String.prototype.trim`, and the
 * lexicographic order a database `ORDER BY` on a text column uses.
 */
module Text {
  import opened Wrappers

  function Digit(d: nat): (c: char)
    requires d < 10
    ensures '0' <= c <= '9'
  {
    "0123456789"[d]
  }

  predicate IsDigits(s: string) {
    forall i :: 0 <= i < |s| ==> '0' <= s[i] <= '9'
  }

  /** Decimal rendering of a natural number, without leading zeros. */
  function NatToString(n: nat): (s: string)
    ensures |s| >= 1 && IsDigits(s)
    ensures n >= 10 <==> |s| >= 2
    decreases n
  {
    if n < 10 then [Digit(n)] else NatToString(n / 10) + [Digit(n % 10)]
  }

  function Pow10(k: nat): (p: nat)
    ensures p >= 1
  {
    if k == 0 then 1 else 10 * Pow10(k - 1)
  }

  /** A number below 10^k renders with at most k digits. */
  lemma {:induction false} ShortRendering(n: nat, k: nat)
    requires 1 <= k && n < Pow10(k)
    ensures |NatToString(n)| <= k
    decreases k
  {
    if n >= 10 {
      ShortRendering(n / 10, k - 1);
    }
  }

  /** A number from 10^k on needs more than k digits. */
  lemma {:induction false} LongRendering(n: nat, k: nat)
    requires n >= Pow10(k)
    ensures |NatToString(n)| > k
    decreases k
  {
    if k > 0 {
      LongRendering(n / 10, k - 1);
    }
  }

  lemma DigitInjective(a: nat, b: nat)
    requires a < 10 && b < 10 && Digit(a) == Digit(b)
    ensures a == b
  {
  }

  /** Distinct numbers have distinct renderings, so `base + str(k)` names a new string for every k. */
  lemma {:induction false} NatToStringInjective(a: nat, b: nat)
    requires NatToString(a) == NatToString(b)
    ensures a == b
    decreases a
  {
    var sa, sb := NatToString(a), NatToString(b);
    if a < 10 && b < 10 {
      DigitInjective(a, b);
    } else if a >= 10 && b >= 10 {
      assert sa[..|sa| - 1] == NatToString(a / 10);
      assert sb[..|sb| - 1] == NatToString(b / 10);
      NatToStringInjective(a / 10, b / 10);
      assert sa[|sa| - 1] == Digit(a % 10) && sb[|sb| - 1] == Digit(b % 10);
      DigitInjective(a % 10, b % 10);
    }
  }

  /** The number a string of decimal digits denotes (the empty string denotes 0). */
  function DigitsValue(s: string): nat
    requires IsDigits(s)
  {
    if s == [] then 0 else 10 * DigitsValue(s[..|s| - 1]) + (s[|s| - 1] as int - '0' as int)
  }

  /** Reading a rendering back gives the number. */
  lemma {:induction false} ValueOfNatToString(n: nat)
    ensures DigitsValue(NatToString(n)) == n
    decreases n
  {
    var s := NatToString(n);
    if n >= 10 {
      ValueOfNatToString(n / 10);
      assert s[..|s| - 1] == NatToString(n / 10);
    }
    assert s[|s| - 1] as int - '0' as int == n % 10 by { DigitValue(n % 10); }
  }

  lemma DigitValue(d: nat)
    requires d < 10
    ensures Digit(d) as int - '0' as int == d
  {
  }

  /** The number of decimal digits `s` starts with. */
  function DigitRun(s: string): (n: nat)
    ensures n <= |s| && IsDigits(s[..n])
    ensures n < |s| ==> !('0' <= s[n] <= '9')
  {
    if s != [] && '0' <= s[0] <= '9' then
      var n := DigitRun(s[1..]) + 1;
      assert s[..n] == [s[0]] + s[1..][..n - 1];
      n
    else 0
  }

  /** The digit run of digits followed by a non-digit (or nothing) is exactly those digits. */
  lemma {:induction false} DigitRunOf(d: string, t: string)
    requires IsDigits(d) && (t == [] || !('0' <= t[0] <= '9'))
    ensures DigitRun(d + t) == |d|
  {
    if d != [] {
      assert (d + t)[1..] == d[1..] + t;
      DigitRunOf(d[1..], t);
    } else {
      assert d + t == t;
    }
  }

  /** Python `str(n)` for any integer. */
  function IntToString(n: int): (s: string)
    ensures |s| >= 1
    ensures n >= 0 ==> s == NatToString(n)
    ensures n < 0 ==> s == "-" + NatToString(-n)
  {
    if n < 0 then "-" + NatToString(-n) else NatToString(n)
  }

  /** Python `format(n, "0{width}d")` of the rendering `s`: left-padded with zeros, never cut. */
  function ZeroPad(s: string, width: nat): (r: string)
    ensures |r| == if |s| >= width then |s| else width
    ensures r[|r| - |s|..] == s
    ensures forall i :: 0 <= i < |r| - |s| ==> r[i] == '0'
  {
    var zeros := if |s| >= width then 0 else width - |s|;
    seq(zeros, _ => '0') + s
  }

  /** Python `s.split(sep)` for a one-character separator: always at least one piece. */
  function Split(s: string, sep: char): (parts: seq<string>)
    ensures |parts| >= 1
    ensures forall i :: 0 <= i < |parts| ==> sep !in parts[i]
  {
    if s == [] then [""]
    else if s[0] == sep then [""] + Split(s[1..], sep)
    else
      var rest := Split(s[1..], sep);
      [[s[0]] + rest[0]] + rest[1..]
  }

  /** `sep.join(parts)`. */
  function Join(parts: seq<string>, sep: char): string
    requires |parts| >= 1
  {
    if |parts| == 1 then parts[0] else parts[0] + [sep] + Join(parts[1..], sep)
  }

  /** Joining the pieces of a split gives the original string back. */
  lemma {:induction false} JoinSplit(s: string, sep: char)
    ensures Join(Split(s, sep), sep) == s
  {
    if s == [] {
    } else if s[0] == sep {
      JoinSplit(s[1..], sep);
      assert Split(s, sep)[1..] == Split(s[1..], sep);
    } else {
      JoinSplit(s[1..], sep);
      var rest := Split(s[1..], sep);
      var parts := Split(s, sep);
      assert parts[1..] == rest[1..];
      if |rest| == 1 {
        assert parts == [[s[0]] + rest[0]];
      } else {
        assert Join(rest, sep) == rest[0] + [sep] + Join(rest[1..], sep);
        assert Join(parts, sep) == [s[0]] + rest[0] + [sep] + Join(rest[1..], sep);
      }
    }
  }

  /** Splitting a join of separator-free pieces gives the pieces back. */
  lemma {:induction false} SplitJoin(parts: seq<string>, sep: char)
    requires |parts| >= 1
    requires forall i :: 0 <= i < |parts| ==> sep !in parts[i]
    ensures Split(Join(parts, sep), sep) == parts
    decreases |parts|, |parts[0]|
  {
    var p := parts[0];
    if p == [] {
      if |parts| > 1 {
        SplitJoin(parts[1..], sep);
        assert Join(parts, sep) == [sep] + Join(parts[1..], sep);
        assert [""] + parts[1..] == parts;
      }
    } else {
      var tail := [p[1..]] + parts[1..];
      assert sep !in tail[0];
      forall i | 0 <= i < |tail| ensures sep !in tail[i] {
        if i > 0 { assert tail[i] == parts[i]; }
      }
      SplitJoin(tail, sep);
      var s := Join(parts, sep);
      if |parts| == 1 {
        assert s == p && s[1..] == Join(tail, sep);
      } else {
        assert s == p + [sep] + Join(parts[1..], sep);
        assert Join(tail, sep) == p[1..] + [sep] + Join(parts[1..], sep);
        assert s[1..] == Join(tail, sep);
      }
      assert s[0] == p[0] && p[0] != sep;
      assert [p[0]] + p[1..] == p;
      assert [p] + tail[1..] == parts;
    }
  }

  /** The text before the first `sep`: Python `s.split(sep)[0]`. */
  function Before(s: string, sep: char): (r: string)
    ensures sep !in r
    ensures r <= s
    ensures |r| < |s| ==> s[|r|] == sep
  {
    JoinSplit(s, sep);
    var parts := Split(s, sep);
    assert |parts| > 1 ==> Join(parts, sep) == parts[0] + [sep] + Join(parts[1..], sep);
    parts[0]
  }

  /** Whose notion of white space a trim uses: Python's `str.isspace` or ECMAScript's `trim`. */
  datatype Blanks = PyBlanks | JsBlanks

  /**
   * The white space both languages strip: tab, the line breaks, vertical tab and form feed, the
   * space separators of Unicode (category Zs) and the line and paragraph separators.
   */
  predicate SharedSpace(c: char) {
    || c == '\t' || c == '\n' || c == '\U{B}' || c == '\U{C}' || c == '\r' || c == ' '
    || c == '\U{A0}' || c == '\U{1680}' || '\U{2000}' <= c <= '\U{200A}'
    || c == '\U{2028}' || c == '\U{2029}' || c == '\U{202F}' || c == '\U{205F}' || c == '\U{3000}'
  }

  /**
   * Python also counts the information separators U+001C..U+001F and NEL (U+0085) as white space;
   * ECMAScript also strips the byte-order mark U+FEFF.
   */
  predicate IsSpace(c: char, b: Blanks) {
    SharedSpace(c) || (if b == PyBlanks then '\U{1C}' <= c <= '\U{1F}' || c == '\U{85}' else c == '\U{FEFF}')
  }

  predicate AllSpace(s: string, b: Blanks) {
    forall i :: 0 <= i < |s| ==> IsSpace(s[i], b)
  }

  /** The number of white-space characters `s` starts with. */
  function LeadingSpace(s: string, b: Blanks): (n: nat)
    ensures n <= |s| && forall i :: 0 <= i < n ==> IsSpace(s[i], b)
    ensures n < |s| ==> !IsSpace(s[n], b)
  {
    if s != [] && IsSpace(s[0], b) then LeadingSpace(s[1..], b) + 1 else 0
  }

  /** The number of white-space characters `s` ends with. */
  function TrailingSpace(s: string, b: Blanks): (n: nat)
    ensures n <= |s| && forall i :: |s| - n <= i < |s| ==> IsSpace(s[i], b)
    ensures n < |s| ==> !IsSpace(s[|s| - n - 1], b)
  {
    if s != [] && IsSpace(s[|s| - 1], b) then TrailingSpace(s[..|s| - 1], b) + 1 else 0
  }

  /**
   * Python `str.strip()` (`PyBlanks`) and JS `trim()` (`JsBlanks`): what lies between the leading
   * and the trailing white space; nothing is left exactly when the text is all white space.
   */
  function Trim(s: string, b: Blanks): (r: string)
    ensures r == [] || (!IsSpace(r[0], b) && !IsSpace(r[|r| - 1], b))
    ensures r == [] <==> AllSpace(s, b)
    ensures !AllSpace(s, b) ==> r == s[LeadingSpace(s, b)..|s| - TrailingSpace(s, b)]
  {
    var i := LeadingSpace(s, b);
    if i == |s| then []
    else
      var j := |s| - TrailingSpace(s, b);
      s[i..j]
  }

  // ---------------------------------------------------------------- Python int()

  /**
   * Digit groups joined by single underscores, as `int()` reads them: "7", "007", "1_000". Digits
   * at both ends and no two underscores in a row.
   */
  predicate DigitGroups(t: string) {
    && t != [] && '0' <= t[0] <= '9' && '0' <= t[|t| - 1] <= '9'
    && (forall i :: 0 <= i < |t| ==> '0' <= t[i] <= '9' || t[i] == '_')
    && (forall i :: 0 < i < |t| ==> !DoubleUnderscore(t, i))
  }

  /** Underscores at `i - 1` and `i`. */
  predicate DoubleUnderscore(t: string, i: nat)
    requires 0 < i < |t|
  {
    t[i - 1] == '_' && t[i] == '_'
  }

  /** The digits of digit groups, the underscores dropped. */
  function Ungrouped(t: string): (d: string)
    ensures (forall i :: 0 <= i < |t| ==> '0' <= t[i] <= '9' || t[i] == '_') ==> IsDigits(d)
    ensures IsDigits(t) ==> d == t
  {
    if t == [] then []
    else
      assert t == [t[0]] + t[1..];
      (if t[0] == '_' then [] else [t[0]]) + Ungrouped(t[1..])
  }

  /** The value of digit groups. */
  function GroupedValue(t: string): (n: nat)
    requires DigitGroups(t)
    ensures IsDigits(t) ==> n == DigitsValue(t)
  {
    DigitsValue(Ungrouped(t))
  }

  /** A trimmed number: an optional sign, then digit groups. */
  function SignedValue(core: string): (r: Option<int>)
    ensures r.Some? ==> core != []
  {
    if core == [] then None
    else
      var signed := core[0] == '-' || core[0] == '+';
      var body := if signed then core[1..] else core;
      if !DigitGroups(body) then None
      else
        var v: int := GroupedValue(body);
        Some(if core[0] == '-' then -v else v)
  }

  /**
   * Python `int(s)` on a string, in base 10: optional white space, an optional sign, digit groups,
   * optional white space. `None` where Python raises `ValueError`.
   */
  function PyInt(s: string): (r: Option<int>)
    ensures AllSpace(s, PyBlanks) ==> r.None?
  {
    SignedValue(Trim(s, PyBlanks))
  }

  /** The characters `int()` may meet in a number it accepts. */
  predicate NumberChar(c: char) {
    '0' <= c <= '9' || c == '+' || c == '-' || c == '_' || IsSpace(c, PyBlanks)
  }

  /** Any other character anywhere in the text makes `int()` raise. */
  lemma PyIntRejects(s: string, k: nat)
    requires k < |s| && !NumberChar(s[k])
    ensures PyInt(s).None?
  {
    if !AllSpace(s, PyBlanks) {
      var i, m := LeadingSpace(s, PyBlanks), TrailingSpace(s, PyBlanks);
      var core := Trim(s, PyBlanks);
      assert i <= k < |s| - m;
      assert core[k - i] == s[k];
      SignedRejects(core, k - i);
    }
  }

  lemma SignedRejects(core: string, k: nat)
    requires k < |core| && !('0' <= core[k] <= '9' || core[k] == '+' || core[k] == '-' || core[k] == '_')
    ensures SignedValue(core).None?
  {
    var off := if core[0] == '-' || core[0] == '+' then 1 else 0;
    assert k >= off;
    var body := core[off..];
    assert body[k - off] == core[k];
    assert !DigitGroups(body);
  }

  /** A text with no white space at either end is its own trim. */
  lemma TrimUnpadded(s: string, b: Blanks)
    requires s != [] && !IsSpace(s[0], b) && !IsSpace(s[|s| - 1], b)
    ensures Trim(s, b) == s
  {
    assert !AllSpace(s, b);
    assert LeadingSpace(s, b) == 0 && TrailingSpace(s, b) == 0;
  }

  /** Plain digits read as their value. */
  lemma SignedPlain(d: string)
    requires d != [] && IsDigits(d)
    ensures SignedValue(d) == Some(DigitsValue(d))
  {
    DigitsAreGroups(d);
    assert d[0] != '-' && d[0] != '+';
  }

  /** A minus sign before digit groups negates their value. */
  lemma NegativeGroups(core: string)
    requires core != [] && core[0] == '-' && DigitGroups(core[1..])
    ensures SignedValue(core) == Some(-(GroupedValue(core[1..]) as int))
  {
  }

  /** Plain digits are a single digit group. */
  lemma DigitsAreGroups(d: string)
    requires d != [] && IsDigits(d)
    ensures DigitGroups(d) && GroupedValue(d) == DigitsValue(d)
  {
  }

  /** A minus sign before digits negates their value. */
  lemma SignedNegative(d: string)
    requires d != [] && IsDigits(d)
    ensures SignedValue(['-'] + d) == Some(-(DigitsValue(d) as int))
  {
    var core := ['-'] + d;
    assert core[0] == '-' && core[1..] == d;
    DigitsAreGroups(d);
    NegativeGroups(core);
  }

  /** `int(str(n)) == n`: reading a rendering back gives the number, for either sign. */
  lemma PyIntReadsRendering(n: int)
    ensures PyInt(IntToString(n)) == Some(n)
  {
    var d := NatToString(if n < 0 then -n else n);
    ValueOfNatToString(if n < 0 then -n else n);
    var s := IntToString(n);
    assert s[|s| - 1] == d[|d| - 1];
    if n < 0 {
      TrimUnpadded(s, PyBlanks);
      SignedNegative(d);
    } else {
      DigitsNumber(d);
    }
  }

  /** Leading zeros change nothing: `int("007") == 7`, so `f"{n:06d}"` also reads back. */
  lemma PyIntLeadingZeros(n: nat, width: nat)
    ensures PyInt(ZeroPad(NatToString(n), width)) == Some(n)
  {
    PaddedDigits(NatToString(n), width);
    DigitsNumber(ZeroPad(NatToString(n), width));
    ValueOfNatToString(n);
  }

  /** Digits read as their value. */
  lemma DigitsNumber(s: string)
    requires s != [] && IsDigits(s)
    ensures PyInt(s) == Some(DigitsValue(s))
  {
    TrimUnpadded(s, PyBlanks);
    SignedPlain(s);
  }

  /** Zero padding keeps digits digits and keeps their value. */
  lemma PaddedDigits(d: string, width: nat)
    requires d != [] && IsDigits(d)
    ensures var s := ZeroPad(d, width); s != [] && IsDigits(s) && DigitsValue(s) == DigitsValue(d)
  {
    var s := ZeroPad(d, width);
    var z := |s| - |d|;
    assert s == s[..z] + d;
    ZerosAddNothing(s[..z], d);
  }

  /** Zeros in front of digits do not change their value. */
  lemma {:induction false} ZerosAddNothing(z: string, d: string)
    requires (forall i :: 0 <= i < |z| ==> z[i] == '0') && IsDigits(d)
    ensures IsDigits(z + d) && DigitsValue(z + d) == DigitsValue(d)
    decreases |d|
  {
    if d == [] {
      assert z + d == z;
      ZerosValue(z);
    } else {
      assert (z + d)[..|z + d| - 1] == z + d[..|d| - 1];
      ZerosAddNothing(z, d[..|d| - 1]);
    }
  }

  lemma {:induction false} ZerosValue(z: string)
    requires forall i :: 0 <= i < |z| ==> z[i] == '0'
    ensures IsDigits(z) && DigitsValue(z) == 0
  {
    if z != [] {
      ZerosValue(z[..|z| - 1]);
    }
  }

  /** White space around the number changes nothing: `int(" 7 ") == int("7")`. */
  lemma PyIntIgnoresBlanks(pre: string, s: string, post: string)
    requires AllSpace(pre, PyBlanks) && AllSpace(post, PyBlanks)
    ensures PyInt(pre + s + post) == PyInt(s)
  {
    TrimIgnoresBlanks(pre, s, post, PyBlanks);
  }

  /** Trimming ignores white space added on either side. */
  lemma TrimIgnoresBlanks(pre: string, s: string, post: string, b: Blanks)
    requires AllSpace(pre, b) && AllSpace(post, b)
    ensures Trim(pre + s + post, b) == Trim(s, b)
  {
    if AllSpace(s, b) {
      BlankJoin(pre, s, b);
      BlankJoin(pre + s, post, b);
    } else {
      TrimPadded(pre, s, post, b);
    }
  }

  /** Two blank texts make a blank text. */
  lemma BlankJoin(a: string, c: string, b: Blanks)
    requires AllSpace(a, b) && AllSpace(c, b)
    ensures AllSpace(a + c, b)
  {
    forall i | 0 <= i < |a + c| ensures IsSpace((a + c)[i], b) {
      if i >= |a| { assert (a + c)[i] == c[i - |a|]; }
    }
  }

  lemma TrimPadded(pre: string, s: string, post: string, b: Blanks)
    requires AllSpace(pre, b) && AllSpace(post, b) && !AllSpace(s, b)
    ensures Trim(pre + s + post, b) == Trim(s, b)
  {
    TrimFront(pre, s, b);
    NotBlankAfter(pre, s, b);
    TrimBack(pre + s, post, b);
  }

  /** Blanks in front of a text that is not all blank do not change its trim. */
  lemma TrimFront(a: string, x: string, b: Blanks)
    requires AllSpace(a, b) && !AllSpace(x, b)
    ensures Trim(a + x, b) == Trim(x, b)
  {
    var w, i, j := a + x, LeadingSpace(x, b), |x| - TrailingSpace(x, b);
    LeadingOf(a, x, b);
    TrailingOf(a, x, b);
    NotBlankAfter(a, x, b);
    SpaceCounts(x, b);
    var lo, hi := |a| + i, |a| + j;
    FrontSlice(a, x, i, j, lo, hi);
    TrimSlice(w, x, b, lo, hi, i, j);
  }

  /** Blanks after a text that is not all blank do not change its trim. */
  lemma TrimBack(x: string, c: string, b: Blanks)
    requires AllSpace(c, b) && !AllSpace(x, b)
    ensures Trim(x + c, b) == Trim(x, b)
  {
    var w, i, j := x + c, LeadingSpace(x, b), |x| - TrailingSpace(x, b);
    LeadingOf(x, c, b);
    TrailingOf(x, c, b);
    NotBlankBefore(x, c, b);
    SpaceCounts(x, b);
    BackSlice(x, c, i, j);
    TrimSlice(w, x, b, i, j, i, j);
  }

  /** Text that is not all blank has fewer blanks at its two ends than characters. */
  lemma SpaceCounts(s: string, b: Blanks)
    requires !AllSpace(s, b)
    ensures LeadingSpace(s, b) + TrailingSpace(s, b) < |s|
  {
  }

  /** Two texts trim alike when the parts between their blank ends are equal. */
  lemma TrimSlice(w: string, s: string, b: Blanks, lo: nat, hi: nat, i: nat, j: nat)
    requires !AllSpace(w, b) && !AllSpace(s, b)
    requires LeadingSpace(w, b) == lo && |w| - TrailingSpace(w, b) == hi
    requires LeadingSpace(s, b) == i && |s| - TrailingSpace(s, b) == j
    requires lo <= hi <= |w| && i <= j <= |s| && w[lo..hi] == s[i..j]
    ensures Trim(w, b) == Trim(s, b)
  {
  }

  lemma FrontSlice(a: string, x: string, i: nat, j: nat, lo: nat, hi: nat)
    requires i <= j <= |x| && lo == |a| + i && hi == |a| + j
    ensures (a + x)[lo..hi] == x[i..j]
  {
  }

  lemma BackSlice(x: string, c: string, i: nat, j: nat)
    requires i <= j <= |x|
    ensures (x + c)[i..j] == x[i..j]
  {
  }

  lemma NotBlankAfter(a: string, x: string, b: Blanks)
    requires !AllSpace(x, b)
    ensures !AllSpace(a + x, b)
  {
    var k :| 0 <= k < |x| && !IsSpace(x[k], b);
    assert (a + x)[|a| + k] == x[k];
  }

  lemma NotBlankBefore(x: string, c: string, b: Blanks)
    requires !AllSpace(x, b)
    ensures !AllSpace(x + c, b)
  {
    var k :| 0 <= k < |x| && !IsSpace(x[k], b);
    assert (x + c)[k] == x[k];
  }

  /** Leading white space of `a + c` where `a` holds some non-blank: that of `a`; or, when `a` is all blank, `|a|` more than that of `c`. */
  lemma {:induction false} LeadingOf(a: string, c: string, b: Blanks)
    ensures !AllSpace(a, b) ==> LeadingSpace(a + c, b) == LeadingSpace(a, b)
    ensures AllSpace(a, b) ==> LeadingSpace(a + c, b) == |a| + LeadingSpace(c, b)
  {
    if a != [] {
      assert (a + c)[1..] == a[1..] + c;
      LeadingOf(a[1..], c, b);
      if !AllSpace(a, b) && IsSpace(a[0], b) {
        assert !AllSpace(a[1..], b) by {
          var k :| 0 <= k < |a| && !IsSpace(a[k], b);
          assert a[1..][k - 1] == a[k];
        }
      }
    } else {
      assert a + c == c;
    }
  }

  /** Trailing white space of `a + c`, symmetric to `LeadingOf`. */
  lemma {:induction false} TrailingOf(a: string, c: string, b: Blanks)
    ensures !AllSpace(c, b) ==> TrailingSpace(a + c, b) == TrailingSpace(c, b)
    ensures AllSpace(c, b) ==> TrailingSpace(a + c, b) == |c| + TrailingSpace(a, b)
  {
    if c == [] {
      assert a + c == a;
    } else if IsSpace(c[|c| - 1], b) {
      var d := c[..|c| - 1];
      LastBlank(a, c, b);
      TrailingOf(a, d, b);
      BlankDropLast(c, b);
    } else {
      assert (a + c)[|a + c| - 1] == c[|c| - 1];
    }
  }

  /** Dropping a blank last character of `a + c` drops it from `c`. */
  lemma LastBlank(a: string, c: string, b: Blanks)
    requires c != [] && IsSpace(c[|c| - 1], b)
    ensures TrailingSpace(a + c, b) == TrailingSpace(a + c[..|c| - 1], b) + 1
    ensures TrailingSpace(c, b) == TrailingSpace(c[..|c| - 1], b) + 1
  {
    var w := a + c;
    assert w[|w| - 1] == c[|c| - 1];
    assert w[..|w| - 1] == a + c[..|c| - 1];
    DropBlank(w, b);
    DropBlank(c, b);
  }

  lemma DropBlank(w: string, b: Blanks)
    requires w != [] && IsSpace(w[|w| - 1], b)
    ensures TrailingSpace(w, b) == TrailingSpace(w[..|w| - 1], b) + 1
  {
  }

  /** A text ending in a blank is all blank exactly when the rest of it is. */
  lemma BlankDropLast(c: string, b: Blanks)
    requires c != [] && IsSpace(c[|c| - 1], b)
    ensures AllSpace(c, b) <==> AllSpace(c[..|c| - 1], b)
  {
    if !AllSpace(c, b) {
      var k :| 0 <= k < |c| && !IsSpace(c[k], b);
      assert c[..|c| - 1][k] == c[k];
    }
  }

  /** Lexicographic order on strings by code point. */
  predicate StrLe(a: string, b: string) {
    a == [] || (b != [] && (a[0] < b[0] || (a[0] == b[0] && StrLe(a[1..], b[1..]))))
  }

  lemma {:induction false} StrLeTotal(a: string, b: string)
    ensures StrLe(a, b) || StrLe(b, a)
  {
    if a != [] && b != [] && a[0] == b[0] { StrLeTotal(a[1..], b[1..]); }
  }

  lemma {:induction false} StrLeTransitive(a: string, b: string, c: string)
    requires StrLe(a, b) && StrLe(b, c)
    ensures StrLe(a, c)
  {
    if a != [] && a[0] == b[0] && b[0] == c[0] { StrLeTransitive(a[1..], b[1..], c[1..]); }
  }

  lemma {:induction false} StrLeAntisymmetric(a: string, b: string)
    requires StrLe(a, b) && StrLe(b, a)
    ensures a == b
  {
    if a != [] {
      StrLeAntisymmetric(a[1..], b[1..]);
      assert a == [a[0]] + a[1..] && b == [b[0]] + b[1..];
    }
  }
}
