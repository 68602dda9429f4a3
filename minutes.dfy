/**
 * Minutes split into hours and minutes the way both student pages do it: `Math.floor(m / 60)`
 * hours and `m % 60` minutes, with JavaScript's remainder, whose sign follows the dividend.
 */
module Minutes {
  import opened Wrappers
  import opened Text

  /** JS `%` on integers: the remainder takes the sign of the dividend. */
  function JsRem(a: int, b: int): (r: int)
    requires b > 0
    ensures a >= 0 ==> 0 <= r < b
    ensures a < 0 ==> -b < r <= 0
  {
    if a >= 0 then a % b else -((-a) % b)
  }

  /** `Math.floor(m / 60)` hours and `m % 60` minutes. */
  function TimeSplit(minutos: int): (hm: (int, int))
    ensures minutos >= 0 ==> 60 * hm.0 + hm.1 == minutos && 0 <= hm.1 < 60 && hm.0 >= 0
    ensures minutos < 0 ==> hm.0 < 0 && -60 < hm.1 <= 0
  {
    assert minutos < 0 ==> minutos / 60 < 0;
    (minutos / 60, JsRem(minutos, 60))
  }

  /** For a non-negative total, the split is the only hours/minutes pair with minutes below 60. */
  lemma TimeSplitUnique(minutos: int, h: int, m: int)
    requires minutos >= 0 && 60 * h + m == minutos && 0 <= m < 60
    ensures TimeSplit(minutos) == (h, m)
  {
    var (h0, m0) := TimeSplit(minutos);
    assert 60 * (h - h0) == m0 - m;
  }

  /** A negative total does not split back: -61 minutes shows as -2 hours and -1 minute. */
  lemma NegativeTimeSplit()
    ensures TimeSplit(-61) == (-2, -1)
    ensures 60 * TimeSplit(-61).0 + TimeSplit(-61).1 != -61
  {
  }

  /**
   * Reads back a duration shown as "<h>h <m>m" or "<m>m", both numbers plain decimal digits;
   * anything else is refused.
   */
  function ParseDuration(s: string): Option<int> {
    var a := DigitRun(s);
    if a == 0 then None else AfterNumber(DigitsValue(s[..a]), s[a..])
  }

  /** What may follow the first number: "m", or "h " and the minutes. */
  function AfterNumber(n: nat, t: string): Option<int> {
    if t == "m" then Some(n)
    else if |t| >= 2 && t[..2] == "h " then MinutesAfterHours(n, t[2..])
    else None
  }

  function MinutesAfterHours(h: nat, r: string): Option<int> {
    var b := DigitRun(r);
    if b > 0 && r[b..] == "m" then Some(60 * h + DigitsValue(r[..b])) else None
  }

  /** A number read off the front of `d + t`, for digits `d` followed by a non-digit. */
  lemma LeadingNumber(d: string, t: string)
    requires d != [] && IsDigits(d) && t != [] && !('0' <= t[0] <= '9')
    ensures ParseDuration(d + t) == AfterNumber(DigitsValue(d), t)
  {
    DigitRunOf(d, t);
    assert (d + t)[..|d|] == d && (d + t)[|d|..] == t;
  }

  /** "<m>m" reads back as m minutes. */
  lemma MinutesReadBack(m: nat)
    ensures ParseDuration(NatToString(m) + "m") == Some(m)
  {
    LeadingNumber(NatToString(m), "m");
    ValueOfNatToString(m);
  }

  /** "<h>h <m>m" reads back as 60h + m minutes. */
  lemma HoursReadBack(h: nat, m: nat)
    ensures ParseDuration(NatToString(h) + "h " + NatToString(m) + "m") == Some(60 * h + m)
  {
    var dh, dm := NatToString(h), NatToString(m);
    Regroup(dh, dm + "m");
    assert dh + "h " + dm + "m" == dh + ("h " + (dm + "m"));
    HoursPrefix(h, dm + "m");
    MinutesSuffix(h, m);
  }

  /** Moving the parentheses of a rendered duration. */
  lemma Regroup(a: string, b: string)
    ensures a + "h " + b == a + ("h " + b)
  {
  }

  /** After the hours and "h ", the rest is read as the minutes. */
  lemma HoursPrefix(h: nat, r: string)
    requires |r| >= 1
    ensures ParseDuration(NatToString(h) + ("h " + r)) == MinutesAfterHours(h, r)
  {
    LeadingNumber(NatToString(h), "h " + r);
    ValueOfNatToString(h);
    HoursThenMinutes(h, r);
  }

  lemma HoursThenMinutes(h: nat, r: string)
    requires |r| >= 1
    ensures AfterNumber(h, "h " + r) == MinutesAfterHours(h, r)
  {
    var t := "h " + r;
    assert |t| >= 3;
    assert t[..2] == "h " && t[2..] == r;
  }

  lemma MinutesSuffix(h: nat, m: nat)
    ensures MinutesAfterHours(h, NatToString(m) + "m") == Some(60 * h + m)
  {
    var dm := NatToString(m);
    DigitRunOf(dm, "m");
    assert (dm + "m")[..|dm|] == dm && (dm + "m")[|dm|..] == "m";
    ValueOfNatToString(m);
  }
}
