/**
 * The arithmetic of the dashboards and reports (core/api_views.py): the period selector, the
 * windows it opens, the zero-guarded variation and ratios, the frequency score, and the Django
 * `week_day` of a timestamp. Numbers are exact reals; the `round(..., 1)` of the views is not
 * modelled.
 */
module Periods {
  import opened Wrappers
  import opened Domain

  /** `request.query_params.get("periodo", "mes")` turned into the look-back, in days. */
  function LookbackDays(periodo: Option<string>): (days: nat)
    ensures days == 7 <==> periodo == Some("semana")
    ensures days == 90 <==> periodo == Some("trimestre")
    ensures days == 365 <==> periodo == Some("ano")
    ensures days == 30 <==> periodo !in {Some("semana"), Some("trimestre"), Some("ano")}
  {
    var p := periodo.GetOr("mes");
    if p == "semana" then 7 else if p == "trimestre" then 90 else if p == "ano" then 365 else 30
  }

  /** `data_inicio = hoje - timedelta(days=...)`. */
  function WindowStart(now: Timestamp, periodo: Option<string>): (start: Timestamp)
    ensures now - start == LookbackDays(periodo) * Day
  {
    now - LookbackDays(periodo) * Day
  }

  /** `(hoje - data_inicio).days`: the window spans exactly the look-back. */
  lemma WindowDays(now: Timestamp, periodo: Option<string>)
    ensures (now - WindowStart(now, periodo)) / Day == LookbackDays(periodo)
  {
    var d := LookbackDays(periodo);
    assert now - WindowStart(now, periodo) == d * Day;
  }

  /**
   * The window the variation compares with: the 30 days before the window start, whatever the
   * selected period.
   */
  function PreviousWindow(now: Timestamp, periodo: Option<string>): (w: (Timestamp, Timestamp))
    ensures w.1 == WindowStart(now, periodo) && w.1 - w.0 == 30 * Day
  {
    var start := WindowStart(now, periodo);
    (start - 30 * Day, start)
  }

  /** `max(n, 1)`. */
  function AtLeastOne(n: int): (m: int)
    ensures m >= 1 && m >= n && (n >= 1 ==> m == n)
  {
    if n >= 1 then n else 1
  }

  /** `(current - previous) / max(previous, 1) * 100`. */
  function Variation(current: nat, previous: nat): (r: real)
    ensures r * AtLeastOne(previous) as real == (current - previous) as real * 100.0
    ensures previous == 0 ==> r == current as real * 100.0
    ensures r >= 0.0 <==> current >= previous
    ensures r == 0.0 <==> current == previous
    ensures r >= -100.0
  {
    var d := AtLeastOne(previous) as real;
    var r := (current - previous) as real / d * 100.0;
    ScaledQuotient((current - previous) as real, d);
    QuotientSign(r, d, (current - previous) as real * 100.0);
    if previous > 0 then QuotientAtLeast(r, d, -100.0); r else r
  }

  /** `part / max(whole, 1) * 100`: the share of `whole` that `part` is, as a percentage. */
  function Percentage(part: nat, whole: nat): (r: real)
    ensures r >= 0.0
    ensures r * AtLeastOne(whole) as real == part as real * 100.0
    ensures part <= whole ==> r <= 100.0
    ensures part == whole && whole > 0 ==> r == 100.0
  {
    var d := AtLeastOne(whole) as real;
    var r := part as real / d * 100.0;
    ScaledQuotient(part as real, d);
    QuotientSign(r, d, part as real * 100.0);
    if part <= whole then QuotientAtMost(r, d, 100.0); r else r
  }

  /** Scaling a quotient by 100 and multiplying back by the divisor gives the scaled dividend. */
  lemma ScaledQuotient(a: real, d: real)
    requires d > 0.0
    ensures (a / d * 100.0) * d == a * 100.0
  {
    assert a / d * d == a;
  }

  /** A number times a positive divisor has that number's sign. */
  lemma QuotientSign(r: real, d: real, x: real)
    requires d > 0.0 && r * d == x
    ensures r >= 0.0 <==> x >= 0.0
    ensures r == 0.0 <==> x == 0.0
  {
    if r < 0.0 {
      assert r * d < 0.0;
    } else if r > 0.0 {
      assert r * d > 0.0;
    }
  }

  /** Dividing a lower bound on `r * d` by the positive `d`. */
  lemma QuotientAtLeast(r: real, d: real, lo: real)
    requires d > 0.0 && r * d >= lo * d
    ensures r >= lo
  {
    assert r * d - lo * d == (r - lo) * d;
  }

  /** Dividing an upper bound on `r * d` by the positive `d`. */
  lemma QuotientAtMost(r: real, d: real, hi: real)
    requires d > 0.0 && r * d <= hi * d
    ensures r <= hi
  {
    assert hi * d - r * d == (hi - r) * d;
  }

  /** `count / max(days, 1)`: an average per day. */
  function PerDay(count: nat, days: int): (r: real)
    ensures r >= 0.0 && r * AtLeastOne(days) as real == count as real
    ensures days <= 1 ==> r == count as real
  {
    count as real / AtLeastOne(days) as real
  }

  /**
   * A student's weekly frequency score in the trainer report: the workouts of the window against a
   * goal of five a week, as a percentage capped at 100.
   */
  function Frequency(total: nat, days: int): (f: real)
    ensures 0.0 <= f <= 100.0
    ensures f < 100.0 ==> f * Weeks(days) * 5.0 == total as real * 100.0
    ensures total == 0 ==> f == 0.0
  {
    var raw := total as real / Weeks(days) / 5.0 * 100.0;
    if raw < 100.0 then raw else 100.0
  }

  /** `max(dias_periodo / 7, 1)`, with true division. */
  function Weeks(days: int): (w: real)
    ensures w >= 1.0
  {
    if days as real / 7.0 >= 1.0 then days as real / 7.0 else 1.0
  }

  function Sum(xs: seq<real>): real {
    if xs == [] then 0.0 else Sum(xs[..|xs| - 1]) + xs[|xs| - 1]
  }

  /** `sum(xs) / max(len(xs), 1)`. */
  function Average(xs: seq<real>): real {
    Sum(xs) / AtLeastOne(|xs|) as real
  }

  lemma {:induction false} SumBounds(xs: seq<real>, lo: real, hi: real)
    requires forall i :: 0 <= i < |xs| ==> lo <= xs[i] <= hi
    ensures |xs| as real * lo <= Sum(xs) <= |xs| as real * hi
  {
    if xs != [] {
      SumBounds(xs[..|xs| - 1], lo, hi);
    }
  }

  /** The average of scores in [0, 100] is in [0, 100], and 0 for no scores. */
  lemma AverageBounds(xs: seq<real>)
    requires forall i :: 0 <= i < |xs| ==> 0.0 <= xs[i] <= 100.0
    ensures 0.0 <= Average(xs) <= 100.0
    ensures xs == [] ==> Average(xs) == 0.0
  {
    SumBounds(xs, 0.0, 100.0);
    var n := AtLeastOne(|xs|) as real;
    assert Sum(xs) <= n * 100.0;
  }

  /**
   * `taxa - max(taxa - 5, 0)`: the variation of the average frequency against a "previous" value
   * simulated as five points lower, floored at zero.
   */
  function FrequencyVariation(taxa: real): (v: real)
    ensures taxa >= 0.0 ==> 0.0 <= v <= 5.0
    ensures taxa >= 5.0 ==> v == 5.0
  {
    var anterior := if taxa - 5.0 >= 0.0 then taxa - 5.0 else 0.0;
    taxa - anterior
  }

  /** Django `week_day` of a UTC timestamp: 1 = Sunday ... 7 = Saturday (1970-01-01 was a Thursday). */
  function WeekDay(t: Timestamp): (d: int)
    ensures 1 <= d <= 7
  {
    ((t / Day) + 4) % 7 + 1
  }

  /** The next day has the next week day, Saturday wrapping to Sunday. */
  lemma WeekDayNext(t: Timestamp)
    ensures WeekDay(t + Day) == WeekDay(t) % 7 + 1
  {
    assert (t + Day) / Day == t / Day + 1;
  }

  /** The labels of the weekday chart, Monday first. */
  const DayLabels: seq<string> := ["Seg", "Ter", "Qua", "Qui", "Sex", "Sáb", "Dom"]

  /** `i + 2 if i < 6 else 1`: the `week_day` counted for label i. */
  function LabelDay(i: nat): (d: int)
    requires i < 7
    ensures 1 <= d <= 7
  {
    if i < 6 then i + 2 else 1
  }

  /** The label that counts week day `d`. */
  function LabelOf(d: int): (i: nat)
    requires 1 <= d <= 7
    ensures i < 7 && LabelDay(i) == d
  {
    if d == 1 then 6 else d - 2
  }

  /** The seven labels count the seven week days, each once: Seg is Monday and Dom is Sunday. */
  lemma LabelDayBijective()
    ensures forall i :: 0 <= i < 7 ==> LabelOf(LabelDay(i)) == i
    ensures LabelDay(0) == WeekDay(4 * Day) && LabelDay(6) == WeekDay(3 * Day)
  {
    assert 4 * Day / Day == 4 && 3 * Day / Day == 3;
  }
}
