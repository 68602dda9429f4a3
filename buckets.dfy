/**
 * The time series of the dashboards and reports (core/api_views.py): rows are counted in
 * month-sized buckets built oldest first, and by day of the week. A queryset being counted is the
 * map from the primary key of each selected row to the timestamp the filter looks at
 * (`data_criacao`, `user__date_joined`).
 *
 * `(hoje - timedelta(days=30 * i)).replace(day=1)` is a calendar computation; the model takes the
 * "first day of that month" step as a parameter `snap`, so the bucket bounds are exact for any
 * calendar while the count and order of the buckets are the code's own.
 */
module Buckets {
  import opened Domain
  import opened Periods
  import opened Sets

  /** `.filter(t__gte=lo, t__lt=hi).count()`. */
  function CountIn(rows: map<Id, Timestamp>, lo: Timestamp, hi: Timestamp): nat {
    |set k | k in rows && lo <= rows[k] < hi|
  }

  /** `.filter(t__lt=hi).count()`. */
  function CountBefore(rows: map<Id, Timestamp>, hi: Timestamp): nat {
    |set k | k in rows && rows[k] < hi|
  }

  /** A window counts no more rows than there are. */
  lemma CountInAtMost(rows: map<Id, Timestamp>, lo: Timestamp, hi: Timestamp)
    ensures CountIn(rows, lo, hi) <= |rows.Keys|
  {
    var window := set k | k in rows && lo <= rows[k] < hi;
    assert window == set k | k in rows && lo <= rows[k] < hi;
    SubsetSize(window, rows.Keys);
  }

  /** Adjacent windows count every row of their union once. */
  lemma CountSplit(rows: map<Id, Timestamp>, lo: Timestamp, mid: Timestamp, hi: Timestamp)
    requires lo <= mid <= hi
    ensures CountIn(rows, lo, hi) == CountIn(rows, lo, mid) + CountIn(rows, mid, hi)
  {
    var a := set k | k in rows && lo <= rows[k] < mid;
    var b := set k | k in rows && mid <= rows[k] < hi;
    assert (set k | k in rows && lo <= rows[k] < hi) == a + b;
    assert a * b == {};
  }

  /** A later bound counts at least the rows an earlier one does. */
  lemma CountBeforeMonotone(rows: map<Id, Timestamp>, a: Timestamp, b: Timestamp)
    requires a <= b
    ensures CountBefore(rows, a) <= CountBefore(rows, b)
  {
    var sa := set k | k in rows && rows[k] < a;
    var sb := set k | k in rows && rows[k] < b;
    assert sa <= sb;
    SubsetSize(sa, sb);
  }

  function SumNat(xs: seq<nat>): nat {
    if xs == [] then 0 else SumNat(xs[..|xs| - 1]) + xs[|xs| - 1]
  }

  // ---------------------------------------------------------------- month buckets

  /**
   * What the bucket lemmas need of `.replace(day=1)`: it never moves a time forward, and it keeps
   * the order of two times a whole number of days apart. `replace(day=1)` keeps the time of day, so
   * it does not keep the order of two times at different hours (Jan 5 23:00 snaps after Jan 6 01:00);
   * the bounds of one series all lie a multiple of 30 days from `hoje`.
   */
  ghost predicate IsMonthSnap(snap: Timestamp -> Timestamp) {
    && (forall t :: snap(t) <= t)
    && (forall a, b :: a <= b && (b - a) % Day == 0 ==> snap(a) <= snap(b))
  }

  /**
   * A calendar's "first day of the month" on day numbers: never after the day itself, and never
   * earlier for a later day.
   */
  ghost predicate IsFirstOfMonth(firstDay: int -> int) {
    && (forall d :: firstDay(d) <= d)
    && (forall d, e :: d <= e ==> firstDay(d) <= firstDay(e))
  }

  /** `replace(day=1)` over a calendar: the first day of the time's month, at the same time of day. */
  function ReplaceDayOne(firstDay: int -> int): Timestamp -> Timestamp {
    t => firstDay(t / Day) * Day + t % Day
  }

  /** Whatever the calendar, `replace(day=1)` is a month snap. */
  lemma ReplaceDayOneIsMonthSnap(firstDay: int -> int)
    requires IsFirstOfMonth(firstDay)
    ensures IsMonthSnap(ReplaceDayOne(firstDay))
  {
    var snap := ReplaceDayOne(firstDay);
    forall t ensures snap(t) <= t {
      DaySplit(t);
      assert firstDay(t / Day) <= t / Day;
    }
    forall a, b | a <= b && (b - a) % Day == 0 ensures snap(a) <= snap(b) {
      SameTimeOfDay(a, b);
      assert firstDay(a / Day) <= firstDay(b / Day);
    }
  }

  lemma DaySplit(t: Timestamp)
    ensures t == t / Day * Day + t % Day && 0 <= t % Day < Day
  {
  }

  /** Two times a whole number of days apart share their time of day, in day order. */
  lemma SameTimeOfDay(a: Timestamp, b: Timestamp)
    requires a <= b && (b - a) % Day == 0
    ensures a % Day == b % Day && a / Day <= b / Day
  {
    var n := (b - a) / Day;
    assert b == a + n * Day;
    assert n >= 0;
  }

  /** The start of the bucket `i` months back: `(hoje - timedelta(days=30 * i)).replace(day=1)`. */
  function MonthStart(now: Timestamp, i: nat, snap: Timestamp -> Timestamp): Timestamp {
    snap(now - 30 * i * Day)
  }

  /** The end of that bucket: the next bucket's start, and `last` for the current month. */
  function MonthEnd(now: Timestamp, i: nat, snap: Timestamp -> Timestamp, last: Timestamp): Timestamp {
    if i > 0 then MonthStart(now, i - 1, snap) else last
  }

  /** The k-th entry of a series of `months` buckets, oldest first. */
  function MonthBound(now: Timestamp, months: nat, k: nat, snap: Timestamp -> Timestamp, last: Timestamp)
    : (Timestamp, Timestamp)
    requires k < months
  {
    (MonthStart(now, months - 1 - k, snap), MonthEnd(now, months - 1 - k, snap, last))
  }

  /** The bounds of a series of `months` buckets, oldest first. */
  function MonthBoundSeq(now: Timestamp, months: nat, snap: Timestamp -> Timestamp, last: Timestamp)
    : seq<(Timestamp, Timestamp)>
  {
    seq(months, k requires 0 <= k < months => MonthBound(now, months, k, snap, last))
  }

  /** The `for i in range(months - 1, -1, -1)` loop: the bucket bounds, oldest first. */
  method MonthBounds(now: Timestamp, months: nat, snap: Timestamp -> Timestamp, last: Timestamp)
    returns (bounds: seq<(Timestamp, Timestamp)>)
    ensures bounds == MonthBoundSeq(now, months, snap, last)
  {
    bounds := [];
    var i := months;
    while i > 0
      invariant 0 <= i <= months && |bounds| == months - i
      invariant forall k :: 0 <= k < |bounds| ==> bounds[k] == MonthBound(now, months, k, snap, last)
    {
      i := i - 1;
      var start := snap(now - 30 * i * Day);
      var end := if i > 0 then snap(now - 30 * (i - 1) * Day) else last;
      bounds := bounds + [(start, end)];
    }
  }

  /** Bounds that follow each other without gap or overlap, each spanning forward. */
  predicate Tiles(bounds: seq<(Timestamp, Timestamp)>) {
    && (forall k :: 0 <= k < |bounds| ==> bounds[k].0 <= bounds[k].1)
    && (forall k :: 0 <= k < |bounds| - 1 ==> bounds[k].1 == bounds[k + 1].0)
  }

  /**
   * With a month snap and a last bound not before now, the month buckets tile the span from the
   * oldest start to `last`, oldest first.
   */
  lemma MonthBoundsTile(now: Timestamp, months: nat, snap: Timestamp -> Timestamp, last: Timestamp)
    requires IsMonthSnap(snap) && now <= last
    ensures Tiles(MonthBoundSeq(now, months, snap, last))
  {
    var bounds := MonthBoundSeq(now, months, snap, last);
    forall k | 0 <= k < months ensures bounds[k].0 <= bounds[k].1 {
      var i := months - 1 - k;
      if i > 0 {
        assert now - 30 * i * Day <= now - 30 * (i - 1) * Day;
        assert (now - 30 * (i - 1) * Day) - (now - 30 * i * Day) == 30 * Day;
      } else {
        assert snap(now) <= now;
      }
    }
  }

  /** The counts of a series of buckets. */
  function Counts(rows: map<Id, Timestamp>, bounds: seq<(Timestamp, Timestamp)>): (cs: seq<nat>)
    ensures |cs| == |bounds|
    ensures forall k :: 0 <= k < |bounds| ==> cs[k] == CountIn(rows, bounds[k].0, bounds[k].1)
  {
    seq(|bounds|, k requires 0 <= k < |bounds| => CountIn(rows, bounds[k].0, bounds[k].1))
  }

  /** Over tiling buckets, the series adds up to the count of the whole span: no row is lost or doubled. */
  lemma {:induction false} TilesTotal(rows: map<Id, Timestamp>, bounds: seq<(Timestamp, Timestamp)>)
    requires |bounds| > 0 && Tiles(bounds)
    ensures SumNat(Counts(rows, bounds)) == CountIn(rows, bounds[0].0, bounds[|bounds| - 1].1)
  {
    var n := |bounds|;
    var cs := Counts(rows, bounds);
    if n == 1 {
      assert cs[..0] == [];
    } else {
      var front := bounds[..n - 1];
      assert Tiles(front);
      TilesTotal(rows, front);
      assert cs[..n - 1] == Counts(rows, front);
      assert bounds[n - 2].1 == bounds[n - 1].0;
      assert front[0].0 <= front[n - 2].1 by { TilesOrdered(front, 0, n - 2); }
      CountSplit(rows, bounds[0].0, bounds[n - 1].0, bounds[n - 1].1);
    }
  }

  /** In tiling bounds, an earlier bucket starts no later than a later one ends. */
  lemma {:induction false} TilesOrdered(bounds: seq<(Timestamp, Timestamp)>, i: nat, j: nat)
    requires Tiles(bounds) && i <= j < |bounds|
    ensures bounds[i].0 <= bounds[j].1
    decreases j - i
  {
    if i < j {
      TilesOrdered(bounds, i + 1, j);
    }
  }

  /** The counts of a month series. */
  function MonthCounts(rows: map<Id, Timestamp>, now: Timestamp, months: nat, snap: Timestamp -> Timestamp,
                       last: Timestamp): seq<nat>
  {
    Counts(rows, MonthBoundSeq(now, months, snap, last))
  }

  /**
   * A month series has one count per month, oldest first, and with a month snap and a last bound
   * not before now its counts add up to the rows of the whole span: no row is lost or doubled.
   */
  lemma MonthCountsTotal(rows: map<Id, Timestamp>, now: Timestamp, months: nat, snap: Timestamp -> Timestamp,
                         last: Timestamp)
    ensures var series := MonthCounts(rows, now, months, snap, last);
      && |series| == months
      && (forall k :: 0 <= k < months ==>
            series[k] == CountIn(rows, MonthBound(now, months, k, snap, last).0, MonthBound(now, months, k, snap, last).1))
      && (IsMonthSnap(snap) && now <= last && months > 0 ==>
            SumNat(series) == CountIn(rows, MonthStart(now, months - 1, snap), last))
  {
    if IsMonthSnap(snap) && now <= last && months > 0 {
      MonthBoundsTile(now, months, snap, last);
      TilesTotal(rows, MonthBoundSeq(now, months, snap, last));
    }
  }

  /** The month series of a report: bounds first, then one count per bucket. */
  method MonthSeries(rows: map<Id, Timestamp>, now: Timestamp, months: nat, snap: Timestamp -> Timestamp,
                     last: Timestamp)
    returns (series: seq<nat>)
    ensures series == MonthCounts(rows, now, months, snap, last)
  {
    var bounds := MonthBounds(now, months, snap, last);
    series := Counts(rows, bounds);
  }

  // ---------------------------------------------------------------- day of the week

  /** `.filter(t__week_day=d).count()`. */
  function CountOnDay(rows: map<Id, Timestamp>, d: int): nat {
    |set k | k in rows && WeekDay(rows[k]) == d|
  }

  /** The rows whose week day has one of the first `i` labels. */
  function CountLabelsBelow(rows: map<Id, Timestamp>, i: int): nat {
    |set k | k in rows && LabelOf(WeekDay(rows[k])) < i|
  }

  /** Adding the next label adds exactly the rows of its week day. */
  lemma NextLabel(rows: map<Id, Timestamp>, i: nat)
    requires i < 7
    ensures CountLabelsBelow(rows, i + 1) == CountLabelsBelow(rows, i) + CountOnDay(rows, LabelDay(i))
  {
    LabelDayBijective();
    var before := set k | k in rows && LabelOf(WeekDay(rows[k])) < i;
    var today := set k | k in rows && WeekDay(rows[k]) == LabelDay(i);
    assert (set k | k in rows && LabelOf(WeekDay(rows[k])) < i + 1) == before + today;
    assert before * today == {};
  }

  /** The seven counts of the weekday chart, Monday first. */
  function WeekdayCounts(rows: map<Id, Timestamp>): seq<nat> {
    seq(7, i requires 0 <= i < 7 => CountOnDay(rows, LabelDay(i)))
  }

  lemma {:induction false} WeekdayPrefix(rows: map<Id, Timestamp>, i: nat)
    requires i <= 7
    ensures SumNat(WeekdayCounts(rows)[..i]) == CountLabelsBelow(rows, i)
  {
    if i > 0 {
      WeekdayPrefix(rows, i - 1);
      NextLabel(rows, i - 1);
      assert WeekdayCounts(rows)[..i][..i - 1] == WeekdayCounts(rows)[..i - 1];
    } else {
      assert (set k | k in rows && LabelOf(WeekDay(rows[k])) < 0) == {};
    }
  }

  /** Every row falls on exactly one of the seven days: the chart adds up to the rows counted. */
  lemma WeekdayTotal(rows: map<Id, Timestamp>)
    ensures |WeekdayCounts(rows)| == 7
    ensures SumNat(WeekdayCounts(rows)) == |rows|
  {
    WeekdayPrefix(rows, 7);
    assert WeekdayCounts(rows)[..7] == WeekdayCounts(rows);
    assert (set k | k in rows && LabelOf(WeekDay(rows[k])) < 7) == rows.Keys;
  }

  /** The `for i, dia in enumerate(dias_semana)` loop: seven counts, Monday first. */
  method WeekdaySeries(rows: map<Id, Timestamp>) returns (series: seq<nat>)
    ensures series == WeekdayCounts(rows)
  {
    series := [];
    var i := 0;
    while i < 7
      invariant 0 <= i <= 7 && series == WeekdayCounts(rows)[..i]
    {
      series := series + [CountOnDay(rows, LabelDay(i))];
      i := i + 1;
    }
  }
}
