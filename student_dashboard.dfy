/**
 * The student's dashboard: the total training time shown by `formatTempo`, the weekly-goal
 * message, and the statistics the page falls back to when loading them fails.
 */
module StudentDashboard {
  import opened Wrappers
  import opened Text
  import opened Minutes

  /** `formatTempo`: "<h>h <m>m" from one hour on, "<m>m" below. */
  function FormatTempo(minutos: int): (s: string)
    ensures |s| >= 2 && s[|s| - 1] == 'm'
  {
    var (horas, mins) := TimeSplit(minutos);
    if horas > 0 then IntToString(horas) + "h " + IntToString(mins) + "m" else IntToString(mins) + "m"
  }

  /** The hours are shown exactly from one hour on. */
  lemma HoursShownFromOneHour(minutos: int)
    ensures minutos >= 60 <==> 'h' in FormatTempo(minutos)
  {
    var hm := TimeSplit(minutos);
    var s := FormatTempo(minutos);
    if hm.0 > 0 {
      assert s[|IntToString(hm.0)|] == 'h';
    } else {
      var r := IntToString(hm.1);
      assert s == r + "m";
      assert 'h' !in r by {
        if hm.1 >= 0 {
          assert IsDigits(NatToString(hm.1));
        } else {
          assert r == "-" + NatToString(-hm.1) && IsDigits(NatToString(-hm.1));
        }
      }
    }
  }

  /** A non-negative time reads back from its rendering: the rendering loses nothing. */
  lemma FormatTempoReadsBack(minutos: int)
    requires minutos >= 0
    ensures ParseDuration(FormatTempo(minutos)) == Some(minutos)
  {
    var hm := TimeSplit(minutos);
    var horas, mins := hm.0, hm.1;
    assert 60 * horas + mins == minutos;
    var shown := FormatTempo(minutos);
    if horas > 0 {
      assert shown == NatToString(horas) + "h " + NatToString(mins) + "m";
      HoursReadBack(horas, mins);
    } else {
      assert horas == 0;
      assert shown == NatToString(mins) + "m";
      MinutesReadBack(mins);
    }
  }

  /** Different non-negative times are shown differently. */
  lemma FormatTempoInjective(a: int, b: int)
    requires a >= 0 && b >= 0 && FormatTempo(a) == FormatTempo(b)
    ensures a == b
  {
    FormatTempoReadsBack(a);
    FormatTempoReadsBack(b);
  }

  /** The message under the weekly goal. */
  const Reached: string := "Meta atingida! \U{1F389}"

  /** `Falta${rem > 1 ? 'm' : ''} `. */
  function Verb(rem: int): string {
    if rem > 1 then "Faltam " else "Falta "
  }

  /** ` treino${rem > 1 ? 's' : ''}!`. */
  function Noun(rem: int): string {
    if rem > 1 then " treinos!" else " treino!"
  }

  /**
   * The goal message: reached when `atual >= total`, otherwise the remaining count, with
   * "Faltam"/"treinos" when more than one is left and "Falta"/"treino" for one.
   */
  function GoalText(atual: int, total: int): (s: string)
    ensures s == Reached <==> atual >= total
  {
    if atual >= total then Reached
    else
      var rem := total - atual;
      var s := Verb(rem) + NatToString(rem) + Noun(rem);
      assert s[0] == 'F';
      s
  }

  /** Where the number starts in the message for `rem` remaining sessions. */
  function CountAt(rem: int): nat {
    if rem > 1 then 7 else 6
  }

  /** Below the goal, the message starts with "Faltam " exactly when more than one session is left. */
  lemma GoalPlural(atual: int, total: int)
    requires atual < total
    ensures CountAt(total - atual) <= |GoalText(atual, total)|
    ensures var s := GoalText(atual, total);
      && (s[..CountAt(total - atual)] == "Faltam " <==> total - atual > 1)
      && (s[..CountAt(total - atual)] == "Falta " <==> total - atual == 1)
  {
    var rem := total - atual;
    var v := Verb(rem);
    assert GoalText(atual, total) == v + (NatToString(rem) + Noun(rem));
    assert |v| == CountAt(rem);
  }

  /** ...and the number it shows is the remaining count. */
  lemma GoalCount(atual: int, total: int)
    requires atual < total
    ensures var s := GoalText(atual, total)[CountAt(total - atual)..];
      DigitRun(s) > 0 && DigitsValue(s[..DigitRun(s)]) == total - atual
  {
    var rem := total - atual;
    var d, n := NatToString(rem), Noun(rem);
    var s := GoalText(atual, total);
    assert s == Verb(rem) + (d + n);
    assert |Verb(rem)| == CountAt(rem);
    assert s[CountAt(rem)..] == d + n;
    DigitRunOf(d, n);
    assert (d + n)[..|d|] == d;
    ValueOfNatToString(rem);
  }

  /** The statistics of the dashboard. */
  datatype Stats = Stats(
    totalTreinos: int,
    treinosAtivos: int,
    sequenciaDias: int,
    tempoTotalMinutos: int,
    metaSemanalAtual: int,
    metaSemanalTotal: int)

  /** What the page shows when loading the statistics fails: zeros and a goal of five. */
  const Fallback: Stats := Stats(0, 0, 0, 0, 0, 5)

  /** After a failed load the page reads "0m" and "Faltam 5 treinos!". */
  lemma FallbackMessages()
    ensures FormatTempo(Fallback.tempoTotalMinutos) == "0m"
    ensures GoalText(Fallback.metaSemanalAtual, Fallback.metaSemanalTotal) == "Faltam 5 treinos!"
  {
  }
}
