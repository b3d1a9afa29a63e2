/** `getWeekNumber` of the statistics service: a simplified week number in which week 1 is the
    week of 1 January and every Sunday starts a new week. It is not the ISO 8601 week number.

    A moment is given by the calendar fields the service reads from a JavaScript `Date`: the
    year, the month (0-11, as `getMonth`), the day of the year counted from 0 (the whole days
    since 1 January), the weekday of 1 January (0 = Sunday, as `getDay`), and the UTC ISO 8601
    text of `toISOString`. */
module WeekNumbering {
  import opened JsStrings

  type Weekday = d: nat | d < 7

  datatype Instant = Instant(year: int, month: int, dayIndex: nat, jan1Weekday: Weekday, iso: string)

  /** `Math.ceil((pastDays + firstJan.getDay() + 1) / 7)`. */
  function WeekOfYear(dayIndex: nat, jan1Weekday: Weekday): (w: nat)
    ensures (w - 1) * 7 < dayIndex + jan1Weekday + 1 <= w * 7
  {
    (dayIndex + jan1Weekday + 7) / 7
  }

  function WeekNumber(t: Instant): nat
  {
    WeekOfYear(t.dayIndex, t.jan1Weekday)
  }

  /** 1 January is always in week 1. */
  lemma {:induction false} FirstDayIsWeekOne(jan1Weekday: Weekday)
    ensures WeekOfYear(0, jan1Weekday) == 1
  {
  }

  /** From one day to the next the week number rises by one exactly when the next day is a
      Sunday, and otherwise stays the same. */
  lemma {:induction false} WeekStep(d: nat, jan1Weekday: Weekday)
    ensures (jan1Weekday + d + 1) % 7 == 0 ==> WeekOfYear(d + 1, jan1Weekday) == WeekOfYear(d, jan1Weekday) + 1
    ensures (jan1Weekday + d + 1) % 7 != 0 ==> WeekOfYear(d + 1, jan1Weekday) == WeekOfYear(d, jan1Weekday)
  {
    var n := d + jan1Weekday + 7;
    assert (n + 1) / 7 == n / 7 + (if (n + 1) % 7 == 0 then 1 else 0);
  }

  /** The week number never decreases within a year. */
  lemma {:induction false} WeekMonotone(d1: nat, d2: nat, jan1Weekday: Weekday)
    requires d1 <= d2
    ensures WeekOfYear(d1, jan1Weekday) <= WeekOfYear(d2, jan1Weekday)
    decreases d2 - d1
  {
    if d1 < d2 {
      WeekStep(d2 - 1, jan1Weekday);
      WeekMonotone(d1, d2 - 1, jan1Weekday);
    }
  }

  /** Every day of a year, leap years included, lies in weeks 1 to 54. */
  lemma {:induction false} WeekRange(d: nat, jan1Weekday: Weekday)
    requires d <= 365
    ensures 1 <= WeekOfYear(d, jan1Weekday) <= 54
  {
  }

  /** A week of a year: what the bucket key of a session stands for. */
  datatype WeekId = WeekId(year: int, week: nat)

  function WeekIdOf(t: Instant): WeekId
  {
    WeekId(t.year, WeekNumber(t))
  }

  /** The text `` `${year}-W${week}` `` of a week. */
  function WeekLabel(w: WeekId): string
  {
    IntToString(w.year) + "-W" + NatToString(w.week)
  }

  /** The bucket key of a session. */
  function WeekKey(t: Instant): string
  {
    WeekLabel(WeekIdOf(t))
  }

  lemma {:induction false} IntToStringHasNoW(i: int)
    ensures 'W' !in IntToString(i)
    ensures 'W' !in NatToString(if i < 0 then -i else i)
  {
    var n := NatToString(if i < 0 then -i else i);
    assert forall j :: 0 <= j < |n| ==> IsDigit(n[j]);
    if i < 0 {
      assert IntToString(i) == "-" + n;
    }
  }

  lemma {:induction false} IntToStringInjective(a: int, b: int)
    requires IntToString(a) == IntToString(b)
    ensures a == b
  {
    var na, nb := NatToString(if a < 0 then -a else a), NatToString(if b < 0 then -b else b);
    if a < 0 && b < 0 {
      assert na == IntToString(a)[1..] == IntToString(b)[1..] == nb;
      NatToStringInjective(-a, -b);
    } else if a >= 0 && b >= 0 {
      NatToStringInjective(a, b);
    } else {
      assert false;
    }
  }

  /** A string `y + "-W" + n` with no `W` in `y` or `n` determines `y` and `n`. */
  lemma {:induction false} SplitAtW(y1: string, n1: string, y2: string, n2: string)
    requires 'W' !in y1 && 'W' !in n1 && 'W' !in y2 && 'W' !in n2
    requires y1 + "-W" + n1 == y2 + "-W" + n2
    ensures y1 == y2 && n1 == n2
  {
    var s := y1 + "-W" + n1;
    assert s[|y1| + 1] == 'W';
    assert s[|y2| + 1] == 'W';
    assert |y1| == |y2|;
    assert y1 == s[..|y1|] == y2;
    assert n1 == s[|y1| + 2..] == n2;
  }

  /** Distinct weeks have distinct labels, so a map keyed by the label has the same buckets as
      one keyed by the week. */
  lemma {:induction false} WeekLabelInjective(a: WeekId, b: WeekId)
    ensures WeekLabel(a) == WeekLabel(b) <==> a == b
  {
    if WeekLabel(a) == WeekLabel(b) {
      IntToStringHasNoW(a.year);
      IntToStringHasNoW(b.year);
      IntToStringHasNoW(a.week);
      IntToStringHasNoW(b.week);
      SplitAtW(IntToString(a.year), NatToString(a.week), IntToString(b.year), NatToString(b.week));
      IntToStringInjective(a.year, b.year);
      NatToStringInjective(a.week, b.week);
    }
  }

  /** Two sessions share a week bucket exactly when they have the same year and week number. */
  lemma {:induction false} WeekKeyInjective(a: Instant, b: Instant)
    ensures WeekKey(a) == WeekKey(b) <==> a.year == b.year && WeekNumber(a) == WeekNumber(b)
  {
    WeekLabelInjective(WeekIdOf(a), WeekIdOf(b));
  }
}
