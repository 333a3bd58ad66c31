/** Wall-clock arithmetic standing in for java.util.Calendar.

    An instant is a whole number of milliseconds.  Every week is exactly seven
    days of 86 400 000 ms (no time zone changes, no daylight saving), and a
    Locale fixes where weeks begin: `origin` is some instant at local midnight
    on the first day of a week, and `firstDayOfWeek` is the Calendar weekday
    number of that day.  The calendar fields of an instant depend only on its
    distance from the start of its week. */
module CalendarTime {

  const SecondMillis: int := 1000
  const MinuteMillis: int := 60000
  const HourMillis: int := 3600000
  const DayMillis: int := 86400000
  const WeekMillis: int := 604800000

  // Calendar.DAY_OF_WEEK numbering: SUNDAY = 1 ... SATURDAY = 7
  const Sunday: int := 1
  const Monday: int := 2
  const Tuesday: int := 3
  const Wednesday: int := 4
  const Thursday: int := 5
  const Friday: int := 6
  const Saturday: int := 7

  datatype Locale = Locale(origin: int, firstDayOfWeek: int)

  predicate ValidLocale(l: Locale) {
    Sunday <= l.firstDayOfWeek <= Saturday
  }

  /** The calendar fields Calendar exposes below the week. */
  datatype Fields = Fields(dayOfWeek: int, hour: int, minute: int, second: int, millisecond: int)

  predicate ValidFields(f: Fields) {
    Sunday <= f.dayOfWeek <= Saturday &&
    0 <= f.hour < 24 && 0 <= f.minute < 60 && 0 <= f.second < 60 && 0 <= f.millisecond < 1000
  }

  /** Milliseconds elapsed since the start of the week holding `t`. */
  function SinceWeekStart(l: Locale, t: int): (e: int)
    ensures 0 <= e < WeekMillis
  {
    (t - l.origin) % WeekMillis
  }

  /** The instant at which the week holding `t` begins. */
  function WeekStart(l: Locale, t: int): (s: int)
    ensures s <= t < s + WeekMillis
    ensures SinceWeekStart(l, s) == 0
  {
    var q := (t - l.origin) / WeekMillis;
    assert t - SinceWeekStart(l, t) - l.origin == q * WeekMillis;
    t - SinceWeekStart(l, t)
  }

  /** Whole days from the first day of the week to Calendar weekday `d`. */
  function DayIndex(l: Locale, d: int): (k: int)
    ensures 0 <= k < 7
  {
    (d - l.firstDayOfWeek) % 7
  }

  /** The calendar fields of instant `t`. */
  function FieldsOf(l: Locale, t: int): (f: Fields)
    requires ValidLocale(l)
    ensures ValidFields(f)
  {
    var e := SinceWeekStart(l, t);
    var dayRem := e % DayMillis;
    var hourRem := dayRem % HourMillis;
    var minuteRem := hourRem % MinuteMillis;
    Fields((e / DayMillis + l.firstDayOfWeek - 1) % 7 + 1,
           dayRem / HourMillis,
           hourRem / MinuteMillis,
           minuteRem / SecondMillis,
           minuteRem % SecondMillis)
  }

  /** Distance from the start of a week to the instant with fields `f`. */
  function OffsetOf(l: Locale, f: Fields): int {
    DayIndex(l, f.dayOfWeek) * DayMillis + f.hour * HourMillis + f.minute * MinuteMillis +
    f.second * SecondMillis + f.millisecond
  }

  /** The instant in the week of `t` whose fields are `f`: what Calendar's
      `set` yields when only fields below the week are changed. */
  function WithFields(l: Locale, t: int, f: Fields): int {
    WeekStart(l, t) + OffsetOf(l, f)
  }

  lemma {:induction false} DayIndexRoundTrip(l: Locale, d: int)
    requires ValidLocale(l) && Sunday <= d <= Saturday
    ensures (DayIndex(l, d) + l.firstDayOfWeek - 1) % 7 + 1 == d
  {
    var k := DayIndex(l, d);
    var j := (d - l.firstDayOfWeek) / 7;
    assert d - l.firstDayOfWeek == 7 * j + k;
    assert j == 0 || j == -1;
    assert k + l.firstDayOfWeek - 1 == d - 1 - 7 * j;
  }

  /** An offset within one week from a week start is that instant's phase. */
  lemma {:induction false} PhaseOfOffset(l: Locale, ws: int, off: int)
    requires SinceWeekStart(l, ws) == 0 && 0 <= off < WeekMillis
    ensures SinceWeekStart(l, ws + off) == off
  {
    var q := (ws - l.origin) / WeekMillis;
    assert ws - l.origin == q * WeekMillis;
    assert ws + off - l.origin == q * WeekMillis + off;
  }

  /** Reading the time-of-day fields back from an offset within one day. */
  lemma {:induction false} TimeOfDayFields(f: Fields)
    requires ValidFields(f)
    ensures var minuteRem := f.second * SecondMillis + f.millisecond;
      var hourRem := f.minute * MinuteMillis + minuteRem;
      var dayRem := f.hour * HourMillis + hourRem;
      0 <= dayRem < DayMillis &&
      dayRem / HourMillis == f.hour && dayRem % HourMillis == hourRem &&
      hourRem / MinuteMillis == f.minute && hourRem % MinuteMillis == minuteRem &&
      minuteRem / SecondMillis == f.second && minuteRem % SecondMillis == f.millisecond
  {
    var minuteRem := f.second * SecondMillis + f.millisecond;
    assert minuteRem / SecondMillis == f.second && minuteRem % SecondMillis == f.millisecond;
    var hourRem := f.minute * MinuteMillis + minuteRem;
    assert hourRem / MinuteMillis == f.minute && hourRem % MinuteMillis == minuteRem;
    var dayRem := f.hour * HourMillis + hourRem;
    assert dayRem / HourMillis == f.hour && dayRem % HourMillis == hourRem;
  }

  /** Fields and offset-in-week determine each other (first direction). */
  lemma {:induction false} FieldsOfOffset(l: Locale, ws: int, f: Fields)
    requires ValidLocale(l) && ValidFields(f) && SinceWeekStart(l, ws) == 0
    ensures 0 <= OffsetOf(l, f) < WeekMillis
    ensures SinceWeekStart(l, ws + OffsetOf(l, f)) == OffsetOf(l, f)
    ensures FieldsOf(l, ws + OffsetOf(l, f)) == f
  {
    var k := DayIndex(l, f.dayOfWeek);
    var dayRem := f.hour * HourMillis + (f.minute * MinuteMillis + (f.second * SecondMillis + f.millisecond));
    TimeOfDayFields(f);
    var off := k * DayMillis + dayRem;
    assert off == OffsetOf(l, f);
    PhaseOfOffset(l, ws, off);
    assert off / DayMillis == k && off % DayMillis == dayRem;
    DayIndexRoundTrip(l, f.dayOfWeek);
  }

  /** Fields and offset-in-week determine each other (second direction). */
  lemma {:induction false} OffsetOfFields(l: Locale, t: int)
    requires ValidLocale(l)
    ensures SinceWeekStart(l, t) == OffsetOf(l, FieldsOf(l, t))
    ensures t == WithFields(l, t, FieldsOf(l, t))
  {
    var e := SinceWeekStart(l, t);
    var f := FieldsOf(l, t);
    var k := e / DayMillis;
    assert 0 <= k < 7;
    assert f.dayOfWeek == (k + l.firstDayOfWeek - 1) % 7 + 1;
    var j := (k + l.firstDayOfWeek - 1) / 7;
    assert k + l.firstDayOfWeek - 1 == 7 * j + (f.dayOfWeek - 1);
    assert DayIndex(l, f.dayOfWeek) == k;
  }

  /** Two instants with equal fields are a whole number of weeks apart, so
      two distinct ones are never less than a week apart. */
  lemma {:induction false} SameFieldsAWeekApart(l: Locale, t1: int, t2: int)
    requires ValidLocale(l) && FieldsOf(l, t1) == FieldsOf(l, t2) && t1 <= t2
    ensures t1 == t2 || t1 + WeekMillis <= t2
  {
    OffsetOfFields(l, t1);
    OffsetOfFields(l, t2);
    var q1 := (t1 - l.origin) / WeekMillis;
    var q2 := (t2 - l.origin) / WeekMillis;
    assert t2 - t1 == (q2 - q1) * WeekMillis;
  }

  /** Moving by whole weeks changes neither the fields nor the week phase. */
  lemma {:induction false} ShiftByWeeks(l: Locale, t: int, n: int)
    requires ValidLocale(l)
    ensures SinceWeekStart(l, t + n * WeekMillis) == SinceWeekStart(l, t)
    ensures WeekStart(l, t + n * WeekMillis) == WeekStart(l, t) + n * WeekMillis
    ensures FieldsOf(l, t + n * WeekMillis) == FieldsOf(l, t)
  {
    var q := (t - l.origin) / WeekMillis;
    var e := SinceWeekStart(l, t);
    assert t - l.origin == q * WeekMillis + e;
    assert t + n * WeekMillis - l.origin == (q + n) * WeekMillis + e;
  }

  /** Calendar.set on a field below the week keeps the week and every other
      field, when the new value lies in the field's range. */
  lemma {:induction false} WithFieldsSets(l: Locale, t: int, f: Fields)
    requires ValidLocale(l)
    ensures ValidFields(f) ==> FieldsOf(l, WithFields(l, t, f)) == f
    ensures ValidFields(f) ==> WeekStart(l, WithFields(l, t, f)) == WeekStart(l, t)
  {
    if ValidFields(f) {
      FieldsOfOffset(l, WeekStart(l, t), f);
    }
  }

  /** Setting fields in the week one later lands one week later. */
  lemma {:induction false} WithFieldsShift(l: Locale, t: int, f: Fields)
    requires ValidLocale(l)
    ensures FieldsOf(l, t + WeekMillis) == FieldsOf(l, t)
    ensures WithFields(l, t + WeekMillis, f) == WithFields(l, t, f) + WeekMillis
  {
    ShiftByWeeks(l, t, 1);
  }

  /** Calendar.set(HOUR_OF_DAY, h). */
  function SetHourOfDay(l: Locale, t: int, h: int): (r: int)
    requires ValidLocale(l)
    ensures 0 <= h < 24 ==>
      FieldsOf(l, r) == FieldsOf(l, t).(hour := h) && WeekStart(l, r) == WeekStart(l, t)
  {
    var f := FieldsOf(l, t).(hour := h);
    WithFieldsSets(l, t, f);
    WithFields(l, t, f)
  }

  /** Calendar.set(MINUTE, m). */
  function SetMinute(l: Locale, t: int, m: int): (r: int)
    requires ValidLocale(l)
    ensures 0 <= m < 60 ==>
      FieldsOf(l, r) == FieldsOf(l, t).(minute := m) && WeekStart(l, r) == WeekStart(l, t)
  {
    var f := FieldsOf(l, t).(minute := m);
    WithFieldsSets(l, t, f);
    WithFields(l, t, f)
  }

  /** Calendar.set(SECOND, s). */
  function SetSecond(l: Locale, t: int, s: int): (r: int)
    requires ValidLocale(l)
    ensures 0 <= s < 60 ==>
      FieldsOf(l, r) == FieldsOf(l, t).(second := s) && WeekStart(l, r) == WeekStart(l, t)
  {
    var f := FieldsOf(l, t).(second := s);
    WithFieldsSets(l, t, f);
    WithFields(l, t, f)
  }

  /** Calendar.set(MILLISECOND, ms). */
  function SetMillisecond(l: Locale, t: int, ms: int): (r: int)
    requires ValidLocale(l)
    ensures 0 <= ms < 1000 ==>
      FieldsOf(l, r) == FieldsOf(l, t).(millisecond := ms) && WeekStart(l, r) == WeekStart(l, t)
  {
    var f := FieldsOf(l, t).(millisecond := ms);
    WithFieldsSets(l, t, f);
    WithFields(l, t, f)
  }

  /** Calendar.set(DAY_OF_WEEK, d): the day `d` of the same week. */
  function SetDayOfWeek(l: Locale, t: int, d: int): (r: int)
    requires ValidLocale(l)
    ensures Sunday <= d <= Saturday ==>
      FieldsOf(l, r) == FieldsOf(l, t).(dayOfWeek := d) && WeekStart(l, r) == WeekStart(l, t)
  {
    var f := FieldsOf(l, t).(dayOfWeek := d);
    WithFieldsSets(l, t, f);
    WithFields(l, t, f)
  }
}
