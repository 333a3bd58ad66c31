/** AlarmScheduler.kt: turns a weekly reminder into the next instant it is
    due and arms one alarm for it, in the registry slot of the reminder's id. */
module AlarmScheduler {
  import opened Optional
  import opened CalendarTime
  import opened Android

  /** A weekly reminder as the app passes it; `weekday` counts Monday = 1
      to Sunday = 7. */
  datatype Schedule = Schedule(id: int, weekday: int, hour: int, minute: int, message: string)

  /** The ranges the app keeps to; the code itself checks none of them. */
  predicate ValidTime(s: Schedule) {
    1 <= s.weekday <= 7 && 0 <= s.hour <= 23 && 0 <= s.minute <= 59
  }

  /** The app's weekday as a Calendar.DAY_OF_WEEK number. */
  function CalendarWeekday(weekday: int): (d: int)
    ensures 1 <= weekday <= 7 ==> Sunday <= d <= Saturday
  {
    if weekday == 7 then Sunday else weekday + 1
  }

  /** The Calendar weekday back in the app's numbering. */
  function AppWeekday(d: int): (weekday: int)
    requires Sunday <= d <= Saturday
    ensures 1 <= weekday <= 7 && CalendarWeekday(weekday) == d
  {
    if d == Sunday then 7 else d - 1
  }

  /** The mapping names the same day in both numberings and is a bijection
      of 1..7 onto 1..7. */
  lemma WeekdayMappingBijective(w1: int, w2: int)
    ensures CalendarWeekday(1) == Monday && CalendarWeekday(2) == Tuesday &&
            CalendarWeekday(3) == Wednesday && CalendarWeekday(4) == Thursday &&
            CalendarWeekday(5) == Friday && CalendarWeekday(6) == Saturday &&
            CalendarWeekday(7) == Sunday
    ensures 1 <= w1 <= 7 ==> AppWeekday(CalendarWeekday(w1)) == w1
    ensures 1 <= w1 <= 7 && 1 <= w2 <= 7 && CalendarWeekday(w1) == CalendarWeekday(w2) ==> w1 == w2
  {
  }

  /** The fields the alarm must fire at: that weekday, hour:minute:00.000. */
  function TargetFields(s: Schedule): Fields {
    Fields(CalendarWeekday(s.weekday), s.hour, s.minute, 0, 0)
  }

  /** The Calendar after the `set` calls: the requested time on the requested
      weekday of the week holding `now`. */
  function Candidate(l: Locale, now: int, s: Schedule): (c: int)
    requires ValidLocale(l)
    ensures ValidTime(s) ==> WeekStart(l, c) == WeekStart(l, now) && FieldsOf(l, c) == TargetFields(s)
  {
    var atHour := SetHourOfDay(l, now, s.hour);
    var atMinute := SetMinute(l, atHour, s.minute);
    var atSecond := SetSecond(l, atMinute, 0);
    var atMillisecond := SetMillisecond(l, atSecond, 0);
    SetDayOfWeek(l, atMillisecond, CalendarWeekday(s.weekday))
  }

  /** The instant scheduleWeeklyAlarm arms: the candidate, moved on one week
      when it is strictly before `now`. */
  function NextFire(l: Locale, now: int, s: Schedule): (r: int)
    requires ValidLocale(l)
    ensures r == Candidate(l, now, s) || r == Candidate(l, now, s) + WeekMillis
    ensures r == Candidate(l, now, s) <==> now <= Candidate(l, now, s)
    ensures ValidTime(s) ==> now <= r < now + WeekMillis
    ensures ValidTime(s) ==> FieldsOf(l, r) == TargetFields(s)
  {
    var c := Candidate(l, now, s);
    ShiftByWeeks(l, c, 1);
    if c < now then c + WeekMillis else c
  }

  /** No instant from `now` on with the target fields comes before NextFire:
      it is the next occurrence of the weekday and time. */
  lemma {:induction false} NextFireIsEarliest(l: Locale, now: int, s: Schedule, t: int)
    requires ValidLocale(l) && ValidTime(s)
    requires now <= t && FieldsOf(l, t) == TargetFields(s)
    ensures NextFire(l, now, s) <= t
  {
    var r := NextFire(l, now, s);
    if t < r {
      SameFieldsAWeekApart(l, t, r);
    }
  }

  /** For an in-range time, the candidate computed one week later lies
      exactly one week later: both share the target fields, and their weeks
      begin one week apart. */
  lemma {:induction false} CandidateOneWeekLater(l: Locale, now: int, s: Schedule)
    requires ValidLocale(l) && ValidTime(s)
    ensures Candidate(l, now + WeekMillis, s) == Candidate(l, now, s) + WeekMillis
  {
    var c := Candidate(l, now, s);
    var c' := Candidate(l, now + WeekMillis, s);
    WithFieldsShift(l, now, TargetFields(s));
    OffsetOfFields(l, c);
    OffsetOfFields(l, c');
  }

  /** Running the computation one week later gives an instant exactly one
      week later. */
  lemma {:induction false} NextFireOneWeekLater(l: Locale, now: int, s: Schedule)
    requires ValidLocale(l) && ValidTime(s)
    ensures NextFire(l, now + WeekMillis, s) == NextFire(l, now, s) + WeekMillis
  {
    CandidateOneWeekLater(l, now, s);
  }

  /** An alarm armed for `s` and fired at any moment after its instant, up to
      one week after it, re-arms exactly one week after that instant. */
  lemma {:induction false} RearmOneWeekLater(l: Locale, armedAt: int, fire: int, s: Schedule)
    requires ValidLocale(l) && ValidTime(s)
    requires NextFire(l, armedAt, s) < fire <= NextFire(l, armedAt, s) + WeekMillis
    ensures NextFire(l, fire, s) == NextFire(l, armedAt, s) + WeekMillis
  {
    var a := NextFire(l, armedAt, s);
    ShiftByWeeks(l, a, 1);
    NextFireIsEarliest(l, fire, s, a + WeekMillis);
    SameFieldsAWeekApart(l, a, NextFire(l, fire, s));
  }

  /** Because `before` is strict, firing at exactly the armed instant re-arms
      that same instant rather than the next week's. */
  lemma {:induction false} RearmAtArmedInstant(l: Locale, armedAt: int, s: Schedule)
    requires ValidLocale(l) && ValidTime(s)
    ensures NextFire(l, NextFire(l, armedAt, s), s) == NextFire(l, armedAt, s)
  {
    var a := NextFire(l, armedAt, s);
    SameFieldsAWeekApart(l, a, NextFire(l, a, s));
  }

  /** The extras put on the broadcast Intent. */
  function Payload(s: Schedule): (x: Extras)
    ensures x.Keys == {"id", "message", "weekday", "hour", "minute"}
  {
    map["id" := IntExtra(s.id), "message" := StringExtra(s.message),
        "weekday" := IntExtra(s.weekday), "hour" := IntExtra(s.hour),
        "minute" := IntExtra(s.minute)]
  }

  /** The alarm one call arms, or None when the platform refuses it: exact
      one-shot from SDK M on, weekly repeating below. */
  function Arming(p: Platform, now: int, s: Schedule): (r: Option<Alarm>)
    requires ValidLocale(p.locale)
    ensures r.None? <==> p.sdk >= VersionCodeM && !p.exactAlarmsAllowed
    ensures r.Some? ==> (r.value.trigger == OneShot <==> p.sdk >= VersionCodeM)
    ensures r.Some? && r.value.trigger.Repeating? ==> r.value.trigger.intervalMillis == WeekMillis
  {
    if p.sdk >= VersionCodeM then
      if p.exactAlarmsAllowed then Some(Alarm(NextFire(p.locale, now, s), OneShot, Payload(s))) else None
    else
      Some(Alarm(NextFire(p.locale, now, s), Repeating(WeekMillis), Payload(s)))
  }

  /** Arming a schedule again after its alarm went off, at most a week late,
      arms the same alarm, with the same extras, exactly one week on. */
  lemma {:induction false} ArmingOneWeekOn(p: Platform, armedAt: int, fire: int, s: Schedule)
    requires ValidLocale(p.locale) && ValidTime(s) && Arming(p, armedAt, s).Some?
    requires Arming(p, armedAt, s).value.triggerAt < fire <= Arming(p, armedAt, s).value.triggerAt + WeekMillis
    ensures Arming(p, armedAt, s).value.payload == Payload(s)
    ensures Arming(p, fire, s) ==
            Some(Arming(p, armedAt, s).value.(triggerAt := Arming(p, armedAt, s).value.triggerAt + WeekMillis))
  {
    assert Arming(p, armedAt, s).value.triggerAt == NextFire(p.locale, armedAt, s);
    RearmOneWeekLater(p.locale, armedAt, fire, s);
    ArmingFollowsNextFire(p, armedAt, fire, s);
  }

  /** Helper: arming at two instants whose next fire times are a week apart
      arms the same alarm a week apart. */
  lemma ArmingFollowsNextFire(p: Platform, now1: int, now2: int, s: Schedule)
    requires ValidLocale(p.locale) && Arming(p, now1, s).Some?
    requires NextFire(p.locale, now2, s) == NextFire(p.locale, now1, s) + WeekMillis
    ensures Arming(p, now1, s).value.payload == Payload(s)
    ensures Arming(p, now2, s) ==
            Some(Arming(p, now1, s).value.(triggerAt := Arming(p, now1, s).value.triggerAt + WeekMillis))
  {
    var a1 := Arming(p, now1, s).value;
    var a2 := Arming(p, now2, s).value;
    assert a2.triggerAt == a1.triggerAt + WeekMillis;
    assert a2.trigger == a1.trigger && a2.payload == a1.payload;
  }

  /** The registry after one call: slot `s.id` holds the new alarm, or nothing
      changes when arming failed. */
  function Arm(p: Platform, now: int, alarms: map<int, Alarm>, s: Schedule): (r: map<int, Alarm>)
    requires ValidLocale(p.locale)
    ensures forall id :: id != s.id ==> (id in r <==> id in alarms)
    ensures forall id :: id != s.id && id in r ==> r[id] == alarms[id]
    ensures Arming(p, now, s).Some? ==> s.id in r && r[s.id] == Arming(p, now, s).value
    ensures Arming(p, now, s).None? ==> r == alarms
  {
    match Arming(p, now, s)
    case Some(a) => alarms[s.id := a]
    case None => alarms
  }

  /** The registry after one call per schedule, in order. */
  function ArmAll(p: Platform, now: int, alarms: map<int, Alarm>, ss: seq<Schedule>): (r: map<int, Alarm>)
    requires ValidLocale(p.locale)
    ensures forall id :: id in r ==> id in alarms || exists j :: 0 <= j < |ss| && ss[j].id == id
    decreases |ss|
  {
    if ss == [] then alarms else ArmAll(p, now, Arm(p, now, alarms, ss[0]), ss[1..])
  }

  /** What the platform records for one call per schedule, in order. */
  function ArmEvents(p: Platform, now: int, ss: seq<Schedule>): (r: seq<Event>)
    requires ValidLocale(p.locale)
    ensures p.sdk < VersionCodeM || p.exactAlarmsAllowed ==> |r| == |ss|
    ensures p.sdk >= VersionCodeM && !p.exactAlarmsAllowed ==> r == []
    ensures forall i :: 0 <= i < |r| ==> r[i].Armed? && exists j :: 0 <= j < |ss| && ss[j].id == r[i].id
    decreases |ss|
  {
    if ss == [] then []
    else
      (match Arming(p, now, ss[0])
       case Some(a) => [Armed(ss[0].id, a)]
       case None => []) + ArmEvents(p, now, ss[1..])
  }

  /** Arming a list is arming its first part, then the rest. */
  lemma {:induction false} ArmAllAppend(p: Platform, now: int, alarms: map<int, Alarm>, a: seq<Schedule>, b: seq<Schedule>)
    requires ValidLocale(p.locale)
    ensures ArmAll(p, now, alarms, a + b) == ArmAll(p, now, ArmAll(p, now, alarms, a), b)
    decreases |a|
  {
    if a == [] {
      assert a + b == b;
    } else {
      assert (a + b)[0] == a[0] && (a + b)[1..] == a[1..] + b;
      ArmAllAppend(p, now, Arm(p, now, alarms, a[0]), a[1..], b);
    }
  }

  /** The platform records the calls for a list as those for its first part,
      then those for the rest. */
  lemma {:induction false} ArmEventsAppend(p: Platform, now: int, a: seq<Schedule>, b: seq<Schedule>)
    requires ValidLocale(p.locale)
    ensures ArmEvents(p, now, a + b) == ArmEvents(p, now, a) + ArmEvents(p, now, b)
    decreases |a|
  {
    if a == [] {
      assert a + b == b;
    } else {
      assert (a + b)[0] == a[0] && (a + b)[1..] == a[1..] + b;
      ArmEventsAppend(p, now, a[1..], b);
      var first := match Arming(p, now, a[0]) case Some(x) => [Armed(a[0].id, x)] case None => [];
      AppendAssoc(first, ArmEvents(p, now, a[1..]), ArmEvents(p, now, b));
    }
  }

  /** Helper: concatenation regroups, so event lists can be extended a step
      at a time. */
  lemma AppendAssoc<T>(a: seq<T>, b: seq<T>, c: seq<T>)
    ensures (a + b) + c == a + (b + c)
  {
  }

  /** Arming one id twice, possibly under different permissions: when the
      second call succeeds it leaves what it alone would leave, one alarm in
      that slot, the latest; when it fails the first call's alarm stays. */
  lemma ArmSameIdTwice(p1: Platform, p2: Platform, now1: int, now2: int, alarms: map<int, Alarm>,
                       s1: Schedule, s2: Schedule)
    requires ValidLocale(p1.locale) && ValidLocale(p2.locale) && s1.id == s2.id
    ensures Arming(p2, now2, s2).Some? ==>
      Arm(p2, now2, Arm(p1, now1, alarms, s1), s2) == Arm(p2, now2, alarms, s2)
    ensures Arming(p2, now2, s2).None? ==>
      Arm(p2, now2, Arm(p1, now1, alarms, s1), s2) == Arm(p1, now1, alarms, s1)
  {
  }

  /** Arming a list leaves every slot no schedule in it names untouched. */
  lemma {:induction false} ArmAllOtherSlots(p: Platform, now: int, alarms: map<int, Alarm>, ss: seq<Schedule>, id: int)
    requires ValidLocale(p.locale)
    requires forall j :: 0 <= j < |ss| ==> ss[j].id != id
    ensures id in ArmAll(p, now, alarms, ss) <==> id in alarms
    ensures id in alarms ==> ArmAll(p, now, alarms, ss)[id] == alarms[id]
    decreases |ss|
  {
    if ss != [] {
      ArmAllOtherSlots(p, now, Arm(p, now, alarms, ss[0]), ss[1..], id);
    }
  }

  /** When the platform accepts alarms, the slot of an id holds the alarm of
      the last schedule in the list with that id. */
  lemma {:induction false} ArmAllLastWins(p: Platform, now: int, alarms: map<int, Alarm>,
                                          pre: seq<Schedule>, s: Schedule, post: seq<Schedule>)
    requires ValidLocale(p.locale) && Arming(p, now, s).Some?
    requires forall j :: 0 <= j < |post| ==> post[j].id != s.id
    ensures s.id in ArmAll(p, now, alarms, pre + [s] + post)
    ensures ArmAll(p, now, alarms, pre + [s] + post)[s.id] == Arming(p, now, s).value
    decreases |pre|
  {
    if pre == [] {
      assert pre + [s] + post == [s] + post;
      assert ([s] + post)[1..] == post;
      ArmAllOtherSlots(p, now, Arm(p, now, alarms, s), post, s.id);
    } else {
      assert (pre + [s] + post)[1..] == pre[1..] + [s] + post;
      ArmAllLastWins(p, now, Arm(p, now, alarms, pre[0]), pre[1..], s, post);
    }
  }

  /** AlarmScheduler.scheduleWeeklyAlarm. */
  method ScheduleWeeklyAlarm(dev: Device, now: int, id: int, weekday: int, hour: int, minute: int,
                             message: string) returns (ok: bool)
    requires ValidLocale(dev.platform.locale)
    modifies dev
    ensures ok <==> Arming(dev.platform, now, Schedule(id, weekday, hour, minute, message)).Some?
    ensures dev.alarms == Arm(dev.platform, now, old(dev.alarms), Schedule(id, weekday, hour, minute, message))
    ensures dev.log == old(dev.log) + ArmEvents(dev.platform, now, [Schedule(id, weekday, hour, minute, message)])
    ensures dev.notifications == old(dev.notifications) && dev.prefs == old(dev.prefs)
  {
    var l := dev.platform.locale;
    var payload := Payload(Schedule(id, weekday, hour, minute, message));
    var calendar := now;
    calendar := SetHourOfDay(l, calendar, hour);
    calendar := SetMinute(l, calendar, minute);
    calendar := SetSecond(l, calendar, 0);
    calendar := SetMillisecond(l, calendar, 0);
    var calendarWeekday := CalendarWeekday(weekday);
    calendar := SetDayOfWeek(l, calendar, calendarWeekday);
    if calendar < now {
      calendar := calendar + WeekMillis;
    }
    if dev.platform.sdk >= VersionCodeM {
      ok := dev.SetExactAndAllowWhileIdle(id, calendar, payload);
    } else {
      dev.SetRepeating(id, calendar, WeekMillis, payload);
      ok := true;
    }
  }

  /** AlarmScheduler.cancelAlarm: empties slot `id` and no other. */
  method CancelAlarm(dev: Device, id: int)
    modifies dev
    ensures dev.alarms == old(dev.alarms) - {id}
    ensures id !in old(dev.alarms) ==> dev.alarms == old(dev.alarms)
    ensures dev.log == old(dev.log) + [Cancelled(id)]
    ensures dev.notifications == old(dev.notifications) && dev.prefs == old(dev.prefs)
  {
    dev.Cancel(id);
  }
}
