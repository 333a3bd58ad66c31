/** BootReceiver.kt: after a reboot or an app update, arm again every enabled
    reminder stored in the preferences.  One handler guards the whole walk
    over the stored list, so the first record that cannot be read ends it. */
module BootReceiver {
  import opened Optional
  import opened CalendarTime
  import opened Android
  import opened AlarmScheduler

  const ActionBootCompleted: string := "android.intent.action.BOOT_COMPLETED"
  const ActionMyPackageReplaced: string := "android.intent.action.MY_PACKAGE_REPLACED"
  const SchedulesKey: string := "flutter.time_table_schedules"

  /** One element of the stored JSON array as its getters see it: not an
      object at all, or an object whose fields each hold the value the getter
      returns, or None where the getter throws (missing or not convertible). */
  datatype Entry =
    | NotAnObject
    | Object(enabled: Option<bool>, id: Option<int>, weekday: Option<int>,
             hour: Option<int>, minute: Option<int>, message: Option<string>)

  /** What the loop body does with one entry. */
  datatype Step = Skip | Rearm(schedule: Schedule) | Abort

  /** The body of the loop for one entry: `enabled` is read first; only an
      enabled record has its other five fields read, all before the call. */
  function ReadEntry(e: Entry): (st: Step)
    ensures st.Skip? <==> e.Object? && e.enabled == Some(false)
    ensures st.Rearm? <==> e.Object? && e.enabled == Some(true) && e.id.Some? && e.weekday.Some? &&
                           e.hour.Some? && e.minute.Some? && e.message.Some?
    ensures st.Rearm? ==> st.schedule == Schedule(e.id.value, e.weekday.value, e.hour.value,
                                                  e.minute.value, e.message.value)
  {
    match e
    case NotAnObject => Abort
    case Object(enabled, id, weekday, hour, minute, message) =>
      match enabled
      case None => Abort
      case Some(false) => Skip
      case Some(true) =>
        if id.Some? && weekday.Some? && hour.Some? && minute.Some? && message.Some?
        then Rearm(Schedule(id.value, weekday.value, hour.value, minute.value, message.value))
        else Abort
  }

  predicate NoAbort(es: seq<Entry>) {
    forall i :: 0 <= i < |es| ==> !ReadEntry(es[i]).Abort?
  }

  /** The reminders the walk arms, in order: those of the enabled records
      before the first entry that throws. It arms at most one reminder per
      entry. */
  function Plan(es: seq<Entry>): (ss: seq<Schedule>)
    ensures |ss| <= |es|
    decreases |es|
  {
    if es == [] then []
    else
      match ReadEntry(es[0])
      case Abort => []
      case Skip => Plan(es[1..])
      case Rearm(s) => [s] + Plan(es[1..])
  }

  /** A list that reads cleanly contributes its own reminders and lets the
      walk go on. */
  lemma {:induction false} PlanAppend(a: seq<Entry>, b: seq<Entry>)
    requires NoAbort(a)
    ensures Plan(a + b) == Plan(a) + Plan(b)
    decreases |a|
  {
    if a == [] {
      assert a + b == b;
    } else {
      assert (a + b)[0] == a[0] && !ReadEntry(a[0]).Abort?;
      assert (a + b)[1..] == a[1..] + b;
      assert NoAbort(a[1..]) by {
        forall i | 0 <= i < |a[1..]| ensures !ReadEntry(a[1..][i]).Abort? {
          assert a[1..][i] == a[i + 1];
        }
      }
      PlanAppend(a[1..], b);
    }
  }

  /** An entry that throws ends the walk: nothing at or after it is armed,
      and everything before it is armed as if it were the whole list. */
  lemma {:induction false} PlanStopsAtAbort(a: seq<Entry>, e: Entry, b: seq<Entry>)
    requires ReadEntry(e).Abort?
    ensures Plan(a + [e] + b) == Plan(a)
    decreases |a|
  {
    if a == [] {
      assert a + [e] + b == [e] + b;
    } else {
      assert (a + [e] + b)[0] == a[0];
      assert (a + [e] + b)[1..] == a[1..] + [e] + b;
      PlanStopsAtAbort(a[1..], e, b);
    }
  }

  /** Every reminder armed is the reminder of some enabled record with no
      throwing entry before it. */
  lemma {:induction false} PlanSound(es: seq<Entry>, j: int)
    requires 0 <= j < |Plan(es)|
    ensures exists i :: 0 <= i < |es| && NoAbort(es[..i]) && ReadEntry(es[i]) == Rearm(Plan(es)[j])
    decreases |es|
  {
    match ReadEntry(es[0])
    case Rearm(s) =>
      if j == 0 {
        assert es[..0] == [];
        assert ReadEntry(es[0]) == Rearm(Plan(es)[j]);
      } else {
        PlanSound(es[1..], j - 1);
        var i :| 0 <= i < |es[1..]| && NoAbort(es[1..][..i]) && ReadEntry(es[1..][i]) == Rearm(Plan(es[1..])[j - 1]);
        assert es[..i + 1] == [es[0]] + es[1..][..i];
        assert ReadEntry(es[i + 1]) == Rearm(Plan(es)[j]);
      }
    case Skip =>
      PlanSound(es[1..], j);
      var i :| 0 <= i < |es[1..]| && NoAbort(es[1..][..i]) && ReadEntry(es[1..][i]) == Rearm(Plan(es[1..])[j]);
      assert es[..i + 1] == [es[0]] + es[1..][..i];
      assert ReadEntry(es[i + 1]) == Rearm(Plan(es)[j]);
  }

  /** Every enabled record with no throwing entry before it is armed. */
  lemma {:induction false} PlanComplete(es: seq<Entry>, i: int)
    requires 0 <= i < |es| && NoAbort(es[..i]) && ReadEntry(es[i]).Rearm?
    ensures ReadEntry(es[i]).schedule in Plan(es)
  {
    assert es == es[..i] + ([es[i]] + es[i + 1..]);
    PlanAppend(es[..i], [es[i]] + es[i + 1..]);
    assert ([es[i]] + es[i + 1..])[1..] == es[i + 1..];
    assert Plan([es[i]] + es[i + 1..]) == [ReadEntry(es[i]).schedule] + Plan(es[i + 1..]);
    assert Plan(es) == Plan(es[..i]) + Plan([es[i]] + es[i + 1..]);
    assert ReadEntry(es[i]).schedule == Plan(es)[|Plan(es[..i])|];
  }

  /** The stored list text, "[]" when the key is missing. */
  function StoredSchedules(prefs: map<string, string>): string {
    if SchedulesKey in prefs then prefs[SchedulesKey] else "[]"
  }

  /** Put/get laws of the stored list: the text just stored under the key is
      read back, other keys do not affect it, and with the key removed it
      reads as the empty array. */
  lemma StoredSchedulesLaws(prefs: map<string, string>, k: string, v: string)
    ensures StoredSchedules(prefs[SchedulesKey := v]) == v
    ensures k != SchedulesKey ==> StoredSchedules(prefs[k := v]) == StoredSchedules(prefs)
    ensures StoredSchedules(prefs - {SchedulesKey}) == "[]"
  {
  }

  /** With no stored list, restoration arms nothing. */
  lemma MissingKeyArmsNothing(prefs: map<string, string>, parse: string -> Option<seq<Entry>>)
    requires SchedulesKey !in prefs && parse("[]") == Some([])
    ensures Plan(parse(StoredSchedules(prefs)).GetOr([])) == []
  {
  }

  /** The two-record list of an enabled reminder 1 and a disabled reminder 2
      arms reminder 1 alone. */
  lemma EnabledThenDisabled(s1: Schedule, s2: Schedule)
    ensures Plan([Object(Some(true), Some(s1.id), Some(s1.weekday), Some(s1.hour), Some(s1.minute), Some(s1.message)),
                  Object(Some(false), Some(s2.id), Some(s2.weekday), Some(s2.hour), Some(s2.minute), Some(s2.message))])
            == [s1]
  {
    var es := [Object(Some(true), Some(s1.id), Some(s1.weekday), Some(s1.hour), Some(s1.minute), Some(s1.message)),
               Object(Some(false), Some(s2.id), Some(s2.weekday), Some(s2.hour), Some(s2.minute), Some(s2.message))];
    assert ReadEntry(es[0]) == Rearm(s1) && ReadEntry(es[1]) == Skip;
    assert es[1..][1..] == [];
    assert Plan(es[1..]) == Plan(es[1..][1..]) == [];
  }

  /** After a readable entry the processed prefix grows by that entry's own
      reminders: the registry and the events extend by exactly those. */
  lemma {:induction false} PrefixGrows(p: Platform, now: int, alarms: map<int, Alarm>, es: seq<Entry>, i: int)
    requires ValidLocale(p.locale)
    requires 0 <= i < |es| && NoAbort(es[..i]) && !ReadEntry(es[i]).Abort?
    ensures NoAbort(es[..i + 1])
    ensures ArmAll(p, now, alarms, Plan(es[..i + 1])) ==
            ArmAll(p, now, ArmAll(p, now, alarms, Plan(es[..i])), Plan([es[i]]))
    ensures ArmEvents(p, now, Plan(es[..i + 1])) ==
            ArmEvents(p, now, Plan(es[..i])) + ArmEvents(p, now, Plan([es[i]]))
  {
    assert es[..i + 1] == es[..i] + [es[i]];
    PlanAppend(es[..i], [es[i]]);
    ArmAllAppend(p, now, alarms, Plan(es[..i]), Plan([es[i]]));
    ArmEventsAppend(p, now, Plan(es[..i]), Plan([es[i]]));
  }

  /** After an unreadable entry the processed prefix is all the walk arms. */
  lemma {:induction false} PrefixIsAll(es: seq<Entry>, i: int)
    requires 0 <= i < |es| && ReadEntry(es[i]).Abort?
    ensures Plan(es) == Plan(es[..i])
  {
    assert es == es[..i] + [es[i]] + es[i + 1..];
    PlanStopsAtAbort(es[..i], es[i], es[i + 1..]);
  }

  /** One pass of the loop body of rescheduleAllAlarms: arms the entry's
      reminder when it is enabled, and reports false when it throws. */
  method RestoreEntry(dev: Device, now: int, e: Entry) returns (ok: bool)
    requires ValidLocale(dev.platform.locale)
    modifies dev
    ensures ok <==> !ReadEntry(e).Abort?
    ensures dev.alarms == ArmAll(dev.platform, now, old(dev.alarms), Plan([e]))
    ensures dev.log == old(dev.log) + ArmEvents(dev.platform, now, Plan([e]))
    ensures dev.notifications == old(dev.notifications) && dev.prefs == old(dev.prefs)
  {
    assert [e][1..] == [];
    var step := ReadEntry(e);
    ok := !step.Abort?;
    if step.Rearm? {
      var s := step.schedule;
      assert Plan([e]) == [s];
      var _ := ScheduleWeeklyAlarm(dev, now, s.id, s.weekday, s.hour, s.minute, s.message);
    }
  }

  /** BootReceiver.rescheduleAllAlarms. */
  method RescheduleAllAlarms(dev: Device, now: int, parse: string -> Option<seq<Entry>>)
    requires ValidLocale(dev.platform.locale)
    modifies dev
    ensures dev.alarms == ArmAll(dev.platform, now, old(dev.alarms), Plan(parse(StoredSchedules(old(dev.prefs))).GetOr([])))
    ensures dev.log == old(dev.log) + ArmEvents(dev.platform, now, Plan(parse(StoredSchedules(old(dev.prefs))).GetOr([])))
    ensures parse(StoredSchedules(old(dev.prefs))).None? ==> dev.alarms == old(dev.alarms) && dev.log == old(dev.log)
    ensures dev.notifications == old(dev.notifications) && dev.prefs == old(dev.prefs)
  {
    var schedulesJson := StoredSchedules(dev.prefs);
    var jsonArray := parse(schedulesJson);
    if jsonArray.None? {
      return;
    }
    var es := jsonArray.value;
    var i := 0;
    while i < |es|
      invariant 0 <= i <= |es| && NoAbort(es[..i])
      invariant dev.alarms == ArmAll(dev.platform, now, old(dev.alarms), Plan(es[..i]))
      invariant dev.log == old(dev.log) + ArmEvents(dev.platform, now, Plan(es[..i]))
      invariant dev.notifications == old(dev.notifications) && dev.prefs == old(dev.prefs)
    {
      ghost var done := ArmEvents(dev.platform, now, Plan(es[..i]));
      var ok := RestoreEntry(dev, now, es[i]);
      if !ok {
        PrefixIsAll(es, i);
        return;
      }
      PrefixGrows(dev.platform, now, old(dev.alarms), es, i);
      ghost var step := ArmEvents(dev.platform, now, Plan([es[i]]));
      AppendAssoc(old(dev.log), done, step);
      i := i + 1;
    }
    assert es[..i] == es;
  }

  /** BootReceiver.onReceive: only a boot or an update of this app restores. */
  method OnReceive(dev: Device, now: int, action: string, parse: string -> Option<seq<Entry>>)
    requires ValidLocale(dev.platform.locale)
    modifies dev
    ensures dev.alarms ==
      if action == ActionBootCompleted || action == ActionMyPackageReplaced
      then ArmAll(dev.platform, now, old(dev.alarms), Plan(parse(StoredSchedules(old(dev.prefs))).GetOr([])))
      else old(dev.alarms)
    ensures dev.log ==
      if action == ActionBootCompleted || action == ActionMyPackageReplaced
      then old(dev.log) + ArmEvents(dev.platform, now, Plan(parse(StoredSchedules(old(dev.prefs))).GetOr([])))
      else old(dev.log)
    ensures dev.notifications == old(dev.notifications) && dev.prefs == old(dev.prefs)
  {
    if action == ActionBootCompleted || action == ActionMyPackageReplaced {
      RescheduleAllAlarms(dev, now, parse);
    }
  }
}
