/** AlarmReceiver.kt: when an alarm fires, post the reminder and, from SDK M
    on, arm the next week's alarm from the fired broadcast's own extras. */
module AlarmReceiver {
  import opened Optional
  import opened CalendarTime
  import opened Android
  import opened AlarmScheduler

  const DefaultMessage: string := "Class Reminder"
  const NotificationTitle: string := "Time Table"
  const ChannelId: string := "time_table_channel"

  /** The reminder read back from a fired broadcast, each field falling back
      to its default when missing: id 0, weekday 1, hour 9, minute 0, message
      "Class Reminder". */
  function DecodePayload(x: Extras): (s: Schedule)
    ensures "id" in x && x["id"].IntExtra? ==> s.id == x["id"].intValue
    ensures "weekday" in x && x["weekday"].IntExtra? ==> s.weekday == x["weekday"].intValue
    ensures "hour" in x && x["hour"].IntExtra? ==> s.hour == x["hour"].intValue
    ensures "minute" in x && x["minute"].IntExtra? ==> s.minute == x["minute"].intValue
    ensures "message" in x && x["message"].StringExtra? ==> s.message == x["message"].stringValue
  {
    Schedule(GetIntExtra(x, "id", 0),
             GetIntExtra(x, "weekday", 1),
             GetIntExtra(x, "hour", 9),
             GetIntExtra(x, "minute", 0),
             GetStringExtra(x, "message").GetOr(DefaultMessage))
  }

  /** What the scheduler writes, the receiver reads back unchanged. */
  lemma PayloadRoundTrip(s: Schedule)
    ensures DecodePayload(Payload(s)) == s
  {
  }

  /** Each extra that is missing, or holds a value of the wrong type, decodes
      to its default, whatever the others hold. */
  lemma MissingExtrasDefault(x: Extras)
    ensures !("id" in x && x["id"].IntExtra?) ==> DecodePayload(x).id == 0
    ensures !("weekday" in x && x["weekday"].IntExtra?) ==> DecodePayload(x).weekday == 1
    ensures !("hour" in x && x["hour"].IntExtra?) ==> DecodePayload(x).hour == 9
    ensures !("minute" in x && x["minute"].IntExtra?) ==> DecodePayload(x).minute == 0
    ensures !("message" in x && x["message"].StringExtra?) ==> DecodePayload(x).message == DefaultMessage
    ensures DecodePayload(map[]) == Schedule(0, 1, 9, 0, DefaultMessage)
  {
  }

  /** A broadcast re-armed by the handler gets the same alarm it came from,
      one week on, provided it fires after its instant and no more than a week
      late. */
  lemma {:induction false} FireRearmsOneWeekOn(p: Platform, armedAt: int, fire: int, s: Schedule)
    requires ValidLocale(p.locale) && ValidTime(s) && Arming(p, armedAt, s).Some?
    requires Arming(p, armedAt, s).value.triggerAt < fire <= Arming(p, armedAt, s).value.triggerAt + WeekMillis
    ensures Arming(p, fire, DecodePayload(Arming(p, armedAt, s).value.payload)) ==
            Some(Arming(p, armedAt, s).value.(triggerAt := Arming(p, armedAt, s).value.triggerAt + WeekMillis))
  {
    ArmingOneWeekOn(p, armedAt, fire, s);
    PayloadRoundTrip(s);
  }

  /** Firing the broadcast of reminder 5, "Math", Wednesday (app weekday 3)
      at 09:00, from SDK M on with exact alarms allowed: the notification
      reads "Time Table" / "Math" and the next alarm falls on a Calendar
      WEDNESDAY at 09:00:00.000 within the coming week. */
  lemma {:induction false} MathReminderExample(p: Platform, now: int)
    requires ValidLocale(p.locale) && p.sdk >= VersionCodeM && p.exactAlarmsAllowed
    ensures var s := DecodePayload(Payload(Schedule(5, 3, 9, 0, "Math")));
      s.id == 5 && Notification(ChannelId, NotificationTitle, s.message) == Notification(ChannelId, "Time Table", "Math") &&
      Arming(p, now, s).Some? && Arming(p, now, s).value.trigger == OneShot &&
      FieldsOf(p.locale, Arming(p, now, s).value.triggerAt) == Fields(Wednesday, 9, 0, 0, 0) &&
      now <= Arming(p, now, s).value.triggerAt < now + WeekMillis
  {
    var s := Schedule(5, 3, 9, 0, "Math");
    PayloadRoundTrip(s);
    assert ValidTime(s) && TargetFields(s) == Fields(Wednesday, 9, 0, 0, 0);
  }

  /** AlarmReceiver.showNotification: one notification, in slot `id`. */
  method ShowNotification(dev: Device, id: int, message: string)
    modifies dev
    ensures dev.notifications == old(dev.notifications)[id := Notification(ChannelId, NotificationTitle, message)]
    ensures id in dev.notifications && dev.notifications[id].title == "Time Table" &&
            dev.notifications[id].channel == "time_table_channel" && dev.notifications[id].text == message
    ensures dev.log == old(dev.log) + [Posted(id, Notification(ChannelId, NotificationTitle, message))]
    ensures dev.alarms == old(dev.alarms) && dev.prefs == old(dev.prefs)
  {
    var notification := Notification(ChannelId, NotificationTitle, message);
    dev.Notify(id, notification);
  }

  /** AlarmReceiver.rescheduleForNextWeek: arms the decoded reminder again. */
  method RescheduleForNextWeek(dev: Device, now: int, originalIntent: Extras)
    requires ValidLocale(dev.platform.locale)
    modifies dev
    ensures dev.alarms == Arm(dev.platform, now, old(dev.alarms), DecodePayload(originalIntent))
    ensures dev.log == old(dev.log) + ArmEvents(dev.platform, now, [DecodePayload(originalIntent)])
    ensures dev.notifications == old(dev.notifications) && dev.prefs == old(dev.prefs)
  {
    var id := GetIntExtra(originalIntent, "id", 0);
    var weekday := GetIntExtra(originalIntent, "weekday", 1);
    var hour := GetIntExtra(originalIntent, "hour", 9);
    var minute := GetIntExtra(originalIntent, "minute", 0);
    var message := GetStringExtra(originalIntent, "message").GetOr(DefaultMessage);
    var _ := ScheduleWeeklyAlarm(dev, now, id, weekday, hour, minute, message);
  }

  /** AlarmReceiver.onReceive: posts first, then re-arms from SDK M on. */
  method OnReceive(dev: Device, now: int, intent: Extras)
    requires ValidLocale(dev.platform.locale)
    modifies dev
    ensures var s := DecodePayload(intent);
      dev.notifications == old(dev.notifications)[s.id := Notification(ChannelId, NotificationTitle, s.message)]
    ensures dev.alarms ==
      if dev.platform.sdk >= VersionCodeM
      then Arm(dev.platform, now, old(dev.alarms), DecodePayload(intent))
      else old(dev.alarms)
    ensures var s := DecodePayload(intent);
      dev.log == old(dev.log) + [Posted(s.id, Notification(ChannelId, NotificationTitle, s.message))] +
        (if dev.platform.sdk >= VersionCodeM then ArmEvents(dev.platform, now, [s]) else [])
    ensures dev.prefs == old(dev.prefs)
  {
    var id := GetIntExtra(intent, "id", 0);
    var message := GetStringExtra(intent, "message").GetOr(DefaultMessage);
    ShowNotification(dev, id, message);
    if dev.platform.sdk >= VersionCodeM {
      RescheduleForNextWeek(dev, now, intent);
    }
  }
}
