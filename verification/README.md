# Time Table weekly reminders — a Dafny model

The Android side of the "Time Table" app keeps weekly class reminders alive with three small pieces of
code:

- **AlarmScheduler** turns a reminder (id, weekday Monday = 1 … Sunday = 7, hour, minute, message)
  into the next instant it is due. It sets that time on that weekday of the current calendar week and
  moves it one week on when it is strictly in the past. It then arms one alarm in the registry slot of
  the reminder's id, carrying the whole reminder as broadcast extras. It can also cancel the alarm of an
  id.
- **AlarmReceiver** runs when an alarm fires. It reads the extras back, with a default for each
  missing one, and posts one notification in slot `id`. From SDK 23 (M) on it then arms next week's
  alarm from the same extras.
- **BootReceiver** runs after a reboot or an app update. It reads the stored list of reminders and
  arms every enabled one, in list order. A single handler guards the whole walk, so the first record
  that cannot be read ends it.

The model has one module per component, plus three modules of support:

- `CalendarTime` (calendar_time.dfy) stands in for `java.util.Calendar`. Instants are integer
  milliseconds and every week is exactly 604 800 000 ms. A `Locale` says where weeks begin. `FieldsOf`
  gives an instant's weekday, hour, minute, second and millisecond. Each `set` call the source makes is
  a function that keeps the week and every other field.
- `Android` (android.dfy) holds the platform as abstract state: a `Device` class whose fields are the
  alarm registry (`map<int, Alarm>`), the notification tray (`map<int, Notification>`) and the string
  preferences. A ghost `log` records the platform's observable effects in order. Intent extras are a
  `map<string, Extra>`.
- `Optional` (optional.dfy) holds `Option`.
- `AlarmScheduler`, `AlarmReceiver` and `BootReceiver` are the three Kotlin files. Each source method
  that changes platform state is a module-level Dafny method that takes the `Device` and `modifies`
  it. The only methods of the `Device` class itself are the four platform calls. The source methods
  are specified by pure functions:
  - `NextFire` gives the instant that is armed.
  - `Arm` and `ArmAll` give the registry after one call or after a list of calls.
  - `Plan` gives the reminders a boot restoration arms.

Lemmas prove what the source promises about these functions:

- The weekday mapping is a bijection.
- The armed instant has the requested weekday and time with zero seconds. It lies in `[now, now + 1 week)`
  and is the earliest such instant from `now` on.
- Re-arming on fire lands exactly one week later.
- The extras round-trip from scheduler to receiver.
- Boot restoration arms exactly the enabled records before the first unreadable one, in order.

## Model

| member | source | states |
|---|---|---|
| CalendarTime.SinceWeekStart | android/app/src/main/kotlin/com/basil/time_table/AlarmScheduler.kt:37 | the time elapsed since the start of the current week always lies within one week |
| CalendarTime.WeekStart | android/app/src/main/kotlin/com/basil/time_table/AlarmScheduler.kt:37 | the current calendar week starts at or before `t`, less than a week before it, at a week boundary |
| CalendarTime.DayIndex | android/app/src/main/kotlin/com/basil/time_table/AlarmScheduler.kt:45 | a weekday lies 0 to 6 days after the locale's first day of the week |
| CalendarTime.FieldsOf | android/app/src/main/kotlin/com/basil/time_table/AlarmScheduler.kt:37-45 | every instant has a weekday in 1..7 and hour, minute, second and millisecond within their ranges |
| CalendarTime.DayIndexRoundTrip | android/app/src/main/kotlin/com/basil/time_table/AlarmScheduler.kt:45 | counting a weekday's days from the first day of the week and back gives the same weekday |
| CalendarTime.FieldsOfOffset | android/app/src/main/kotlin/com/basil/time_table/AlarmScheduler.kt:37-45 | the instant at a week start plus the offset of valid fields lies in that week and has exactly those fields |
| CalendarTime.OffsetOfFields | android/app/src/main/kotlin/com/basil/time_table/AlarmScheduler.kt:37-45 | an instant's fields determine its offset into its week (fields and offset-in-week are in bijection) |
| CalendarTime.SameFieldsAWeekApart | android/app/src/main/kotlin/com/basil/time_table/AlarmScheduler.kt:47-50 | two distinct instants with the same weekday and time are at least a week apart |
| CalendarTime.ShiftByWeeks | android/app/src/main/kotlin/com/basil/time_table/AlarmScheduler.kt:49 | adding whole weeks (`add(WEEK_OF_YEAR, n)`) keeps every field and moves the week start by as much |
| CalendarTime.WithFieldsSets | android/app/src/main/kotlin/com/basil/time_table/AlarmScheduler.kt:37-45 | setting valid fields yields an instant of the same week with exactly those fields |
| CalendarTime.WithFieldsShift | android/app/src/main/kotlin/com/basil/time_table/AlarmScheduler.kt:37-45 | an instant one week later has the same fields, and setting fields there lands exactly one week later |
| CalendarTime.SetHourOfDay | android/app/src/main/kotlin/com/basil/time_table/AlarmScheduler.kt:38 | `set(HOUR_OF_DAY, h)` changes the hour to `h` and keeps the week and every other field |
| CalendarTime.SetMinute | android/app/src/main/kotlin/com/basil/time_table/AlarmScheduler.kt:39 | `set(MINUTE, m)` changes the minute only |
| CalendarTime.SetSecond | android/app/src/main/kotlin/com/basil/time_table/AlarmScheduler.kt:40 | `set(SECOND, s)` changes the second only |
| CalendarTime.SetMillisecond | android/app/src/main/kotlin/com/basil/time_table/AlarmScheduler.kt:41 | `set(MILLISECOND, ms)` changes the millisecond only |
| CalendarTime.SetDayOfWeek | android/app/src/main/kotlin/com/basil/time_table/AlarmScheduler.kt:45 | `set(DAY_OF_WEEK, d)` moves to weekday `d` of the same week and keeps the time of day |
| Android.IntExtraLaws | android/app/src/main/kotlin/com/basil/time_table/AlarmReceiver.kt:39-42 | `getIntExtra` reads back the int stored, or just put, under a key; a put under another key does not disturb it; a missing key, or a string under the key, reads as the default |
| Android.StringExtraLaws | android/app/src/main/kotlin/com/basil/time_table/AlarmReceiver.kt:43 | `getStringExtra` reads back the string stored, or just put, under a key; a put under another key does not disturb it; a missing key, or an int under the key, reads as null |
| Android.Device.SetExactAndAllowWhileIdle | android/app/src/main/kotlin/com/basil/time_table/AlarmScheduler.kt:55-59 | succeeds exactly when exact alarms are allowed; on success slot `id` holds a one-shot alarm, on failure nothing changes |
| Android.Device.SetRepeating | android/app/src/main/kotlin/com/basil/time_table/AlarmScheduler.kt:61-66 | slot `id` holds an alarm repeating at the given interval; the other slots are unchanged |
| Android.Device.Cancel | android/app/src/main/kotlin/com/basil/time_table/AlarmScheduler.kt:84 | slot `id` is emptied and nothing else changes |
| Android.Device.Notify | android/app/src/main/kotlin/com/basil/time_table/AlarmReceiver.kt:35 | notification slot `id` holds the new notification and replaces any earlier one |
| AlarmScheduler.CalendarWeekday | android/app/src/main/kotlin/com/basil/time_table/AlarmScheduler.kt:43-44 | an app weekday 1..7 becomes a Calendar weekday 1..7 |
| AlarmScheduler.AppWeekday | android/app/src/main/kotlin/com/basil/time_table/AlarmScheduler.kt:43-44 | every Calendar weekday is the image of an app weekday 1..7 (the mapping is onto; uniqueness is in WeekdayMappingBijective) |
| AlarmScheduler.WeekdayMappingBijective | android/app/src/main/kotlin/com/basil/time_table/AlarmScheduler.kt:43-45 | Monday..Saturday go to Calendar 2..7 and Sunday to Calendar.SUNDAY (1); the mapping is injective on 1..7 and `AppWeekday` inverts it |
| AlarmScheduler.Candidate | android/app/src/main/kotlin/com/basil/time_table/AlarmScheduler.kt:37-45 | after the five `set` calls the calendar is in the week of `now`, on the mapped weekday, at hour:minute:00.000 |
| AlarmScheduler.NextFire | android/app/src/main/kotlin/com/basil/time_table/AlarmScheduler.kt:47-50 | the candidate moves on exactly one week iff it is strictly before `now`; for valid input the result is in `[now, now + 1 week)` and falls on the mapped weekday at hour:minute:00.000 |
| AlarmScheduler.NextFireIsEarliest | android/app/src/main/kotlin/com/basil/time_table/AlarmScheduler.kt:37-50 | no instant from `now` on with that weekday and time comes before the armed one: it is the next occurrence |
| AlarmScheduler.CandidateOneWeekLater | android/app/src/main/kotlin/com/basil/time_table/AlarmScheduler.kt:37-45 | for an in-range time, the calendar steps run one week later give an instant exactly one week later |
| AlarmScheduler.NextFireOneWeekLater | android/app/src/main/kotlin/com/basil/time_table/AlarmScheduler.kt:37-50 | for an in-range time, the next-fire computation run one week later yields exactly one week later |
| AlarmScheduler.RearmOneWeekLater | android/app/src/main/kotlin/com/basil/time_table/AlarmScheduler.kt:47-50 | recomputing at any moment strictly after the armed instant, and at most a week after it, gives the armed instant plus one week |
| AlarmScheduler.RearmAtArmedInstant | android/app/src/main/kotlin/com/basil/time_table/AlarmScheduler.kt:48 | because `before` is strict, recomputing at exactly the armed instant gives that same instant |
| AlarmScheduler.Payload | android/app/src/main/kotlin/com/basil/time_table/AlarmScheduler.kt:22-28 | the broadcast carries exactly the five extras id, message, weekday, hour and minute |
| AlarmScheduler.Arming | android/app/src/main/kotlin/com/basil/time_table/AlarmScheduler.kt:53-72 | arming fails exactly when the SDK is at least M and exact alarms are not allowed; from M on the alarm is one-shot, below M it repeats every 7 days |
| AlarmScheduler.ArmingOneWeekOn | android/app/src/main/kotlin/com/basil/time_table/AlarmScheduler.kt:37-72 | arming a reminder again after its alarm went off, at most a week late, arms the same alarm with the same extras exactly one week later |
| AlarmScheduler.Arm | android/app/src/main/kotlin/com/basil/time_table/AlarmScheduler.kt:53-72 | when arming succeeds slot `id` holds the new alarm; when it fails the registry is unchanged; every other slot is unchanged |
| AlarmScheduler.ArmAll | android/app/src/main/kotlin/com/basil/time_table/AlarmScheduler.kt:30-35 | arming a list only fills slots that were already occupied or that some schedule in the list names |
| AlarmScheduler.ArmEvents | android/app/src/main/kotlin/com/basil/time_table/AlarmScheduler.kt:53-72 | one arm event per schedule when arming cannot fail, none when it always fails, and every event arms a slot some schedule in the list names |
| AlarmScheduler.ArmAllAppend | android/app/src/main/kotlin/com/basil/time_table/AlarmScheduler.kt:53-72 | arming `a + b` leaves the registry that arming `a` and then `b` leaves |
| AlarmScheduler.ArmEventsAppend | android/app/src/main/kotlin/com/basil/time_table/AlarmScheduler.kt:53-72 | the platform calls for `a + b` are those for `a` followed by those for `b` |
| AlarmScheduler.ArmSameIdTwice | android/app/src/main/kotlin/com/basil/time_table/AlarmScheduler.kt:30-35 | arming one id twice, possibly under different permissions: if the second call succeeds the slot holds only its alarm, as if the first had not happened; if it fails the first call's result stays |
| AlarmScheduler.ArmAllOtherSlots | android/app/src/main/kotlin/com/basil/time_table/AlarmScheduler.kt:30-35 | arming a list leaves untouched every slot that no schedule in the list names |
| AlarmScheduler.ArmAllLastWins | android/app/src/main/kotlin/com/basil/time_table/AlarmScheduler.kt:30-35 | when the platform accepts alarms, after arming a list an id's slot holds the alarm of the last schedule in the list with that id |
| AlarmScheduler.ScheduleWeeklyAlarm | android/app/src/main/kotlin/com/basil/time_table/AlarmScheduler.kt:12-73 | returns true iff the platform accepted the alarm; the registry becomes `Arm(...)` of the old one, with the alarm at `NextFire` carrying `Payload`; notifications and preferences are unchanged |
| AlarmScheduler.CancelAlarm | android/app/src/main/kotlin/com/basil/time_table/AlarmScheduler.kt:75-85 | only slot `id` is emptied, and cancelling an absent id leaves the registry unchanged |
| AlarmReceiver.DecodePayload | android/app/src/main/kotlin/com/basil/time_table/AlarmReceiver.kt:39-43 | every extra present with the right type is read back as the corresponding field of the reminder (MissingExtrasDefault gives the defaults for the others) |
| AlarmReceiver.PayloadRoundTrip | android/app/src/main/kotlin/com/basil/time_table/AlarmReceiver.kt:38-46 | decoding the extras the scheduler wrote gives back the original id, weekday, hour, minute and message |
| AlarmReceiver.MissingExtrasDefault | android/app/src/main/kotlin/com/basil/time_table/AlarmReceiver.kt:39-43 | an id, weekday, hour, minute or message that is missing, or holds a value of the wrong type, decodes to 0, 1, 9, 0 or "Class Reminder" |
| AlarmReceiver.FireRearmsOneWeekOn | android/app/src/main/kotlin/com/basil/time_table/AlarmReceiver.kt:38-46 | firing strictly after the armed instant, and at most a week late, re-arms the same alarm with the same extras exactly one week on |
| AlarmReceiver.MathReminderExample | android/app/src/main/kotlin/com/basil/time_table/AlarmReceiver.kt:13-23 | from SDK M on, with exact alarms allowed, reminder {5, Wednesday, 09:00, "Math"} posts "Time Table"/"Math" in slot 5 and arms a one-shot alarm on the coming Calendar WEDNESDAY at 09:00:00.000 |
| AlarmReceiver.ShowNotification | android/app/src/main/kotlin/com/basil/time_table/AlarmReceiver.kt:25-36 | exactly one notification is posted, in slot `id`, replacing any earlier one there; it is on channel "time_table_channel", titled "Time Table", with the message as its text; alarms and preferences are unchanged |
| AlarmReceiver.RescheduleForNextWeek | android/app/src/main/kotlin/com/basil/time_table/AlarmReceiver.kt:38-47 | the decoded reminder is armed again, as by `ScheduleWeeklyAlarm` |
| AlarmReceiver.OnReceive | android/app/src/main/kotlin/com/basil/time_table/AlarmReceiver.kt:13-23 | posts the decoded message in slot `id`; from SDK M on it then re-arms the decoded reminder, logged after the notification; below M the registry is unchanged |
| BootReceiver.ReadEntry | android/app/src/main/kotlin/com/basil/time_table/BootReceiver.kt:26-36 | an object record with enabled = false is skipped whatever its other fields; an enabled record is armed with its own five fields iff all of them read; anything else throws |
| BootReceiver.Plan | android/app/src/main/kotlin/com/basil/time_table/BootReceiver.kt:25-38 | the walk arms at most one reminder per entry (what it arms is pinned down by PlanSound, PlanComplete and PlanStopsAtAbort) |
| BootReceiver.PlanAppend | android/app/src/main/kotlin/com/basil/time_table/BootReceiver.kt:25-38 | a prefix with no unreadable entry contributes its own reminders, in order, and lets the walk go on |
| BootReceiver.PlanStopsAtAbort | android/app/src/main/kotlin/com/basil/time_table/BootReceiver.kt:22-41 | an unreadable record stops the walk: nothing at or after it is armed, and the records before it are armed as if they were the whole list |
| BootReceiver.PlanSound | android/app/src/main/kotlin/com/basil/time_table/BootReceiver.kt:25-38 | every armed reminder is the reminder of an enabled record with no unreadable entry before it |
| BootReceiver.PlanComplete | android/app/src/main/kotlin/com/basil/time_table/BootReceiver.kt:25-38 | every enabled, readable record with no unreadable entry before it is armed |
| BootReceiver.PrefixIsAll | android/app/src/main/kotlin/com/basil/time_table/BootReceiver.kt:22-41 | when entry `i` throws, the whole walk arms exactly what the entries before `i` arm |
| BootReceiver.RestoreEntry | android/app/src/main/kotlin/com/basil/time_table/BootReceiver.kt:26-37 | one pass of the loop body: reports failure exactly when the entry throws, and otherwise arms that entry's planned reminder (or nothing when it is disabled); notifications and preferences are unchanged |
| BootReceiver.StoredSchedulesLaws | android/app/src/main/kotlin/com/basil/time_table/BootReceiver.kt:19-20 | the stored list text is the preference under "flutter.time_table_schedules": a value just stored there is read back, other keys do not affect it, and with the key removed it reads as "[]" |
| BootReceiver.MissingKeyArmsNothing | android/app/src/main/kotlin/com/basil/time_table/BootReceiver.kt:19-20 | a missing preference key reads as "[]" and arms nothing |
| BootReceiver.EnabledThenDisabled | android/app/src/main/kotlin/com/basil/time_table/BootReceiver.kt:25-37 | the list [enabled reminder 1, disabled reminder 2] arms reminder 1 alone |
| BootReceiver.RescheduleAllAlarms | android/app/src/main/kotlin/com/basil/time_table/BootReceiver.kt:18-42 | the registry and the log end as if `ScheduleWeeklyAlarm` had been called once per planned reminder, in order; a stored text that does not parse as an array changes neither; no exception escapes; notifications and preferences are unchanged |
| BootReceiver.OnReceive | android/app/src/main/kotlin/com/basil/time_table/BootReceiver.kt:10-16 | only BOOT_COMPLETED and MY_PACKAGE_REPLACED restore; any other action changes nothing |

`before` at AlarmScheduler.kt:48 is strict, so the candidate moves on only when it is strictly before
`now`, and the armed instant lies in `[now, now + 7 days)`. `RearmAtArmedInstant` shows that a
broadcast handled in the very millisecond it was armed for re-arms that same instant.

## Left out

- The method-call bridge, notification-channel creation and the runtime permission request in
  MainActivity.kt are not part of this model. They only forward arguments to the scheduler.
- The build configuration is not part of this model. Its `minSdk = 26` makes the `setRepeating` branch
  and the SDK test in the receiver moot in practice. The model keeps both, with the SDK level as a
  `Platform` parameter.
- Time zones, daylight saving, and the lenient roll-over of an out-of-range hour, minute or weekday are
  not modelled: every week is 604 800 000 ms. The lemmas require weekday 1..7, hour 0..23 and minute
  0..59, which the code itself never checks. For values outside these ranges the model's `set`
  functions extend the arithmetic linearly for the hour, minute, second and millisecond. The weekday
  instead wraps modulo 7 within the same week: app weekday 8 (Calendar 9) lands on the Monday of the
  current week. No claim is made that either matches Calendar. Weekday 0 maps to Calendar.SUNDAY, as
  in the code.
- The locale's first day of the week is a parameter (`Locale.firstDayOfWeek`); its value is not
  derived.
- The scheduler reads the clock twice, once when it builds the calendar and once for the `before`
  test. The model uses one instant `now` for both.
- A boot restoration or a fire handler runs at one instant `now`. Time does not advance inside it.
- Alarm failures are modelled as one platform flag: `setExactAndAllowWhileIdle` throws when exact
  alarms are not allowed, and `setRepeating` never fails. Exceptions thrown by `PendingIntent.getBroadcast`,
  which happen outside the handler, are not modelled.
- PendingIntent identity is reduced to the request code `id`.
- With FLAG_UPDATE_CURRENT, Android refreshes the extras of an existing PendingIntent before the arm
  call. The model does not capture that refresh when the arm call then fails: a failed arm leaves the
  registry unchanged.
- JSON parsing and the SharedPreferences read are abstract:
  - Parsing is a function parameter returning `Option<seq<Entry>>`.
  - Each record field holds what its org.json getter returns, or `None` where the getter throws.
    The getters' own conversions, such as numeric strings accepted by `getInt`, are not modelled.
  - A preference value that is not a string is not modelled.
- An Intent action of null is not modelled; the action is a string.
- `printStackTrace` logging is not modelled.
- The notification's icon, priority and auto-cancel flag are not modelled. Only its channel, title and
  text are.
- AlarmReceiver.OnReceive: AlarmManager drops a one-shot alarm when it delivers it, before the receiver
  runs. The model has no delivery step, so after `OnReceive` the fired one-shot alarm is still in
  `dev.alarms` whenever the re-arm does not overwrite that slot (it always does when arming succeeds,
  because the slot is the same id).
- The exact-alarm permission is part of the constant `Platform` of a `Device`, so within one device run
  a success followed by a failure cannot happen. Revoking the permission between two fires, the case
  where the weekly chain silently stops on API 31 and later, is therefore not modelled as a state change.
- AlarmScheduler.ArmSameIdTwice: because of the constant permission, the lemma takes the two calls'
  platforms as separate parameters instead of reading them from one device. It states the failing
  second call (the first call's alarm stays) as a fact about registries, not about a device run.
- AlarmScheduler.CalendarWeekday: Kotlin's `weekday + 1` is a 32-bit Int and wraps at Int.MAX_VALUE;
  the model's integers are unbounded. Ids, hours, minutes and times are unbounded integers too.
