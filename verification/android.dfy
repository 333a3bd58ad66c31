/** The Android services the app talks to, as abstract state: the alarm
    registry (AlarmManager), the notification tray (NotificationManager) and
    the shared preference store, plus the key/value extras an Intent carries.
    They are black boxes; this module gives each call the effect the platform
    documents and nothing more. */
module Android {
  import opened Optional
  import opened CalendarTime

  /** Build.VERSION_CODES.M: the first release with setExactAndAllowWhileIdle. */
  const VersionCodeM: int := 23

  /** One value stored by Intent.putExtra. */
  datatype Extra = IntExtra(intValue: int) | StringExtra(stringValue: string)

  type Extras = map<string, Extra>

  /** Intent.getIntExtra: the stored int, or `default` when the key is absent
      or holds something else. */
  function GetIntExtra(x: Extras, key: string, default: int): int {
    if key in x && x[key].IntExtra? then x[key].intValue else default
  }

  /** Intent.getStringExtra: the stored string, or null (None). */
  function GetStringExtra(x: Extras, key: string): Option<string> {
    if key in x && x[key].StringExtra? then Some(x[key].stringValue) else None
  }

  /** Put/get laws of int extras: the int under `k` reads back, a put under
      another key leaves `k` as it was, and a missing key or a string under
      `k` reads as the default. */
  lemma IntExtraLaws(x: Extras, k: string, k': string, e: Extra, n: int, str: string, d: int)
    ensures GetIntExtra(x[k := IntExtra(n)], k, d) == n
    ensures k' != k ==> GetIntExtra(x[k := e], k', d) == GetIntExtra(x, k', d)
    ensures k !in x ==> GetIntExtra(x, k, d) == d
    ensures GetIntExtra(x[k := StringExtra(str)], k, d) == d
    ensures k in x && x[k].IntExtra? ==> GetIntExtra(x, k, d) == x[k].intValue
    ensures k in x && x[k].StringExtra? ==> GetIntExtra(x, k, d) == d
  {
  }

  /** Put/get laws of string extras: the string under `k` reads back, a put
      under another key leaves `k` as it was, and a missing key or an int
      under `k` reads as null. */
  lemma StringExtraLaws(x: Extras, k: string, k': string, e: Extra, n: int, str: string)
    ensures GetStringExtra(x[k := StringExtra(str)], k) == Some(str)
    ensures k' != k ==> GetStringExtra(x[k := e], k') == GetStringExtra(x, k')
    ensures k !in x ==> GetStringExtra(x, k) == None
    ensures GetStringExtra(x[k := IntExtra(n)], k) == None
    ensures k in x && x[k].StringExtra? ==> GetStringExtra(x, k) == Some(x[k].stringValue)
    ensures k in x && x[k].IntExtra? ==> GetStringExtra(x, k) == None
  {
  }

  /** A one-shot alarm, or one that repeats every `intervalMillis`. */
  datatype Trigger = OneShot | Repeating(intervalMillis: int)

  /** An armed alarm: when it fires, how it repeats, and the extras of the
      broadcast it delivers. */
  datatype Alarm = Alarm(triggerAt: int, trigger: Trigger, payload: Extras)

  datatype Notification = Notification(channel: string, title: string, text: string)

  /** What the platform observably did, in order. */
  datatype Event =
    | Armed(id: int, alarm: Alarm)
    | Cancelled(id: int)
    | Posted(id: int, notification: Notification)

  /** What the app cannot change: the SDK level, whether exact alarms are
      permitted (without that permission setExactAndAllowWhileIdle throws a
      SecurityException), and the calendar locale. */
  datatype Platform = Platform(sdk: int, exactAlarmsAllowed: bool, locale: Locale)

  class Device {
    const platform: Platform
    /** AlarmManager: at most one alarm per PendingIntent request code. */
    var alarms: map<int, Alarm>
    /** NotificationManager: at most one notification per id. */
    var notifications: map<int, Notification>
    /** SharedPreferences string entries. */
    var prefs: map<string, string>
    ghost var log: seq<Event>

    constructor (platform: Platform, prefs: map<string, string>)
      ensures this.platform == platform && this.prefs == prefs
      ensures alarms == map[] && notifications == map[] && log == []
    {
      this.platform := platform;
      this.prefs := prefs;
      alarms := map[];
      notifications := map[];
      log := [];
    }

    /** AlarmManager.setExactAndAllowWhileIdle(RTC_WAKEUP, at, pendingIntent):
        replaces the alarm of request code `id`; `ok` is false when it throws. */
    method SetExactAndAllowWhileIdle(id: int, at: int, payload: Extras) returns (ok: bool)
      modifies this
      ensures ok == platform.exactAlarmsAllowed
      ensures alarms == if ok then old(alarms)[id := Alarm(at, OneShot, payload)] else old(alarms)
      ensures log == old(log) + if ok then [Armed(id, Alarm(at, OneShot, payload))] else []
      ensures notifications == old(notifications) && prefs == old(prefs)
    {
      ok := platform.exactAlarmsAllowed;
      if ok {
        alarms := alarms[id := Alarm(at, OneShot, payload)];
        log := log + [Armed(id, Alarm(at, OneShot, payload))];
      }
    }

    /** AlarmManager.setRepeating(RTC_WAKEUP, at, interval, pendingIntent). */
    method SetRepeating(id: int, at: int, interval: int, payload: Extras)
      modifies this
      ensures alarms == old(alarms)[id := Alarm(at, Repeating(interval), payload)]
      ensures log == old(log) + [Armed(id, Alarm(at, Repeating(interval), payload))]
      ensures notifications == old(notifications) && prefs == old(prefs)
    {
      alarms := alarms[id := Alarm(at, Repeating(interval), payload)];
      log := log + [Armed(id, Alarm(at, Repeating(interval), payload))];
    }

    /** AlarmManager.cancel(pendingIntent): removes the alarm of request code
        `id`, if there is one. */
    method Cancel(id: int)
      modifies this
      ensures alarms == old(alarms) - {id}
      ensures log == old(log) + [Cancelled(id)]
      ensures notifications == old(notifications) && prefs == old(prefs)
    {
      alarms := alarms - {id};
      log := log + [Cancelled(id)];
    }

    /** NotificationManager.notify(id, n): replaces the notification `id`. */
    method Notify(id: int, n: Notification)
      modifies this
      ensures notifications == old(notifications)[id := n]
      ensures log == old(log) + [Posted(id, n)]
      ensures alarms == old(alarms) && prefs == old(prefs)
    {
      notifications := notifications[id := n];
      log := log + [Posted(id, n)];
    }
  }
}
