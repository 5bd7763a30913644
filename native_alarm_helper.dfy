/** NativeAlarmHelper: one reminder per notification id, stored as a record
    under key "notif_<id>" of the "session_notifications" preferences and
    registered with the alarm service under request code <id>. */
module NativeAlarmHelper {
  import opened Wrappers
  import opened Text

  /** The six fields of the stored JSON object. */
  datatype ReminderRecord = ReminderRecord(
    notificationId: Int32,
    sessionId: string,
    title: string,
    body: string,
    offsetMinutes: Int32,
    scheduledTime: Int64)

  /** A stored preference value: text that parses into all six fields, or
      anything else (unparsable text, a missing field). */
  datatype StoredValue = Json(record: ReminderRecord) | Unreadable

  /** The extras of the broadcast an alarm delivers to NotificationBroadcastReceiver:
      the five a registration puts, or none at all (the bare intent
      cancelAlarm builds). */
  datatype AlarmExtras =
    | AlarmExtras(
        notificationId: Int32,
        sessionId: string,
        title: string,
        body: string,
        offsetMinutes: Int32)
    | NoExtras

  /** A registered one-shot RTC_WAKEUP alarm. */
  datatype Alarm = Alarm(fireAt: Int64, extras: AlarmExtras)

  /** What the alarm service does with a registration: accept it, refuse it
      with a SecurityException, or be absent (getSystemService gave null). */
  datatype AlarmService = Available | Refused | Absent

  const KeyPrefix: string := "notif_"

  function NotifKey(notificationId: int): string {
    KeyPrefix + IntToString(notificationId)
  }

  predicate IsNotifKey(key: string) {
    StartsWith(key, KeyPrefix)
  }

  lemma NotifKeyIsNotifKey(notificationId: int)
    ensures IsNotifKey(NotifKey(notificationId))
  {
    assert NotifKey(notificationId)[..|KeyPrefix|] == KeyPrefix;
  }

  /** Distinct ids never share a key, so each id has at most one record. */
  lemma NotifKeyInjective(a: int, b: int)
    requires NotifKey(a) == NotifKey(b)
    ensures a == b
  {
    assert IntToString(a) == NotifKey(a)[|KeyPrefix|..] == NotifKey(b)[|KeyPrefix|..] == IntToString(b);
    IntToStringInjective(a, b);
  }

  function RecordFor(notificationId: Int32, sessionId: string, title: string, body: string,
                     offsetMinutes: Int32, scheduledTime: Int64): ReminderRecord
  {
    ReminderRecord(notificationId, sessionId, title, body, offsetMinutes, scheduledTime)
  }

  function ExtrasOf(r: ReminderRecord): AlarmExtras {
    AlarmExtras(r.notificationId, r.sessionId, r.title, r.body, r.offsetMinutes)
  }

  /** The per-id view of the store: the readable record held for `id`, if any. */
  function Lookup(prefs: map<string, StoredValue>, notificationId: int): Option<ReminderRecord> {
    var key := NotifKey(notificationId);
    if key in prefs && prefs[key].Json? then Some(prefs[key].record) else None
  }

  /** Every readable record under a "notif_" key sits under its own id's key.
      Scheduling, cancelling, firing and boot replay all keep this. */
  ghost predicate WellKeyed(prefs: map<string, StoredValue>) {
    forall key | key in prefs && IsNotifKey(key) && prefs[key].Json? ::
      key == NotifKey(prefs[key].record.notificationId)
  }

  /** Storing a record under its id's key: the id now has exactly that
      record, and every other id keeps what it had. */
  lemma StoreRecordEffect(prefs: map<string, StoredValue>, r: ReminderRecord, other: int)
    ensures Lookup(prefs[NotifKey(r.notificationId) := Json(r)], r.notificationId) == Some(r)
    ensures other != r.notificationId ==>
      Lookup(prefs[NotifKey(r.notificationId) := Json(r)], other) == Lookup(prefs, other)
  {
    if NotifKey(other) == NotifKey(r.notificationId) {
      NotifKeyInjective(other, r.notificationId);
    }
  }

  /** Removing an id's key: the id has no record, every other id keeps its own. */
  lemma RemoveRecordEffect(prefs: map<string, StoredValue>, notificationId: int, other: int)
    ensures Lookup(prefs - {NotifKey(notificationId)}, notificationId) == None
    ensures other != notificationId ==>
      Lookup(prefs - {NotifKey(notificationId)}, other) == Lookup(prefs, other)
  {
    if NotifKey(other) == NotifKey(notificationId) {
      NotifKeyInjective(other, notificationId);
    }
  }

  lemma StorePreservesWellKeyed(prefs: map<string, StoredValue>, r: ReminderRecord)
    requires WellKeyed(prefs)
    ensures WellKeyed(prefs[NotifKey(r.notificationId) := Json(r)])
  {
  }

  lemma RemovePreservesWellKeyed(prefs: map<string, StoredValue>, key: string)
    requires WellKeyed(prefs)
    ensures WellKeyed(prefs - {key})
  {
  }

  /** getBroadcast(_, id, intent, FLAG_UPDATE_CURRENT): an alarm already
      registered under request code `id` keeps its time and from now on
      delivers `extras`; without such an alarm nothing changes. */
  function WithExtras(alarms: map<int, Alarm>, id: int, extras: AlarmExtras): (r: map<int, Alarm>)
    ensures r.Keys == alarms.Keys
    ensures forall j | j in r && j != id :: r[j] == alarms[j]
    ensures id in r ==> r[id].fireAt == alarms[id].fireAt && r[id].extras == extras
  {
    if id in alarms then alarms[id := Alarm(alarms[id].fireAt, extras)] else alarms
  }

  class ReminderStore {
    /** The "session_notifications" preferences. */
    var prefs: map<string, StoredValue>
    /** Registered alarms by request code. A registration with a request code
        already in use replaces the earlier alarm. Independently of any
        registration, obtaining the pending intent with FLAG_UPDATE_CURRENT
        gives an existing alarm under that request code the new extras. */
    var alarms: map<int, Alarm>

    constructor (prefs: map<string, StoredValue>, alarms: map<int, Alarm>)
      ensures this.prefs == prefs && this.alarms == alarms
    {
      this.prefs := prefs;
      this.alarms := alarms;
    }

    /** scheduleAlarm: write the record first, then register the alarm for
        `scheduledTime` under request code `notificationId`. A refusal or a
        missing alarm service is only logged: the record stays. */
    method ScheduleAlarm(notificationId: Int32, sessionId: string, title: string, body: string,
                         offsetMinutes: Int32, scheduledTime: Int64, service: AlarmService)
      modifies this
      ensures prefs == old(prefs)[NotifKey(notificationId) :=
                Json(RecordFor(notificationId, sessionId, title, body, offsetMinutes, scheduledTime))]
      ensures alarms == if service == Available
        then old(alarms)[notificationId := Alarm(scheduledTime, AlarmExtras(notificationId, sessionId, title, body, offsetMinutes))]
        else WithExtras(old(alarms), notificationId, AlarmExtras(notificationId, sessionId, title, body, offsetMinutes))
      ensures Lookup(prefs, notificationId) == Some(RecordFor(notificationId, sessionId, title, body, offsetMinutes, scheduledTime))
      ensures forall other | other != notificationId :: Lookup(prefs, other) == Lookup(old(prefs), other)
      ensures WellKeyed(old(prefs)) ==> WellKeyed(prefs)
    {
      var data := RecordFor(notificationId, sessionId, title, body, offsetMinutes, scheduledTime);
      prefs := prefs[NotifKey(notificationId) := Json(data)];
      var extras := AlarmExtras(notificationId, sessionId, title, body, offsetMinutes);
      alarms := WithExtras(alarms, notificationId, extras);
      if service == Available {
        alarms := alarms[notificationId := Alarm(scheduledTime, extras)];
      }
      forall other | true
        ensures Lookup(prefs, notificationId) == Some(data)
        ensures other != notificationId ==> Lookup(prefs, other) == Lookup(old(prefs), other)
      {
        StoreRecordEffect(old(prefs), data, other);
      }
    }

    /** cancelAlarm: obtain the pending intent for a bare intent (which strips
        an existing alarm's extras), deregister the alarm when the alarm
        service exists, and delete key "notif_<id>"; nothing else changes. */
    method CancelAlarm(notificationId: Int32, serviceExists: bool)
      modifies this
      ensures alarms == if serviceExists then old(alarms) - {notificationId}
                        else WithExtras(old(alarms), notificationId, NoExtras)
      ensures prefs == old(prefs) - {NotifKey(notificationId)}
      ensures Lookup(prefs, notificationId) == None
      ensures forall other | other != notificationId :: Lookup(prefs, other) == Lookup(old(prefs), other)
      ensures WellKeyed(old(prefs)) ==> WellKeyed(prefs)
    {
      alarms := WithExtras(alarms, notificationId, NoExtras);
      if serviceExists {
        alarms := alarms - {notificationId};
      }
      prefs := prefs - {NotifKey(notificationId)};
      forall other | true
        ensures Lookup(prefs, notificationId) == None
        ensures other != notificationId ==> Lookup(prefs, other) == Lookup(old(prefs), other)
      {
        RemoveRecordEffect(old(prefs), notificationId, other);
      }
    }
  }

  /** Scheduling the same id twice leaves one record, holding the second
      call's arguments, and one alarm, at the second call's time with the
      second call's extras; every other id keeps its record. */
  method RescheduleKeepsLatest(store: ReminderStore, id: Int32, first: ReminderRecord, second: ReminderRecord)
    requires first.notificationId == id && second.notificationId == id
    modifies store
    ensures store.prefs == old(store.prefs)[NotifKey(id) := Json(second)]
    ensures Lookup(store.prefs, id) == Some(second)
    ensures store.alarms == old(store.alarms)[id := Alarm(second.scheduledTime,
              AlarmExtras(id, second.sessionId, second.title, second.body, second.offsetMinutes))]
    ensures forall other | other != id :: Lookup(store.prefs, other) == Lookup(old(store.prefs), other)
  {
    store.ScheduleAlarm(id, first.sessionId, first.title, first.body, first.offsetMinutes, first.scheduledTime, Available);
    store.ScheduleAlarm(id, second.sessionId, second.title, second.body, second.offsetMinutes, second.scheduledTime, Available);
  }

  /** After rescheduling, cancelling leaves the id no record and no alarm,
      and the store otherwise as it was before the first schedule. */
  method RescheduleThenCancel(store: ReminderStore, id: Int32, first: ReminderRecord, second: ReminderRecord)
    requires first.notificationId == id && second.notificationId == id
    modifies store
    ensures Lookup(store.prefs, id) == None && id !in store.alarms
    ensures store.prefs == old(store.prefs) - {NotifKey(id)}
    ensures store.alarms == old(store.alarms) - {id}
    ensures forall other | other != id :: Lookup(store.prefs, other) == Lookup(old(store.prefs), other)
  {
    ghost var before := store.prefs;
    RescheduleKeepsLatest(store, id, first, second);
    store.CancelAlarm(id, true);
    assert store.prefs == before[NotifKey(id) := Json(second)] - {NotifKey(id)};
    assert store.prefs == before - {NotifKey(id)};
  }
}
