/** BootReceiver: after a reboot or an app update, re-register the alarms of
    stored reminders still in the future and delete the expired and the
    unreadable ones. */
module BootReceiver {
  import opened Wrappers
  import opened Text
  import opened NativeAlarmHelper

  const ActionBootCompleted: string := "android.intent.action.BOOT_COMPLETED"
  const ActionMyPackageReplaced: string := "android.intent.action.MY_PACKAGE_REPLACED"
  const ActionPackageReplaced: string := "android.intent.action.PACKAGE_REPLACED"

  predicate TriggersReplay(action: Option<string>) {
    action.Some? && action.value in [ActionBootCompleted, ActionMyPackageReplaced, ActionPackageReplaced]
  }

  /** A readable record whose time has not come yet. */
  predicate Upcoming(v: StoredValue, now: int) {
    v.Json? && v.record.scheduledTime > now
  }

  /** An entry replay keeps: not a reminder key, or an upcoming reminder. */
  predicate Survives(key: string, v: StoredValue, now: int) {
    !IsNotifKey(key) || Upcoming(v, now)
  }

  /** The store after replay: expired and unreadable reminders are gone. */
  function Replayed(prefs: map<string, StoredValue>, now: int): (r: map<string, StoredValue>)
    ensures r.Keys <= prefs.Keys && forall key | key in r :: r[key] == prefs[key]
    ensures forall key | key in prefs && !IsNotifKey(key) :: key in r
  {
    map key | key in prefs && Survives(key, prefs[key], now) :: prefs[key]
  }

  /** The alarms replay adds: one per upcoming reminder, at its stored time
      with its stored fields. */
  function ReplayedAlarms(prefs: map<string, StoredValue>, now: int): map<int, Alarm>
    requires WellKeyed(prefs)
  {
    map key | key in prefs && IsNotifKey(key) && Upcoming(prefs[key], now)
      :: prefs[key].record.notificationId as int := Alarm(prefs[key].record.scheduledTime, ExtrasOf(prefs[key].record))
  }

  /** What a replay whose registrations the alarm service refuses (or that
      finds no alarm service) does to the alarms: each alarm already
      registered under a replayed id keeps its time and takes the replayed
      extras; no alarm is added. */
  function Refreshed(base: map<int, Alarm>, replayed: map<int, Alarm>): (r: map<int, Alarm>)
    ensures r.Keys == base.Keys
    ensures forall id | id in r :: r[id].fireAt == base[id].fireAt
  {
    map id | id in base :: if id in replayed then Alarm(base[id].fireAt, replayed[id].extras) else base[id]
  }

  /** Replay in progress: entries still in `todo` are as they were. */
  function PartlyReplayed(prefs: map<string, StoredValue>, todo: set<string>, now: int): map<string, StoredValue> {
    map key | key in prefs && (key in todo || Survives(key, prefs[key], now)) :: prefs[key]
  }

  function PartlyReplayedAlarms(prefs: map<string, StoredValue>, todo: set<string>, now: int): map<int, Alarm>
    requires WellKeyed(prefs)
  {
    map key | key in prefs && key !in todo && IsNotifKey(key) && Upcoming(prefs[key], now)
      :: prefs[key].record.notificationId as int := Alarm(prefs[key].record.scheduledTime, ExtrasOf(prefs[key].record))
  }

  /** An upcoming reminder is re-registered at its stored time with exactly
      its stored fields, and its record is kept. */
  lemma UpcomingRescheduled(prefs: map<string, StoredValue>, now: int, r: ReminderRecord)
    requires WellKeyed(prefs)
    requires Lookup(prefs, r.notificationId) == Some(r) && r.scheduledTime > now
    ensures Lookup(Replayed(prefs, now), r.notificationId) == Some(r)
    ensures r.notificationId as int in ReplayedAlarms(prefs, now)
    ensures ReplayedAlarms(prefs, now)[r.notificationId as int] == Alarm(r.scheduledTime, ExtrasOf(r))
  {
    NotifKeyIsNotifKey(r.notificationId);
  }

  /** An expired reminder loses its record and gets no alarm. */
  lemma ExpiredDiscarded(prefs: map<string, StoredValue>, now: int, r: ReminderRecord)
    requires WellKeyed(prefs)
    requires Lookup(prefs, r.notificationId) == Some(r) && r.scheduledTime <= now
    ensures Lookup(Replayed(prefs, now), r.notificationId) == None
    ensures r.notificationId as int !in ReplayedAlarms(prefs, now)
  {
    NotifKeyIsNotifKey(r.notificationId);
  }

  /** When every stored reminder is expired or unreadable, replay registers
      no alarm and leaves no reminder record. */
  lemma AllExpiredLeavesNothing(prefs: map<string, StoredValue>, now: int)
    requires WellKeyed(prefs)
    requires forall key | key in prefs && IsNotifKey(key) :: !Upcoming(prefs[key], now)
    ensures ReplayedAlarms(prefs, now) == map[]
    ensures forall key | key in Replayed(prefs, now) :: !IsNotifKey(key)
  {
  }

  /** Replaying twice at the same time changes nothing more. */
  lemma ReplayIdempotent(prefs: map<string, StoredValue>, now: int)
    ensures Replayed(Replayed(prefs, now), now) == Replayed(prefs, now)
  {
  }

  /** Replay keeps every id's record under that id's key. */
  lemma ReplayPreservesWellKeyed(prefs: map<string, StoredValue>, now: int)
    requires WellKeyed(prefs)
    ensures WellKeyed(Replayed(prefs, now))
  {
  }

  // ---------------------------------------------------------------------
  // One step of the replay loop, for each kind of entry

  lemma StepSkip(entries: map<string, StoredValue>, todo: set<string>, key: string, now: int)
    requires WellKeyed(entries) && key in todo && todo <= entries.Keys && !IsNotifKey(key)
    ensures PartlyReplayed(entries, todo - {key}, now) == PartlyReplayed(entries, todo, now)
    ensures PartlyReplayedAlarms(entries, todo - {key}, now) == PartlyReplayedAlarms(entries, todo, now)
  {
  }

  lemma StepDelete(entries: map<string, StoredValue>, todo: set<string>, key: string, now: int)
    requires WellKeyed(entries) && key in todo && todo <= entries.Keys
    requires IsNotifKey(key) && !Upcoming(entries[key], now)
    ensures PartlyReplayed(entries, todo - {key}, now) == PartlyReplayed(entries, todo, now) - {key}
    ensures PartlyReplayedAlarms(entries, todo - {key}, now) == PartlyReplayedAlarms(entries, todo, now)
  {
  }

  lemma StepReschedule(entries: map<string, StoredValue>, todo: set<string>, key: string, now: int)
    requires WellKeyed(entries) && key in todo && todo <= entries.Keys
    requires IsNotifKey(key) && Upcoming(entries[key], now)
    ensures var r := entries[key].record;
      key == NotifKey(r.notificationId)
      && PartlyReplayed(entries, todo - {key}, now) == PartlyReplayed(entries, todo, now)[key := Json(r)]
      && PartlyReplayedAlarms(entries, todo - {key}, now)
         == PartlyReplayedAlarms(entries, todo, now)[r.notificationId as int := Alarm(r.scheduledTime, ExtrasOf(r))]
  {
    var r := entries[key].record;
    var before := PartlyReplayedAlarms(entries, todo, now);
    var after := PartlyReplayedAlarms(entries, todo - {key}, now);
    var id := r.notificationId as int;
    assert after.Keys == before.Keys + {id};
    forall j | j in after ensures after[j] == before[id := Alarm(r.scheduledTime, ExtrasOf(r))][j] {
      if j != id {
        var k :| k in entries && k !in todo - {key} && IsNotifKey(k) && Upcoming(entries[k], now)
                 && entries[k].record.notificationId as int == j;
        assert k != key;
      }
    }
  }

  lemma UnionUpdate(base: map<int, Alarm>, added: map<int, Alarm>, id: int, a: Alarm)
    ensures (base + added)[id := a] == base + added[id := a]
  {
  }

  lemma RefreshedUpdate(base: map<int, Alarm>, replayed: map<int, Alarm>, id: int, a: Alarm)
    ensures Refreshed(base, replayed[id := a]) == WithExtras(Refreshed(base, replayed), id, a.extras)
  {
  }

  lemma ReplayDone(entries: map<string, StoredValue>, now: int)
    requires WellKeyed(entries)
    ensures PartlyReplayed(entries, {}, now) == Replayed(entries, now)
    ensures PartlyReplayedAlarms(entries, {}, now) == ReplayedAlarms(entries, now)
  {
  }

  lemma ReplayStart(entries: map<string, StoredValue>, now: int)
    requires WellKeyed(entries)
    ensures PartlyReplayed(entries, entries.Keys, now) == entries
    ensures PartlyReplayedAlarms(entries, entries.Keys, now) == map[]
  {
  }

  lemma RefreshedByNothing(base: map<int, Alarm>)
    ensures Refreshed(base, map[]) == base
  {
  }

  /** What holds after the loop has visited every entry outside `todo`:
      other keys are as they were and, with one record per id, the store and
      the alarms are partly replayed. */
  ghost predicate ReplayInvariant(prefs: map<string, StoredValue>, alarms: map<int, Alarm>,
                                  entries: map<string, StoredValue>, todo: set<string>, now: int,
                                  service: AlarmService, alarms0: map<int, Alarm>, wellKeyed: bool)
  {
    todo <= entries.Keys
    && (forall key | !IsNotifKey(key) ::
          (key in prefs <==> key in entries) && (key in prefs ==> prefs[key] == entries[key]))
    && (wellKeyed ==> WellKeyed(entries) && prefs == PartlyReplayed(entries, todo, now))
    && (wellKeyed ==>
          alarms == if service == Available then alarms0 + PartlyReplayedAlarms(entries, todo, now)
                    else Refreshed(alarms0, PartlyReplayedAlarms(entries, todo, now)))
  }

  /** One iteration: delete an expired or unreadable reminder, re-register
      an upcoming one, pass over any other key. */
  method ReplayEntry(store: ReminderStore, entries: map<string, StoredValue>, todo: set<string>, key: string,
                     now: int, service: AlarmService, ghost alarms0: map<int, Alarm>, ghost wellKeyed: bool)
    requires key in todo
    requires ReplayInvariant(store.prefs, store.alarms, entries, todo, now, service, alarms0, wellKeyed)
    modifies store
    ensures ReplayInvariant(store.prefs, store.alarms, entries, todo - {key}, now, service, alarms0, wellKeyed)
  {
    if StartsWith(key, KeyPrefix) {
      match entries[key]
      case Unreadable =>
        if wellKeyed {
          StepDelete(entries, todo, key, now);
        }
        store.prefs := store.prefs - {key};
      case Json(r) =>
        if r.scheduledTime > now {
          if wellKeyed {
            StepReschedule(entries, todo, key, now);
            UnionUpdate(alarms0, PartlyReplayedAlarms(entries, todo, now), r.notificationId,
                        Alarm(r.scheduledTime, ExtrasOf(r)));
            RefreshedUpdate(alarms0, PartlyReplayedAlarms(entries, todo, now), r.notificationId,
                            Alarm(r.scheduledTime, ExtrasOf(r)));
          }
          NotifKeyIsNotifKey(r.notificationId);
          store.ScheduleAlarm(r.notificationId, r.sessionId, r.title, r.body, r.offsetMinutes, r.scheduledTime, service);
        } else {
          if wellKeyed {
            StepDelete(entries, todo, key, now);
          }
          store.prefs := store.prefs - {key};
        }
    } else if wellKeyed {
      StepSkip(entries, todo, key, now);
    }
  }

  /** onReceive. `now` stands for System.currentTimeMillis(); `service` is
      what the alarm service does with every registration of this run. */
  method OnReceive(store: ReminderStore, action: Option<string>, now: int, service: AlarmService)
    modifies store
    ensures !TriggersReplay(action) ==> store.prefs == old(store.prefs) && store.alarms == old(store.alarms)
    ensures forall key | !IsNotifKey(key) ::
      (key in store.prefs <==> key in old(store.prefs))
      && (key in store.prefs ==> store.prefs[key] == old(store.prefs)[key])
    ensures TriggersReplay(action) && WellKeyed(old(store.prefs)) ==>
      store.prefs == Replayed(old(store.prefs), now)
      && store.alarms == if service == Available
                         then old(store.alarms) + ReplayedAlarms(old(store.prefs), now)
                         else Refreshed(old(store.alarms), ReplayedAlarms(old(store.prefs), now))
  {
    if !TriggersReplay(action) {
      return;
    }
    var entries := store.prefs;
    ghost var alarms0 := store.alarms;
    ghost var wellKeyed := WellKeyed(entries);
    var todo := entries.Keys;
    if wellKeyed {
      ReplayStart(entries, now);
      RefreshedByNothing(alarms0);
    }
    while todo != {}
      invariant ReplayInvariant(store.prefs, store.alarms, entries, todo, now, service, alarms0, wellKeyed)
      decreases todo
    {
      var key :| key in todo;
      ReplayEntry(store, entries, todo, key, now, service, alarms0, wellKeyed);
      todo := todo - {key};
    }
    if wellKeyed {
      ReplayDone(entries, now);
    }
  }
}
