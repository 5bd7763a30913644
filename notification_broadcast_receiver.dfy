/** NotificationBroadcastReceiver: the receiver a reminder alarm fires. It
    posts the reminder notification with its "Start Now" and snooze buttons
    and deletes the reminder's stored record. */
module NotificationBroadcastReceiver {
  import opened Wrappers
  import opened Text
  import opened Intents
  import opened NativeAlarmHelper
  import NotificationIntents
  import NotificationActionReceiver

  const ChannelId: string := "scheduled_sessions"
  const StartNowLabel: string := "Start Now"
  const SnoozeLabelPrefix: string := "I'll start at "
  /** The "action" extra of the intent behind the notification body. */
  const ReminderAction: string := "reminder"

  // ---------------------------------------------------------------------
  // Extras as the receiver reads them

  /** The extras of the fired broadcast; None is an absent extra. */
  datatype ReceivedExtras = ReceivedExtras(
    notificationId: Option<Int32>,
    sessionId: Option<string>,
    title: Option<string>,
    body: Option<string>,
    offsetMinutes: Option<Int32>)

  /** The extras of a broadcast registered by NativeAlarmHelper: all present,
      or all absent once cancelAlarm has stripped them. */
  function FromAlarm(x: AlarmExtras): ReceivedExtras {
    match x
    case AlarmExtras(id, session, title, body, offset) =>
      ReceivedExtras(Some(id), Some(session), Some(title), Some(body), Some(offset))
    case NoExtras => ReceivedExtras(None, None, None, None, None)
  }

  /** getIntExtra(_, 0) and getStringExtra(_) ?: "" */
  function IdOf(e: ReceivedExtras): Int32 { e.notificationId.GetOr(0) }
  function SessionOf(e: ReceivedExtras): string { e.sessionId.GetOr("") }
  function TitleOf(e: ReceivedExtras): string { e.title.GetOr("") }
  function BodyOf(e: ReceivedExtras): string { e.body.GetOr("") }
  function OffsetOf(e: ReceivedExtras): Int32 { e.offsetMinutes.GetOr(0) }

  /** The receiver gives up when the title or the body is missing or empty. */
  predicate Skipped(e: ReceivedExtras) {
    TitleOf(e) == "" || BodyOf(e) == ""
  }

  // ---------------------------------------------------------------------
  // formatTime

  type Hour12 = h: nat | h < 12
  type Minute = m: nat | m < 60

  /** What Calendar.HOUR, Calendar.MINUTE and Calendar.AM_PM report for an
      instant in the device's time zone. */
  datatype TimeOfDay = TimeOfDay(hour: Hour12, minute: Minute, pm: bool)

  /** String.format("%02d", m) for 0 <= m < 100. */
  function TwoDigits(m: nat): (r: string)
    requires m < 100
    ensures |r| == 2 && AllDigits(r)
    ensures 10 * DigitValue(r[0]) + DigitValue(r[1]) == m
  {
    [DigitChar(m / 10), DigitChar(m % 10)]
  }

  /** The clock-face hour: 1 to 12, with hour 0 shown as 12. */
  function DisplayHour(hour: Hour12): (h: nat)
    ensures 1 <= h <= 12
    ensures (h == 12) == (hour == 0)
  {
    if hour == 0 then 12 else hour
  }

  /** formatTime: "H:MM AM" or "H:MM PM" on a 12-hour clock. */
  function FormatTime(t: TimeOfDay): (r: string)
    ensures 7 <= |r| <= 8
    ensures r[|r| - 6] == ':' && r[|r| - 3] == ' '
    ensures r[|r| - 2..] == (if t.pm then "PM" else "AM")
  {
    NatToString(DisplayHour(t.hour)) + ":" + TwoDigits(t.minute) + " " + (if t.pm then "PM" else "AM")
  }

  /** Reads a "H:MM AM|PM" label back into the time it shows. */
  function ParseTime(s: string): Option<TimeOfDay> {
    if |s| < 7 || |s| > 8 then None
    else
      var n := |s|;
      var hour := s[..n - 6];
      var minute := s[n - 5..n - 3];
      var half := s[n - 2..];
      if s[n - 6] == ':' && s[n - 3] == ' ' && AllDigits(hour) && AllDigits(minute)
         && (half == "AM" || half == "PM") then
        var h := ParseNat(hour);
        var m := 10 * DigitValue(minute[0]) + DigitValue(minute[1]);
        if 1 <= h <= 12 && m < 60 then
          Some(TimeOfDay(if h == 12 then 0 else h, m, half == "PM"))
        else None
      else None
  }

  /** The label names exactly the time it was made from. */
  lemma FormatTimeRoundTrip(t: TimeOfDay)
    ensures ParseTime(FormatTime(t)) == Some(t)
  {
    var s := FormatTime(t);
    var n := |s|;
    var hour := NatToString(DisplayHour(t.hour));
    assert s[..n - 6] == hour;
    assert s[n - 5..n - 3] == TwoDigits(t.minute);
    ParseNatToString(DisplayHour(t.hour));
  }

  /** Distinct times of day never share a label. */
  lemma FormatTimeInjective(a: TimeOfDay, b: TimeOfDay)
    requires FormatTime(a) == FormatTime(b)
    ensures a == b
  {
    FormatTimeRoundTrip(a);
    FormatTimeRoundTrip(b);
  }

  // ---------------------------------------------------------------------
  // The snooze time

  /** The session start the snooze label shows, as the receiver computes it:
      the product offsetMinutes * 60 * 1000 is evaluated in 32-bit `Int`
      arithmetic before it is added to the `Long` clock reading. */
  function SessionStartTimeAsWritten(now: int, offsetMinutes: Int32): (r: int)
    ensures -TwoTo31 <= r - now < TwoTo31
  {
    now + Wrap32(Wrap32(offsetMinutes * 60) * 1000)
  }

  /** Largest offset whose milliseconds still fit in a 32-bit `Int`. */
  const MaxExactOffset: int := 35791

  /** Within 35791 minutes either way the 32-bit product does not wrap. */
  lemma AsWrittenInRange(now: int, offsetMinutes: Int32)
    ensures -MaxExactOffset <= offsetMinutes <= MaxExactOffset ==>
      SessionStartTimeAsWritten(now, offsetMinutes) == now + offsetMinutes * 60000
  {
    if -MaxExactOffset <= offsetMinutes <= MaxExactOffset {
      WrapThenScale(offsetMinutes * 60, 1000);
      assert offsetMinutes * 60 * 1000 == offsetMinutes * 60000;
      Wrap32Exact(offsetMinutes * 60000);
    }
  }

  /** The session start the label is meant to show: `offsetMinutes` minutes
      after now. It lies before now exactly for a negative offset, and it agrees with the 32-bit computation wherever
      that does not wrap. */
  function SessionStartTime(now: int, offsetMinutes: Int32): (r: int)
    ensures offsetMinutes >= 0 <==> r >= now
    ensures -MaxExactOffset <= offsetMinutes <= MaxExactOffset ==> r == SessionStartTimeAsWritten(now, offsetMinutes)
  {
    AsWrittenInRange(now, offsetMinutes);
    now + offsetMinutes * 60000
  }

  lemma Wrap32Congruent(a: int, b: int)
    requires (a - b) % TwoTo32 == 0
    ensures Wrap32(a) == Wrap32(b)
  {
    var k := (a - b) / TwoTo32;
    assert a == b + k * TwoTo32;
    assert (a + TwoTo31) == (b + TwoTo31) + k * TwoTo32;
  }

  lemma WrapThenScale(x: int, c: int)
    ensures Wrap32(Wrap32(x) * c) == Wrap32(x * c)
  {
    var w := Wrap32(x);
    var k := (w - x) / TwoTo32;
    assert w == x + k * TwoTo32;
    assert w * c == x * c + (k * c) * TwoTo32;
    Wrap32Congruent(w * c, x * c);
  }

  /** The computed start equals the intended one exactly when the offset is
      at most 35791 minutes (about 24.8 days) either way. */
  lemma AsWrittenExactIff(now: int, offsetMinutes: Int32)
    ensures SessionStartTimeAsWritten(now, offsetMinutes) == SessionStartTime(now, offsetMinutes)
        <==> -MaxExactOffset <= offsetMinutes <= MaxExactOffset
  {
    WrapThenScale(offsetMinutes * 60, 1000);
    var exact := offsetMinutes * 60000;
    assert offsetMinutes * 60 * 1000 == exact;
    if -MaxExactOffset <= offsetMinutes <= MaxExactOffset {
    } else if offsetMinutes > MaxExactOffset {
      assert exact >= 35792 * 60000;
    } else {
      assert exact <= -35792 * 60000;
    }
  }

  /** An offset of 35792 minutes makes the label show a time about 24.9 days
      in the past instead of about 24.9 days ahead. */
  lemma SnoozeTimeOverflows()
    ensures SessionStartTimeAsWritten(0, 35792) == -2147447296
    ensures SessionStartTime(0, 35792) == 2147520000
  {
    WrapThenScale(35792 * 60, 1000);
    assert Wrap32(2147520000) == -2147447296;
  }

  // ---------------------------------------------------------------------
  // The pending intents

  /** The three targets of a reminder notification. */
  datatype Target = OpenApp | StartNowButton | SnoozeButton

  /** Added to the notification id to form each target's request code. */
  function CodeOffset(t: Target): int {
    match t
    case OpenApp => 0
    case StartNowButton => 1000
    case SnoozeButton => 2000
  }

  /** The request code, with Kotlin's 32-bit wrap-around of `id + offset`. */
  function RequestCode(notificationId: Int32, t: Target): (r: Int32)
    ensures (r - (notificationId + CodeOffset(t))) % TwoTo32 == 0
    ensures notificationId + CodeOffset(t) < TwoTo31 ==> r == notificationId + CodeOffset(t)
  {
    Wrap32(notificationId + CodeOffset(t))
  }

  /** The intent each target opens MainActivity with. */
  function TargetIntent(t: Target, sessionId: string, offsetMinutes: Int32): ActivityIntent {
    match t
    case OpenApp => ActivityIntent(None, Some(sessionId), Some(ReminderAction), false, Some(offsetMinutes))
    case StartNowButton => ActivityIntent(Some(StartNowIntentAction), Some(sessionId), Some(StartNow), true, None)
    case SnoozeButton => ActivityIntent(Some(SnoozeIntentAction), Some(sessionId), Some(Snooze), true, None)
  }

  function Pending(notificationId: Int32, t: Target, sessionId: string, offsetMinutes: Int32): PendingActivity {
    PendingActivity(RequestCode(notificationId, t), TargetIntent(t, sessionId, offsetMinutes))
  }

  /** What the system matches on when FLAG_UPDATE_CURRENT decides whether a
      new pending intent replaces an existing one: the request code and the
      intent action (the extras are not compared). */
  function MatchKey(p: PendingActivity): (int, Option<string>) {
    (p.requestCode, p.intent.action)
  }

  lemma Wrap32ShiftInjective(a: Int32, b: Int32, c: int)
    requires Wrap32(a + c) == Wrap32(b + c)
    ensures a == b
  {
    var w := Wrap32(a + c);
    assert (w - (a + c)) % TwoTo32 == 0 && (w - (b + c)) % TwoTo32 == 0;
    var ka := (w - (a + c)) / TwoTo32;
    var kb := (w - (b + c)) / TwoTo32;
    assert a - b == (kb - ka) * TwoTo32;
  }

  /** Two pending intents of reminder notifications match each other only
      when they are the same target of the same notification id, so posting
      one reminder never rewrites the extras of another reminder's buttons. */
  lemma PendingIntentsDistinct(a: Int32, ta: Target, b: Int32, tb: Target,
                               sa: string, oa: Int32, sb: string, ob: Int32)
    ensures MatchKey(Pending(a, ta, sa, oa)) == MatchKey(Pending(b, tb, sb, ob)) <==> a == b && ta == tb
  {
    if MatchKey(Pending(a, ta, sa, oa)) == MatchKey(Pending(b, tb, sb, ob)) {
      assert ta == tb;
      Wrap32ShiftInjective(a, b, CodeOffset(ta));
    }
  }

  // ---------------------------------------------------------------------
  // The notification

  datatype NotificationAction = NotificationAction(caption: string, target: PendingActivity)

  /** The fields of the built notification this model keeps: icons, priority,
      defaults and the channel's settings are left out. */
  datatype Notification = Notification(
    id: Int32,
    channel: string,
    title: string,
    body: string,
    autoCancel: bool,
    content: PendingActivity,
    actions: seq<NotificationAction>)

  /** The snooze button's label, with the intended session start. */
  function SnoozeLabel(now: int, offsetMinutes: Int32, localTime: int -> TimeOfDay): string {
    SnoozeLabelPrefix + FormatTime(localTime(SessionStartTime(now, offsetMinutes)))
  }

  /** The snooze button's label as the receiver builds it, from the 32-bit
      session start. */
  function SnoozeLabelAsWritten(now: int, offsetMinutes: Int32, localTime: int -> TimeOfDay): string {
    SnoozeLabelPrefix + FormatTime(localTime(SessionStartTimeAsWritten(now, offsetMinutes)))
  }

  /** The notification onReceive posts for a reminder that passes the guard. */
  function BuildNotification(e: ReceivedExtras, now: int, localTime: int -> TimeOfDay): (n: Notification)
    ensures n.id == IdOf(e) && n.title == TitleOf(e) && n.body == BodyOf(e)
    ensures n.channel == ChannelId && n.autoCancel
    ensures n.content == Pending(IdOf(e), OpenApp, SessionOf(e), OffsetOf(e))
    ensures n.content.requestCode == IdOf(e)
    ensures !NotificationIntents.Accepts(n.content.intent)
    ensures n.content.intent.sessionId == Some(SessionOf(e))
    ensures n.content.intent.offsetMinutes == Some(OffsetOf(e))
    ensures |n.actions| == 2
    ensures n.actions[0].caption == StartNowLabel
    ensures n.actions[1].caption == SnoozeLabel(now, OffsetOf(e), localTime)
    ensures forall i | 0 <= i < 2 ::
      NotificationIntents.Accepts(n.actions[i].target.intent)
      && n.actions[i].target.intent.sessionId == Some(SessionOf(e))
    ensures n.actions[0].target.requestCode == RequestCode(IdOf(e), StartNowButton)
    ensures n.actions[1].target.requestCode == RequestCode(IdOf(e), SnoozeButton)
    ensures n.actions[0].target.intent.actionExtra == Some(StartNow)
    ensures n.actions[1].target.intent.actionExtra == Some(Snooze)
  {
    var id := IdOf(e);
    var session := SessionOf(e);
    var offset := OffsetOf(e);
    Notification(
      id, ChannelId, TitleOf(e), BodyOf(e), true,
      Pending(id, OpenApp, session, offset),
      [NotificationAction(StartNowLabel, Pending(id, StartNowButton, session, offset)),
       NotificationAction(SnoozeLabel(now, offset, localTime), Pending(id, SnoozeButton, session, offset))])
  }

  /** The notification for a broadcast, or None when the guard skips it. */
  function Notify(e: ReceivedExtras, now: int, localTime: int -> TimeOfDay): (r: Option<Notification>)
    ensures r.None? <==> Skipped(e)
    ensures r.Some? ==> r.value.title != "" && r.value.body != ""
  {
    if Skipped(e) then None else Some(BuildNotification(e, now, localTime))
  }

  /** The buttons open MainActivity with the same intent the
      NotificationActionReceiver route builds for the same action. */
  lemma ButtonsMatchActionReceiver(e: ReceivedExtras, now: int, localTime: int -> TimeOfDay)
    ensures BuildNotification(e, now, localTime).actions[0].target.intent
         == NotificationActionReceiver.OnReceive(Some(StartNow), e.sessionId).value
    ensures BuildNotification(e, now, localTime).actions[1].target.intent
         == NotificationActionReceiver.OnReceive(Some(Snooze), e.sessionId).value
  {
  }

  /** The snooze label reads back as the local time of the session start. */
  lemma SnoozeLabelNamesStart(e: ReceivedExtras, now: int, localTime: int -> TimeOfDay)
    ensures var caption := BuildNotification(e, now, localTime).actions[1].caption;
      |caption| > |SnoozeLabelPrefix|
      && caption[..|SnoozeLabelPrefix|] == SnoozeLabelPrefix
      && ParseTime(caption[|SnoozeLabelPrefix|..]) == Some(localTime(SessionStartTime(now, OffsetOf(e))))
  {
    var t := localTime(SessionStartTime(now, OffsetOf(e)));
    var caption := SnoozeLabel(now, OffsetOf(e), localTime);
    assert caption[|SnoozeLabelPrefix|..] == FormatTime(t);
    FormatTimeRoundTrip(t);
  }

  /** The receiver's own label reads back as the local time of the session
      start it computes, and for offsets within 35791 minutes either way it
      is the label of the corrected notification. */
  lemma SnoozeLabelAsWrittenNamesStart(e: ReceivedExtras, now: int, localTime: int -> TimeOfDay)
    ensures var caption := SnoozeLabelAsWritten(now, OffsetOf(e), localTime);
      |caption| > |SnoozeLabelPrefix|
      && caption[..|SnoozeLabelPrefix|] == SnoozeLabelPrefix
      && ParseTime(caption[|SnoozeLabelPrefix|..]) == Some(localTime(SessionStartTimeAsWritten(now, OffsetOf(e))))
    ensures -MaxExactOffset <= OffsetOf(e) <= MaxExactOffset ==>
      SnoozeLabelAsWritten(now, OffsetOf(e), localTime) == BuildNotification(e, now, localTime).actions[1].caption
  {
    var t := localTime(SessionStartTimeAsWritten(now, OffsetOf(e)));
    var caption := SnoozeLabelAsWritten(now, OffsetOf(e), localTime);
    assert caption[|SnoozeLabelPrefix|..] == FormatTime(t);
    FormatTimeRoundTrip(t);
  }

  /** A reminder stored by NativeAlarmHelper with a title and a body is shown
      with its own id, title and body, and tapping it hands MainActivity the
      reminder's session id and offset. */
  lemma FiredReminderShown(r: ReminderRecord, now: int, localTime: int -> TimeOfDay)
    requires r.title != "" && r.body != ""
    ensures Notify(FromAlarm(ExtrasOf(r)), now, localTime).Some?
    ensures var n := Notify(FromAlarm(ExtrasOf(r)), now, localTime).value;
      n.id == r.notificationId && n.title == r.title && n.body == r.body
      && n.content.intent.sessionId == Some(r.sessionId)
      && n.content.intent.offsetMinutes == Some(r.offsetMinutes)
  {
  }

  /** An alarm left registered after cancelAlarm found no alarm service
      fires with its extras stripped, and nothing is shown. */
  lemma StrippedAlarmShowsNothing(now: int, localTime: int -> TimeOfDay)
    ensures Notify(FromAlarm(NoExtras), now, localTime) == None
  {
  }

  // ---------------------------------------------------------------------
  // onReceive

  /** onReceive: post the notification (a SecurityException from notify,
      `canNotify` false, is only logged) and then delete the reminder's
      record. A broadcast without a title or a body changes nothing. The
      alarm service retires a fired one-shot alarm itself, so `alarms` is
      left as it is. */
  method OnReceive(store: ReminderStore, e: ReceivedExtras, now: int,
                   localTime: int -> TimeOfDay, canNotify: bool)
    returns (posted: Option<Notification>)
    modifies store
    ensures store.alarms == old(store.alarms)
    ensures Skipped(e) ==> posted == None && store.prefs == old(store.prefs)
    ensures !Skipped(e) ==>
      posted == (if canNotify then Notify(e, now, localTime) else None)
      && store.prefs == old(store.prefs) - {NotifKey(IdOf(e))}
      && Lookup(store.prefs, IdOf(e)) == None
    ensures forall other | other != IdOf(e) :: Lookup(store.prefs, other) == Lookup(old(store.prefs), other)
    ensures WellKeyed(old(store.prefs)) ==> WellKeyed(store.prefs)
  {
    if Skipped(e) {
      return None;
    }
    var n := BuildNotification(e, now, localTime);
    posted := if canNotify then Some(n) else None;
    var id := IdOf(e);
    store.prefs := store.prefs - {NotifKey(id)};
    forall other | true
      ensures Lookup(store.prefs, id) == None
      ensures other != id ==> Lookup(store.prefs, other) == Lookup(old(store.prefs), other)
    {
      RemoveRecordEffect(old(store.prefs), id, other);
    }
  }
}
