/** NotificationActionReceiver: turns a notification button's action tag into
    the intent that opens MainActivity. */
module NotificationActionReceiver {
  import opened Wrappers
  import opened Intents
  import NotificationIntents

  /** The MainActivity intent started for a broadcast with intent action
      `action` and extra `sessionId`; None when no activity is started. */
  function OnReceive(action: Option<string>, sessionId: Option<string>): (r: Option<ActivityIntent>)
    ensures r.Some? <==> action == Some(StartNow) || action == Some(Snooze)
    ensures r.Some? ==>
      NotificationIntents.Accepts(r.value)
      && r.value.sessionId == Some(sessionId.GetOr(""))
      && r.value.actionExtra == action
      && r.value.action == Some(if action == Some(StartNow) then StartNowIntentAction else SnoozeIntentAction)
  {
    var id := sessionId.GetOr("");
    if action == Some(StartNow) then
      Some(ActivityIntent(Some(StartNowIntentAction), Some(id), Some(StartNow), true, None))
    else if action == Some(Snooze) then
      Some(ActivityIntent(Some(SnoozeIntentAction), Some(id), Some(Snooze), true, None))
    else
      None
  }

  /** A missing session id is forwarded as the empty string, and MainActivity
      still accepts the intent. */
  lemma MissingSessionIdForwardedEmpty(action: string)
    requires action in [StartNow, Snooze]
    ensures OnReceive(Some(action), None).Some?
    ensures OnReceive(Some(action), None).value.sessionId == Some("")
  {
  }
}
