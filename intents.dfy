/** The intents that open MainActivity from a reminder notification. */
module Intents {
  import opened Wrappers

  /** An intent addressed to MainActivity: its intent action and the extras
      the app reads. `fromNotification` is what getBooleanExtra returns with
      default false, so an absent extra reads as false. */
  datatype ActivityIntent = ActivityIntent(
    action: Option<string>,
    sessionId: Option<string>,
    actionExtra: Option<string>,
    fromNotification: bool,
    offsetMinutes: Option<int>)

  /** A PendingIntent.getActivity: the request code and the intent it fires. */
  datatype PendingActivity = PendingActivity(requestCode: int, intent: ActivityIntent)

  const StartNow: string := "START_NOW"
  const Snooze: string := "SNOOZE"
  const StartNowIntentAction: string := "NOTIFICATION_START_NOW"
  const SnoozeIntentAction: string := "NOTIFICATION_SNOOZE"
}
