/** AppBlockingForegroundService: runs while the block list is non-empty and
    keeps an ongoing notification that reports how many apps are blocked. */
module ForegroundService {
  import opened Wrappers
  import opened Text

  const NotificationId: int := 1001

  /** Service.START_STICKY: the system restarts the service if it is killed. */
  const StartSticky: int := 1

  const TitlePrefix: string := "\U{1F6AB} "
  const TitleSuffix: string := " apps blocked"

  /** The title of the ongoing notification for `count` blocked apps. */
  function Title(count: nat): string {
    TitlePrefix + NatToString(count) + TitleSuffix
  }

  /** Reads the number of blocked apps back out of a notification title. */
  function CountInTitle(title: string): Option<nat> {
    if |title| > |TitlePrefix| + |TitleSuffix|
       && title[..|TitlePrefix|] == TitlePrefix
       && title[|title| - |TitleSuffix|..] == TitleSuffix
       && AllDigits(title[|TitlePrefix|..|title| - |TitleSuffix|])
    then Some(ParseNat(title[|TitlePrefix|..|title| - |TitleSuffix|]))
    else None
  }

  /** The title states the exact count it was built from. */
  lemma TitleReportsCount(count: nat)
    ensures CountInTitle(Title(count)) == Some(count)
  {
    var t := Title(count);
    assert t[..|TitlePrefix|] == TitlePrefix;
    assert t[|t| - |TitleSuffix|..] == TitleSuffix;
    assert t[|TitlePrefix|..|t| - |TitleSuffix|] == NatToString(count);
    ParseNatToString(count);
  }

  datatype StartAction =
    | StartForeground(notificationId: int, title: string)
    | StopSelf

  datatype StartResult = StartResult(action: StartAction, returnCode: int)

  /** onStartCommand: enter the foreground with the count notification when
      something is blocked, stop otherwise; ask to be restarted either way. */
  function OnStartCommand(blockedApps: set<string>): (r: StartResult)
    ensures r.returnCode == StartSticky
    ensures r.action.StartForeground? <==> blockedApps != {}
    ensures r.action.StartForeground? ==>
      r.action.notificationId == NotificationId && CountInTitle(r.action.title) == Some(|blockedApps|)
  {
    if blockedApps != {} then
      TitleReportsCount(|blockedApps|);
      StartResult(StartForeground(NotificationId, Title(|blockedApps|)), StartSticky)
    else
      StartResult(StopSelf, StartSticky)
  }

  datatype NotificationUpdate =
    | Repost(notificationId: int, title: string)
    | CancelAndStop(notificationId: int)

  /** updateNotification: re-post notification 1001 with the current count, or
      cancel it and stop the service once nothing is blocked. */
  function UpdateNotification(blockedApps: set<string>): (r: NotificationUpdate)
    ensures r.notificationId == NotificationId
    ensures r.Repost? <==> blockedApps != {}
    ensures r.Repost? ==> CountInTitle(r.title) == Some(|blockedApps|)
  {
    if blockedApps != {} then
      TitleReportsCount(|blockedApps|);
      Repost(NotificationId, Title(|blockedApps|))
    else
      CancelAndStop(NotificationId)
  }
}
