/** MainActivity.handleNotificationIntent and the pending-action flush in
    configureFlutterEngine: a notification action arriving before the Flutter
    method channel exists is held in two fields and sent once the channel
    is created. */
module NotificationIntents {
  import opened Wrappers
  import opened Intents

  /** One "onNotificationAction" call on the notification-action channel. */
  datatype ActionMessage = ActionMessage(sessionId: string, action: string)

  /** The activity's intent object; the app clears its extras in place. */
  class Intent {
    var data: ActivityIntent

    constructor (data: ActivityIntent)
      ensures this.data == data
    {
      this.data := data;
    }
  }

  /** The guard of handleNotificationIntent. */
  predicate Accepts(d: ActivityIntent) {
    d.sessionId.Some? && d.actionExtra.Some? && d.fromNotification
  }

  /** The intent after removeExtra("sessionId"), removeExtra("action"),
      removeExtra("fromNotification") and `action = null`. */
  function Consumed(d: ActivityIntent): (r: ActivityIntent)
    ensures !Accepts(r)
    ensures r.offsetMinutes == d.offsetMinutes
  {
    d.(action := None, sessionId := None, actionExtra := None, fromNotification := false)
  }

  class MainActivity {
    /** getIntent(): the intent the activity was started or last re-launched with. */
    var intent: Intent?
    /** notificationMethodChannel != null */
    var channelReady: bool
    var pendingSessionId: Option<string>
    var pendingAction: Option<string>
    /** How many of the 1500 ms delayed flushes posted by
        configureFlutterEngine have not run yet. */
    var scheduledFlushes: nat
    /** Messages sent on the channel, oldest first. */
    var sent: seq<ActionMessage>

    /** The two pending fields are set and cleared together, and a pending
        action with the channel ready always has a flush on its way. */
    ghost predicate Valid()
      reads this
    {
      (pendingSessionId.Some? <==> pendingAction.Some?)
      && (channelReady && pendingSessionId.Some? ==> scheduledFlushes > 0)
    }

    constructor (launchIntent: Intent?)
      ensures Valid() && intent == launchIntent
      ensures !channelReady && pendingSessionId == None && pendingAction == None
      ensures scheduledFlushes == 0 && sent == []
    {
      intent := launchIntent;
      channelReady := false;
      pendingSessionId, pendingAction := None, None;
      scheduledFlushes := 0;
      sent := [];
    }

    /** What handling intent `i` does: an intent carrying sessionId, action
        and fromNotification=true is consumed (so handling it again does
        nothing) and its action is sent now if the channel exists, or held
        until the channel is created. Any other intent changes nothing. */
    twostate predicate HandledIntent(i: Intent?)
      reads this, i
    {
      if i == null || !Accepts(old(i.data)) then
        (i != null ==> i.data == old(i.data))
        && pendingSessionId == old(pendingSessionId) && pendingAction == old(pendingAction)
        && sent == old(sent)
      else
        var message := ActionMessage(old(i.data).sessionId.value, old(i.data).actionExtra.value);
        i.data == Consumed(old(i.data))
        && (channelReady ==> sent == old(sent) + [message] && pendingSessionId == None && pendingAction == None)
        && (!channelReady ==> sent == old(sent) && pendingSessionId == Some(message.sessionId)
                              && pendingAction == Some(message.action))
    }

    /** handleNotificationIntent. */
    method HandleNotificationIntent(i: Intent?)
      requires Valid()
      modifies this, i
      ensures Valid() && HandledIntent(i)
      ensures intent == old(intent) && channelReady == old(channelReady) && scheduledFlushes == old(scheduledFlushes)
    {
      if i == null {
        return;
      }
      var sessionId := i.data.sessionId;
      var action := i.data.actionExtra;
      var fromNotification := i.data.fromNotification;
      if sessionId.Some? && action.Some? && fromNotification {
        i.data := Consumed(i.data);
        pendingSessionId := sessionId;
        pendingAction := action;
        if channelReady {
          sent := sent + [ActionMessage(sessionId.value, action.value)];
          pendingSessionId := None;
          pendingAction := None;
        }
      }
    }

    /** onCreate, onResume: handle the current intent. */
    method OnResume()
      requires Valid()
      modifies this, intent
      ensures Valid() && HandledIntent(old(intent))
      ensures intent == old(intent) && channelReady == old(channelReady) && scheduledFlushes == old(scheduledFlushes)
    {
      HandleNotificationIntent(intent);
    }

    /** onNewIntent: the new intent replaces the current one and is handled. */
    method OnNewIntent(i: Intent)
      requires Valid()
      modifies this, i
      ensures Valid() && HandledIntent(i) && intent == i
      ensures channelReady == old(channelReady) && scheduledFlushes == old(scheduledFlushes)
    {
      intent := i;
      HandleNotificationIntent(i);
    }

    /** configureFlutterEngine, as far as notification actions go: create the
        channel, post the delayed flush if an action is pending, then handle
        the current intent (now with the channel ready). */
    method ConfigureFlutterEngine()
      requires Valid()
      modifies this, intent
      ensures Valid() && channelReady && intent == old(intent)
      ensures scheduledFlushes == old(scheduledFlushes) + (if old(pendingSessionId).Some? then 1 else 0)
      ensures HandledIntent(old(intent))
    {
      channelReady := true;
      if pendingSessionId.Some? && pendingAction.Some? {
        scheduledFlushes := scheduledFlushes + 1;
      }
      HandleNotificationIntent(intent);
    }

    /** The delayed flush: sends the pending action once and clears both
        fields. The source dereferences the fields with `!!`, so if an action
        arriving in the meantime already cleared them the callback throws;
        that outcome is `crashed`, with nothing sent. */
    method RunScheduledFlush() returns (crashed: bool)
      requires Valid() && scheduledFlushes > 0
      modifies this
      ensures Valid() && scheduledFlushes == old(scheduledFlushes) - 1
      ensures intent == old(intent) && channelReady == old(channelReady)
      ensures pendingSessionId == None && pendingAction == None
      ensures crashed <==> old(pendingSessionId).None?
      ensures !crashed ==> sent == old(sent) + [ActionMessage(old(pendingSessionId).value, old(pendingAction).value)]
      ensures crashed ==> sent == old(sent)
    {
      scheduledFlushes := scheduledFlushes - 1;
      if pendingSessionId.None? || pendingAction.None? {
        return true;
      }
      sent := sent + [ActionMessage(pendingSessionId.value, pendingAction.value)];
      pendingSessionId := None;
      pendingAction := None;
      return false;
    }
  }

  /** The framework's own launch order: `super.onCreate` runs
      configureFlutterEngine, so the channel exists before onCreate and
      onResume handle the launch intent. The launch action is sent at once by
      configureFlutterEngine, no flush is ever posted, handling the consumed
      intent again sends nothing, and a later action is sent at once too. */
  method LaunchInFrameworkOrder(s1: string, a1: string, s2: string, a2: string)
    returns (activity: MainActivity)
    ensures activity.scheduledFlushes == 0
    ensures activity.pendingSessionId == None && activity.pendingAction == None
    ensures activity.sent == [ActionMessage(s1, a1), ActionMessage(s2, a2)]
  {
    var launch := new Intent(ActivityIntent(Some(StartNowIntentAction), Some(s1), Some(a1), true, None));
    activity := new MainActivity(launch);
    activity.ConfigureFlutterEngine();
    assert activity.sent == [ActionMessage(s1, a1)] && activity.scheduledFlushes == 0;
    activity.OnResume();
    activity.OnResume();
    var second := new Intent(ActivityIntent(Some(SnoozeIntentAction), Some(s2), Some(a2), true, None));
    activity.OnNewIntent(second);
  }

  /** In an order where onCreate's handling runs before configureFlutterEngine
      (which the framework's own launch does not produce), an action arriving
      before the channel is delivered exactly once: it is held, the channel's
      creation posts the flush, the flush sends it, and
      handling the (now consumed) intent again in onResume sends nothing more. */
  method DeliveredOnceAfterChannel(sessionId: string, action: string)
    returns (activity: MainActivity)
    ensures activity.sent == [ActionMessage(sessionId, action)]
    ensures activity.pendingSessionId == None && activity.pendingAction == None
  {
    var launch := new Intent(ActivityIntent(Some(StartNowIntentAction), Some(sessionId), Some(action), true, None));
    activity := new MainActivity(launch);
    activity.OnResume();
    assert activity.sent == [] && activity.pendingAction == Some(action);
    assert !Accepts(launch.data);
    activity.ConfigureFlutterEngine();
    assert activity.scheduledFlushes == 1 && activity.sent == [];
    var crashed := activity.RunScheduledFlush();
    assert !crashed && activity.sent == [ActionMessage(sessionId, action)];
    assert activity.intent == launch && !Accepts(launch.data);
    activity.OnResume();
  }

  /** Each configureFlutterEngine that finds an action pending posts a flush
      of its own. If it runs twice before the first flush, the first flush
      sends the action and clears the fields, and the second flush finds them
      null and throws. */
  method SecondFlushCrashes(sessionId: string, action: string)
    returns (activity: MainActivity, crashed1: bool, crashed2: bool)
    ensures !crashed1 && crashed2
    ensures activity.sent == [ActionMessage(sessionId, action)]
    ensures activity.scheduledFlushes == 0
  {
    var launch := new Intent(ActivityIntent(Some(StartNowIntentAction), Some(sessionId), Some(action), true, None));
    activity := new MainActivity(launch);
    activity.OnResume();
    activity.ConfigureFlutterEngine();
    activity.ConfigureFlutterEngine();
    assert activity.scheduledFlushes == 2 && activity.sent == [];
    crashed1 := activity.RunScheduledFlush();
    crashed2 := activity.RunScheduledFlush();
  }

  /** In the same order, if a second action arrives between
      configureFlutterEngine and the delayed flush, it is sent at once and clears the fields, so the flush
      finds them null and throws; the first action is never sent. */
  method SecondActionBeforeFlush(s1: string, a1: string, s2: string, a2: string)
    returns (activity: MainActivity, crashed: bool)
    ensures crashed
    ensures activity.sent == [ActionMessage(s2, a2)]
  {
    var launch := new Intent(ActivityIntent(Some(StartNowIntentAction), Some(s1), Some(a1), true, None));
    activity := new MainActivity(launch);
    activity.OnResume();
    activity.ConfigureFlutterEngine();
    assert activity.scheduledFlushes == 1 && activity.sent == [];
    var second := new Intent(ActivityIntent(Some(SnoozeIntentAction), Some(s2), Some(a2), true, None));
    activity.OnNewIntent(second);
    assert activity.sent == [ActionMessage(s2, a2)];
    crashed := activity.RunScheduledFlush();
  }
}
