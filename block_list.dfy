/** MainActivity.blockApp / unblockApp: the persisted set of blocked package
    names (key "blocked_apps" of the "app_blocking" preferences) and the
    start/stop requests they send to the foreground service. */
module BlockList {
  import ForegroundService

  datatype ServiceRequest = StartService | StopService

  class BlockedAppsStore {
    /** The stored "blocked_apps" string set. */
    var blockedApps: set<string>
    /** Requests sent to AppBlockingForegroundService, oldest first. */
    var serviceRequests: seq<ServiceRequest>

    constructor (stored: set<string>)
      ensures blockedApps == stored && serviceRequests == []
    {
      blockedApps := stored;
      serviceRequests := [];
    }

    /** Membership in the stored set is the only test for "blocked". */
    method IsBlocked(packageName: string) returns (blocked: bool)
      ensures blocked <==> packageName in blockedApps
    {
      blocked := packageName in blockedApps;
    }

    /** Adds the package to a copy of the stored set, writes the copy back and
        (re)starts the foreground service, which then shows the new count. */
    method BlockApp(packageName: string)
      modifies this
      ensures blockedApps == old(blockedApps) + {packageName}
      ensures serviceRequests == old(serviceRequests) + [StartService]
      ensures ForegroundService.OnStartCommand(blockedApps).action
              == ForegroundService.StartForeground(ForegroundService.NotificationId,
                                                   ForegroundService.Title(|blockedApps|))
    {
      var copy := blockedApps;
      copy := copy + {packageName};
      blockedApps := copy;
      serviceRequests := serviceRequests + [StartService];
    }

    /** Removes the package from a copy of the stored set and writes it back;
        stops the service if the set became empty and restarts it otherwise. */
    method UnblockApp(packageName: string)
      modifies this
      ensures blockedApps == old(blockedApps) - {packageName}
      ensures serviceRequests == old(serviceRequests) + [if blockedApps == {} then StopService else StartService]
      ensures serviceRequests[|serviceRequests| - 1] == StartService ==>
              ForegroundService.OnStartCommand(blockedApps).action.StartForeground?
    {
      var copy := blockedApps;
      copy := copy - {packageName};
      blockedApps := copy;
      if copy == {} {
        serviceRequests := serviceRequests + [StopService];
      } else {
        serviceRequests := serviceRequests + [StartService];
      }
    }
  }

  /** Blocking then unblocking a package that was not blocked restores the
      stored set; the service is started and then started again or stopped. */
  method BlockUnblockRoundTrip(store: BlockedAppsStore, packageName: string)
    requires packageName !in store.blockedApps
    modifies store
    ensures store.blockedApps == old(store.blockedApps)
    ensures store.serviceRequests == old(store.serviceRequests)
      + [StartService, if old(store.blockedApps) == {} then StopService else StartService]
  {
    store.BlockApp(packageName);
    store.UnblockApp(packageName);
  }

  /** Blocking is idempotent: blocking twice stores the same set as blocking
      once, and only the service requests repeat. */
  method BlockTwice(store: BlockedAppsStore, packageName: string)
    modifies store
    ensures store.blockedApps == old(store.blockedApps) + {packageName}
    ensures store.serviceRequests == old(store.serviceRequests) + [StartService, StartService]
  {
    store.BlockApp(packageName);
    store.BlockApp(packageName);
  }

  /** Whatever the stored set held before, a package reads as blocked right
      after blockApp and as not blocked right after unblockApp. */
  method BlockedStateFollowsLastEdit(store: BlockedAppsStore, packageName: string)
    returns (afterBlock: bool, afterUnblock: bool)
    modifies store
    ensures afterBlock && !afterUnblock
    ensures store.blockedApps == old(store.blockedApps) - {packageName}
  {
    store.BlockApp(packageName);
    afterBlock := store.IsBlocked(packageName);
    store.UnblockApp(packageName);
    afterUnblock := store.IsBlocked(packageName);
  }
}
