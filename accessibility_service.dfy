/** AppBlockingAccessibilityService: on every window change, decides from the
    event, its package and the stored block list whether to cover the app
    with the blocking overlay and send the user home. */
module AccessibilityService {
  import opened Wrappers
  import opened Text

  /** AccessibilityEvent.TYPE_WINDOW_STATE_CHANGED. */
  const TypeWindowStateChanged: int := 32

  const HostPackage: string := "com.example.flow_app"
  const ServiceClassName: string := "com.example.flow_app.AppBlockingAccessibilityService"

  datatype AccessibilityEvent = AccessibilityEvent(eventType: int, packageName: Option<string>)

  /** What the service asks the system to do, in order. */
  datatype Effect =
    | ShowOverlay(appName: string, packageName: string)  // start BlockingOverlayActivity with these extras
    | ReturnHome                                          // start the home screen, 100 ms later

  /** The host app and the system namespaces are never blocked. The prefixes
      carry no trailing dot, so "androidify" is exempt as well. */
  predicate Exempt(packageName: string) {
    packageName == HostPackage
    || StartsWith(packageName, "com.android")
    || StartsWith(packageName, "android")
  }

  /** getAppName: the installed app's label, or the package name itself when
      the package manager does not know the package. `labels` is the package
      manager's view of installed labels. */
  function GetAppName(packageName: string, labels: map<string, string>): (r: string)
    ensures packageName in labels ==> r == labels[packageName]
    ensures packageName !in labels ==> r == packageName
  {
    if packageName in labels then labels[packageName] else packageName
  }

  /** onAccessibilityEvent. `event` is None for a null event. */
  function OnAccessibilityEvent(event: Option<AccessibilityEvent>, blockedApps: set<string>,
                                labels: map<string, string>): (r: seq<Effect>)
    ensures r == [] || (|r| == 2 && r[0].ShowOverlay? && r[1] == ReturnHome)
    ensures r != [] ==> event.Some? && event.value.packageName == Some(r[0].packageName)
    ensures r != [] ==> r[0].packageName in blockedApps && !Exempt(r[0].packageName)
  {
    if event.Some? && event.value.eventType == TypeWindowStateChanged && event.value.packageName.Some? then
      var packageName := event.value.packageName.value;
      if Exempt(packageName) then []
      else if packageName in blockedApps then
        [ShowOverlay(GetAppName(packageName, labels), packageName), ReturnHome]
      else []
    else []
  }

  /** Only window-state changes that name a package are considered. */
  lemma OtherEventsIgnored(event: Option<AccessibilityEvent>, blockedApps: set<string>,
                           labels: map<string, string>)
    requires event.None? || event.value.eventType != TypeWindowStateChanged || event.value.packageName.None?
    ensures OnAccessibilityEvent(event, blockedApps, labels) == []
  {
  }

  /** The host app and system packages are let through even when the block
      list names them. */
  lemma ExemptNeverBlocked(eventType: int, packageName: string, blockedApps: set<string>,
                           labels: map<string, string>)
    requires Exempt(packageName)
    ensures OnAccessibilityEvent(Some(AccessibilityEvent(eventType, Some(packageName))), blockedApps, labels) == []
  {
  }

  /** Any other package is covered and the user sent home exactly when the
      package is in the stored block list; the overlay is told the package
      and its label, falling back to the package name. */
  lemma BlockedIffListed(packageName: string, blockedApps: set<string>, labels: map<string, string>)
    requires !Exempt(packageName)
    ensures var effects := OnAccessibilityEvent(
              Some(AccessibilityEvent(TypeWindowStateChanged, Some(packageName))), blockedApps, labels);
      (effects != [] <==> packageName in blockedApps) &&
      (effects != [] ==> effects == [ShowOverlay(if packageName in labels then labels[packageName] else packageName,
                                                 packageName), ReturnHome])
  {
  }

  /** isAccessibilityServiceEnabled: the system's colon-separated list of
      enabled services (None when unset) mentions "<package>/<service class>"
      somewhere. */
  function IsAccessibilityServiceEnabled(enabledServices: Option<string>, contextPackage: string): (r: bool)
    ensures r ==> enabledServices.Some? && |enabledServices.value| >= |ServiceEntry(contextPackage)|
  {
    enabledServices.Some? && Contains(enabledServices.value, ServiceEntry(contextPackage))
  }

  /** "<package>/<service class>" */
  function ServiceEntry(contextPackage: string): string {
    contextPackage + "/" + ServiceClassName
  }

  /** A list that holds this service's entry among others reports it enabled. */
  lemma EnabledWhenListed(before: string, contextPackage: string, after: string)
    ensures IsAccessibilityServiceEnabled(Some(before + ServiceEntry(contextPackage) + after), contextPackage)
  {
    var entry := ServiceEntry(contextPackage);
    assert OccursAt(before + entry + after, entry, |before|);
  }

  /** Conversely, a list that reports the service enabled holds its entry. */
  lemma EnabledOnlyWhenListed(enabledServices: Option<string>, contextPackage: string)
    requires IsAccessibilityServiceEnabled(enabledServices, contextPackage)
    ensures enabledServices.Some?
    ensures exists before, after :: enabledServices.value == before + ServiceEntry(contextPackage) + after
  {
    var s := enabledServices.value;
    var entry := ServiceEntry(contextPackage);
    var i :| 0 <= i <= |s| - |entry| && OccursAt(s, entry, i);
    assert s == s[..i] + entry + s[i + |entry|..];
  }

  /** The test is a plain substring match, so an entry for another service
      whose class name merely extends this one also reports it enabled. */
  lemma LongerClassNameAlsoMatches(contextPackage: string)
    ensures IsAccessibilityServiceEnabled(Some(contextPackage + "/" + ServiceClassName + "Helper"), contextPackage)
  {
    EnabledWhenListed("", contextPackage, "Helper");
    assert "" + ServiceEntry(contextPackage) + "Helper" == contextPackage + "/" + ServiceClassName + "Helper";
  }

  /** A settings value that is unset never reports the service enabled. */
  lemma UnsetNeverEnabled(contextPackage: string)
    ensures !IsAccessibilityServiceEnabled(None, contextPackage)
  {
  }
}
