/** MainActivity.getBlockableApps: the list of installed, launchable,
    non-system apps offered for blocking, each marked with its category and
    whether the stored block list holds it, sorted by app name. */
module BlockableApps {
  import opened Text
  import opened Sorting
  import opened AppCategory
  import AccessibilityService

  /** What the package manager reports of one installed application. */
  datatype InstalledApp = InstalledApp(packageName: string, appLabel: string, launchable: bool)

  /** One entry of the list sent to the Flutter side (the icon is not modelled). */
  datatype BlockableApp = BlockableApp(packageName: string, appName: string, category: string, isBlocked: bool)

  /** The package filter: not this app, not a framework package, not the
      package installer and not the Play Store. */
  predicate Listable(packageName: string, ownPackage: string) {
    packageName != ownPackage
    && !StartsWith(packageName, "com.android.")
    && !StartsWith(packageName, "android.")
    && packageName != "com.google.android.packageinstaller"
    && packageName != "com.android.vending"
  }

  /** Listable and with a launcher intent. */
  predicate Offered(app: InstalledApp, ownPackage: string) {
    Listable(app.packageName, ownPackage) && app.launchable
  }

  function Describe(app: InstalledApp, blockedApps: set<string>): BlockableApp {
    BlockableApp(app.packageName, app.appLabel, CategorizeApp(app.packageName, app.appLabel).Label(),
                 app.packageName in blockedApps)
  }

  /** The entries the loop collects, in the package manager's order. */
  function Candidates(installed: seq<InstalledApp>, ownPackage: string, blockedApps: set<string>): seq<BlockableApp> {
    if installed == [] then []
    else
      var last := installed[|installed| - 1];
      Candidates(installed[..|installed| - 1], ownPackage, blockedApps)
        + (if Offered(last, ownPackage) then [Describe(last, blockedApps)] else [])
  }

  /** Every collected entry describes an offered installed app. */
  lemma {:induction false} CandidateHasSource(installed: seq<InstalledApp>, ownPackage: string,
                                              blockedApps: set<string>, a: BlockableApp)
    requires a in Candidates(installed, ownPackage, blockedApps)
    ensures exists i :: 0 <= i < |installed| && Offered(installed[i], ownPackage) && a == Describe(installed[i], blockedApps)
  {
    var init, last := installed[..|installed| - 1], installed[|installed| - 1];
    if a in Candidates(init, ownPackage, blockedApps) {
      CandidateHasSource(init, ownPackage, blockedApps, a);
      var i :| 0 <= i < |init| && Offered(init[i], ownPackage) && a == Describe(init[i], blockedApps);
      assert installed[i] == init[i];
    } else {
      assert Offered(last, ownPackage) && a == Describe(last, blockedApps);
      assert installed[|installed| - 1] == last;
    }
  }

  /** Every offered installed app is collected. */
  lemma {:induction false} SourceIsCandidate(installed: seq<InstalledApp>, ownPackage: string,
                                             blockedApps: set<string>, i: int)
    requires 0 <= i < |installed| && Offered(installed[i], ownPackage)
    ensures Describe(installed[i], blockedApps) in Candidates(installed, ownPackage, blockedApps)
  {
    var init := installed[..|installed| - 1];
    if i < |init| {
      assert init[i] == installed[i];
      SourceIsCandidate(init, ownPackage, blockedApps, i);
    }
  }

  /** An entry is collected exactly when it describes an offered installed app. */
  lemma CandidatesExactly(installed: seq<InstalledApp>, ownPackage: string,
                          blockedApps: set<string>, a: BlockableApp)
    ensures a in Candidates(installed, ownPackage, blockedApps) <==>
      exists i :: 0 <= i < |installed| && Offered(installed[i], ownPackage) && a == Describe(installed[i], blockedApps)
  {
    if a in Candidates(installed, ownPackage, blockedApps) {
      CandidateHasSource(installed, ownPackage, blockedApps, a);
    }
    if exists i :: 0 <= i < |installed| && Offered(installed[i], ownPackage) && a == Describe(installed[i], blockedApps) {
      var i :| 0 <= i < |installed| && Offered(installed[i], ownPackage) && a == Describe(installed[i], blockedApps);
      SourceIsCandidate(installed, ownPackage, blockedApps, i);
    }
  }

  function AppNameKey(a: BlockableApp): string {
    a.appName
  }

  method GetBlockableApps(installed: seq<InstalledApp>, ownPackage: string, blockedApps: set<string>)
    returns (apps: seq<BlockableApp>)
    ensures SortedBy(apps, AppNameKey)
    ensures multiset(apps) == multiset(Candidates(installed, ownPackage, blockedApps))
    ensures forall a | a in apps ::
      Listable(a.packageName, ownPackage)
      && a.isBlocked == (a.packageName in blockedApps)
      && a.category == CategorizeApp(a.packageName, a.appName).Label()
    ensures forall i | 0 <= i < |installed| && Offered(installed[i], ownPackage) ::
      Describe(installed[i], blockedApps) in apps
  {
    var found: seq<BlockableApp> := [];
    for i := 0 to |installed|
      invariant found == Candidates(installed[..i], ownPackage, blockedApps)
    {
      var app := installed[i];
      if Listable(app.packageName, ownPackage) {
        if app.launchable {
          var isBlocked := app.packageName in blockedApps;
          var category := CategorizeApp(app.packageName, app.appLabel).Label();
          found := found + [BlockableApp(app.packageName, app.appLabel, category, isBlocked)];
        }
      }
      assert installed[..i + 1][..i] == installed[..i];
    }
    assert installed[..|installed|] == installed;
    apps := Sort(found, AppNameKey);
    forall a | a in apps
      ensures Listable(a.packageName, ownPackage)
      ensures a.isBlocked == (a.packageName in blockedApps)
      ensures a.category == CategorizeApp(a.packageName, a.appName).Label()
    {
      assert a in multiset(apps);
      CandidatesExactly(installed, ownPackage, blockedApps, a);
    }
    forall i | 0 <= i < |installed| && Offered(installed[i], ownPackage)
      ensures Describe(installed[i], blockedApps) in apps
    {
      CandidatesExactly(installed, ownPackage, blockedApps, Describe(installed[i], blockedApps));
      assert Describe(installed[i], blockedApps) in multiset(found);
    }
  }

  /** The list and the overlay disagree on system prefixes: the list excludes
      "android." with a dot, the overlay skips "android" without one, so a
      package such as "androidify.app" can be put on the block list but is
      never blocked. */
  lemma ListedButNeverEnforced()
    ensures Listable("androidify.app", AccessibilityService.HostPackage)
    ensures AccessibilityService.Exempt("androidify.app")
  {
    var p := "androidify.app";
    assert p[..7] == "android";
    assert p[3] != "com.android."[3];
    assert p[7] != "android."[7];
  }
}
