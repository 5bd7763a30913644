/** MainActivity.categorizeApp: the first-match-wins keyword classifier that
    labels an installed app for the blocking screen. */
module AppCategory {
  import opened Text

  datatype Category = Social | Video | Games | Other {
    /** The string the method channel hands to the Flutter side. */
    function Label(): string {
      match this
      case Social => "social"
      case Video => "video"
      case Games => "games"
      case Other => "other"
    }
  }

  const SocialKeywords: seq<string> :=
    ["instagram", "facebook", "twitter", "tiktok", "snapchat", "linkedin", "reddit", "pinterest"]

  /** Matched against the package name; note "primevideo" without a space. */
  const VideoPackageKeywords: seq<string> :=
    ["youtube", "netflix", "twitch", "hulu", "disney", "video", "primevideo", "hbo"]

  /** Matched against the app name; note "prime video" with a space. */
  const VideoNameKeywords: seq<string> :=
    ["youtube", "netflix", "twitch", "hulu", "disney", "video", "prime video", "hbo"]

  const GamesPackageKeywords: seq<string> :=
    ["game", "supercell", "king.", "ubisoft", "ea.", "roblox", "minecraft"]

  const GamesNameKeywords: seq<string> :=
    ["game", "clash", "candy crush", "brawl", "roblox", "minecraft"]

  /** Some keyword of the list occurs in `s`. */
  predicate ContainsAny(s: string, keywords: seq<string>) {
    exists i :: 0 <= i < |keywords| && Contains(s, keywords[i])
  }

  predicate IsSocial(lowerPackage: string, lowerName: string) {
    ContainsAny(lowerPackage, SocialKeywords) || ContainsAny(lowerName, SocialKeywords)
  }

  predicate IsVideo(lowerPackage: string, lowerName: string) {
    ContainsAny(lowerPackage, VideoPackageKeywords) || ContainsAny(lowerName, VideoNameKeywords)
  }

  predicate IsGames(lowerPackage: string, lowerName: string) {
    ContainsAny(lowerPackage, GamesPackageKeywords) || ContainsAny(lowerName, GamesNameKeywords)
  }

  /** Both inputs are lower-cased, then the social, video and games tests are
      tried in that order; the first that matches decides. */
  function CategorizeApp(packageName: string, appName: string): (r: Category)
    ensures r.Label() in ["social", "video", "games", "other"]
    ensures r == Social <==> IsSocial(Lower(packageName), Lower(appName))
  {
    var lowerPackage := Lower(packageName);
    var lowerName := Lower(appName);
    if IsSocial(lowerPackage, lowerName) then Social
    else if IsVideo(lowerPackage, lowerName) then Video
    else if IsGames(lowerPackage, lowerName) then Games
    else Other
  }

  /** Case does not matter: classifying the lower-cased inputs gives the same
      category as classifying the inputs themselves. */
  lemma CategorizeIgnoresCase(packageName: string, appName: string)
    ensures CategorizeApp(Lower(packageName), Lower(appName)) == CategorizeApp(packageName, appName)
  {
    LowerIdempotent(packageName);
    LowerIdempotent(appName);
  }

  /** Two apps whose names differ only in letter case are classified alike. */
  lemma SameCategoryUpToCase(p1: string, n1: string, p2: string, n2: string)
    requires Lower(p1) == Lower(p2) && Lower(n1) == Lower(n2)
    ensures CategorizeApp(p1, n1) == CategorizeApp(p2, n2)
  {
  }

  /** "other" is returned exactly when no keyword of any list matches. */
  lemma OtherIffNoKeyword(packageName: string, appName: string)
    ensures var p, n := Lower(packageName), Lower(appName);
      CategorizeApp(packageName, appName) == Other <==>
        !IsSocial(p, n) && !IsVideo(p, n) && !IsGames(p, n)
  {
  }

  /** Social keywords win over every other list; video keywords win over
      games keywords; games is chosen only when neither matched. */
  lemma FirstMatchWins(packageName: string, appName: string)
    ensures var p, n, c := Lower(packageName), Lower(appName), CategorizeApp(packageName, appName);
      (c == Social <==> IsSocial(p, n)) &&
      (c == Video <==> !IsSocial(p, n) && IsVideo(p, n)) &&
      (c == Games <==> !IsSocial(p, n) && !IsVideo(p, n) && IsGames(p, n))
  {
  }

  /** A package containing "youtube" in any letter case is a video app unless
      a social keyword matches its package or its name, in which case it is
      a social app. */
  lemma YoutubePackageIsVideoOrSocial(packageName: string, appName: string)
    requires Contains(Lower(packageName), "youtube")
    ensures CategorizeApp(packageName, appName) ==
      if IsSocial(Lower(packageName), Lower(appName)) then Social else Video
  {
    assert VideoPackageKeywords[0] == "youtube";
  }

  /** The display name can override the package: the YouTube package named
      "Instagram" is classified as social, not video. */
  lemma YoutubeNamedInstagramIsSocial()
    ensures CategorizeApp("com.google.android.youtube", "Instagram") == Social
  {
    var n := Lower("Instagram");
    LowerAt("Instagram", 0);
    assert n == "instagram";
    assert OccursAt(n, SocialKeywords[0], 0);
  }
}
