/** The identity resolver of mic_monitor.py: `is_system_process` filters out
    OS helpers by command-line markers, and `get_user_friendly_name` maps a
    process to the first matching table entry, or to its own name. */
module MicIdentity {
  import opened Text

  /** `system_indicators`: matched case-sensitively against the command line. */
  const SystemIndicators: seq<string> := [
    "/System/Library/",
    "WebKit.GPU",
    "WebKit.WebContent",
    "com.apple.WebKit",
    "coreaudiod",
    "audiomxd"
  ]

  /** Python's `any(indicator in path for indicator in indicators)`. */
  function AnyIndicator(indicators: seq<string>, path: string): (found: bool)
    ensures found <==> exists i :: 0 <= i < |indicators| && Contains(path, indicators[i])
  {
    if indicators == [] then false
    else Contains(path, indicators[0]) || AnyIndicator(indicators[1..], path)
  }

  /** A path is a system path exactly when one of the six markers occurs in it. */
  predicate IsSystemProcess(path: string): (system: bool)
    ensures system <==>
      (Contains(path, "/System/Library/") || Contains(path, "WebKit.GPU") ||
       Contains(path, "WebKit.WebContent") || Contains(path, "com.apple.WebKit") ||
       Contains(path, "coreaudiod") || Contains(path, "audiomxd"))
  {
    SixMarkers(path);
    AnyIndicator(SystemIndicators, path)
  }

  lemma SixMarkers(path: string)
    ensures AnyIndicator(SystemIndicators, path) <==>
      (Contains(path, "/System/Library/") || Contains(path, "WebKit.GPU") ||
       Contains(path, "WebKit.WebContent") || Contains(path, "com.apple.WebKit") ||
       Contains(path, "coreaudiod") || Contains(path, "audiomxd"))
  {
    var ind := SystemIndicators;
    assert ind[0] == "/System/Library/" && ind[1] == "WebKit.GPU" && ind[2] == "WebKit.WebContent";
    assert ind[3] == "com.apple.WebKit" && ind[4] == "coreaudiod" && ind[5] == "audiomxd";
    if AnyIndicator(ind, path) {
      var i :| 0 <= i < |ind| && Contains(path, ind[i]);
      assert i in {0, 1, 2, 3, 4, 5};
    }
  }

  /** `app_map`, in insertion order, with its keys as written. */
  const AppMap: Table := [
    ("Google Chrome", "Google Chrome"),
    ("firefox", "Firefox"),
    ("Safari", "Safari"),
    ("zoom.us", "Zoom"),
    ("Slack", "Slack"),
    ("Discord", "Discord"),
    ("Skype", "Skype"),
    ("Microsoft Teams", "Microsoft Teams"),
    ("FaceTime", "FaceTime")
  ]

  /** The table as the loop compares it: `app.lower()` for every key. */
  function LowerKeys(table: Table): (lowered: Table)
    ensures |lowered| == |table|
    ensures forall i :: 0 <= i < |table| ==> lowered[i] == (Lower(table[i].0), table[i].1)
  {
    seq(|table|, i requires 0 <= i < |table| => (Lower(table[i].0), table[i].1))
  }

  /** Never `None`: the result is the process name, or the name of a table
      entry whose lowered key occurs in the lowered name or path. */
  function FriendlyName(name: string, path: string): (r: string)
    ensures r == name || exists k :: 0 <= k < |AppMap| && r == AppMap[k].1 && KeyHits(Lower(AppMap[k].0), Lower(name), Lower(path))
  {
    match Lookup(LowerKeys(AppMap), Lower(name), Lower(path))
    case Some(friendly) => friendly
    case None => name
  }

  /** The first entry, in order, whose lowered key occurs in the lowered name
      or path decides the display name. */
  lemma FirstEntryWins(name: string, path: string, k: nat)
    requires k < |AppMap| && KeyHits(Lower(AppMap[k].0), Lower(name), Lower(path))
    requires forall j :: 0 <= j < k ==> !KeyHits(Lower(AppMap[j].0), Lower(name), Lower(path))
    ensures FriendlyName(name, path) == AppMap[k].1
  {
    LookupFirstMatch(LowerKeys(AppMap), Lower(name), Lower(path), k);
  }

  lemma NoEntryKeepsName(name: string, path: string)
    requires forall j :: 0 <= j < |AppMap| ==> !KeyHits(Lower(AppMap[j].0), Lower(name), Lower(path))
    ensures FriendlyName(name, path) == name
  {
    LookupNone(LowerKeys(AppMap), Lower(name), Lower(path));
  }
}
