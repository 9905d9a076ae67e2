/** The identity resolver of safari.py: `get_user_friendly_name` maps a process
    name and command line to a display name, or to `None` for a system daemon
    that must not be shown. */
module SafariIdentity {
  import opened Text

  /** `app_map`, in insertion order; its keys are already lower case. */
  const AppMap: Table := [
    ("firefox", "Firefox"),
    ("zoom.us", "Zoom"),
    ("slack", "Slack"),
    ("discord", "Discord"),
    ("skype", "Skype"),
    ("teams", "Microsoft Teams"),
    ("facetime", "FaceTime"),
    ("whatsapp", "WhatsApp"),
    ("telegram", "Telegram"),
    ("obs", "OBS Studio"),
    ("screenflow", "ScreenFlow")
  ]

  /** Rule 1: a WebKit helper is Safari. */
  predicate IsWebKit(name: string) {
    Contains(Lower(name), "webkit")
  }

  /** Rule 2: Chrome and its helpers. */
  predicate IsChrome(name: string, path: string) {
    Contains(Lower(name), "google chrome") || Contains(Lower(path), "chrome")
  }

  /** Rule 4: a daemon-looking process under /usr (both tests case-sensitive). */
  predicate IsDaemon(name: string, path: string) {
    EndsWith(name, "d") && Contains(path, "/usr")
  }

  /** `None` plays the role of Python's `None`: the process is suppressed.
      Only a daemon is suppressed, and a shown name is "Safari", "Google
      Chrome", one of the table's names, or the process name itself. */
  function FriendlyName(name: string, path: string): (r: Option<string>)
    ensures r.None? ==> IsDaemon(name, path)
    ensures r.Some? ==>
      (r.value in {"Safari", "Google Chrome", name} || exists k :: 0 <= k < |AppMap| && r.value == AppMap[k].1)
  {
    var nameLower, pathLower := Lower(name), Lower(path);
    if Contains(nameLower, "webkit") then Some("Safari")
    else if Contains(nameLower, "google chrome") || Contains(pathLower, "chrome") then Some("Google Chrome")
    else match Lookup(AppMap, nameLower, pathLower)
      case Some(friendly) => Some(friendly)
      case None => if EndsWith(name, "d") && Contains(path, "/usr") then None else Some(name)
  }

  /** The WebKit rule is tried first and wins whatever the path says. */
  lemma WebKitIsSafari(name: string, path: string)
    requires IsWebKit(name)
    ensures FriendlyName(name, path) == Some("Safari")
  {
  }

  /** Failing the WebKit rule, any Chrome hint gives Google Chrome. */
  lemma ChromeBeforeTable(name: string, path: string)
    requires !IsWebKit(name) && IsChrome(name, path)
    ensures FriendlyName(name, path) == Some("Google Chrome")
  {
  }

  /** Failing both, the earliest `app_map` key found in either lowered string decides. */
  lemma TableFirstMatch(name: string, path: string, k: nat)
    requires !IsWebKit(name) && !IsChrome(name, path)
    requires k < |AppMap| && KeyHits(AppMap[k].0, Lower(name), Lower(path))
    requires forall j :: 0 <= j < k ==> !KeyHits(AppMap[j].0, Lower(name), Lower(path))
    ensures FriendlyName(name, path) == Some(AppMap[k].1)
  {
    LookupFirstMatch(AppMap, Lower(name), Lower(path), k);
  }

  /** No rule matched: the process is suppressed iff it looks like a daemon
      under /usr, and otherwise keeps its own name. */
  predicate Unmatched(name: string, path: string) {
    && !IsWebKit(name)
    && !IsChrome(name, path)
    && forall j :: 0 <= j < |AppMap| ==> !KeyHits(AppMap[j].0, Lower(name), Lower(path))
  }

  lemma SuppressedIff(name: string, path: string)
    ensures FriendlyName(name, path) == None <==> Unmatched(name, path) && IsDaemon(name, path)
  {
    LookupNone(AppMap, Lower(name), Lower(path));
  }

  lemma UnmatchedKeepsName(name: string, path: string)
    requires Unmatched(name, path) && !IsDaemon(name, path)
    ensures FriendlyName(name, path) == Some(name)
  {
    LookupNone(AppMap, Lower(name), Lower(path));
  }

  /** Only an empty process name can yield a falsy display name: every
      table value and rule result is non-empty. */
  lemma FalsyOnlyForEmptyName(name: string, path: string)
    requires name != ""
    ensures FriendlyName(name, path) == None || Truthy(FriendlyName(name, path))
  {
    var k := FirstHit(AppMap, Lower(name), Lower(path));
    if k < |AppMap| {
      assert AppMap[k].1 != "";
    }
  }
}
