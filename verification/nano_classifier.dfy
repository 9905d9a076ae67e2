/** The per-line decision of nano.py's `monitor_microphone_logs`: a noise
    skip, a keyword gate, four patterns tried in a fixed order with the first
    match winning, a bundle-id map, a Safari fallback and a deny-list. The
    regular expressions are opaque: each capturing pattern is a partial
    extractor standing for `pattern.search(line)` and `match.group(1)`. The
    fourth pattern has no capture group, so a line it matches first makes
    `match.group(1)` raise, which ends the log loop. */
module NanoClassifier {
  import opened Text

  /** A compiled pattern: one with a capture group yields the captured text,
      one without only tells whether `search` matched. */
  datatype Pattern =
    | Capturing(search: string -> Option<string>)
    | Groupless(matches: string -> bool)

  /** What `pattern.search(line)` followed by `match.group(1)` gives. */
  datatype Extraction = NoMatch | Extracted(text: string) | NoSuchGroup

  function Attempt(p: Pattern, line: string): Extraction {
    match p
    case Capturing(search) =>
      (match search(line)
       case Some(x) => Extracted(x)
       case None => NoMatch)
    case Groupless(matches) => if matches(line) then NoSuchGroup else NoMatch
  }

  /** The four entries of `patterns`. */
  datatype PatternSet = PatternSet(
    tcc: string -> Option<string>,
    bundle: string -> Option<string>,
    app: string -> Option<string>,
    safari: string -> bool)

  /** `patterns.items()` in insertion order; `safari_pattern` is the one
      without a group. */
  function Ordered(ps: PatternSet): seq<Pattern> {
    [Capturing(ps.tcc), Capturing(ps.bundle), Capturing(ps.app), Groupless(ps.safari)]
  }

  /** The index of the first pattern that matches, or `|patterns|`. */
  function FirstMatching(patterns: seq<Pattern>, line: string): (k: nat)
    ensures k <= |patterns|
    ensures forall j :: 0 <= j < k ==> Attempt(patterns[j], line) == NoMatch
    ensures k < |patterns| ==> Attempt(patterns[k], line) != NoMatch
    decreases |patterns|
  {
    if patterns == [] then 0
    else if Attempt(patterns[0], line) != NoMatch then 0
    else 1 + FirstMatching(patterns[1..], line)
  }

  /** `app_names`: bundle identifiers to display names. */
  const AppNames: map<string, string> := map[
    "com.apple.Safari" := "Safari",
    "com.google.Chrome" := "Google Chrome",
    "org.mozilla.firefox" := "Firefox",
    "us.zoom.xos" := "Zoom",
    "com.tinyspeck.slackmacgap" := "Slack",
    "com.microsoft.teams" := "Microsoft Teams",
    "com.skype.skype" := "Skype"
  ]

  /** `app_names.get(extracted, extracted)`. */
  function MapName(extracted: string): (name: string)
    ensures name == extracted || name in AppNames.Values
  {
    if extracted in AppNames then AppNames[extracted] else extracted
  }

  /** The names the reporter refuses. */
  const Denied: set<string> := {"tccd", "kernel", "system"}

  /** `'com.apple.WebKit' in line and 'GPU' in line`: case-sensitive. */
  predicate Noise(line: string) {
    Contains(line, "com.apple.WebKit") && Contains(line, "GPU")
  }

  /** `'microphone' in line.lower() or 'audio input' in line.lower()`. */
  predicate Gated(line: string) {
    Contains(Lower(line), "microphone") || Contains(Lower(line), "audio input")
  }

  /** What the loop body does with a line: `Skipped` and `Ignored` continue
      with the next line, `Candidate` goes on to the start rule, `Crash` is
      the exception that ends the loop. */
  datatype Verdict = Skipped | Ignored | Candidate(app: string) | Crash

  /** `if not app_name and 'Safari' in line: app_name = 'Safari'`. */
  function SafariFallback(name: Option<string>, line: string): Option<string> {
    if !Truthy(name) && Contains(line, "Safari") then Some("Safari") else name
  }

  /** The noise skip comes before everything else, the keyword gate next:
      a line failing either never reaches the patterns. A candidate is never
      empty and never denied. */
  function Classify(line: string, ps: PatternSet): (v: Verdict)
    ensures v == Skipped <==> Noise(line)
    ensures !Noise(line) && !Gated(line) ==> v == Ignored
    ensures v.Candidate? || v.Crash? ==> !Noise(line) && Gated(line)
    ensures v.Candidate? ==> v.app != "" && v.app !in Denied
  {
    if Noise(line) then Skipped
    else if !Gated(line) then Ignored
    else
      var patterns := Ordered(ps);
      var k := FirstMatching(patterns, line);
      var e := if k < |patterns| then Attempt(patterns[k], line) else NoMatch;
      if e.NoSuchGroup? then Crash
      else
        var name := SafariFallback(if e.Extracted? then Some(MapName(e.text)) else None, line);
        if Truthy(name) && name.value !in Denied then Candidate(name.value) else Ignored
  }

  /** The loop body of `monitor_microphone_logs` up to the start rule. */
  method ClassifyLine(line: string, ps: PatternSet) returns (v: Verdict)
    ensures v == Classify(line, ps)
  {
    if Contains(line, "com.apple.WebKit") && Contains(line, "GPU") {
      return Skipped;
    }
    var lower := Lower(line);
    if !(Contains(lower, "microphone") || Contains(lower, "audio input")) {
      return Ignored;
    }
    var appName: Option<string> := None;
    var patterns := Ordered(ps);
    var i := 0;
    while i < |patterns|
      invariant 0 <= i <= |patterns|
      invariant forall j :: 0 <= j < i ==> Attempt(patterns[j], line) == NoMatch
      invariant appName == None
    {
      match Attempt(patterns[i], line) {
        case NoMatch =>
          i := i + 1;
        case NoSuchGroup =>
          return Crash;
        case Extracted(extracted) =>
          appName := Some(MapName(extracted));
          break;
      }
    }
    if !Truthy(appName) && Contains(line, "Safari") {
      appName := Some("Safari");
    }
    if Truthy(appName) && appName.value !in Denied {
      return Candidate(appName.value);
    }
    return Ignored;
  }

  /** The capturing extractor tried at position `k` (0 to 2). */
  function Capture(ps: PatternSet, k: nat): string -> Option<string>
    requires k < 3
  {
    [ps.tcc, ps.bundle, ps.app][k]
  }

  /** The first capturing pattern that matches decides the name, mapped
      through `app_names`; the patterns after it are never consulted. */
  lemma {:induction false} FirstPatternWins(line: string, ps: PatternSet, k: nat, extracted: string)
    requires !Noise(line) && Gated(line)
    requires k < 3 && Capture(ps, k)(line) == Some(extracted)
    requires forall j :: 0 <= j < k ==> Capture(ps, j)(line) == None
    requires MapName(extracted) != ""
    ensures Classify(line, ps) == if MapName(extracted) in Denied then Ignored else Candidate(MapName(extracted))
  {
    var patterns := Ordered(ps);
    forall j | 0 <= j < k ensures Attempt(patterns[j], line) == NoMatch {
      assert patterns[j] == Capturing(Capture(ps, j));
    }
    assert patterns[k] == Capturing(Capture(ps, k));
    assert FirstMatching(patterns, line) == k;
  }

  /** The log loop ends exactly on a gated, non-noise line that none of the
      three capturing patterns matches but `safari_pattern` does. */
  lemma CrashIff(line: string, ps: PatternSet)
    ensures Classify(line, ps) == Crash <==>
      && !Noise(line) && Gated(line)
      && ps.tcc(line).None? && ps.bundle(line).None? && ps.app(line).None?
      && ps.safari(line)
  {
    var patterns := Ordered(ps);
    assert patterns[0] == Capturing(ps.tcc) && patterns[1] == Capturing(ps.bundle);
    assert patterns[2] == Capturing(ps.app) && patterns[3] == Groupless(ps.safari);
    var k := FirstMatching(patterns, line);
    if ps.tcc(line).None? && ps.bundle(line).None? && ps.app(line).None? {
      assert k >= 3;
    } else {
      assert k < 3;
    }
  }

  /** When no pattern matches at all, a line that mentions "Safari" is
      attributed to Safari. */
  lemma SafariWhenNothingMatches(line: string, ps: PatternSet)
    requires !Noise(line) && Gated(line) && Contains(line, "Safari")
    requires ps.tcc(line).None? && ps.bundle(line).None? && ps.app(line).None? && !ps.safari(line)
    ensures Classify(line, ps) == Candidate("Safari")
  {
    var patterns := Ordered(ps);
    assert Attempt(patterns[0], line) == NoMatch && Attempt(patterns[1], line) == NoMatch;
    assert Attempt(patterns[2], line) == NoMatch && Attempt(patterns[3], line) == NoMatch;
    assert FirstMatching(patterns, line) == 4;
  }

  /** A reported name is never empty and never one of the denied names; it
      is "Safari" or the mapped capture of the first matching pattern. */
  lemma CandidateOrigin(line: string, ps: PatternSet)
    requires Classify(line, ps).Candidate?
    ensures var app := Classify(line, ps).app;
      && app != "" && app !in Denied
      && (app == "Safari" ||
          exists k, x :: 0 <= k < 3 && Capture(ps, k)(line) == Some(x) && app == MapName(x) &&
            forall j :: 0 <= j < k ==> Capture(ps, j)(line) == None)
  {
    var patterns := Ordered(ps);
    var k := FirstMatching(patterns, line);
    var app := Classify(line, ps).app;
    if app != "Safari" {
      assert k < 3 && patterns[k] == Capturing(Capture(ps, k));
      var x := Capture(ps, k)(line).value;
      forall j | 0 <= j < k ensures Capture(ps, j)(line) == None {
        assert patterns[j] == Capturing(Capture(ps, j));
      }
      assert app == MapName(x);
    }
  }

  /** The identifiers `app_names` knows map to their display names; anything
      else is kept as extracted. */
  lemma KnownBundleIds()
    ensures forall x :: x in AppNames ==> MapName(x) == AppNames[x]
    ensures MapName("com.apple.Safari") == "Safari" && MapName("us.zoom.xos") == "Zoom"
    ensures forall x :: x !in AppNames ==> MapName(x) == x
  {
  }
}
