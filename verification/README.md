# Microphone monitor decision logic, in Dafny

This project models the decision logic of three macOS microphone-monitor
scripts: `safari.py`, `mic_monitor.py` and `nano.py`. Each script watches
which applications use the microphone. It reads the system log and, in the
first two, polls the processes that hold an audio device. It prints a
"started" or "stopped" line per application. Subprocesses, threads and
printing are left out. What remains is modelled and proved:

- **Identity resolution.**
  - `SafariIdentity.FriendlyName`: WebKit rule, then Chrome rule, then an
    ordered table, then a daemon filter that suppresses the process.
  - `MicIdentity.IsSystemProcess`: a marker-substring suppressor.
  - `MicIdentity.FriendlyName`: a first-match table.
  - `NanoClassifier.MapName`: a bundle-id map with fallback, together with
    the `Denied` list of names.
- **Poll diff.** `Monitoring.PollStep` is one iteration of
  `monitor_audio_devices`. It builds the filtered `current_pids`, announces
  `current - last` as started and `last - current` as stopped, and hands
  `current` back as the next `last`.
  - `SafariMonitor.PollDevices` and `MicMonitor.PollDevices` instantiate it
    with each script's filter.
  - `MicMonitor.MonitorAudioDevices` runs a sequence of polls. It proves that
    starts and stops alternate per PID.
- **Log readers.**
  - `SafariMonitor.MonitorSystemLogs` uses `seen_pids`, which only grows, so
    each PID is reported at most once for the life of the stream. A PID
    whose first gated line finds a falsy name (a suppressed daemon, or an
    exited process that reads back as `""`) enters `seen_pids` and is never
    reported.
  - `MicMonitor.MonitorSystemLogs` has no deduplication.
  - nano.py's per-line classification (`NanoClassifier.ClassifyLine`
    against `NanoClassifier.Classify`) skips noise, applies the keyword gate,
    tries four patterns in order (first match wins), maps the name, falls
    back to Safari and applies the deny-list.
  - In nano.py, `safari_pattern` has no capture group. A line that reaches it
    first makes `match.group(1)` raise, and the exception ends the log loop.
    This is modelled as written: the verdict `Crash` ends
    `Sessions.MonitorMicrophoneLogs`.
- **Session and dedup state.**
  - nano.py's `active_apps` is the class `NanoSessions.Sessions`:
    - `Observe` is the start rule: record only when absent, never refresh.
    - `Sweep` is one pass of `check_inactive_apps`: one stop per entry more
      than 10 s old, then its deletion.
  - safari.py's `seen_events` is in `SafariDisplay`, with dequeue times made
    explicit. Its display loop is modelled twice: as written
    (`AsWrittenAll`), and with the evidently intended two-second window
    (`DisplayAll`, which `DisplayLogs` follows). See "## Findings".

Regular expressions are opaque parameters:
- the PID search and `int(match.group(1))` become `pidOf: string -> Option<Pid>`;
- each nano.py pattern becomes a partial extractor, or, for the group-less
  one, a match test.

`get_process_info` is an injected lookup `info: Pid -> Descriptor`. A
process that has exited reads back as `Descriptor("", "")`.

Python details that are modelled:
- `if app_name:` is truthiness: `None` and `""` are both rejected.
- `str.lower` is modelled on ASCII letters only; Python also lowers other
  Unicode letters, which this model does not.
- `in` on strings is substring search; `Text.ContainsIff` proves that.
- Dicts iterate in insertion order, and the model keeps that order for
  `app_map`, `app_names` and `patterns`, where the first match decides.
- Sets have no defined iteration order, so elements of a set are picked
  with `:|`. The order of `active_apps` during a sweep is also left open
  (see "## Left out").

A process that exits between two polls of safari.py reads back with an
empty name. Its friendly name is then `""`, which is falsy, so its "stopped"
event is never enqueued (`SafariMonitor.ExitedProcessStopIsLost`).

## Model

| member | source | states |
|---|---|---|
| Text.ContainsIff | safari.py:53 | Python's `sub in s` holds exactly when `sub` occurs at some position of `s` |
| Text.FirstHit | safari.py:75-77 | the loop stops at the first entry whose key occurs in the name or path; every earlier entry misses |
| Text.LookupFirstMatch | safari.py:75-77 | when entry `k` is the first to hit, the lookup returns entry `k`'s friendly name |
| Text.LookupNone | safari.py:75-78 | the lookup falls through exactly when no key occurs in the name or the path |
| Monitoring.LogCandidate | safari.py:102-104 | a line yields a PID exactly when the PID search succeeds and the lowered line contains "microphone" or "audio"; the PID is the one the search extracted |
| Monitoring.CollectActive | safari.py:133-142 | `current_pids` holds exactly the listed PIDs that the script's filter accepts |
| Monitoring.Announce | safari.py:145-156 | one event per PID of the set whose name is truthy, carrying that name and the given type; no PID twice; nothing for other PIDs |
| Monitoring.PollStep | safari.py:133-172 | current is the filtered listing; started announces `current - last`, stopped announces `last - current` |
| Monitoring.SteadyPidIsSilent | safari.py:145-159 | a PID in both snapshots appears in neither the started nor the stopped events |
| Monitoring.StartedAndStoppedDisjoint | safari.py:145-159 | no PID is both started and stopped by one poll |
| SafariIdentity.FriendlyName | safari.py:47-83 | only a process that looks like a daemon (name ending in "d", path containing "/usr") is suppressed; any shown name is "Safari", "Google Chrome", a table value, or the process name itself |
| SafariIdentity.WebKitIsSafari | safari.py:52-54 | a name containing "webkit" (any case) gives Safari whatever the path |
| SafariIdentity.ChromeBeforeTable | safari.py:56-58 | failing the WebKit rule, "google chrome" in the name or "chrome" in the path gives Google Chrome, before the table is consulted |
| SafariIdentity.TableFirstMatch | safari.py:61-77 | failing both rules, the earliest `app_map` key found in the lowered name or path decides the result |
| SafariIdentity.SuppressedIff | safari.py:79-81 | the result is `None` exactly when no rule or key matched, the name ends in "d" and the path contains "/usr" (both case-sensitive) |
| SafariIdentity.UnmatchedKeepsName | safari.py:79-83 | an unmatched process that is not such a daemon keeps its own name |
| SafariIdentity.FalsyOnlyForEmptyName | safari.py:61-83 | a non-empty process name never gives a falsy non-`None` name: every rule and table value is non-empty |
| SafariMonitor.Scan | safari.py:95-121 | the log loop enqueues at most one event per PID it adds to `seen_pids`, and adds at most one PID per line |
| SafariMonitor.MonitorSystemLogs | safari.py:95-121 | the log loop enqueues exactly the events of the reference scan `Scan` |
| SafariMonitor.SeenIsEveryCandidate | safari.py:95-109 | `seen_pids` is exactly the set of PIDs any gated line so far has offered; it never loses one |
| SafariMonitor.ScanReportsOnce | safari.py:106-121 | every enqueued event is an access by a seen PID under its truthy name, and no PID is enqueued twice |
| SafariMonitor.ScanReportsEverySeen | safari.py:106-121 | every seen PID whose name is truthy has been enqueued |
| SafariMonitor.ScanExtends | safari.py:95-109 | reading more lines only extends `seen_pids` and the enqueued events |
| SafariMonitor.PollDevices | safari.py:133-172 | `current_pids` holds the listed PIDs with a truthy name; started and stopped announce the two set differences under the names looked up again |
| SafariMonitor.EveryStartAnnounced | safari.py:141-156 | every PID new in `current_pids` gets a started event |
| SafariMonitor.ExitedProcessStopIsLost | safari.py:159-170 | a vanished PID whose process lookup comes back empty gets no stopped event |
| SafariDisplay.Render | safari.py:202-207 | the printed line carries the event's application and PID; it is a stop line exactly for a "stopped" event, a start line for "access" and "started" |
| SafariDisplay.KeyIdentifiesEvent | safari.py:191 | two events share the key `app-type` exactly when they share the application and the type |
| SafariDisplay.AccessAndStartedPrintAlike | safari.py:191-204 | an access and a start of one application print the same line but are deduplicated under different keys |
| SafariDisplay.DisplayAll | safari.py:184-200 | the intended two-second window (see Findings): it shows no more events than were dequeued, and only dequeued events |
| SafariDisplay.DisplayLogs | safari.py:184-207 | the display loop with the evidently intended two-second window (see Findings), not the timer as written: it prints, in order, the rendering of each event `DisplayAll` shows |
| SafariDisplay.ConsistentStep | safari.py:195-200 | one display step keeps each recorded key time equal to the time of a shown event with that key |
| SafariDisplay.DisplayConsistent | safari.py:195-200 | on a chronological stream the recorded key times are those of shown events |
| SafariDisplay.ShownAreSpaced | safari.py:193-200 | two shown events with the same key are at least two seconds apart |
| SafariDisplay.DroppedOnlyWhenRecent | safari.py:195-196 | an event is dropped only when a shown event with its key came less than two seconds earlier |
| SafariDisplay.BurstPrintsOnce | safari.py:193-200 | the same event repeated within two seconds prints once |
| SafariDisplay.AnyDue | safari.py:200 | some pending timer is due at the given time exactly when one's deadline has passed |
| SafariDisplay.Pending | safari.py:200 | the timers left pending are exactly those whose deadline is after the given time; the due ones have fired |
| SafariDisplay.AsWrittenAll | safari.py:184-200 | the display loop with the timer as written: it shows no more events than were dequeued, and only dequeued events |
| SafariDisplay.LateBindingHidesRestart | safari.py:198-200 | as written, Zoom at 0 s, Slack at 1 s, Zoom at 5 s prints only the first two; the intended window prints all three |
| SafariDisplay.LateBindingReprintsEarly | safari.py:198-200 | as written, A at 0 s, K at 1 s, K again at 2 s, after A's timer has fired, prints all three, the second K one second after the first; the intended window drops it |
| MicIdentity.AnyIndicator | mic_monitor.py:57 | `any(indicator in path ...)` is true exactly when some indicator occurs in the path |
| MicIdentity.IsSystemProcess | mic_monitor.py:47-57 | a path is a system path exactly when it contains one of the six markers, case-sensitively |
| MicIdentity.FriendlyName | mic_monitor.py:59-78 | never `None`: the result is the process name, or the friendly name of an entry whose lowered key occurs in the lowered name or path |
| MicIdentity.FirstEntryWins | mic_monitor.py:74-76 | the first entry whose lowered key occurs in the lowered name or path gives the result |
| MicIdentity.NoEntryKeepsName | mic_monitor.py:78 | with no match the name is returned unchanged, never `None` |
| MicMonitor.LogEvents | mic_monitor.py:91-113 | the log loop enqueues at most one event per line |
| MicMonitor.MonitorSystemLogs | mic_monitor.py:91-113 | the log loop enqueues exactly the events of the reference fold `LogEvents` |
| MicMonitor.LogEventsAreAccesses | mic_monitor.py:96-113 | every enqueued event is an access by a non-system process under its resolved name |
| MicMonitor.PassingLineEnqueues | mic_monitor.py:96-113 | a line that passes the PID-and-keyword gate, for a non-system process, enqueues exactly one access under the resolved name |
| MicMonitor.UngatedLineEnqueuesNothing | mic_monitor.py:96-98 | a line that fails the PID-and-keyword gate enqueues nothing |
| MicMonitor.EventsComeFromGatedLines | mic_monitor.py:96-113 | every enqueued event's PID is the one some line of the stream offered through the gate |
| MicMonitor.RepeatedLineEnqueuesTwice | mic_monitor.py:96-113 | no deduplication: a passing line read twice enqueues its event twice |
| MicMonitor.SystemLineEnqueuesNothing | mic_monitor.py:101-103 | a line whose PID is a system process enqueues nothing |
| MicMonitor.PollDevices | mic_monitor.py:126-163 | `current_pids` holds the listed non-system PIDs; one started event per PID of `current - last`, one stopped per PID of `last - current` |
| MicMonitor.BracketedSnoc | mic_monitor.py:138-161 | appending a start for a closed PID or a stop for an open one keeps starts and stops alternating and flips only that PID |
| MicMonitor.AppendBatch | mic_monitor.py:138-161 | a batch of one-per-PID events of one type, each for a PID in the opposite state, keeps the alternation and flips exactly those PIDs |
| MicMonitor.AnnouncesEvery | mic_monitor.py:139-161 | since every PID has a name, the announced events mention exactly the PIDs of the set |
| MicMonitor.PollKeepsBracketing | mic_monitor.py:137-163 | after one poll's events, the stream still alternates and the open PIDs are exactly the new `last_active_pids` |
| MicMonitor.MonitorAudioDevices | mic_monitor.py:118-163 | over any run of polls: starts and stops alternate per PID; a PID is open exactly while in `last_active_pids`; that set is the last poll's non-system PIDs; an always-system PID never appears |
| NanoClassifier.FirstMatching | nano.py:92-98 | the pattern loop stops at the first pattern that matches; every earlier one misses |
| NanoClassifier.MapName | nano.py:97 | the name is the extracted text itself or one of `app_names`' display names |
| NanoClassifier.ClassifyLine | nano.py:84-104 | the loop body, with its early exits and `break`, gives exactly the reference verdict `Classify` |
| NanoClassifier.Classify | nano.py:83-104 | a line is skipped exactly when it mentions both "com.apple.WebKit" and "GPU"; an ungated line is ignored; only a line passing both can end the loop or give a candidate; a candidate is non-empty and not tccd, kernel or system |
| NanoClassifier.FirstPatternWins | nano.py:92-98 | the first capturing pattern that matches decides the name through `app_names`, and later patterns are not consulted |
| NanoClassifier.CrashIff | nano.py:92-95 | the loop raises exactly on a gated non-noise line that the three capturing patterns miss and `safari_pattern` matches |
| NanoClassifier.SafariWhenNothingMatches | nano.py:101-102 | with no pattern matching, a line containing "Safari" is attributed to Safari |
| NanoClassifier.CandidateOrigin | nano.py:89-104 | a reported name is non-empty, not tccd, kernel or system, and is "Safari" or the mapped capture of the first matching pattern |
| NanoClassifier.KnownBundleIds | nano.py:69-77 | every key of `app_names` maps to its display name (Safari and Zoom spelt out); anything else is kept as extracted |
| NanoSessions.SweepSpec | nano.py:118-130 | what a sweep leaves: a subset of the map with the same times, no entry older than 10 s, and only entries older than 10 s removed |
| NanoSessions.ExpiredApps | nano.py:119-127 | the first sweep loop collects each entry older than 10 s (strictly), exactly once |
| NanoSessions.Run | nano.py:79-111 | at most one start per line; the final map holds exactly the names present at the outset plus the reported starts |
| NanoSessions.Sessions.constructor | nano.py:26 | `active_apps` starts empty |
| NanoSessions.Sessions.Observe | nano.py:108-111 | a start is reported exactly when the name is absent; only then is its time recorded, otherwise the map is unchanged |
| NanoSessions.Sessions.Sweep | nano.py:118-130 | one stop per stale entry, exactly once; afterwards the map is the old one less the stale entries, others unchanged |
| NanoSessions.Sessions.MonitorMicrophoneLogs | nano.py:79-111 | the log loop's starts, final map and crash flag are exactly those of the reference fold `Run` |
| NanoSessions.CrashIsFinal | nano.py:95 | once a line has raised, later lines change nothing |
| NanoSessions.StartsAreFresh | nano.py:104-111 | every reported start names an app absent at the outset, reported once, then recorded, never denied; no entry is dropped |
| NanoSessions.NoRefresh | nano.py:108-111 | entries already present keep their recorded time whatever lines follow |
| NanoSessions.StaleDespiteActivity | nano.py:108-123 | an app seen continually is still swept once its first sighting is more than 10 s old |
| NanoSessions.SweepIdempotentAndMonotone | nano.py:118-130 | sweeping twice at one time equals sweeping once; a later sweep keeps no more entries |
| NanoSessions.StoppedAppRestarts | nano.py:108-130 | after its stop, an app's next reported line starts it again with the new time |

## Left out

- Subprocesses are not modelled:
  - `log stream`, `ps` and `lsof` become inputs: a sequence of log lines, an injected `info` lookup, and the listed PIDs of each poll.
  - The parsing of `lsof` output (`splitlines()[1:]`, `int(parts[1])`) is not modelled.
  - The `except` branches of `get_process_info` and of the poll loop are not modelled.
- Concurrency is not modelled: threads, `queue.Queue`, the `running` flag, `signal_handler` and `time.sleep` polling. The producers and consumers are separate operations over explicit inputs. Interleavings of the nano.py sweep thread with its log loop are not modelled.
- `info` is fixed for one log scan or one poll. A process table that changes between the two lookups of one poll is not modelled.
- Time is an integer number of seconds passed in explicitly; `time.time()` floats are not modelled.
- The timestamp strings, colours, print formatting, and the platform check and exit codes of `main` are not modelled.
- The regular expressions (including `re.IGNORECASE`) are opaque extractors; the regex engine is not modelled.
- `str.lower` is modelled on ASCII letters only; lowering of other Unicode letters is not modelled.
- `display_logs` of mic_monitor.py prints every event with no deduplication; it is not modelled beyond `SafariDisplay.Render`, which it shares.
- The order in which Python walks a set is left open.
- NanoSessions.ExpiredApps and NanoSessions.Sessions.Sweep report the stale names in an unspecified order. nano.py prints the stops in the insertion order of `active_apps` (nano.py:121). The model proves which names are stopped, each once, but not their order.
- safari.py's timer threads are replaced by explicit deadlines checked when the next event is dequeued. A key discarded while the queue is idle is therefore discarded at the next dequeue. A timer whose deadline equals the dequeue time fires before that dequeue; in Python the `sleep(2)` starts a little after the dequeue that set it, so such a tie is a race.

## Findings

| source | as written | input that shows it | evidently intended | confidence | as-written member | corrected member |
|---|---|---|---|---|---|---|
| safari.py:200 | the timer's lambda reads `event_key` when it fires, two seconds later, so it discards the key of the most recently dequeued event, not its own. Its own key can stay in `seen_events` for good, and another key can leave early | Zoom started at 0 s, Slack started at 1 s, Zoom started again at 5 s: the second Zoom start is never printed. A started at 0 s, K started at 1 s, and K again after A's timer has fired but less than 2 s after K's first start (at 2 s on the model's integer clock, where A's timer fires first): K prints twice, less than two seconds apart | each key leaves `seen_events` two seconds after the event that added it | high, not executed | SafariDisplay.AsWrittenAll, SafariDisplay.LateBindingHidesRestart, SafariDisplay.LateBindingReprintsEarly | SafariDisplay.DisplayLogs, SafariDisplay.ShownAreSpaced |
