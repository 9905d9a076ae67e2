/** The two producers of safari.py: `monitor_system_logs`, which reports each
    PID at most once for the life of the log stream (`seen_pids` only grows),
    and one poll of `monitor_audio_devices`. Both keep only processes whose
    display name is truthy. */
module SafariMonitor {
  import opened Text
  import opened Monitoring
  import SafariIdentity

  /** `app_name = get_user_friendly_name(name, path)` followed by `if app_name:`;
      `None` when the name is suppressed or empty. */
  function AppName(d: Descriptor): Option<string> {
    var friendly := SafariIdentity.FriendlyName(d.name, d.path);
    if Truthy(friendly) then friendly else None
  }

  /** `AppName` through the process lookup, as the loops apply it to a PID. */
  function AppOf(info: Pid -> Descriptor): Pid -> Option<string> {
    p => AppName(info(p))
  }

  function Shown(info: Pid -> Descriptor): Pid -> bool {
    p => AppName(info(p)).Some?
  }

  // ---------------------------------------------------------------------------
  // monitor_system_logs

  /** The log loop's state: the local `seen_pids` and what it has enqueued. */
  datatype ScanState = ScanState(seen: set<Pid>, events: seq<Event>)

  /** One line of the log loop: a candidate PID already in `seen` is skipped;
      otherwise it is added to `seen` and, if its name is truthy, an access
      event is enqueued. */
  function ScanLine(st: ScanState, line: string, pidOf: string -> Option<Pid>, info: Pid -> Descriptor): ScanState {
    match LogCandidate(line, pidOf)
    case None => st
    case Some(pid) =>
      if pid in st.seen then st
      else
        var app := AppName(info(pid));
        ScanState(st.seen + {pid}, if app.Some? then st.events + [Event(pid, app.value, Access)] else st.events)
  }

  /** The state after the loop has read `lines`, starting from an empty `seen_pids`. */
  function Scan(lines: seq<string>, pidOf: string -> Option<Pid>, info: Pid -> Descriptor): (st: ScanState)
    ensures |st.events| <= |st.seen| <= |lines|
    decreases |lines|
  {
    if lines == [] then ScanState({}, [])
    else ScanLine(Scan(lines[..|lines| - 1], pidOf, info), lines[|lines| - 1], pidOf, info)
  }

  method MonitorSystemLogs(lines: seq<string>, pidOf: string -> Option<Pid>, info: Pid -> Descriptor)
    returns (events: seq<Event>)
    ensures events == Scan(lines, pidOf, info).events
  {
    var seen: set<Pid> := {};
    events := [];
    for i := 0 to |lines|
      invariant ScanState(seen, events) == Scan(lines[..i], pidOf, info)
    {
      assert lines[..i + 1][..i] == lines[..i];
      match LogCandidate(lines[i], pidOf) {
        case None =>
        case Some(pid) =>
          if pid !in seen {
            seen := seen + {pid};
            var app := AppName(info(pid));
            if app.Some? {
              events := events + [Event(pid, app.value, Access)];
            }
          }
      }
    }
    assert lines[..|lines|] == lines;
  }

  /** Some line of `lines` passes the gate with this PID. */
  ghost predicate IsCandidate(lines: seq<string>, pidOf: string -> Option<Pid>, p: Pid) {
    exists i :: 0 <= i < |lines| && LogCandidate(lines[i], pidOf) == Some(p)
  }

  /** `seen_pids` is exactly the set of PIDs any line so far has offered:
      it never loses a member, even after that process stops. */
  lemma {:induction false} SeenIsEveryCandidate(lines: seq<string>, pidOf: string -> Option<Pid>, info: Pid -> Descriptor)
    ensures forall p :: p in Scan(lines, pidOf, info).seen <==> IsCandidate(lines, pidOf, p)
    decreases |lines|
  {
    if lines != [] {
      var init := lines[..|lines| - 1];
      SeenIsEveryCandidate(init, pidOf, info);
      forall p ensures IsCandidate(lines, pidOf, p) <==> IsCandidate(init, pidOf, p) || LogCandidate(lines[|lines| - 1], pidOf) == Some(p) {
        if IsCandidate(init, pidOf, p) {
          var i :| 0 <= i < |init| && LogCandidate(init[i], pidOf) == Some(p);
          assert lines[i] == init[i];
        }
        if IsCandidate(lines, pidOf, p) {
          var i :| 0 <= i < |lines| && LogCandidate(lines[i], pidOf) == Some(p);
          if i < |init| {
            assert init[i] == lines[i];
          }
        }
      }
    }
  }

  /** Every enqueued event is an access by a PID of `seen` under its truthy
      name, and no PID is enqueued twice. */
  ghost predicate ReportedOnce(st: ScanState, info: Pid -> Descriptor) {
    && (forall i :: 0 <= i < |st.events| ==>
          st.events[i].pid in st.seen && st.events[i].kind == Access
          && AppName(info(st.events[i].pid)) == Some(st.events[i].app))
    && (forall i, j :: 0 <= i < j < |st.events| ==> st.events[i].pid != st.events[j].pid)
  }

  lemma {:induction false} ScanReportsOnce(lines: seq<string>, pidOf: string -> Option<Pid>, info: Pid -> Descriptor)
    ensures ReportedOnce(Scan(lines, pidOf, info), info)
    decreases |lines|
  {
    if lines != [] {
      ScanReportsOnce(lines[..|lines| - 1], pidOf, info);
    }
  }

  /** Conversely, every PID of `seen` whose name is truthy has been enqueued. */
  lemma {:induction false} ScanReportsEverySeen(lines: seq<string>, pidOf: string -> Option<Pid>, info: Pid -> Descriptor)
    ensures forall p :: p in Scan(lines, pidOf, info).seen && AppName(info(p)).Some? ==>
      exists i :: 0 <= i < |Scan(lines, pidOf, info).events| && Scan(lines, pidOf, info).events[i].pid == p
    decreases |lines|
  {
    if lines != [] {
      var init := lines[..|lines| - 1];
      ScanReportsEverySeen(init, pidOf, info);
      var before, after := Scan(init, pidOf, info), Scan(lines, pidOf, info);
      assert forall i :: 0 <= i < |before.events| ==> after.events[i] == before.events[i];
      forall p | p in after.seen && AppName(info(p)).Some?
        ensures exists i :: 0 <= i < |after.events| && after.events[i].pid == p
      {
        if p in before.seen {
          var i :| 0 <= i < |before.events| && before.events[i].pid == p;
          assert after.events[i].pid == p;
        } else {
          assert after.events[|after.events| - 1].pid == p;
        }
      }
    }
  }

  /** Reading more lines only extends what was enqueued and what was seen. */
  lemma {:induction false} ScanExtends(lines: seq<string>, more: seq<string>, pidOf: string -> Option<Pid>, info: Pid -> Descriptor)
    ensures Scan(lines, pidOf, info).seen <= Scan(lines + more, pidOf, info).seen
    ensures Scan(lines, pidOf, info).events <= Scan(lines + more, pidOf, info).events
    decreases |more|
  {
    if more == [] {
      assert lines + more == lines;
    } else {
      var init := more[..|more| - 1];
      ScanExtends(lines, init, pidOf, info);
      assert (lines + more)[..|lines + more| - 1] == lines + init;
    }
  }

  // ---------------------------------------------------------------------------
  // monitor_audio_devices

  /** One poll: `current_pids` keeps the listed PIDs with a truthy name; PIDs
      new since `last` are announced as started and PIDs gone since `last`
      as stopped, each only if its name (looked up again) is truthy. */
  method PollDevices(last: set<Pid>, rows: seq<Pid>, info: Pid -> Descriptor)
    returns (started: seq<Event>, stopped: seq<Event>, current: set<Pid>)
    ensures forall p :: p in current <==> p in rows && AppName(info(p)).Some?
    ensures Announces(started, current - last, Started, AppOf(info))
    ensures Announces(stopped, last - current, Stopped, AppOf(info))
  {
    started, stopped, current := PollStep(last, rows, Shown(info), AppOf(info));
  }

  /** Every newly active PID is announced: it entered `current` because its
      name is truthy, and that same name heads its started event. */
  lemma EveryStartAnnounced(last: set<Pid>, current: set<Pid>, started: seq<Event>, info: Pid -> Descriptor, p: Pid)
    requires forall q :: q in current ==> AppName(info(q)).Some?
    requires Announces(started, current - last, Started, AppOf(info))
    requires p in current && p !in last
    ensures exists i :: 0 <= i < |started| && started[i].pid == p && started[i].kind == Started
  {
    assert AppOf(info)(p).Some?;
    var i :| 0 <= i < |started| && started[i].pid == p;
  }

  /** A process that has exited before the poll reads back as an empty name
      and command line; its stop is then not announced at all. */
  lemma ExitedProcessStopIsLost(last: set<Pid>, current: set<Pid>, stopped: seq<Event>, info: Pid -> Descriptor, p: Pid)
    requires Announces(stopped, last - current, Stopped, AppOf(info))
    requires p in last && p !in current && info(p) == Descriptor("", "")
    ensures forall i :: 0 <= i < |stopped| ==> stopped[i].pid != p
  {
    assert Lower("") == "";
    forall j | 0 <= j < |SafariIdentity.AppMap| ensures !KeyHits(SafariIdentity.AppMap[j].0, "", "") {
      assert |SafariIdentity.AppMap[j].0| > 0;
    }
    LookupNone(SafariIdentity.AppMap, "", "");
    assert SafariIdentity.FriendlyName("", "") == Some("");
    assert AppOf(info)(p) == None;
  }
}
