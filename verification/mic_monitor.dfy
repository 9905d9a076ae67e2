/** The two producers of mic_monitor.py. The log reader enqueues an access for
    every gated line whose process is not a system process, with no
    deduplication. The device poller keeps the non-system PIDs that hold an
    audio device and announces the difference to the previous poll; over a
    run of polls its started and stopped events alternate per PID. */
module MicMonitor {
  import opened Text
  import opened Monitoring
  import MicIdentity

  /** `not is_system_process(path)` through the process lookup. */
  function Tracked(info: Pid -> Descriptor): Pid -> bool {
    p => !MicIdentity.IsSystemProcess(info(p).path)
  }

  /** The display name; never suppressed in this script. */
  function AppOf(info: Pid -> Descriptor): Pid -> Option<string> {
    p => Some(MicIdentity.FriendlyName(info(p).name, info(p).path))
  }

  // ---------------------------------------------------------------------------
  // monitor_system_logs

  /** What one line enqueues: an access for a gated PID whose command line
      is not a system path. */
  function LineEvent(line: string, pidOf: string -> Option<Pid>, info: Pid -> Descriptor): Option<Event> {
    match LogCandidate(line, pidOf)
    case None => None
    case Some(pid) =>
      var d := info(pid);
      if MicIdentity.IsSystemProcess(d.path) then None
      else Some(Event(pid, MicIdentity.FriendlyName(d.name, d.path), Access))
  }

  /** The queue contents after `lines`: at most one event per line. */
  function LogEvents(lines: seq<string>, pidOf: string -> Option<Pid>, info: Pid -> Descriptor): (events: seq<Event>)
    ensures |events| <= |lines|
    decreases |lines|
  {
    if lines == [] then []
    else
      var before := LogEvents(lines[..|lines| - 1], pidOf, info);
      match LineEvent(lines[|lines| - 1], pidOf, info)
      case Some(e) => before + [e]
      case None => before
  }

  method MonitorSystemLogs(lines: seq<string>, pidOf: string -> Option<Pid>, info: Pid -> Descriptor)
    returns (events: seq<Event>)
    ensures events == LogEvents(lines, pidOf, info)
  {
    events := [];
    for i := 0 to |lines|
      invariant events == LogEvents(lines[..i], pidOf, info)
    {
      assert lines[..i + 1][..i] == lines[..i];
      match LogCandidate(lines[i], pidOf) {
        case None =>
        case Some(pid) =>
          var d := info(pid);
          if !MicIdentity.IsSystemProcess(d.path) {
            var app := MicIdentity.FriendlyName(d.name, d.path);
            events := events + [Event(pid, app, Access)];
          }
      }
    }
    assert lines[..|lines|] == lines;
  }

  /** Every enqueued event is an access by a non-system process, named by
      the resolver. */
  lemma {:induction false} LogEventsAreAccesses(lines: seq<string>, pidOf: string -> Option<Pid>, info: Pid -> Descriptor)
    ensures forall i :: 0 <= i < |LogEvents(lines, pidOf, info)| ==>
      var e := LogEvents(lines, pidOf, info)[i];
      && e.kind == Access
      && !MicIdentity.IsSystemProcess(info(e.pid).path)
      && e.app == MicIdentity.FriendlyName(info(e.pid).name, info(e.pid).path)
    decreases |lines|
  {
    if lines != [] {
      LogEventsAreAccesses(lines[..|lines| - 1], pidOf, info);
    }
  }

  /** A line that passes the gate, for a PID whose command line is not a
      system path, enqueues one access under the resolved name. */
  lemma PassingLineEnqueues(lines: seq<string>, line: string, pidOf: string -> Option<Pid>, info: Pid -> Descriptor, p: Pid)
    requires LogCandidate(line, pidOf) == Some(p) && !MicIdentity.IsSystemProcess(info(p).path)
    ensures LogEvents(lines + [line], pidOf, info) ==
      LogEvents(lines, pidOf, info) + [Event(p, MicIdentity.FriendlyName(info(p).name, info(p).path), Access)]
  {
    assert (lines + [line])[..|lines|] == lines;
  }

  /** A line that fails the PID-and-keyword gate enqueues nothing. */
  lemma UngatedLineEnqueuesNothing(lines: seq<string>, line: string, pidOf: string -> Option<Pid>, info: Pid -> Descriptor)
    requires LogCandidate(line, pidOf).None?
    ensures LogEvents(lines + [line], pidOf, info) == LogEvents(lines, pidOf, info)
  {
    assert (lines + [line])[..|lines|] == lines;
  }

  /** Every enqueued event's PID is the one some line of the stream offered
      through the gate. */
  lemma {:induction false} EventsComeFromGatedLines(lines: seq<string>, pidOf: string -> Option<Pid>, info: Pid -> Descriptor)
    ensures forall i :: 0 <= i < |LogEvents(lines, pidOf, info)| ==>
      exists j :: 0 <= j < |lines| && LogCandidate(lines[j], pidOf) == Some(LogEvents(lines, pidOf, info)[i].pid)
    decreases |lines|
  {
    if lines == [] {
      assert LogEvents(lines, pidOf, info) == [];
    } else {
      var n := |lines| - 1;
      var init := lines[..n];
      EventsComeFromGatedLines(init, pidOf, info);
      var before, after := LogEvents(init, pidOf, info), LogEvents(lines, pidOf, info);
      forall i | 0 <= i < |after|
        ensures exists j :: 0 <= j < |lines| && LogCandidate(lines[j], pidOf) == Some(after[i].pid)
      {
        if i < |before| {
          assert after[i] == before[i];
          var j :| 0 <= j < |init| && LogCandidate(init[j], pidOf) == Some(before[i].pid);
          assert lines[j] == init[j];
        } else {
          assert LogCandidate(lines[n], pidOf) == Some(after[i].pid);
        }
      }
    }
  }

  /** No deduplication: a line that enqueues an event enqueues it again when
      repeated. */
  lemma RepeatedLineEnqueuesTwice(lines: seq<string>, line: string, pidOf: string -> Option<Pid>, info: Pid -> Descriptor)
    requires LineEvent(line, pidOf, info).Some?
    ensures var e := LineEvent(line, pidOf, info).value;
      LogEvents(lines + [line, line], pidOf, info) == LogEvents(lines, pidOf, info) + [e, e]
  {
    var e := LineEvent(line, pidOf, info).value;
    var once := lines + [line];
    var twice := once + [line];
    assert lines + [line, line] == twice;
    assert once[..|lines|] == lines;
    assert LogEvents(once, pidOf, info) == LogEvents(lines, pidOf, info) + [e];
    assert twice[..|once|] == once;
  }

  /** A system process never enqueues anything. */
  lemma SystemLineEnqueuesNothing(lines: seq<string>, line: string, pidOf: string -> Option<Pid>, info: Pid -> Descriptor)
    requires pidOf(line).Some? && MicIdentity.IsSystemProcess(info(pidOf(line).value).path)
    ensures LogEvents(lines + [line], pidOf, info) == LogEvents(lines, pidOf, info)
  {
    assert (lines + [line])[..|lines|] == lines;
  }

  // ---------------------------------------------------------------------------
  // monitor_audio_devices

  /** One poll: `current_pids` keeps the listed non-system PIDs; every PID in
      `current - last` gets one started event and every PID in
      `last - current` one stopped event. */
  method PollDevices(last: set<Pid>, rows: seq<Pid>, info: Pid -> Descriptor)
    returns (started: seq<Event>, stopped: seq<Event>, current: set<Pid>)
    ensures forall p :: p in current <==> p in rows && !MicIdentity.IsSystemProcess(info(p).path)
    ensures Announces(started, current - last, Started, AppOf(info))
    ensures Announces(stopped, last - current, Stopped, AppOf(info))
  {
    started, stopped, current := PollStep(last, rows, Tracked(info), AppOf(info));
  }


  /** The latest event about `p` is a start: the PID is, as far as the event
      stream tells, using the device. */
  function IsOpen(evs: seq<Event>, p: Pid): bool
    decreases |evs|
  {
    if evs == [] then false
    else if evs[|evs| - 1].pid == p then evs[|evs| - 1].kind == Started
    else IsOpen(evs[..|evs| - 1], p)
  }

  /** Some event of `evs` is about `p`. */
  ghost predicate Mentions(evs: seq<Event>, p: Pid) {
    exists i :: 0 <= i < |evs| && evs[i].pid == p
  }

  /** An event that may follow `evs`: a start for a PID that is not open, or
      a stop for one that is. */
  ghost predicate Fits(evs: seq<Event>, e: Event) {
    || (e.kind == Started && !IsOpen(evs, e.pid))
    || (e.kind == Stopped && IsOpen(evs, e.pid))
  }

  /** Per PID, starts and stops alternate, beginning with a start. */
  ghost predicate Bracketed(evs: seq<Event>) {
    forall i :: 0 <= i < |evs| ==> Fits(evs[..i], evs[i])
  }

  lemma BracketedSnoc(evs: seq<Event>, e: Event)
    requires Bracketed(evs) && Fits(evs, e)
    ensures Bracketed(evs + [e])
    ensures forall p :: IsOpen(evs + [e], p) == if e.pid == p then e.kind == Started else IsOpen(evs, p)
  {
    var s := evs + [e];
    assert s[..|evs|] == evs;
    forall i | 0 <= i < |s| ensures Fits(s[..i], s[i]) {
      if i < |evs| {
        assert s[..i] == evs[..i];
      }
    }
  }

  /** Appending events of one kind, one per PID, each for a PID in the
      opposite state, keeps the stream bracketed and flips exactly those PIDs. */
  lemma {:induction false} AppendBatch(evs: seq<Event>, batch: seq<Event>, kind: EventType)
    requires kind == Started || kind == Stopped
    requires Bracketed(evs)
    requires forall i :: 0 <= i < |batch| ==> batch[i].kind == kind && IsOpen(evs, batch[i].pid) == (kind == Stopped)
    requires forall i, j :: 0 <= i < j < |batch| ==> batch[i].pid != batch[j].pid
    ensures Bracketed(evs + batch)
    ensures forall p :: IsOpen(evs + batch, p) == (if Mentions(batch, p) then kind == Started else IsOpen(evs, p))
    decreases |batch|
  {
    if batch == [] {
      assert evs + batch == evs;
    } else {
      var init, e := batch[..|batch| - 1], batch[|batch| - 1];
      assert forall i :: 0 <= i < |init| ==> init[i] == batch[i];
      AppendBatch(evs, init, kind);
      var mid := evs + init;
      assert evs + batch == mid + [e];
      forall i | 0 <= i < |init| ensures init[i].pid != e.pid {
        assert init[i] == batch[i];
      }
      assert !Mentions(init, e.pid);
      BracketedSnoc(mid, e);
      forall p ensures Mentions(batch, p) <==> Mentions(init, p) || p == e.pid {
        if Mentions(init, p) {
          var i :| 0 <= i < |init| && init[i].pid == p;
          assert batch[i].pid == p;
        }
      }
    }
  }

  /** If `appOf` names every PID, the announced events mention exactly `pids`. */
  lemma AnnouncesEvery(evs: seq<Event>, pids: set<Pid>, kind: EventType, appOf: Pid -> Option<string>)
    requires Announces(evs, pids, kind, appOf)
    requires forall p :: appOf(p).Some?
    ensures forall p :: Mentions(evs, p) <==> p in pids
  {
  }

  /** One poll's events, appended to a bracketed stream that is open exactly
      on `last`, leave it bracketed and open exactly on `current`. */
  lemma PollKeepsBracketing(events: seq<Event>, last: set<Pid>, started: seq<Event>, stopped: seq<Event>,
                            current: set<Pid>, appOf: Pid -> Option<string>)
    requires Bracketed(events)
    requires forall p :: IsOpen(events, p) <==> p in last
    requires forall p :: appOf(p).Some?
    requires Announces(started, current - last, Started, appOf)
    requires Announces(stopped, last - current, Stopped, appOf)
    ensures Bracketed(events + started + stopped)
    ensures forall p :: IsOpen(events + started + stopped, p) <==> p in current
    ensures forall p :: Mentions(events + started + stopped, p) ==> Mentions(events, p) || p in current || p in last
  {
    AnnouncesEvery(started, current - last, Started, appOf);
    AnnouncesEvery(stopped, last - current, Stopped, appOf);
    AppendBatch(events, started, Started);
    var mid := events + started;
    AppendBatch(mid, stopped, Stopped);
    var all := mid + stopped;
    forall p | Mentions(all, p) ensures Mentions(events, p) || p in current || p in last {
      var i :| 0 <= i < |all| && all[i].pid == p;
      if i < |events| {
        assert events[i] == all[i];
      } else if i < |mid| {
        assert started[i - |events|] == all[i];
      } else {
        assert stopped[i - |mid|] == all[i];
      }
    }
  }

  /** One poll's input: the PIDs `lsof` listed and the process table. */
  datatype Poll = Poll(rows: seq<Pid>, info: Pid -> Descriptor)

  /** The PID's command line is a system path in each of the first `n` polls. */
  ghost predicate AlwaysSystem(polls: seq<Poll>, n: nat, p: Pid)
    requires n <= |polls|
  {
    forall j :: 0 <= j < n ==> MicIdentity.IsSystemProcess(polls[j].info(p).path)
  }

  /** `monitor_audio_devices` over a run of polls: the events it enqueues and
      the final `last_active_pids`. The stream is bracketed, a PID is open in
      it exactly while it is in `last_active_pids`, that set is the last
      poll's non-system PIDs, and a PID whose command line is a system path
      at every poll never appears. */
  method MonitorAudioDevices(polls: seq<Poll>) returns (events: seq<Event>, last: set<Pid>)
    ensures Bracketed(events)
    ensures forall p :: IsOpen(events, p) <==> p in last
    ensures polls != [] ==> forall p :: p in last <==>
      p in polls[|polls| - 1].rows && !MicIdentity.IsSystemProcess(polls[|polls| - 1].info(p).path)
    ensures forall p :: AlwaysSystem(polls, |polls|, p) ==> !Mentions(events, p)
  {
    events, last := [], {};
    for n := 0 to |polls|
      invariant Bracketed(events)
      invariant forall p :: IsOpen(events, p) <==> p in last
      invariant n > 0 ==> forall p :: p in last <==>
        p in polls[n - 1].rows && !MicIdentity.IsSystemProcess(polls[n - 1].info(p).path)
      invariant forall p :: AlwaysSystem(polls, n, p) ==> p !in last && !Mentions(events, p)
    {
      var started, stopped, current := PollDevices(last, polls[n].rows, polls[n].info);
      PollKeepsBracketing(events, last, started, stopped, current, AppOf(polls[n].info));
      forall p | AlwaysSystem(polls, n + 1, p) ensures AlwaysSystem(polls, n, p) && p !in current {
        assert MicIdentity.IsSystemProcess(polls[n].info(p).path);
      }
      events, last := events + started + stopped, current;
    }
  }
}
