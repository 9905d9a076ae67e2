/** What safari.py and mic_monitor.py share: the event records they put on
    `log_queue`, the gate their log readers apply to each line, and the
    poll step of `monitor_audio_devices`, which diffs the set of PIDs that
    hold an audio device against the previous poll's set. */
module Monitoring {
  import opened Text

  type Pid = int

  /** What `get_process_info` returns: the `comm` name and the full command line. */
  datatype Descriptor = Descriptor(name: string, path: string)

  /** The `'type'` field of a queued log entry. */
  datatype EventType = Access | Started | Stopped

  /** One entry of `log_queue` (the wall-clock timestamp string is left out). */
  datatype Event = Event(pid: Pid, app: string, kind: EventType)

  /** The log reader's gate: the `PID\s*=\s*(\d+)` search succeeds (`pidOf`
      stands for the search and `int(match.group(1))`) and the lowered line
      mentions "microphone" or "audio". */
  function LogCandidate(line: string, pidOf: string -> Option<Pid>): (r: Option<Pid>)
    ensures r.Some? <==>
      pidOf(line).Some? && (Contains(Lower(line), "microphone") || Contains(Lower(line), "audio"))
    ensures r.Some? ==> r == pidOf(line)
  {
    var lower := Lower(line);
    match pidOf(line)
    case Some(pid) => if Contains(lower, "microphone") || Contains(lower, "audio") then Some(pid) else None
    case None => None
  }

  /** The `current_pids` loop: every listed PID that `admit` accepts, once. */
  method CollectActive(rows: seq<Pid>, admit: Pid -> bool) returns (current: set<Pid>)
    ensures forall p :: p in current <==> p in rows && admit(p)
  {
    current := {};
    for i := 0 to |rows|
      invariant forall p :: p in current <==> p in rows[..i] && admit(p)
    {
      assert rows[..i + 1] == rows[..i] + [rows[i]];
      if admit(rows[i]) {
        current := current + {rows[i]};
      }
    }
    assert rows[..|rows|] == rows;
  }

  /** `evs` holds one event of type `kind` for each PID of `pids` that
      `appOf` names, and nothing else; `appOf(p) == None` stands for a falsy
      `app_name`, for which the loop body enqueues nothing. */
  ghost predicate Announces(evs: seq<Event>, pids: set<Pid>, kind: EventType, appOf: Pid -> Option<string>) {
    && (forall i :: 0 <= i < |evs| ==>
          evs[i].pid in pids && evs[i].kind == kind && appOf(evs[i].pid) == Some(evs[i].app))
    && (forall i, j :: 0 <= i < j < |evs| ==> evs[i].pid != evs[j].pid)
    && (forall p :: p in pids && appOf(p).Some? ==> exists i :: 0 <= i < |evs| && evs[i].pid == p)
  }

  /** `for pid in pids: ... log_queue.put(...)`; a Python set is walked in an
      order of its own choosing, so the order here is left open too. */
  method Announce(pids: set<Pid>, kind: EventType, appOf: Pid -> Option<string>) returns (evs: seq<Event>)
    ensures Announces(evs, pids, kind, appOf)
  {
    evs := [];
    var remaining := pids;
    while remaining != {}
      invariant remaining <= pids
      invariant forall i :: 0 <= i < |evs| ==>
        evs[i].pid in pids - remaining && evs[i].kind == kind && appOf(evs[i].pid) == Some(evs[i].app)
      invariant forall i, j :: 0 <= i < j < |evs| ==> evs[i].pid != evs[j].pid
      invariant forall p :: p in pids - remaining && appOf(p).Some? ==>
        exists i :: 0 <= i < |evs| && evs[i].pid == p
      decreases remaining
    {
      NonEmptyHasElement(remaining);
      var p :| p in remaining;
      ghost var prev := evs;
      match appOf(p) {
        case Some(app) =>
          evs := evs + [Event(p, app, kind)];
          assert evs[|evs| - 1].pid == p;
        case None =>
      }
      assert forall i :: 0 <= i < |prev| ==> evs[i] == prev[i];
      remaining := remaining - {p};
    }
  }

  /** A non-empty set of PIDs has an element to pick. */
  lemma NonEmptyHasElement(s: set<Pid>)
    requires s != {}
    ensures exists p :: p in s
  {
    if forall p :: p !in s {
      assert false;
    }
  }

  /** One iteration of `monitor_audio_devices`: build `current_pids` from the
      listed PIDs that `admit` accepts, announce `current - last` as started
      and `last - current` as stopped (in that order), and hand back
      `current` as the next poll's `last_active_pids`. */
  method PollStep(last: set<Pid>, rows: seq<Pid>, admit: Pid -> bool, appOf: Pid -> Option<string>)
    returns (started: seq<Event>, stopped: seq<Event>, current: set<Pid>)
    ensures forall p :: p in current <==> p in rows && admit(p)
    ensures Announces(started, current - last, Started, appOf)
    ensures Announces(stopped, last - current, Stopped, appOf)
  {
    current := CollectActive(rows, admit);
    started := Announce(current - last, Started, appOf);
    stopped := Announce(last - current, Stopped, appOf);
  }

  /** A PID in both snapshots is neither started nor stopped, and no PID is
      both started and stopped by one poll. */
  lemma SteadyPidIsSilent(started: seq<Event>, stopped: seq<Event>, last: set<Pid>, current: set<Pid>,
                          appOf: Pid -> Option<string>, p: Pid)
    requires Announces(started, current - last, Started, appOf)
    requires Announces(stopped, last - current, Stopped, appOf)
    requires p in last && p in current
    ensures forall i :: 0 <= i < |started| ==> started[i].pid != p
    ensures forall i :: 0 <= i < |stopped| ==> stopped[i].pid != p
  {
  }

  lemma StartedAndStoppedDisjoint(started: seq<Event>, stopped: seq<Event>, last: set<Pid>, current: set<Pid>,
                                  appOf: Pid -> Option<string>)
    requires Announces(started, current - last, Started, appOf)
    requires Announces(stopped, last - current, Stopped, appOf)
    ensures forall i, j :: 0 <= i < |started| && 0 <= j < |stopped| ==> started[i].pid != stopped[j].pid
  {
  }
}
