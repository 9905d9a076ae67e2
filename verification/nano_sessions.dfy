/** Session tracking of nano.py: the global `active_apps` map from a display
    name to the time its start was reported. The log loop reports a start
    only for an absent name and never refreshes the time; the sweep thread
    reports a stop for, and deletes, every entry more than ten seconds old.
    Time is an integer number of seconds passed in by the caller. */
module NanoSessions {
  import opened NanoClassifier

  /** `current_time - last_seen > 10`. */
  const StaleAfter: int := 10

  /** What a reported candidate does to `active_apps`: set only when absent. */
  function ObserveSpec(active: map<string, int>, app: string, now: int): map<string, int> {
    if app in active then active else active[app := now]
  }

  /** What one sweep leaves in `active_apps`: the entries that are not stale. */
  function SweepSpec(active: map<string, int>, now: int): (kept: map<string, int>)
    ensures kept.Keys <= active.Keys
    ensures forall a :: a in kept ==> kept[a] == active[a] && now - kept[a] <= StaleAfter
    ensures forall a :: a in active && a !in kept ==> now - active[a] > StaleAfter
  {
    map a | a in active && now - active[a] <= StaleAfter :: active[a]
  }

  /** The first loop of `check_inactive_apps`: walks a snapshot of the map in
      an order of its own and collects every stale name, once. */
  method ExpiredApps(active: map<string, int>, now: int) returns (expired: seq<string>)
    ensures forall a :: a in expired <==> a in active && now - active[a] > StaleAfter
    ensures forall i, j :: 0 <= i < j < |expired| ==> expired[i] != expired[j]
  {
    expired := [];
    var remaining := active.Keys;
    while remaining != {}
      invariant remaining <= active.Keys
      invariant forall a :: a in expired <==> a in active && a !in remaining && now - active[a] > StaleAfter
      invariant forall i, j :: 0 <= i < j < |expired| ==> expired[i] != expired[j]
      decreases remaining
    {
      var app :| app in remaining;
      if now - active[app] > StaleAfter {
        expired := expired + [app];
      }
      remaining := remaining - {app};
    }
  }

  /** The log loop's progress: the map, the starts reported so far, and
      whether an exception has ended the loop. */
  datatype RunState = RunState(active: map<string, int>, starts: seq<string>, crashed: bool)

  /** One line at time `now`: nothing after a crash; a crash verdict ends the
      loop; a candidate absent from the map is reported and recorded. */
  function RunLine(st: RunState, line: string, now: int, ps: PatternSet): RunState {
    if st.crashed then st
    else
      match Classify(line, ps)
      case Crash => st.(crashed := true)
      case Candidate(app) =>
        if app in st.active then st
        else RunState(ObserveSpec(st.active, app, now), st.starts + [app], false)
      case _ => st
  }

  /** The log loop over `lines`, line `i` arriving at `times[i]`. */
  function Run(active: map<string, int>, lines: seq<string>, times: seq<int>, ps: PatternSet): (r: RunState)
    requires |times| == |lines|
    ensures |r.starts| <= |lines|
    ensures forall a :: a in r.active <==> a in active || a in r.starts
    decreases |lines|
  {
    if lines == [] then RunState(active, [], false)
    else RunLine(Run(active, lines[..|lines| - 1], times[..|times| - 1], ps), lines[|lines| - 1], times[|times| - 1], ps)
  }

  class Sessions {
    var active: map<string, int>

    constructor ()
      ensures active == map[]
    {
      active := map[];
    }

    /** `if app_name not in active_apps: ... active_apps[app_name] = time.time()`. */
    method Observe(app: string, now: int) returns (started: bool)
      modifies this
      ensures started <==> app !in old(active)
      ensures active == ObserveSpec(old(active), app, now)
    {
      started := app !in active;
      if started {
        active := active[app := now];
      }
    }

    /** One pass of `check_inactive_apps`: a stop for each stale name, once,
        then the deletions; every other entry is left as it was. */
    method Sweep(now: int) returns (stopped: seq<string>)
      modifies this
      ensures forall a :: a in stopped <==> a in old(active) && now - old(active)[a] > StaleAfter
      ensures forall i, j :: 0 <= i < j < |stopped| ==> stopped[i] != stopped[j]
      ensures active == SweepSpec(old(active), now)
    {
      stopped := ExpiredApps(active, now);
      for i := 0 to |stopped|
        invariant forall a :: a in active <==> a in old(active) && a !in stopped[..i]
        invariant forall a :: a in active ==> active[a] == old(active)[a]
      {
        assert stopped[..i + 1] == stopped[..i] + [stopped[i]];
        active := active - {stopped[i]};
      }
      assert stopped[..|stopped|] == stopped;
    }

    /** `monitor_microphone_logs` over a finite stream: classify each line,
        report and record new candidates, and stop at the first crash. */
    method MonitorMicrophoneLogs(lines: seq<string>, times: seq<int>, ps: PatternSet)
      returns (starts: seq<string>, crashed: bool)
      requires |times| == |lines|
      modifies this
      ensures RunState(active, starts, crashed) == Run(old(active), lines, times, ps)
    {
      starts, crashed := [], false;
      var i := 0;
      while i < |lines|
        invariant 0 <= i <= |lines|
        invariant RunState(active, starts, crashed) == Run(old(active), lines[..i], times[..i], ps)
        invariant !crashed
      {
        assert lines[..i + 1][..i] == lines[..i] && times[..i + 1][..i] == times[..i];
        var v := ClassifyLine(lines[i], ps);
        match v {
          case Crash =>
            crashed := true;
            CrashIsFinal(old(active), lines[..i + 1], times[..i + 1], lines[i + 1..], times[i + 1..], ps);
            assert lines[..i + 1] + lines[i + 1..] == lines && times[..i + 1] + times[i + 1..] == times;
            return;
          case Candidate(app) =>
            var started := Observe(app, times[i]);
            if started {
              starts := starts + [app];
            }
          case Skipped =>
          case Ignored =>
        }
        i := i + 1;
      }
      assert lines[..|lines|] == lines && times[..|times|] == times;
    }
  }

  /** Once the loop has crashed, later lines change nothing. */
  lemma {:induction false} CrashIsFinal(active: map<string, int>, lines: seq<string>, times: seq<int>,
                                       more: seq<string>, moreTimes: seq<int>, ps: PatternSet)
    requires |times| == |lines| && |moreTimes| == |more|
    requires Run(active, lines, times, ps).crashed
    ensures Run(active, lines + more, times + moreTimes, ps) == Run(active, lines, times, ps)
    decreases |more|
  {
    if more == [] {
      assert lines + more == lines && times + moreTimes == times;
    } else {
      var n := |more| - 1;
      CrashIsFinal(active, lines, times, more[..n], moreTimes[..n], ps);
      assert (lines + more)[..|lines| + n] == lines + more[..n];
      assert (times + moreTimes)[..|times| + n] == times + moreTimes[..n];
    }
  }

  /** Every reported start names an app that was absent from the map when
      the loop began, is reported once, is recorded, and is never denied. */
  lemma {:induction false} StartsAreFresh(active: map<string, int>, lines: seq<string>, times: seq<int>, ps: PatternSet)
    requires |times| == |lines|
    ensures var r := Run(active, lines, times, ps);
      && (forall i :: 0 <= i < |r.starts| ==>
            r.starts[i] !in active && r.starts[i] in r.active && r.starts[i] !in Denied)
      && (forall i, j :: 0 <= i < j < |r.starts| ==> r.starts[i] != r.starts[j])
      && active.Keys <= r.active.Keys
    decreases |lines|
  {
    if lines != [] {
      var n := |lines| - 1;
      StartsAreFresh(active, lines[..n], times[..n], ps);
      var st := Run(active, lines[..n], times[..n], ps);
      var r := Run(active, lines, times, ps);
      assert r == RunLine(st, lines[n], times[n], ps);
      if r.starts == st.starts {
        assert r.active == st.active;
      } else {
        var app := Classify(lines[n], ps).app;
        assert app !in st.active && app !in Denied;
        assert r == RunState(st.active[app := times[n]], st.starts + [app], false);
        forall i | 0 <= i < |r.starts|
          ensures r.starts[i] !in active && r.starts[i] in r.active && r.starts[i] !in Denied
        {
          if i < |st.starts| {
            assert r.starts[i] == st.starts[i];
          }
        }
        forall i, j | 0 <= i < j < |r.starts|
          ensures r.starts[i] != r.starts[j]
        {
          assert r.starts[i] == st.starts[i];
          if j < |st.starts| {
            assert r.starts[j] == st.starts[j];
          }
        }
      }
    }
  }

  /** The map only ever records the time of a name's first reported line:
      entries already present keep their time, whatever the loop reads. */
  lemma {:induction false} NoRefresh(active: map<string, int>, lines: seq<string>, times: seq<int>, ps: PatternSet)
    requires |times| == |lines|
    ensures forall a :: a in active ==>
      a in Run(active, lines, times, ps).active && Run(active, lines, times, ps).active[a] == active[a]
    decreases |lines|
  {
    if lines != [] {
      var n := |lines| - 1;
      NoRefresh(active, lines[..n], times[..n], ps);
    }
  }

  /** A name seen over and over is still swept once its first sighting is
      more than ten seconds old: repeated lines do not keep it alive. */
  lemma StaleDespiteActivity(active: map<string, int>, lines: seq<string>, times: seq<int>, ps: PatternSet,
                             app: string, now: int)
    requires |times| == |lines|
    requires app in active && now - active[app] > StaleAfter
    ensures app !in SweepSpec(Run(active, lines, times, ps).active, now)
  {
    NoRefresh(active, lines, times, ps);
  }

  /** Sweeping twice at the same time is sweeping once, and a later sweep
      keeps no more than an earlier one. */
  lemma SweepIdempotentAndMonotone(active: map<string, int>, now: int, later: int)
    requires now <= later
    ensures SweepSpec(SweepSpec(active, now), now) == SweepSpec(active, now)
    ensures SweepSpec(active, later).Keys <= SweepSpec(active, now).Keys
  {
  }

  /** After its stop, a name's next reported line starts it again. */
  lemma StoppedAppRestarts(active: map<string, int>, app: string, now: int, next: int)
    requires app in active && now - active[app] > StaleAfter
    ensures app !in SweepSpec(active, now)
    ensures ObserveSpec(SweepSpec(active, now), app, next)[app] == next
  {
  }
}
