/** The consumer of safari.py, `display_logs`: it drops an event while the key
    `app-type` is in `seen_events`, adds the key when it shows an event, and
    starts a timer that discards a key two seconds later. Time is an explicit
    integer number of seconds carried by each dequeued event.

    Two models are given. `DisplayAll` / `DisplayLogs` are the intended
    behaviour: a key stays in `seen_events` for two seconds after the event
    that added it. `AsWrittenAll` is what the code does: the timer's lambda
    reads the variable `event_key` when it fires, two seconds later, and by
    then that variable holds the key of the most recently dequeued event, so
    the timer can discard the wrong key and leave its own key in place. */
module SafariDisplay {
  import opened Monitoring

  /** Seconds a shown key keeps suppressing repeats. */
  const DedupWindow: int := 2

  function TypeName(kind: EventType): string {
    match kind
    case Access => "access"
    case Started => "started"
    case Stopped => "stopped"
  }

  /** `f"{log['app']}-{log['type']}"`. */
  function EventKey(e: Event): string {
    e.app + "-" + TypeName(e.kind)
  }

  /** A printed line: the green start line or the red stop line. */
  datatype Line = StartLine(app: string, pid: Pid) | StopLine(app: string, pid: Pid)

  /** Both "access" and "started" print as a start; "stopped" as a stop. */
  function Render(e: Event): (line: Line)
    ensures line.app == e.app && line.pid == e.pid
    ensures line.StopLine? <==> e.kind == Stopped
  {
    if e.kind == Stopped then StopLine(e.app, e.pid) else StartLine(e.app, e.pid)
  }

  /** An event as `log_queue.get` hands it over, with the time it was dequeued. */
  datatype Arrival = Arrival(event: Event, at: int)

  function Rendered(shown: seq<Arrival>): (lines: seq<Line>)
    ensures |lines| == |shown|
    ensures forall i :: 0 <= i < |shown| ==> lines[i] == Render(shown[i].event)
  {
    seq(|shown|, i requires 0 <= i < |shown| => Render(shown[i].event))
  }

  /** Arrivals come in dequeue order, so their times do not decrease. */
  ghost predicate Chronological(arrivals: seq<Arrival>) {
    forall i, j :: 0 <= i < j < |arrivals| ==> arrivals[i].at <= arrivals[j].at
  }

  /** The key gives back both the application and the event type: the three
      type names differ in their last character or in their fifth-from-last. */
  lemma KeyIdentifiesEvent(e1: Event, e2: Event)
    ensures EventKey(e1) == EventKey(e2) <==> e1.app == e2.app && e1.kind == e2.kind
  {
    var k1, k2 := EventKey(e1), EventKey(e2);
    if e1.kind == e2.kind {
      if k1 == k2 {
        assert k1[..|e1.app|] == e1.app;
        assert k2[..|e2.app|] == e2.app;
      }
    } else if e1.kind == Access || e2.kind == Access {
      assert k1[|k1| - 1] != k2[|k2| - 1];
    } else {
      assert k1[|k1| - 5] != k2[|k2| - 5];
    }
  }

  /** "access" and "started" events of one application print alike, yet
      are deduplicated under different keys. */
  lemma AccessAndStartedPrintAlike(pid: Pid, app: string)
    ensures Render(Event(pid, app, Access)) == Render(Event(pid, app, Started))
    ensures EventKey(Event(pid, app, Access)) != EventKey(Event(pid, app, Started))
  {
    KeyIdentifiesEvent(Event(pid, app, Access), Event(pid, app, Started));
  }

  // ---------------------------------------------------------------------------
  // Intended behaviour: a key expires two seconds after it was added.

  /** When each key in `seen_events` was added, and what has been shown. */
  datatype Display = Display(addedAt: map<string, int>, shown: seq<Arrival>)

  /** The key is still in `seen_events` at time `now`. */
  predicate Recent(addedAt: map<string, int>, key: string, now: int) {
    key in addedAt && now - addedAt[key] < DedupWindow
  }

  function DisplayStep(d: Display, a: Arrival): Display {
    var key := EventKey(a.event);
    if Recent(d.addedAt, key, a.at) then d
    else Display(d.addedAt[key := a.at], d.shown + [a])
  }

  function DisplayAll(arrivals: seq<Arrival>): (d: Display)
    ensures |d.shown| <= |arrivals|
    ensures forall k :: 0 <= k < |d.shown| ==> d.shown[k] in arrivals
    decreases |arrivals|
  {
    if arrivals == [] then Display(map[], [])
    else DisplayStep(DisplayAll(arrivals[..|arrivals| - 1]), arrivals[|arrivals| - 1])
  }

  method DisplayLogs(arrivals: seq<Arrival>) returns (lines: seq<Line>)
    ensures lines == Rendered(DisplayAll(arrivals).shown)
  {
    var addedAt: map<string, int> := map[];
    ghost var shown: seq<Arrival> := [];
    lines := [];
    for i := 0 to |arrivals|
      invariant Display(addedAt, shown) == DisplayAll(arrivals[..i])
      invariant lines == Rendered(shown)
    {
      assert arrivals[..i + 1][..i] == arrivals[..i];
      var a := arrivals[i];
      var key := EventKey(a.event);
      if !(key in addedAt && a.at - addedAt[key] < DedupWindow) {
        addedAt := addedAt[key := a.at];
        shown := shown + [a];
        lines := lines + [Render(a.event)];
      }
    }
    assert arrivals[..|arrivals|] == arrivals;
  }

  /** Every shown event's key is recorded no earlier than it was shown, and
      every recorded time is that of a shown event with that key. */
  ghost predicate Consistent(d: Display) {
    && (forall k :: 0 <= k < |d.shown| ==>
          EventKey(d.shown[k].event) in d.addedAt && d.shown[k].at <= d.addedAt[EventKey(d.shown[k].event)])
    && (forall key :: key in d.addedAt ==>
          exists k :: 0 <= k < |d.shown| && EventKey(d.shown[k].event) == key && d.shown[k].at == d.addedAt[key])
  }

  /** One step keeps `Consistent`, given the new event is not older than any shown one. */
  lemma ConsistentStep(d: Display, a: Arrival)
    requires Consistent(d)
    requires forall k :: 0 <= k < |d.shown| ==> d.shown[k].at <= a.at
    ensures Consistent(DisplayStep(d, a))
  {
    var key := EventKey(a.event);
    if !Recent(d.addedAt, key, a.at) {
      var after := Display(d.addedAt[key := a.at], d.shown + [a]);
      assert after == DisplayStep(d, a);
      forall k | 0 <= k < |after.shown|
        ensures EventKey(after.shown[k].event) in after.addedAt
        ensures after.shown[k].at <= after.addedAt[EventKey(after.shown[k].event)]
      {
        if k < |d.shown| {
          assert after.shown[k] == d.shown[k];
        }
      }
      forall key' | key' in after.addedAt
        ensures exists k :: 0 <= k < |after.shown| && EventKey(after.shown[k].event) == key' && after.shown[k].at == after.addedAt[key']
      {
        if key' != key {
          var k :| 0 <= k < |d.shown| && EventKey(d.shown[k].event) == key' && d.shown[k].at == d.addedAt[key'];
          assert after.shown[k] == d.shown[k];
        } else {
          assert after.shown[|d.shown|] == a;
        }
      }
    }
  }

  lemma {:induction false} DisplayConsistent(arrivals: seq<Arrival>)
    requires Chronological(arrivals)
    ensures Consistent(DisplayAll(arrivals))
    decreases |arrivals|
  {
    if arrivals != [] {
      var init, a := arrivals[..|arrivals| - 1], arrivals[|arrivals| - 1];
      DisplayConsistent(init);
      var before := DisplayAll(init);
      forall k | 0 <= k < |before.shown|
        ensures before.shown[k].at <= a.at
      {
        var i :| 0 <= i < |init| && before.shown[k] == init[i];
        assert arrivals[i] == init[i];
      }
      ConsistentStep(before, a);
    }
  }

  /** Two shown events with the same key are at least the window apart. */
  ghost predicate Spaced(shown: seq<Arrival>) {
    forall i, j :: 0 <= i < j < |shown| && EventKey(shown[i].event) == EventKey(shown[j].event) ==>
      shown[j].at - shown[i].at >= DedupWindow
  }

  lemma SpacedSnoc(shown: seq<Arrival>, a: Arrival)
    requires Spaced(shown)
    requires forall i :: 0 <= i < |shown| && EventKey(shown[i].event) == EventKey(a.event) ==>
      a.at - shown[i].at >= DedupWindow
    ensures Spaced(shown + [a])
  {
    var s := shown + [a];
    forall i, j | 0 <= i < j < |s| && EventKey(s[i].event) == EventKey(s[j].event)
      ensures s[j].at - s[i].at >= DedupWindow
    {
      assert s[i] == shown[i];
      if j < |shown| {
        assert s[j] == shown[j];
      }
    }
  }

  /** What the display loop shows keeps every key at least the window apart. */
  lemma {:induction false} ShownAreSpaced(arrivals: seq<Arrival>)
    requires Chronological(arrivals)
    ensures Spaced(DisplayAll(arrivals).shown)
    decreases |arrivals|
  {
    if arrivals != [] {
      var init, a := arrivals[..|arrivals| - 1], arrivals[|arrivals| - 1];
      ShownAreSpaced(init);
      DisplayConsistent(init);
      var before := DisplayAll(init);
      var key := EventKey(a.event);
      if !Recent(before.addedAt, key, a.at) {
        assert DisplayAll(arrivals).shown == before.shown + [a];
        forall i | 0 <= i < |before.shown| && EventKey(before.shown[i].event) == key
          ensures a.at - before.shown[i].at >= DedupWindow
        {
        }
        SpacedSnoc(before.shown, a);
      }
    }
  }

  /** An event is dropped only because a shown event with the same key came
      less than the window before it. */
  lemma DroppedOnlyWhenRecent(arrivals: seq<Arrival>)
    requires arrivals != [] && Chronological(arrivals)
    requires DisplayAll(arrivals).shown == DisplayAll(arrivals[..|arrivals| - 1]).shown
    ensures var a, before := arrivals[|arrivals| - 1], DisplayAll(arrivals[..|arrivals| - 1]);
      exists k :: 0 <= k < |before.shown| && EventKey(before.shown[k].event) == EventKey(a.event)
        && arrivals[|arrivals| - 1].at - before.shown[k].at < DedupWindow
  {
    var init, a := arrivals[..|arrivals| - 1], arrivals[|arrivals| - 1];
    DisplayConsistent(init);
    var before := DisplayAll(init);
    var key := EventKey(a.event);
    assert Recent(before.addedAt, key, a.at);
    var k :| 0 <= k < |before.shown| && EventKey(before.shown[k].event) == key && before.shown[k].at == before.addedAt[key];
  }

  /** A repeat of the same event within the window prints once. */
  lemma BurstPrintsOnce(e: Event, t: int, d: int)
    requires 0 <= d < DedupWindow
    ensures DisplayAll([Arrival(e, t), Arrival(e, t + d)]).shown == [Arrival(e, t)]
  {
    var first := [Arrival(e, t)];
    assert first[..0] == [];
    assert DisplayAll(first) == Display(map[EventKey(e) := t], first);
    assert [Arrival(e, t), Arrival(e, t + d)][..1] == first;
  }

  // ---------------------------------------------------------------------------
  // As written: each timer discards whatever `event_key` holds when it fires.

  /** `seen_events`, the deadlines of the timers not yet fired, the current
      value of `event_key`, and what has been shown. */
  datatype TimerState = TimerState(seen: set<string>, timers: seq<int>, eventKey: string, shown: seq<Arrival>)

  function AnyDue(timers: seq<int>, now: int): (due: bool)
    ensures due <==> exists i :: 0 <= i < |timers| && timers[i] <= now
  {
    if timers == [] then false else timers[0] <= now || AnyDue(timers[1..], now)
  }

  function Pending(timers: seq<int>, now: int): (rest: seq<int>)
    ensures forall x :: x in rest <==> x in timers && x > now
  {
    if timers == [] then []
    else if timers[0] <= now then Pending(timers[1..], now)
    else [timers[0]] + Pending(timers[1..], now)
  }

  /** Timers due by the time the event is dequeued fire first, each
      discarding the key of the previously dequeued event; then `event_key`
      is reassigned and the event is dropped or shown. */
  function AsWrittenStep(st: TimerState, a: Arrival): TimerState {
    var seen := if AnyDue(st.timers, a.at) then st.seen - {st.eventKey} else st.seen;
    var timers := Pending(st.timers, a.at);
    var key := EventKey(a.event);
    if key in seen then TimerState(seen, timers, key, st.shown)
    else TimerState(seen + {key}, timers + [a.at + DedupWindow], key, st.shown + [a])
  }

  function AsWrittenAll(arrivals: seq<Arrival>): (st: TimerState)
    ensures |st.shown| <= |arrivals|
    ensures forall k :: 0 <= k < |st.shown| ==> st.shown[k] in arrivals
    decreases |arrivals|
  {
    if arrivals == [] then TimerState({}, [], "", [])
    else AsWrittenStep(AsWrittenAll(arrivals[..|arrivals| - 1]), arrivals[|arrivals| - 1])
  }

  /** Zoom starts at 0 s and Slack at 1 s; Zoom starts again at 5 s. The
      timer set for Zoom fires at 2 s but discards "Slack-started", the key
      `event_key` then holds, so "Zoom-started" is never discarded and the
      second Zoom start is not printed, while the intended window prints it. */
  lemma LateBindingHidesRestart()
    ensures var arrivals := [Arrival(Event(100, "Zoom", Started), 0),
                             Arrival(Event(200, "Slack", Started), 1),
                             Arrival(Event(300, "Zoom", Started), 5)];
      && AsWrittenAll(arrivals).shown == arrivals[..2]
      && DisplayAll(arrivals).shown == arrivals
  {
    var zoom, slack, zoom2 := Arrival(Event(100, "Zoom", Started), 0),
                              Arrival(Event(200, "Slack", Started), 1),
                              Arrival(Event(300, "Zoom", Started), 5);
    var arrivals := [zoom, slack, zoom2];
    assert arrivals[..2] == [zoom, slack];
    assert arrivals[..2][..1] == [zoom];
    assert [zoom][..0] == [];
    var zk, sk := EventKey(zoom.event), EventKey(slack.event);
    assert zk != sk by {
      assert zk[0] == 'Z' && sk[0] == 'S';
    }
    var s0 := AsWrittenAll([]);
    assert AsWrittenAll([zoom]) == AsWrittenStep(s0, zoom);
    assert Pending(s0.timers, 0) == [];
    var s1 := AsWrittenStep(s0, zoom);
    assert s1 == TimerState({zk}, [2], zk, [zoom]);
    assert AsWrittenAll([zoom, slack]) == AsWrittenStep(s1, slack);
    assert Pending([2], 1) == [2];
    var s2 := AsWrittenStep(s1, slack);
    assert s2 == TimerState({zk, sk}, [2, 3], sk, [zoom, slack]);
    assert AsWrittenAll(arrivals) == AsWrittenStep(s2, zoom2);
    assert AnyDue([2, 3], 5);
    assert AsWrittenStep(s2, zoom2).shown == [zoom, slack];
    var d0 := DisplayAll([]);
    assert DisplayAll([zoom]) == DisplayStep(d0, zoom);
    var d1 := DisplayStep(d0, zoom);
    assert d1 == Display(map[zk := 0], [zoom]);
    assert DisplayAll([zoom, slack]) == DisplayStep(d1, slack);
    var d2 := DisplayStep(d1, slack);
    assert d2 == Display(map[zk := 0, sk := 1], [zoom, slack]);
    assert DisplayAll(arrivals) == DisplayStep(d2, zoom2);
  }

  /** The same late binding also lets a key print again early. A starts at
      0 s and K at 1 s; A's timer fires at 2 s and discards "K-started", so
      a repeat of K after that timer and before K's own (at 2 s on this
      integer clock, where a due timer fires before the dequeue) prints less
      than two seconds after K's first start, where the intended window
      drops it. */
  lemma LateBindingReprintsEarly()
    ensures var arrivals := [Arrival(Event(100, "A", Started), 0),
                             Arrival(Event(200, "K", Started), 1),
                             Arrival(Event(200, "K", Started), 2)];
      && AsWrittenAll(arrivals).shown == arrivals
      && DisplayAll(arrivals).shown == arrivals[..2]
  {
    var a, k, k2 := Arrival(Event(100, "A", Started), 0),
                    Arrival(Event(200, "K", Started), 1),
                    Arrival(Event(200, "K", Started), 2);
    var arrivals := [a, k, k2];
    assert arrivals[..2] == [a, k];
    assert arrivals[..2][..1] == [a];
    assert [a][..0] == [];
    var ak, kk := EventKey(a.event), EventKey(k.event);
    assert ak != kk by {
      assert ak[0] == 'A' && kk[0] == 'K';
    }
    assert AsWrittenAll(arrivals).shown == arrivals by {
      var s1 := TimerState({ak}, [2], ak, [a]);
      assert AsWrittenAll([a]) == s1 by {
        assert Pending([], 0) == [];
      }
      var s2 := TimerState({ak, kk}, [2, 3], kk, [a, k]);
      assert AsWrittenAll([a, k]) == s2 by {
        assert Pending([2], 1) == [2];
      }
      assert AnyDue([2, 3], 2) && Pending([2, 3], 2) == [3];
      assert AsWrittenAll(arrivals) == AsWrittenStep(s2, k2);
    }
    assert DisplayAll(arrivals).shown == [a, k] by {
      var d2 := Display(map[ak := 0, kk := 1], [a, k]);
      assert DisplayAll([a, k]) == d2 by {
        assert DisplayAll([a]) == Display(map[ak := 0], [a]);
      }
      assert Recent(d2.addedAt, kk, 2);
      assert DisplayAll(arrivals) == DisplayStep(d2, k2);
    }
  }
}
