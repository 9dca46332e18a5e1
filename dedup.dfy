/**
  The duplicate filter in front of the event log of
  app_with_html_errors.py: a time window per `"{event_type}_{description}"`
  key, and state-based suppression of repeated door and alarm events.
  `Admit` is the filter's decision as a function of its state; the
  DedupApp class runs it on its own fields. `Run` replays a sequence of
  submissions and door closings, to state what the filter guarantees
  about the log over time.
*/
module Dedup {
  import opened Wrappers
  import opened Events
  import opened Monitor

  /** Two submissions of the same key closer than this (milliseconds) are one. */
  const WindowMs: int := 2000

  /** `last_logged_door_state`, `last_logged_alarm_state` and
      `last_event_timestamps`. */
  datatype DedupState = DedupState(lastDoor: Option<bool>, lastAlarm: bool, stamps: map<string, int>)

  /** The state at start-up: door state unknown, no alarm, no timestamps. */
  const Initial: DedupState := DedupState(None, false, map[])

  /** `f"{event_type}_{description}"`. */
  function Key(eventType: string, description: string): string {
    eventType + "_" + description
  }

  /** The same key was accepted less than the window ago (or the clock went back). */
  predicate WithinWindow(s: DedupState, key: string, now: int) {
    key in s.stamps && now - s.stamps[key] < WindowMs
  }

  /** A repeat of the door state already logged, or a second alarm. */
  predicate Suppressed(s: DedupState, eventType: string) {
    || (eventType == DoorOpen && s.lastDoor == Some(true))
    || (eventType == DoorClose && s.lastDoor == Some(false))
    || (eventType == AlarmTriggered && s.lastAlarm)
  }

  /** The door state recorded once a submission of this type is accepted. */
  function NextDoorState(s: DedupState, eventType: string): Option<bool> {
    if eventType == DoorOpen then Some(true)
    else if eventType == DoorClose then Some(false)
    else s.lastDoor
  }

  /** The filter's decision: None when the submission is dropped (and then
      nothing of the state changes), otherwise the state after accepting it. */
  function Admit(s: DedupState, eventType: string, description: string, now: int): (r: Option<DedupState>)
    ensures r.None? <==> WithinWindow(s, Key(eventType, description), now) || Suppressed(s, eventType)
    ensures eventType != DoorOpen && eventType != DoorClose && eventType != AlarmTriggered ==>
              (r.None? <==> WithinWindow(s, Key(eventType, description), now))
    ensures r.Some? ==> r.value.stamps == s.stamps[Key(eventType, description) := now]
    ensures r.Some? ==> r.value.lastDoor == NextDoorState(s, eventType)
    ensures r.Some? ==> r.value.lastAlarm == (eventType == AlarmTriggered || s.lastAlarm)
  {
    var key := Key(eventType, description);
    if WithinWindow(s, key, now) then None
    else if eventType == DoorOpen then
      if s.lastDoor == Some(true) then None
      else Some(DedupState(Some(true), s.lastAlarm, s.stamps[key := now]))
    else if eventType == DoorClose then
      if s.lastDoor == Some(false) then None
      else Some(DedupState(Some(false), s.lastAlarm, s.stamps[key := now]))
    else if eventType == AlarmTriggered then
      if s.lastAlarm then None
      else Some(DedupState(s.lastDoor, true, s.stamps[key := now]))
    else Some(s.(stamps := s.stamps[key := now]))
  }

  /** Submitting the same type and description again less than the window
      after it was accepted is dropped. */
  lemma RepeatWithinWindowDropped(s: DedupState, eventType: string, description: string, now: int, later: int)
    requires Admit(s, eventType, description, now).Some?
    requires later < now + WindowMs
    ensures Admit(Admit(s, eventType, description, now).value, eventType, description, later).None?
  {
  }

  // ---------------------------------------------------------------------------
  // The filter over time
  // ---------------------------------------------------------------------------

  /** What reaches the filter: a `log_event` call, or the monitor's reset of
      `last_logged_alarm_state` when it sees the door close. */
  datatype Step = Submit(call: Call) | DoorClosedReset

  /** The filter's state after the steps, and the calls it let through, in
      order. */
  function Run(s: DedupState, steps: seq<Step>): (r: (DedupState, seq<Call>))
    decreases |steps|
  {
    if steps == [] then (s, [])
    else match steps[0]
      case DoorClosedReset => Run(s.(lastAlarm := false), steps[1..])
      case Submit(c) =>
        match Admit(s, c.eventType, c.description, c.at)
        case None => Run(s, steps[1..])
        case Some(s') =>
          var rest := Run(s', steps[1..]);
          (rest.0, [c] + rest.1)
  }

  /** The calls submitted by the steps, in order. */
  function Submitted(steps: seq<Step>): seq<Call>
    decreases |steps|
  {
    if steps == [] then []
    else (if steps[0].Submit? then [steps[0].call] else []) + Submitted(steps[1..])
  }

  /** `xs` is `ys` with some elements left out, the rest kept in order. */
  predicate Subsequence(xs: seq<Call>, ys: seq<Call>)
    decreases |ys|
  {
    if xs == [] then true
    else if ys == [] then false
    else (xs[0] == ys[0] && Subsequence(xs[1..], ys[1..])) || Subsequence(xs, ys[1..])
  }

  /** The calls let through are some of the calls submitted, in order. */
  lemma {:induction false} RunKeepsOrder(s: DedupState, steps: seq<Step>)
    ensures |Run(s, steps).1| <= |steps|
    ensures forall c :: c in Run(s, steps).1 ==> Submit(c) in steps
    ensures Subsequence(Run(s, steps).1, Submitted(steps))
    decreases |steps|
  {
    if steps != [] {
      var rest := Submitted(steps[1..]);
      match steps[0]
      case DoorClosedReset =>
        RunKeepsOrder(s.(lastAlarm := false), steps[1..]);
        assert forall st :: st in steps[1..] ==> st in steps;
        assert Submitted(steps) == [] + rest == rest;
        assert Run(s, steps).1 == Run(s.(lastAlarm := false), steps[1..]).1;
      case Submit(c) =>
        assert Submitted(steps) == [c] + rest;
        assert ([c] + rest)[1..] == rest;
        match Admit(s, c.eventType, c.description, c.at)
        case None =>
          RunKeepsOrder(s, steps[1..]);
          assert forall st :: st in steps[1..] ==> st in steps;
          var r := Run(s, steps).1;
          if r != [] {
            assert Subsequence(r, Submitted(steps)[1..]);
          }
        case Some(s') =>
          RunKeepsOrder(s', steps[1..]);
          assert forall st :: st in steps[1..] ==> st in steps;
          assert Run(s, steps).1[1..] == Run(s', steps[1..]).1;
    }
  }

  /** Filtering two runs of steps one after the other is filtering them
      together. */
  lemma {:induction false} RunAppend(s: DedupState, xs: seq<Step>, ys: seq<Step>)
    ensures var mid := Run(s, xs);
            Run(s, xs + ys) == (Run(mid.0, ys).0, mid.1 + Run(mid.0, ys).1)
    decreases |xs|
  {
    if xs == [] {
      assert xs + ys == ys;
      assert Run(s, xs) == (s, []);
      assert [] + Run(s, ys).1 == Run(s, ys).1;
    } else {
      assert (xs + ys)[0] == xs[0];
      assert (xs + ys)[1..] == xs[1..] + ys;
      match xs[0]
      case DoorClosedReset =>
        RunAppend(s.(lastAlarm := false), xs[1..], ys);
      case Submit(c) =>
        match Admit(s, c.eventType, c.description, c.at)
        case None =>
          RunAppend(s, xs[1..], ys);
        case Some(s') =>
          RunAppend(s', xs[1..], ys);
          var tail := Run(s', xs[1..]);
          assert Run(s, xs).1 == [c] + tail.1;
          assert Run(s, xs + ys).1 == [c] + (tail.1 + Run(tail.0, ys).1);
          assert [c] + (tail.1 + Run(tail.0, ys).1) == ([c] + tail.1) + Run(tail.0, ys).1;
          assert Run(s, xs).0 == tail.0;
    }
  }

  /** The steps the monitor's calls make in app_with_html_errors.py: a
      closing resets the alarm record before its `log_event` call. */
  function MonitorSteps(calls: seq<Call>): (steps: seq<Step>)
    decreases |calls|
  {
    if calls == [] then []
    else
      var c := calls[0];
      (if c.eventType == DoorClose then [DoorClosedReset, Submit(c)] else [Submit(c)]) + MonitorSteps(calls[1..])
  }

  lemma {:induction false} MonitorStepsAppend(xs: seq<Call>, ys: seq<Call>)
    ensures MonitorSteps(xs + ys) == MonitorSteps(xs) + MonitorSteps(ys)
    decreases |xs|
  {
    if xs == [] {
      assert xs + ys == ys;
    } else {
      assert (xs + ys)[0] == xs[0];
      assert (xs + ys)[1..] == xs[1..] + ys;
      MonitorStepsAppend(xs[1..], ys);
    }
  }

  /** Door events alternate: after a logged `door_open` the next logged door
      event is a `door_close` and the other way round, and the first one
      differs from what was logged before (`last`). */
  predicate DoorAlternates(calls: seq<Call>, last: Option<bool>)
    decreases |calls|
  {
    if calls == [] then true
    else if calls[0].eventType == DoorOpen then last != Some(true) && DoorAlternates(calls[1..], Some(true))
    else if calls[0].eventType == DoorClose then last != Some(false) && DoorAlternates(calls[1..], Some(false))
    else DoorAlternates(calls[1..], last)
  }

  /** Whatever is submitted, the accepted door events alternate, so a second
      `door_open` without a `door_close` in between is never logged. */
  lemma {:induction false} AcceptedDoorEventsAlternate(s: DedupState, steps: seq<Step>)
    ensures DoorAlternates(Run(s, steps).1, s.lastDoor)
    decreases |steps|
  {
    if steps != [] {
      match steps[0]
      case DoorClosedReset =>
        AcceptedDoorEventsAlternate(s.(lastAlarm := false), steps[1..]);
      case Submit(c) =>
        match Admit(s, c.eventType, c.description, c.at)
        case None =>
          AcceptedDoorEventsAlternate(s, steps[1..]);
        case Some(s') =>
          AcceptedDoorEventsAlternate(s', steps[1..]);
          var calls := Run(s, steps).1;
          assert calls == [c] + Run(s', steps[1..]).1;
          assert calls[1..] == Run(s', steps[1..]).1;
    }
  }

  function Resets(steps: seq<Step>): nat
    decreases |steps|
  {
    if steps == [] then 0 else (if steps[0].DoorClosedReset? then 1 else 0) + Resets(steps[1..])
  }

  /** At most one alarm per open episode: the accepted `alarm_triggered`
      events never outnumber the door closings seen by the monitor, plus one
      if no alarm was logged at the start. */
  lemma {:induction false} AlarmsPerEpisode(s: DedupState, steps: seq<Step>)
    ensures CountCalls(Run(s, steps).1, AlarmTriggered) <= Resets(steps) + (if s.lastAlarm then 0 else 1)
    decreases |steps|
  {
    if steps != [] {
      match steps[0]
      case DoorClosedReset =>
        AlarmsPerEpisode(s.(lastAlarm := false), steps[1..]);
      case Submit(c) =>
        match Admit(s, c.eventType, c.description, c.at)
        case None =>
          AlarmsPerEpisode(s, steps[1..]);
        case Some(s') =>
          AlarmsPerEpisode(s', steps[1..]);
          var calls := Run(s, steps).1;
          assert calls == [c] + Run(s', steps[1..]).1;
          assert calls[1..] == Run(s', steps[1..]).1;
    }
  }

  /** From start-up, a run without door closings logs at most one alarm. */
  lemma OneAlarmWithoutClosing(steps: seq<Step>)
    requires Resets(steps) == 0
    ensures CountCalls(Run(Initial, steps).1, AlarmTriggered) <= 1
  {
    AlarmsPerEpisode(Initial, steps);
  }

  // ---------------------------------------------------------------------------
  // The filter in front of the log
  // ---------------------------------------------------------------------------

  /** Everything the logger of app_with_html_errors.py keeps: the filter's
      state, the event log and the broadcasts sent. */
  datatype Journal = Journal(filter: DedupState, log: seq<Event>, broadcasts: seq<Payload>)

  /** The steps run through the filter, and the calls it lets through
      logged as app.py logs them. */
  function Replay(j: Journal, steps: seq<Step>, settings: map<string, string>): Journal {
    var r := Run(j.filter, steps);
    var m := Logged(Trail(j.log, j.broadcasts), r.1, settings);
    Journal(r.0, m.events, m.broadcasts)
  }

  /** Replaying two runs of steps one after the other is replaying them
      together. */
  lemma ReplayAppend(j: Journal, xs: seq<Step>, ys: seq<Step>, settings: map<string, string>)
    ensures Replay(j, xs + ys, settings) == Replay(Replay(j, xs, settings), ys, settings)
  {
    var mid := Run(j.filter, xs);
    RunAppend(j.filter, xs, ys);
    LoggedAppend(Trail(j.log, j.broadcasts), mid.1, Run(mid.0, ys).1, settings);
  }

  /** One call of the monitor or the countdown in app_with_html_errors.py:
      a closing first forgets the alarm (`last_logged_alarm_state = False`),
      then `log_event` drops the call or logs it. */
  function FilterCall(j: Journal, c: Call, settings: map<string, string>): Journal {
    var s := if c.eventType == DoorClose then j.filter.(lastAlarm := false) else j.filter;
    match Admit(s, c.eventType, c.description, c.at)
    case None => j.(filter := s)
    case Some(s') =>
      var m := LogOne(Trail(j.log, j.broadcasts), c, settings);
      Journal(s', m.events, m.broadcasts)
  }

  /** What the monitor's and the countdown's calls leave behind, one after
      the other. */
  function Filtered(j: Journal, calls: seq<Call>, settings: map<string, string>): Journal
    decreases |calls|
  {
    if calls == [] then j else Filtered(FilterCall(j, calls[0], settings), calls[1..], settings)
  }

  /** A call taken on its own is the steps `MonitorSteps` makes of it. */
  lemma ReplayCall(j: Journal, c: Call, settings: map<string, string>)
    ensures Replay(j, MonitorSteps([c]), settings) == FilterCall(j, c, settings)
  {
    var s := if c.eventType == DoorClose then j.filter.(lastAlarm := false) else j.filter;
    assert [c][1..] == [];
    assert MonitorSteps([c]) == (if c.eventType == DoorClose then [DoorClosedReset, Submit(c)] else [Submit(c)]);
    assert Run(j.filter, MonitorSteps([c])) == Run(s, [Submit(c)]) by {
      if c.eventType == DoorClose {
        assert [DoorClosedReset, Submit(c)][1..] == [Submit(c)];
      }
    }
    assert [Submit(c)][1..] == [];
    if Admit(s, c.eventType, c.description, c.at).Some? {
      assert Run(s, [Submit(c)]).1 == [c] + [];
      LoggedSingle(Trail(j.log, j.broadcasts), c, settings);
    } else {
      assert Run(s, [Submit(c)]) == Run(s, []);
    }
  }

  /** The calls filtered one by one are the filter run over the monitor's
      steps: what the class does is what `Run` describes. */
  lemma {:induction false} FilteredIsReplay(j: Journal, calls: seq<Call>, settings: map<string, string>)
    ensures Filtered(j, calls, settings) == Replay(j, MonitorSteps(calls), settings)
    decreases |calls|
  {
    if calls != [] {
      var c := calls[0];
      assert calls == [c] + calls[1..];
      MonitorStepsAppend([c], calls[1..]);
      ReplayAppend(j, MonitorSteps([c]), MonitorSteps(calls[1..]), settings);
      ReplayCall(j, c, settings);
      FilteredIsReplay(FilterCall(j, c, settings), calls[1..], settings);
    }
  }

  /** Filtering two runs of calls one after the other is filtering them
      together. */
  lemma {:induction false} FilteredAppend(j: Journal, xs: seq<Call>, ys: seq<Call>, settings: map<string, string>)
    ensures Filtered(j, xs + ys, settings) == Filtered(Filtered(j, xs, settings), ys, settings)
    decreases |xs|
  {
    if xs == [] {
      assert xs + ys == ys;
    } else {
      assert (xs + ys)[0] == xs[0];
      assert (xs + ys)[1..] == xs[1..] + ys;
      FilteredAppend(FilterCall(j, xs[0], settings), xs[1..], ys, settings);
    }
  }

  /** No calls, nothing changes. */
  lemma FilteredNone(j: Journal, settings: map<string, string>)
    ensures Filtered(j, [], settings) == j
  {
  }

  /** A single call. */
  lemma FilteredSingle(j: Journal, c: Call, settings: map<string, string>)
    ensures Filtered(j, [c], settings) == FilterCall(j, c, settings)
  {
    assert [c][1..] == [];
  }

  /** One more call after a run is one more `FilterCall` on what that run
      left. */
  lemma FilteredSnoc(j: Journal, xs: seq<Call>, c: Call, settings: map<string, string>, mid: Journal)
    requires mid == Filtered(j, xs, settings)
    ensures Filtered(j, xs + [c], settings) == FilterCall(mid, c, settings)
  {
    FilteredAppend(j, xs, [c], settings);
    FilteredSingle(mid, c, settings);
  }

  /** Every closing the monitor reports resets the alarm record once. */
  lemma {:induction false} ResetsAreClosings(calls: seq<Call>)
    ensures Resets(MonitorSteps(calls)) == CountCalls(calls, DoorClose)
    decreases |calls|
  {
    if calls != [] {
      var c := calls[0];
      var rest := MonitorSteps(calls[1..]);
      ResetsAreClosings(calls[1..]);
      if c.eventType == DoorClose {
        var steps := [DoorClosedReset, Submit(c)] + rest;
        assert steps[1..] == [Submit(c)] + rest;
        assert steps[1..][1..] == rest;
      } else {
        var steps := [Submit(c)] + rest;
        assert steps[1..] == rest;
      }
    }
  }

  /** The log the filtered calls leave is the plain log of the calls the
      filter accepts. */
  lemma FilteredLog(j: Journal, calls: seq<Call>, settings: map<string, string>)
    ensures Filtered(j, calls, settings).log == LoggedEvents(j.log, Run(j.filter, MonitorSteps(calls)).1)
  {
    FilteredIsReplay(j, calls, settings);
    LoggedEventsOnly(Trail(j.log, j.broadcasts), Run(j.filter, MonitorSteps(calls)).1, settings);
  }

  /** What the filter lets through from a run of monitor calls: door events
      that alternate, and at most one alarm per closing (plus one if no alarm
      was on record). */
  lemma AcceptedShape(s: DedupState, calls: seq<Call>, accepted: seq<Call>)
    requires accepted == Run(s, MonitorSteps(calls)).1
    ensures DoorAlternates(accepted, s.lastDoor)
    ensures CountCalls(accepted, AlarmTriggered) <= CountCalls(calls, DoorClose) + (if s.lastAlarm then 0 else 1)
  {
    AcceptedDoorEventsAlternate(s, MonitorSteps(calls));
    AlarmsPerEpisode(s, MonitorSteps(calls));
    ResetsAreClosings(calls);
  }

  /** What the logger of app_with_html_errors.py writes, whatever the
      monitor reports: one row per accepted call, in order, with its type
      and description; the door rows alternate open/closed starting from
      the opposite of the last door row recorded; and no more alarm rows are
      written than the closings reported, plus one unless an alarm is
      already on record. */
  lemma DedupLogWellFormed(j: Journal, calls: seq<Call>, settings: map<string, string>)
    ensures var accepted := Run(j.filter, MonitorSteps(calls)).1;
            var r := Filtered(j, calls, settings);
            && |r.log| == |j.log| + |accepted|
            && r.log[..|j.log|] == j.log
            && (forall i :: 0 <= i < |accepted| ==>
                  && r.log[|j.log| + i].eventType == accepted[i].eventType
                  && r.log[|j.log| + i].description == accepted[i].description)
            && DoorAlternates(accepted, j.filter.lastDoor)
            && CountCalls(accepted, AlarmTriggered)
               <= CountCalls(calls, DoorClose) + (if j.filter.lastAlarm then 0 else 1)
  {
    var accepted := Run(j.filter, MonitorSteps(calls)).1;
    FilteredLog(j, calls, settings);
    EventsKeepPrefix(j.log, accepted);
    EventsRows(j.log, accepted);
    AcceptedShape(j.filter, calls, accepted);
  }

  /** A closing forgets the alarm itself, so forgetting it beforehand
      changes nothing. */
  lemma ClosingAfterReset(j: Journal, c: Call, settings: map<string, string>)
    requires c.eventType == DoorClose
    ensures FilterCall(j.(filter := j.filter.(lastAlarm := false)), c, settings) == FilterCall(j, c, settings)
  {
  }
}
