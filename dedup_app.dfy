/**
  The controller of app_with_html_errors.py as one object. It is the
  controller of app.py (see PlainApp) with a duplicate filter in front of
  the event log: `log_event` drops a call whose key was logged less than
  two seconds ago, a door event repeating the door state last logged, and
  a second alarm before the monitor has seen the door close. The filter's
  three globals are fields here; `Record()` is the filter together with the
  log and the broadcasts, and the methods are specified by
  `Dedup.Filtered` on it.

  The threads are run sequentially as in PlainApp: `PollDoor` is one pass
  of the monitor loop, and `AlarmTimer` runs a countdown with the polls the
  monitor makes during each of its half-second sleeps.
*/
module DedupApp {
  import opened Wrappers
  import opened Door
  import opened Events
  import opened Monitor
  import opened Dedup
  import Notify

  /** What one pass of the monitor loop did. */
  datatype PollOutcome = Quiet | Opened(duration: int) | Closed | MonitorCrashed

  class DedupAlarmSystem {
    var doorOpen: bool
    var alarmActive: bool
    var timerActive: bool
    /** The countdown length read at the last opening (`timer_duration`). */
    var timerDuration: int
    /** False once the monitor thread has died on a setting `int()` rejects. */
    var monitorAlive: bool
    var settings: map<string, string>
    var emailConfig: Option<Notify.EmailConfig>
    var events: seq<Event>
    var broadcasts: seq<Payload>
    var outbox: seq<Notify.Alert>
    /** `last_logged_door_state`: None until a door event is logged. */
    var lastLoggedDoorState: Option<bool>
    /** `last_logged_alarm_state`. */
    var lastLoggedAlarmState: bool
    /** `last_event_timestamps`, in milliseconds. */
    var lastEventTimestamps: map<string, int>

    function Status(): Flags
      reads this`doorOpen, this`alarmActive, this`timerActive
    {
      Flags(doorOpen, alarmActive, timerActive)
    }

    function Filter(): DedupState
      reads this`lastLoggedDoorState, this`lastLoggedAlarmState, this`lastEventTimestamps
    {
      DedupState(lastLoggedDoorState, lastLoggedAlarmState, lastEventTimestamps)
    }

    /** The filter, the event log and the broadcasts. */
    function Record(): Journal
      reads this`lastLoggedDoorState, this`lastLoggedAlarmState, this`lastEventTimestamps,
            this`events, this`broadcasts
    {
      Journal(Filter(), events, broadcasts)
    }

    ghost predicate Valid()
      reads this`doorOpen, this`alarmActive, this`timerActive, this`events
    {
      Safe(Status()) && WellNumbered(events)
    }

    /** Where the monitor stands after handling polls during a countdown:
        still polling with the same snapshot, or waiting for the countdown
        with the new snapshot, or dead because the setting is not an
        integer. */
    ghost predicate MonitorAfter(waiting: bool, duration0: int)
      reads this`monitorAlive, this`timerDuration, this`settings
    {
      if !waiting then monitorAlive && timerDuration == duration0
      else match SnapshotDuration(settings)
        case Some(d) => monitorAlive && timerDuration == d
        case None => !monitorAlive && timerDuration == duration0
    }

    /** Start-up: door closed, nothing armed, nothing filtered yet, and the
        `timer_duration` setting written as '30' when it is missing. */
    constructor(initialSettings: map<string, string>, config: Option<Notify.EmailConfig>, log: seq<Event>)
      requires WellNumbered(log)
      ensures Valid()
      ensures Status() == Idle && timerDuration == DefaultDuration && monitorAlive
      ensures Filter() == Initial
      ensures settings == if TimerKey in initialSettings then initialSettings
                          else initialSettings[TimerKey := DefaultTimerText]
      ensures emailConfig == config && events == log && broadcasts == [] && outbox == []
    {
      doorOpen := false;
      alarmActive := false;
      timerActive := false;
      timerDuration := DefaultDuration;
      monitorAlive := true;
      settings := if TimerKey in initialSettings then initialSettings
                  else initialSettings[TimerKey := DefaultTimerText];
      emailConfig := config;
      events := log;
      broadcasts := [];
      outbox := [];
      lastLoggedDoorState := None;
      lastLoggedAlarmState := false;
      lastEventTimestamps := map[];
    }

    /** `log_event` with the clock at `at`: the filter, then the row and
        the broadcast. Says whether the call was logged. */
    method LogEvent(eventType: string, description: string, at: int) returns (accepted: bool)
      modifies this`lastLoggedDoorState, this`lastLoggedAlarmState, this`lastEventTimestamps,
               this`events, this`broadcasts
      ensures accepted <==> Admit(old(Filter()), eventType, description, at).Some?
      ensures accepted ==> Filter() == Admit(old(Filter()), eventType, description, at).value
      ensures accepted ==> Trail(events, broadcasts) ==
                           LogOne(Trail(old(events), old(broadcasts)), Call(eventType, description, at, Status()), settings)
      ensures !accepted ==> Record() == old(Record())
    {
      accepted := PassFilter(eventType, description, at);
      if accepted {
        WriteRow(eventType, description, at);
      }
    }

    /** The part of `log_event` under `event_lock`: the time window, then
        the state checks, then the timestamp. */
    method PassFilter(eventType: string, description: string, at: int) returns (accepted: bool)
      modifies this`lastLoggedDoorState, this`lastLoggedAlarmState, this`lastEventTimestamps
      ensures accepted <==> Admit(old(Filter()), eventType, description, at).Some?
      ensures accepted ==> Filter() == Admit(old(Filter()), eventType, description, at).value
      ensures !accepted ==> Filter() == old(Filter())
    {
      var key := Key(eventType, description);
      if key in lastEventTimestamps && at - lastEventTimestamps[key] < WindowMs {
        return false;
      }
      if eventType == DoorOpen {
        if lastLoggedDoorState == Some(true) {
          return false;
        }
        lastLoggedDoorState := Some(true);
      } else if eventType == DoorClose {
        if lastLoggedDoorState == Some(false) {
          return false;
        }
        lastLoggedDoorState := Some(false);
      } else if eventType == AlarmTriggered {
        if lastLoggedAlarmState {
          return false;
        }
        lastLoggedAlarmState := true;
      }
      lastEventTimestamps := lastEventTimestamps[key := at];
      accepted := true;
    }

    /** The rest of `log_event`: insert the row, then broadcast the payload
        built from the whole log and the current flags. */
    method WriteRow(eventType: string, description: string, at: int)
      modifies this`events, this`broadcasts
      ensures Trail(events, broadcasts) ==
              LogOne(Trail(old(events), old(broadcasts)), Call(eventType, description, at, Status()), settings)
    {
      events := Append(events, eventType, description, at);
      var row := events[|events| - 1];
      broadcasts := broadcasts + [StatusPayload(row, events, doorOpen, alarmActive, settings)];
    }

    /** `log_event` for one call of the monitor or the countdown, once a
        closing has reset the alarm record. */
    method LogSubmit(eventType: string, description: string, at: int)
      requires WellNumbered(events)
      requires eventType == DoorClose ==> !lastLoggedAlarmState
      modifies this`lastLoggedDoorState, this`lastLoggedAlarmState, this`lastEventTimestamps,
               this`events, this`broadcasts
      ensures WellNumbered(events)
      ensures Record() == FilterCall(old(Record()), Call(eventType, description, at, Status()), settings)
    {
      var accepted := LogEvent(eventType, description, at);
      if accepted {
        LoggedSingle(Trail(old(events), old(broadcasts)), Call(eventType, description, at, Status()), settings);
        LoggedExtends(Trail(old(events), old(broadcasts)), [Call(eventType, description, at, Status())], settings);
      }
    }

    /** `send_alarm_email`: an alert goes out when the configuration passes
        the gate. */
    method SendAlarmEmail(duration: int)
      modifies this`outbox
      ensures Notify.AlarmEmail(emailConfig, duration).Some? ==>
                outbox == old(outbox) + [Notify.AlarmEmail(emailConfig, duration).value]
      ensures Notify.AlarmEmail(emailConfig, duration).None? ==> outbox == old(outbox)
    {
      match Notify.AlarmEmail(emailConfig, duration)
      case Some(alert) => outbox := outbox + [alert];
      case None =>
    }

    /** One pass of `monitor_door` on a sensor sample. */
    method PollDoor(sample: Poll) returns (outcome: PollOutcome)
      requires Valid() && monitorAlive
      modifies this`doorOpen, this`alarmActive, this`timerActive, this`timerDuration, this`monitorAlive,
               this`lastLoggedDoorState, this`lastLoggedAlarmState, this`lastEventTimestamps,
               this`events, this`broadcasts
      ensures Valid()
      ensures Status() == AfterEdge(old(Status()), EdgeOf(sample.open, old(doorOpen)))
      ensures Record() == Filtered(old(Record()), PollCalls(old(Status()), sample, settings), settings)
      ensures outcome == Quiet <==> EdgeOf(sample.open, old(doorOpen)) == NoEdge
      ensures outcome == Closed <==> EdgeOf(sample.open, old(doorOpen)) == Falling
      ensures outcome.Opened? <==> EdgeOf(sample.open, old(doorOpen)) == Rising && SnapshotDuration(settings).Some?
      ensures outcome.Opened? ==> outcome.duration == SnapshotDuration(settings).value
      ensures MonitorAfter(EdgeOf(sample.open, old(doorOpen)) == Rising, old(timerDuration))
    {
      var doorIsOpen := sample.open;
      if doorIsOpen && !doorOpen {
        outcome := DoorJustOpened(sample.at);
      } else if !doorIsOpen && doorOpen {
        DoorJustClosed(sample.at);
        outcome := Closed;
      } else {
        outcome := Quiet;
        FilteredNone(Record(), settings);
      }
    }

    /** The opening branch of `monitor_door`: arm the countdown, read its
        length from the settings, log the opening. */
    method DoorJustOpened(at: int) returns (outcome: PollOutcome)
      requires Valid() && monitorAlive && !doorOpen
      modifies this`doorOpen, this`alarmActive, this`timerActive, this`timerDuration, this`monitorAlive,
               this`lastLoggedDoorState, this`lastLoggedAlarmState, this`lastEventTimestamps,
               this`events, this`broadcasts
      ensures Valid()
      ensures Status() == Flags(true, false, true)
      ensures Record() == Filtered(old(Record()), PollCalls(old(Status()), Poll(true, at), settings), settings)
      ensures outcome == match SnapshotDuration(settings)
                         case Some(d) => Opened(d)
                         case None => MonitorCrashed
      ensures MonitorAfter(true, old(timerDuration))
    {
      var snapshot := SnapshotDuration(settings);
      OpeningCalls(Status(), at, settings);
      if snapshot.None? {
        // `int()` raises: the monitor thread ends before logging anything.
        CrashOnOpen();
        FilteredNone(Record(), settings);
        outcome := MonitorCrashed;
      } else {
        ArmOnOpen(at, snapshot.value);
        outcome := Opened(snapshot.value);
      }
    }

    /** An opening whose countdown length does not read: the flags are
        already set when `int()` raises and the monitor thread ends. */
    method CrashOnOpen()
      requires Valid() && !doorOpen
      modifies this`doorOpen, this`alarmActive, this`timerActive, this`monitorAlive
      ensures Valid() && !monitorAlive
      ensures Status() == Flags(true, false, true)
    {
      doorOpen := true;
      alarmActive := false;
      timerActive := true;
      monitorAlive := false;
    }

    /** An opening with countdown length `d`: set the flags, take the
        snapshot, submit the opening. */
    method ArmOnOpen(at: int, d: int)
      requires Valid() && !doorOpen
      modifies this`doorOpen, this`alarmActive, this`timerActive, this`timerDuration,
               this`lastLoggedDoorState, this`lastLoggedAlarmState, this`lastEventTimestamps,
               this`events, this`broadcasts
      ensures Valid() && timerDuration == d
      ensures Status() == Flags(true, false, true)
      ensures Record() == Filtered(old(Record()), [Call(DoorOpen, OpenedText, at, Flags(true, false, true))], settings)
    {
      doorOpen := true;
      alarmActive := false;
      timerActive := true;
      timerDuration := d;
      FilteredSingle(old(Record()), Call(DoorOpen, OpenedText, at, Flags(true, false, true)), settings);
      LogSubmit(DoorOpen, OpenedText, at);
    }

    /** The closing branch of `monitor_door`: clear every flag, forget the
        alarm for the filter, submit the closing. */
    method DoorJustClosed(at: int)
      requires Valid() && doorOpen
      modifies this`doorOpen, this`alarmActive, this`timerActive,
               this`lastLoggedDoorState, this`lastLoggedAlarmState, this`lastEventTimestamps,
               this`events, this`broadcasts
      ensures Valid()
      ensures Status() == Idle
      ensures Record() == Filtered(old(Record()), PollCalls(old(Status()), Poll(false, at), settings), settings)
    {
      doorOpen := false;
      alarmActive := false;
      timerActive := false;
      assert PollCalls(old(Status()), Poll(false, at), settings) == [Call(DoorClose, ClosedText, at, Status())];
      FilteredSingle(old(Record()), Call(DoorClose, ClosedText, at, Idle), settings);
      ClosingAfterReset(old(Record()), Call(DoorClose, ClosedText, at, Idle), settings);
      lastLoggedAlarmState := false;
      LogSubmit(DoorClose, ClosedText, at);
    }

    /** The monitor handling the polls of one half-second sleep of the
        countdown, until it sees an opening and waits. */
    method WatchDuringSleep(polls: seq<Poll>) returns (blocked: bool)
      requires Valid() && monitorAlive
      modifies this`doorOpen, this`alarmActive, this`timerActive, this`timerDuration, this`monitorAlive,
               this`lastLoggedDoorState, this`lastLoggedAlarmState, this`lastEventTimestamps,
               this`events, this`broadcasts
      ensures Valid()
      ensures (Status(), blocked) == Watch(old(Status()), polls)
      ensures Record() == Filtered(old(Record()), WatchCalls(old(Status()), polls, settings), settings)
      ensures MonitorAfter(blocked, old(timerDuration))
    {
      ghost var goal := Filtered(Record(), WatchCalls(Status(), polls, settings), settings);
      blocked := false;
      var j := 0;
      while j < |polls| && !blocked
        invariant 0 <= j <= |polls|
        invariant Valid()
        invariant MonitorAfter(blocked, old(timerDuration))
        invariant !blocked ==> Watch(old(Status()), polls) == Watch(Status(), polls[j..])
        invariant !blocked ==> goal == Filtered(Record(), WatchCalls(Status(), polls[j..], settings), settings)
        invariant blocked ==> Watch(old(Status()), polls) == (Status(), true)
        invariant blocked ==> goal == Record()
      {
        ghost var f := Status();
        ghost var before := Record();
        assert polls[j..][0] == polls[j] && polls[j..][1..] == polls[j + 1..];
        var e := EdgeOf(polls[j].open, doorOpen);
        var outcome := PollDoor(polls[j]);
        blocked := e == Rising;
        FilteredAppend(before, PollCalls(f, polls[j], settings),
                       if blocked then [] else WatchCalls(Status(), polls[j + 1..], settings), settings);
        if blocked {
          FilteredNone(Record(), settings);
        }
        j := j + 1;
      }
      if !blocked {
        FilteredNone(Record(), settings);
      }
    }

    /** One half-second sleep of the countdown: the monitor handles the polls
        of sleep `h` unless it is already waiting. `d0` is the snapshot when
        the countdown started. */
    method SleepHalf(sleeps: seq<seq<Poll>>, h: nat, waiting: bool, ghost d0: int) returns (waiting': bool)
      requires Valid() && MonitorAfter(waiting, d0)
      modifies this`doorOpen, this`alarmActive, this`timerActive, this`timerDuration, this`monitorAlive,
               this`lastLoggedDoorState, this`lastLoggedAlarmState, this`lastEventTimestamps,
               this`events, this`broadcasts
      ensures Valid() && MonitorAfter(waiting', d0)
      ensures var polls := if h < |sleeps| && !waiting then sleeps[h] else [];
              && (Status(), waiting') == (Watch(old(Status()), polls).0, waiting || Watch(old(Status()), polls).1)
              && Record() == Filtered(old(Record()), WatchCalls(old(Status()), polls, settings), settings)
    {
      if h < |sleeps| && !waiting {
        waiting' := WatchDuringSleep(sleeps[h]);
      } else {
        waiting' := waiting;
        FilteredNone(Record(), settings);
      }
    }

    /** `alarm_timer(duration)`, with `alarmAt` the clock when the countdown
        ends. Says whether the monitor saw a new opening and is waiting to
        start the next countdown, whose length is then `timerDuration` (see
        `MonitorAfter`). The email goes out when the alarm is raised even if
        the filter drops the alarm's row. */
    method AlarmTimer(duration: int, sleeps: seq<seq<Poll>>, alarmAt: int) returns (waiting: bool)
      requires Valid() && monitorAlive
      modifies this`doorOpen, this`alarmActive, this`timerActive, this`timerDuration, this`monitorAlive,
               this`lastLoggedDoorState, this`lastLoggedAlarmState, this`lastEventTimestamps,
               this`events, this`broadcasts, this`outbox
      ensures Valid()
      ensures Status() == TimerOutcome(old(Status()), sleeps, duration)
      ensures Record() == Filtered(old(Record()), TimerCalls(old(Status()), sleeps, duration, alarmAt, settings), settings)
      ensures Status().alarmActive && Notify.AlarmEmail(emailConfig, duration).Some? ==>
                outbox == old(outbox) + [Notify.AlarmEmail(emailConfig, duration).value]
      ensures !(Status().alarmActive && Notify.AlarmEmail(emailConfig, duration).Some?) ==> outbox == old(outbox)
      ensures waiting == Countdown(old(Status()), false, sleeps, 0, HalfTicks(duration)).1
      ensures MonitorAfter(waiting, old(timerDuration))
    {
      ghost var f0 := Status();
      ghost var c := Countdown(f0, false, sleeps, 0, HalfTicks(duration));
      ghost var during := CountdownCalls(f0, false, sleeps, 0, HalfTicks(duration), settings);
      waiting := BlinkWhileOpen(duration, sleeps);
      assert Status() == c.0 && waiting == c.1;
      ConcludeCountdown(duration, alarmAt, during, old(Record()), waiting, old(timerDuration));
    }

    /** After the loop of `alarm_timer`: expire the countdown and send the
        email if the alarm went off. The monitor (`waiting`, `d0`) is not
        touched. */
    method ConcludeCountdown(duration: int, alarmAt: int, ghost during: seq<Call>, ghost record0: Journal,
                             ghost waiting: bool, ghost d0: int)
      requires Valid() && MonitorAfter(waiting, d0)
      requires Record() == Filtered(record0, during, settings)
      modifies this`alarmActive, this`timerActive,
               this`lastLoggedDoorState, this`lastLoggedAlarmState, this`lastEventTimestamps,
               this`events, this`broadcasts, this`outbox
      ensures Valid()
      ensures Status() == Expire(old(Status()))
      ensures Record() ==
              Filtered(record0,
                       during + (if Armed(old(Status())) then [Call(AlarmTriggered, AlarmText(duration), alarmAt, Ringing)] else []),
                       settings)
      ensures alarmActive && Notify.AlarmEmail(emailConfig, duration).Some? ==>
                outbox == old(outbox) + [Notify.AlarmEmail(emailConfig, duration).value]
      ensures !(alarmActive && Notify.AlarmEmail(emailConfig, duration).Some?) ==> outbox == old(outbox)
      ensures MonitorAfter(waiting, d0)
    {
      ExpireCountdown(duration, alarmAt, during, record0);
      SendIfRaised(duration);
    }

    /** `send_alarm_email(duration)` when the alarm has just gone off. */
    method SendIfRaised(duration: int)
      modifies this`outbox
      ensures alarmActive && Notify.AlarmEmail(emailConfig, duration).Some? ==>
                outbox == old(outbox) + [Notify.AlarmEmail(emailConfig, duration).value]
      ensures !(alarmActive && Notify.AlarmEmail(emailConfig, duration).Some?) ==> outbox == old(outbox)
    {
      if alarmActive {
        SendAlarmEmail(duration);
      }
    }

    /** The end of `alarm_timer`: the countdown ran out with the door still
        open, so raise the alarm and submit it after what the monitor
        submitted during the countdown; or the door was closed, so clear both
        flags. */
    method ExpireCountdown(duration: int, alarmAt: int, ghost during: seq<Call>, ghost record0: Journal)
      requires Valid()
      requires Record() == Filtered(record0, during, settings)
      modifies this`alarmActive, this`timerActive,
               this`lastLoggedDoorState, this`lastLoggedAlarmState, this`lastEventTimestamps,
               this`events, this`broadcasts
      ensures Valid()
      ensures Status() == Expire(old(Status()))
      ensures Record() ==
              Filtered(record0,
                       during + (if Armed(old(Status())) then [Call(AlarmTriggered, AlarmText(duration), alarmAt, Ringing)] else []),
                       settings)
    {
      if timerActive && doorOpen {
        RaiseAlarm(duration, alarmAt, during, record0);
      } else {
        timerActive := false;
        alarmActive := false;
        assert during + [] == during;
      }
    }

    /** The countdown ran out with the door still open. */
    method RaiseAlarm(duration: int, alarmAt: int, ghost during: seq<Call>, ghost record0: Journal)
      requires Valid() && Armed(Status())
      requires Record() == Filtered(record0, during, settings)
      modifies this`alarmActive, this`timerActive,
               this`lastLoggedDoorState, this`lastLoggedAlarmState, this`lastEventTimestamps,
               this`events, this`broadcasts
      ensures Valid()
      ensures Status() == Expire(old(Status()))
      ensures Record() == Filtered(record0, during + [Call(AlarmTriggered, AlarmText(duration), alarmAt, Ringing)], settings)
    {
      timerActive := false;
      alarmActive := true;
      assert Status() == Ringing;
      FilteredSnoc(record0, during, Call(AlarmTriggered, AlarmText(duration), alarmAt, Ringing), settings, Record());
      LogSubmit(AlarmTriggered, AlarmText(duration), alarmAt);
    }

    /** The loop of `alarm_timer`: blink while the door stays open and the
        countdown is armed, until `duration` seconds have passed. Gives the
        flags `Countdown` gives, submits what the monitor submits meanwhile,
        and says whether the monitor is waiting for this countdown. */
    method BlinkWhileOpen(duration: int, sleeps: seq<seq<Poll>>) returns (waiting: bool)
      requires Valid() && monitorAlive
      modifies this`doorOpen, this`alarmActive, this`timerActive, this`timerDuration, this`monitorAlive,
               this`lastLoggedDoorState, this`lastLoggedAlarmState, this`lastEventTimestamps,
               this`events, this`broadcasts
      ensures Valid()
      ensures (Status(), waiting) == Countdown(old(Status()), false, sleeps, 0, HalfTicks(duration))
      ensures Record() == Filtered(old(Record()),
                                   CountdownCalls(old(Status()), false, sleeps, 0, HalfTicks(duration), settings),
                                   settings)
      ensures MonitorAfter(waiting, old(timerDuration))
    {
      var total := HalfTicks(duration);
      ghost var d0 := timerDuration;
      ghost var goal := Filtered(Record(), CountdownCalls(Status(), false, sleeps, 0, total, settings), settings);
      ghost var target := Countdown(Status(), false, sleeps, 0, total);
      var elapsed: nat := 0;  // whole seconds slept
      var h: nat := 0;        // half-seconds slept
      waiting := false;
      var stopped := false;
      // `time.time() - start_time < duration`
      while timerActive && elapsed < duration && !stopped
        invariant h == 2 * elapsed && h <= total
        invariant Counting(sleeps, h, total, waiting, d0, target, goal)
        invariant stopped ==> !Armed(Status())
        decreases total - h
      {
        waiting, stopped := Blink(sleeps, h, total, waiting, d0, target, goal);
        elapsed := elapsed + 1;
        h := h + 2;
      }
      assert h >= total || !Armed(Status());
      CountingDone(sleeps, h, total, waiting, d0, target, goal);
    }

    /** One pass of the loop body: a half-second with the red LED on and one
        with it off, each only while still armed. `stopped` is the `break`. */
    method Blink(sleeps: seq<seq<Poll>>, h: nat, total: nat, waiting: bool, ghost d0: int,
                 ghost target: (Flags, bool), ghost goal: Journal)
      returns (waiting': bool, stopped: bool)
      requires h + 2 <= total
      requires Counting(sleeps, h, total, waiting, d0, target, goal)
      modifies this`doorOpen, this`alarmActive, this`timerActive, this`timerDuration, this`monitorAlive,
               this`lastLoggedDoorState, this`lastLoggedAlarmState, this`lastEventTimestamps,
               this`events, this`broadcasts
      ensures stopped ==> !Armed(Status())
      ensures Counting(sleeps, h + 2, total, waiting', d0, target, goal)
    {
      waiting' := waiting;
      if !timerActive || !doorOpen {
        StoppedAnywhere(sleeps, h, h + 2, total, waiting', d0, target, goal);
        return waiting', true;
      }
      waiting' := Tick(sleeps, h, total, waiting', d0, target, goal);
      if !timerActive || !doorOpen {
        StoppedAnywhere(sleeps, h + 1, h + 2, total, waiting', d0, target, goal);
        return waiting', true;
      }
      waiting' := Tick(sleeps, h + 1, total, waiting', d0, target, goal);
      stopped := false;
    }

    /** Once disarmed, the loop's account no longer depends on the time. */
    lemma StoppedAnywhere(sleeps: seq<seq<Poll>>, h: nat, k: nat, total: nat, waiting: bool, d0: int,
                          target: (Flags, bool), goal: Journal)
      requires !Armed(Status()) && Counting(sleeps, h, total, waiting, d0, target, goal)
      ensures Counting(sleeps, k, total, waiting, d0, target, goal)
    {
      CountdownStops(Status(), waiting, sleeps, h, total, settings);
      CountdownStops(Status(), waiting, sleeps, k, total, settings);
    }

    /** A countdown loop that has run its time or is no longer armed has
        reached its target flags and its goal record. */
    lemma CountingDone(sleeps: seq<seq<Poll>>, h: nat, total: nat, waiting: bool, d0: int,
                       target: (Flags, bool), goal: Journal)
      requires h >= total || !Armed(Status())
      requires Counting(sleeps, h, total, waiting, d0, target, goal)
      ensures target == (Status(), waiting) && goal == Record()
    {
      CountdownStops(Status(), waiting, sleeps, h, total, settings);
      FilteredNone(Record(), settings);
    }

    /** What the countdown loop keeps: the flags and the record are on their
        way to the `target` flags and the `goal` record, with half-second `h`
        next. */
    ghost predicate Counting(sleeps: seq<seq<Poll>>, h: nat, total: nat, waiting: bool, d0: int,
                             target: (Flags, bool), goal: Journal)
      reads this`doorOpen, this`alarmActive, this`timerActive, this`timerDuration, this`monitorAlive,
            this`settings, this`lastLoggedDoorState, this`lastLoggedAlarmState, this`lastEventTimestamps,
            this`events, this`broadcasts
    {
      && Valid() && MonitorAfter(waiting, d0)
      && target == Countdown(Status(), waiting, sleeps, h, total)
      && goal == Filtered(Record(), CountdownCalls(Status(), waiting, sleeps, h, total, settings), settings)
    }

    /** One step of the countdown loop: sleep `h`, still on the way. */
    method Tick(sleeps: seq<seq<Poll>>, h: nat, total: nat, waiting: bool, ghost d0: int,
                ghost target: (Flags, bool), ghost goal: Journal) returns (waiting': bool)
      requires h < total && Armed(Status())
      requires Counting(sleeps, h, total, waiting, d0, target, goal)
      modifies this`doorOpen, this`alarmActive, this`timerActive, this`timerDuration, this`monitorAlive,
               this`lastLoggedDoorState, this`lastLoggedAlarmState, this`lastEventTimestamps,
               this`events, this`broadcasts
      ensures Counting(sleeps, h + 1, total, waiting', d0, target, goal)
    {
      ghost var f := Status();
      ghost var before := Record();
      ghost var polls := if h < |sleeps| && !waiting then sleeps[h] else [];
      waiting' := SleepHalf(sleeps, h, waiting, d0);
      FilteredAppend(before, WatchCalls(f, polls, settings),
                     CountdownCalls(Status(), waiting', sleeps, h + 1, total, settings), settings);
    }
  }
}
