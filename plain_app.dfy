/**
  The controller of app.py as one object: the shared flags, the countdown
  length snapshot, the settings and email configuration it reads, and what
  it produces (event rows, status broadcasts, alert emails).

  The monitor thread and the countdown thread are run sequentially. The
  monitor's main loop is `PollDoor`, one call per sensor sample. After an
  opening the caller runs `AlarmTimer`, which takes the polls the monitor
  makes during each of its half-second sleeps as a list. When the monitor
  sees a new opening during a countdown it waits for that countdown to end
  (`timer_thread.join()`); `AlarmTimer` then says that it is waiting, and
  `timerDuration` holds the length of the next countdown, which the caller
  runs the same way.
*/
module PlainApp {
  import opened Wrappers
  import opened Door
  import opened Events
  import opened Monitor
  import Notify

  /** What one pass of the monitor loop did. */
  datatype PollOutcome = Quiet | Opened(duration: int) | Closed | MonitorCrashed

  class AlarmSystem {
    var doorOpen: bool
    var alarmActive: bool
    var timerActive: bool
    /** The countdown length read at the last opening (`timer_duration`). */
    var timerDuration: int
    /** False once the monitor thread has died on a setting `int()` rejects. */
    var monitorAlive: bool
    var settings: map<string, string>
    var emailConfig: Option<Notify.EmailConfig>
    var events: seq<Event>
    var broadcasts: seq<Payload>
    var outbox: seq<Notify.Alert>

    function Status(): Flags
      reads this`doorOpen, this`alarmActive, this`timerActive
    {
      Flags(doorOpen, alarmActive, timerActive)
    }

    /** The event log and the status payloads broadcast. */
    function Written(): Trail
      reads this`events, this`broadcasts
    {
      Trail(events, broadcasts)
    }

    ghost predicate Valid()
      reads this`doorOpen, this`alarmActive, this`timerActive, this`events
    {
      Safe(Status()) && WellNumbered(events)
    }

    /** Where the monitor stands after handling polls during a countdown:
        still polling with the same snapshot, or waiting for the countdown
        with the new snapshot, or dead because the setting is not an
        integer. */
    ghost predicate MonitorAfter(waiting: bool, duration0: int)
      reads this`monitorAlive, this`timerDuration, this`settings
    {
      if !waiting then monitorAlive && timerDuration == duration0
      else match SnapshotDuration(settings)
        case Some(d) => monitorAlive && timerDuration == d
        case None => !monitorAlive && timerDuration == duration0
    }

    /** Start-up: door closed, nothing armed, and the `timer_duration`
        setting written as '30' when it is missing. `log` is the event log
        already in the database. */
    constructor(initialSettings: map<string, string>, config: Option<Notify.EmailConfig>, log: seq<Event>)
      requires WellNumbered(log)
      ensures Valid()
      ensures Status() == Idle && timerDuration == DefaultDuration && monitorAlive
      ensures settings == if TimerKey in initialSettings then initialSettings
                          else initialSettings[TimerKey := DefaultTimerText]
      ensures emailConfig == config && events == log && broadcasts == [] && outbox == []
    {
      doorOpen := false;
      alarmActive := false;
      timerActive := false;
      timerDuration := DefaultDuration;
      monitorAlive := true;
      settings := if TimerKey in initialSettings then initialSettings
                  else initialSettings[TimerKey := DefaultTimerText];
      emailConfig := config;
      events := log;
      broadcasts := [];
      outbox := [];
    }

    /** `log_event`: insert the row, then broadcast the payload built from
        the whole log and the current flags. */
    method LogEvent(eventType: string, description: string, at: int)
      modifies this`events, this`broadcasts
      ensures Written() ==
              LogOne(old(Written()), Call(eventType, description, at, Status()), settings)
    {
      events := Append(events, eventType, description, at);
      var row := events[|events| - 1];
      broadcasts := broadcasts + [StatusPayload(row, events, doorOpen, alarmActive, settings)];
    }

    /** `send_alarm_email`: an alert goes out when the configuration passes
        the gate. */
    method SendAlarmEmail(duration: int)
      modifies this`outbox
      ensures Notify.AlarmEmail(emailConfig, duration).Some? ==>
                outbox == old(outbox) + [Notify.AlarmEmail(emailConfig, duration).value]
      ensures Notify.AlarmEmail(emailConfig, duration).None? ==> outbox == old(outbox)
    {
      match Notify.AlarmEmail(emailConfig, duration)
      case Some(alert) => outbox := outbox + [alert];
      case None =>
    }

    /** One pass of `monitor_door` on a sensor sample. */
    method PollDoor(sample: Poll) returns (outcome: PollOutcome)
      requires Valid() && monitorAlive
      modifies this`doorOpen, this`alarmActive, this`timerActive, this`timerDuration, this`monitorAlive,
               this`events, this`broadcasts
      ensures Valid()
      ensures Status() == AfterEdge(old(Status()), EdgeOf(sample.open, old(doorOpen)))
      ensures Written() ==
              Logged(old(Written()), PollCalls(old(Status()), sample, settings), settings)
      ensures outcome == Quiet <==> EdgeOf(sample.open, old(doorOpen)) == NoEdge
      ensures outcome == Closed <==> EdgeOf(sample.open, old(doorOpen)) == Falling
      ensures outcome.Opened? <==> EdgeOf(sample.open, old(doorOpen)) == Rising && SnapshotDuration(settings).Some?
      ensures outcome.Opened? ==> outcome.duration == SnapshotDuration(settings).value
      ensures MonitorAfter(EdgeOf(sample.open, old(doorOpen)) == Rising, old(timerDuration))
    {
      var doorIsOpen := sample.open;
      if doorIsOpen && !doorOpen {
        outcome := DoorJustOpened(sample.at);
      } else if !doorIsOpen && doorOpen {
        DoorJustClosed(sample.at);
        outcome := Closed;
      } else {
        outcome := Quiet;
      }
    }

    /** The opening branch of `monitor_door`: arm the countdown, read its
        length from the settings, log the opening. */
    method DoorJustOpened(at: int) returns (outcome: PollOutcome)
      requires Valid() && monitorAlive && !doorOpen
      modifies this`doorOpen, this`alarmActive, this`timerActive, this`timerDuration, this`monitorAlive,
               this`events, this`broadcasts
      ensures Valid()
      ensures Status() == Flags(true, false, true)
      ensures Written() ==
              Logged(old(Written()), PollCalls(old(Status()), Poll(true, at), settings), settings)
      ensures outcome == match SnapshotDuration(settings)
                         case Some(d) => Opened(d)
                         case None => MonitorCrashed
      ensures MonitorAfter(true, old(timerDuration))
    {
      var snapshot := SnapshotDuration(settings);
      OpeningCalls(Status(), at, settings);
      if snapshot.None? {
        // `int()` raises: the monitor thread ends before logging anything.
        CrashOnOpen();
        outcome := MonitorCrashed;
      } else {
        ArmOnOpen(at, snapshot.value);
        outcome := Opened(snapshot.value);
      }
    }

    /** An opening whose countdown length does not read: the flags are
        already set when `int()` raises and the monitor thread ends. */
    method CrashOnOpen()
      requires Valid() && !doorOpen
      modifies this`doorOpen, this`alarmActive, this`timerActive, this`monitorAlive
      ensures Valid() && !monitorAlive
      ensures Status() == Flags(true, false, true)
    {
      doorOpen := true;
      alarmActive := false;
      timerActive := true;
      monitorAlive := false;
    }

    /** An opening with countdown length `d`: set the flags, take the
        snapshot, log the opening. */
    method ArmOnOpen(at: int, d: int)
      requires Valid() && !doorOpen
      modifies this`doorOpen, this`alarmActive, this`timerActive, this`timerDuration, this`events, this`broadcasts
      ensures Valid() && timerDuration == d
      ensures Status() == Flags(true, false, true)
      ensures Written() ==
              Logged(old(Written()), [Call(DoorOpen, OpenedText, at, Flags(true, false, true))], settings)
    {
      doorOpen := true;
      alarmActive := false;
      timerActive := true;
      timerDuration := d;
      LogSingle(DoorOpen, OpenedText, at);
    }

    /** `log_event` for a single call of the monitor. */
    method LogSingle(eventType: string, description: string, at: int)
      requires WellNumbered(events)
      modifies this`events, this`broadcasts
      ensures WellNumbered(events)
      ensures Written() ==
              Logged(old(Written()), [Call(eventType, description, at, Status())], settings)
    {
      LoggedSingle(Written(), Call(eventType, description, at, Status()), settings);
      LogEvent(eventType, description, at);
      LoggedExtends(old(Written()), [Call(eventType, description, at, Status())], settings);
    }

    /** The closing branch of `monitor_door`: clear every flag, log the
        closing. */
    method DoorJustClosed(at: int)
      requires Valid() && doorOpen
      modifies this`doorOpen, this`alarmActive, this`timerActive, this`events, this`broadcasts
      ensures Valid()
      ensures Status() == Idle
      ensures Written() ==
              Logged(old(Written()), PollCalls(old(Status()), Poll(false, at), settings), settings)
    {
      doorOpen := false;
      alarmActive := false;
      timerActive := false;
      assert PollCalls(old(Status()), Poll(false, at), settings) == [Call(DoorClose, ClosedText, at, Status())];
      LogSingle(DoorClose, ClosedText, at);
    }

    /** The monitor handling the polls of one half-second sleep of the
        countdown, until it sees an opening and waits. */
    method WatchDuringSleep(polls: seq<Poll>) returns (blocked: bool)
      requires Valid() && monitorAlive
      modifies this`doorOpen, this`alarmActive, this`timerActive, this`timerDuration, this`monitorAlive,
               this`events, this`broadcasts
      ensures Valid()
      ensures (Status(), blocked) == Watch(old(Status()), polls)
      ensures Written() ==
              Logged(old(Written()), WatchCalls(old(Status()), polls, settings), settings)
      ensures MonitorAfter(blocked, old(timerDuration))
    {
      ghost var goal := Logged(Written(), WatchCalls(Status(), polls, settings), settings);
      blocked := false;
      var j := 0;
      while j < |polls| && !blocked
        invariant 0 <= j <= |polls|
        invariant Valid()
        invariant MonitorAfter(blocked, old(timerDuration))
        invariant !blocked ==> Watch(old(Status()), polls) == Watch(Status(), polls[j..])
        invariant !blocked ==> goal == Logged(Written(), WatchCalls(Status(), polls[j..], settings), settings)
        invariant blocked ==> Watch(old(Status()), polls) == (Status(), true)
        invariant blocked ==> goal == Written()
      {
        ghost var f := Status();
        ghost var before := Written();
        assert polls[j..][0] == polls[j] && polls[j..][1..] == polls[j + 1..];
        var e := EdgeOf(polls[j].open, doorOpen);
        var outcome := PollDoor(polls[j]);
        blocked := e == Rising;
        LoggedAppend(before, PollCalls(f, polls[j], settings),
                     if blocked then [] else WatchCalls(Status(), polls[j + 1..], settings), settings);
        j := j + 1;
      }
    }

    /** One half-second sleep of the countdown: the monitor handles the polls
        of sleep `h` unless it is already waiting. `d0` is the snapshot when
        the countdown started. */
    method SleepHalf(sleeps: seq<seq<Poll>>, h: nat, waiting: bool, ghost d0: int) returns (waiting': bool)
      requires Valid() && MonitorAfter(waiting, d0)
      modifies this`doorOpen, this`alarmActive, this`timerActive, this`timerDuration, this`monitorAlive,
               this`events, this`broadcasts
      ensures Valid() && MonitorAfter(waiting', d0)
      ensures var polls := if h < |sleeps| && !waiting then sleeps[h] else [];
              && (Status(), waiting') == (Watch(old(Status()), polls).0, waiting || Watch(old(Status()), polls).1)
              && Written() ==
                 Logged(old(Written()), WatchCalls(old(Status()), polls, settings), settings)
    {
      if h < |sleeps| && !waiting {
        waiting' := WatchDuringSleep(sleeps[h]);
      } else {
        waiting' := waiting;
      }
    }

    /** `alarm_timer(duration)`, with `alarmAt` the clock when the countdown
        ends. Says whether the monitor saw a new opening and is waiting to
        start the next countdown, whose length is then `timerDuration` (see
        `MonitorAfter`). */
    method AlarmTimer(duration: int, sleeps: seq<seq<Poll>>, alarmAt: int) returns (waiting: bool)
      requires Valid() && monitorAlive
      modifies this`doorOpen, this`alarmActive, this`timerActive, this`timerDuration, this`monitorAlive,
               this`events, this`broadcasts, this`outbox
      ensures Valid()
      ensures Status() == TimerOutcome(old(Status()), sleeps, duration)
      ensures Written() ==
              Logged(old(Written()), TimerCalls(old(Status()), sleeps, duration, alarmAt, settings), settings)
      ensures Status().alarmActive && Notify.AlarmEmail(emailConfig, duration).Some? ==>
                outbox == old(outbox) + [Notify.AlarmEmail(emailConfig, duration).value]
      ensures !(Status().alarmActive && Notify.AlarmEmail(emailConfig, duration).Some?) ==> outbox == old(outbox)
      ensures waiting == Countdown(old(Status()), false, sleeps, 0, HalfTicks(duration)).1
      ensures MonitorAfter(waiting, old(timerDuration))
    {
      ghost var f0 := Status();
      ghost var c := Countdown(f0, false, sleeps, 0, HalfTicks(duration));
      ghost var during := CountdownCalls(f0, false, sleeps, 0, HalfTicks(duration), settings);
      waiting := BlinkWhileOpen(duration, sleeps);
      assert Status() == c.0 && waiting == c.1;
      ConcludeCountdown(duration, alarmAt, during, old(Written()));
    }

    /** After the loop of `alarm_timer`: expire the countdown and send the
        email if the alarm went off. */
    method ConcludeCountdown(duration: int, alarmAt: int, ghost during: seq<Call>,
                             ghost trail0: Trail)
      requires Valid()
      requires Written() == Logged(trail0, during, settings)
      modifies this`alarmActive, this`timerActive, this`events, this`broadcasts, this`outbox
      ensures Valid()
      ensures Status() == Expire(old(Status()))
      ensures Written() ==
              Logged(trail0,
                     during + (if Armed(old(Status())) then [Call(AlarmTriggered, AlarmText(duration), alarmAt, Ringing)] else []),
                     settings)
      ensures alarmActive && Notify.AlarmEmail(emailConfig, duration).Some? ==>
                outbox == old(outbox) + [Notify.AlarmEmail(emailConfig, duration).value]
      ensures !(alarmActive && Notify.AlarmEmail(emailConfig, duration).Some?) ==> outbox == old(outbox)
    {
      ExpireCountdown(duration, alarmAt, during, trail0);
      SendIfRaised(duration);
    }

    /** `send_alarm_email(duration)` when the alarm has just gone off. */
    method SendIfRaised(duration: int)
      modifies this`outbox
      ensures alarmActive && Notify.AlarmEmail(emailConfig, duration).Some? ==>
                outbox == old(outbox) + [Notify.AlarmEmail(emailConfig, duration).value]
      ensures !(alarmActive && Notify.AlarmEmail(emailConfig, duration).Some?) ==> outbox == old(outbox)
    {
      if alarmActive {
        SendAlarmEmail(duration);
      }
    }

    /** The end of `alarm_timer`: the countdown ran out with the door still
        open, so raise the alarm and log it after what the monitor logged
        during the countdown; or the door was closed, so clear both flags. */
    method ExpireCountdown(duration: int, alarmAt: int, ghost during: seq<Call>,
                           ghost trail0: Trail)
      requires Valid()
      requires Written() == Logged(trail0, during, settings)
      modifies this`alarmActive, this`timerActive, this`events, this`broadcasts
      ensures Valid()
      ensures Status() == Expire(old(Status()))
      ensures Written() ==
              Logged(trail0,
                     during + (if Armed(old(Status())) then [Call(AlarmTriggered, AlarmText(duration), alarmAt, Ringing)] else []),
                     settings)
    {
      if timerActive && doorOpen {
        RaiseAlarm(duration, alarmAt, during, trail0);
      } else {
        timerActive := false;
        alarmActive := false;
        assert during + [] == during;
      }
    }

    /** The countdown ran out with the door still open. */
    method RaiseAlarm(duration: int, alarmAt: int, ghost during: seq<Call>,
                      ghost trail0: Trail)
      requires Valid() && Armed(Status())
      requires Written() == Logged(trail0, during, settings)
      modifies this`alarmActive, this`timerActive, this`events, this`broadcasts
      ensures Valid()
      ensures Status() == Expire(old(Status()))
      ensures Written() ==
              Logged(trail0, during + [Call(AlarmTriggered, AlarmText(duration), alarmAt, Ringing)], settings)
    {
      timerActive := false;
      alarmActive := true;
      assert Status() == Ringing;
      LoggedSnoc(trail0, during, Call(AlarmTriggered, AlarmText(duration), alarmAt, Ringing),
                 settings, Written());
      LoggedSingle(Written(), Call(AlarmTriggered, AlarmText(duration), alarmAt, Ringing), settings);
      LogSingle(AlarmTriggered, AlarmText(duration), alarmAt);
    }

    /** The loop of `alarm_timer`: blink while the door stays open and the
        countdown is armed, until `duration` seconds have passed. Gives the
        flags `Countdown` gives, logs what the monitor logs meanwhile, and
        says whether the monitor is waiting for this countdown. */
    method BlinkWhileOpen(duration: int, sleeps: seq<seq<Poll>>) returns (waiting: bool)
      requires Valid() && monitorAlive
      modifies this`doorOpen, this`alarmActive, this`timerActive, this`timerDuration, this`monitorAlive,
               this`events, this`broadcasts
      ensures Valid()
      ensures (Status(), waiting) == Countdown(old(Status()), false, sleeps, 0, HalfTicks(duration))
      ensures Written() == Logged(old(Written()),
                                  CountdownCalls(old(Status()), false, sleeps, 0, HalfTicks(duration), settings), settings)
      ensures MonitorAfter(waiting, old(timerDuration))
    {
      var total := HalfTicks(duration);
      ghost var d0 := timerDuration;
      ghost var goal := Logged(Written(), CountdownCalls(Status(), false, sleeps, 0, total, settings), settings);
      ghost var target := Countdown(Status(), false, sleeps, 0, total);
      var elapsed: nat := 0;  // whole seconds slept
      var h: nat := 0;        // half-seconds slept
      waiting := false;
      var stopped := false;
      // `time.time() - start_time < duration`
      while timerActive && elapsed < duration && !stopped
        invariant h == 2 * elapsed && h <= total
        invariant Counting(sleeps, h, total, waiting, d0, target, goal)
        invariant stopped ==> !Armed(Status())
        decreases total - h
      {
        waiting, stopped := Blink(sleeps, h, total, waiting, d0, target, goal);
        elapsed := elapsed + 1;
        h := h + 2;
      }
      assert h >= total || !Armed(Status());
      CountingDone(sleeps, h, total, waiting, d0, target, goal);
    }

    /** One pass of the loop body: a half-second with the red LED on and one
        with it off, each only while still armed. `stopped` is the `break`. */
    method Blink(sleeps: seq<seq<Poll>>, h: nat, total: nat, waiting: bool, ghost d0: int,
                 ghost target: (Flags, bool), ghost goal: Trail)
      returns (waiting': bool, stopped: bool)
      requires h + 2 <= total
      requires Counting(sleeps, h, total, waiting, d0, target, goal)
      modifies this`doorOpen, this`alarmActive, this`timerActive, this`timerDuration, this`monitorAlive,
               this`events, this`broadcasts
      ensures stopped ==> !Armed(Status())
      ensures Counting(sleeps, h + 2, total, waiting', d0, target, goal)
    {
      waiting' := waiting;
      if !timerActive || !doorOpen {
        StoppedAnywhere(sleeps, h, h + 2, total, waiting', d0, target, goal);
        return waiting', true;
      }
      waiting' := Tick(sleeps, h, total, waiting', d0, target, goal);
      if !timerActive || !doorOpen {
        StoppedAnywhere(sleeps, h + 1, h + 2, total, waiting', d0, target, goal);
        return waiting', true;
      }
      waiting' := Tick(sleeps, h + 1, total, waiting', d0, target, goal);
      stopped := false;
    }

    /** Once disarmed, the loop's account no longer depends on the time. */
    lemma StoppedAnywhere(sleeps: seq<seq<Poll>>, h: nat, k: nat, total: nat, waiting: bool, d0: int,
                          target: (Flags, bool), goal: Trail)
      requires !Armed(Status()) && Counting(sleeps, h, total, waiting, d0, target, goal)
      ensures Counting(sleeps, k, total, waiting, d0, target, goal)
    {
      CountdownStops(Status(), waiting, sleeps, h, total, settings);
      CountdownStops(Status(), waiting, sleeps, k, total, settings);
    }

    /** A countdown loop that has run its time or is no longer armed has
        reached its target flags and its goal log. */
    lemma CountingDone(sleeps: seq<seq<Poll>>, h: nat, total: nat, waiting: bool, d0: int,
                       target: (Flags, bool), goal: Trail)
      requires h >= total || !Armed(Status())
      requires Counting(sleeps, h, total, waiting, d0, target, goal)
      ensures target == (Status(), waiting) && goal == Written()
    {
      CountdownStops(Status(), waiting, sleeps, h, total, settings);
      assert goal == Logged(Written(), [], settings);
    }

    /** What the countdown loop keeps: the flags and the log are on their way
        to the `target` flags and the `goal` log, with half-second `h` next. */
    ghost predicate Counting(sleeps: seq<seq<Poll>>, h: nat, total: nat, waiting: bool, d0: int,
                             target: (Flags, bool), goal: Trail)
      reads this`doorOpen, this`alarmActive, this`timerActive, this`timerDuration, this`monitorAlive,
            this`settings, this`events, this`broadcasts
    {
      && Valid() && MonitorAfter(waiting, d0)
      && target == Countdown(Status(), waiting, sleeps, h, total)
      && goal == Logged(Written(), CountdownCalls(Status(), waiting, sleeps, h, total, settings), settings)
    }

    /** One step of the countdown loop: sleep `h`, still on the way. */
    method Tick(sleeps: seq<seq<Poll>>, h: nat, total: nat, waiting: bool, ghost d0: int,
                ghost target: (Flags, bool), ghost goal: Trail) returns (waiting': bool)
      requires h < total && Armed(Status())
      requires Counting(sleeps, h, total, waiting, d0, target, goal)
      modifies this`doorOpen, this`alarmActive, this`timerActive, this`timerDuration, this`monitorAlive,
               this`events, this`broadcasts
      ensures Counting(sleeps, h + 1, total, waiting', d0, target, goal)
    {
      ghost var f := Status();
      ghost var before := Written();
      ghost var polls := if h < |sleeps| && !waiting then sleeps[h] else [];
      waiting' := SleepHalf(sleeps, h, waiting, d0);
      LoggedAppend(before, WatchCalls(f, polls, settings),
                   CountdownCalls(Status(), waiting', sleeps, h + 1, total, settings), settings);
    }
  }
}
