/**
  The `log_event` calls the monitor and the countdown make, as values, and
  what the plain logger of app.py does with them. Each call carries the
  flags the controller holds when it is made: the status payload reports
  them. PlainApp and DedupApp carry these calls out on their own state;
  the functions here say which calls that must be, in which order.
*/
module Monitor {
  import opened Wrappers
  import opened Door
  import opened Events
  import Text

  /** One `log_event(event_type, description)` call: the clock when it is
      made and the flags at that moment. */
  datatype Call = Call(eventType: string, description: string, at: int, flags: Flags)

  const OpenedText: string := "Door opened"
  const ClosedText: string := "Door closed"

  /** `f'Alarm triggered after {duration} seconds'`. */
  function AlarmText(duration: int): string {
    "Alarm triggered after " + Text.ShowInt(duration) + " seconds"
  }

  /** The flags once the alarm goes off. */
  const Ringing: Flags := Flags(true, true, false)

  /** The call the monitor makes for one sample. An opening is logged only
      when the countdown setting reads as an integer: otherwise `int()`
      raises before `log_event` and the monitor thread ends. */
  function PollCalls(f: Flags, sample: Poll, settings: map<string, string>): (calls: seq<Call>)
    ensures |calls| <= 1
    ensures calls != [] && calls[0].eventType == DoorOpen <==>
              EdgeOf(sample.open, f.doorOpen) == Rising && SnapshotDuration(settings).Some?
    ensures calls != [] && calls[0].eventType == DoorClose <==> EdgeOf(sample.open, f.doorOpen) == Falling
    ensures calls != [] ==> calls[0].at == sample.at && calls[0].flags == AfterEdge(f, EdgeOf(sample.open, f.doorOpen))
  {
    match EdgeOf(sample.open, f.doorOpen)
    case Rising =>
      if SnapshotDuration(settings).Some? then [Call(DoorOpen, OpenedText, sample.at, AfterEdge(f, Rising))] else []
    case Falling => [Call(DoorClose, ClosedText, sample.at, Idle)]
    case NoEdge => []
  }

  /** An opening seen with the door closed: one `door_open` call reporting
      the countdown armed, or none when the setting does not read. */
  lemma OpeningCalls(f: Flags, at: int, settings: map<string, string>)
    requires !f.doorOpen
    ensures PollCalls(f, Poll(true, at), settings) ==
            if SnapshotDuration(settings).Some? then [Call(DoorOpen, OpenedText, at, Flags(true, false, true))] else []
  {
  }

  /** The calls the monitor makes while handling the polls of one sleep
      (it stops at an opening, as `Watch` does). */
  function WatchCalls(f: Flags, polls: seq<Poll>, settings: map<string, string>): seq<Call>
    decreases |polls|
  {
    if polls == [] then []
    else
      var e := EdgeOf(polls[0].open, f.doorOpen);
      PollCalls(f, polls[0], settings)
      + (if e == Rising then [] else WatchCalls(AfterEdge(f, e), polls[1..], settings))
  }

  /** The calls made during the countdown loop from half-second `h` on,
      following `Countdown`. */
  function CountdownCalls(f: Flags, waiting: bool, sleeps: seq<seq<Poll>>, h: nat, total: nat,
                          settings: map<string, string>): seq<Call>
    decreases total - h
  {
    if h >= total || !Armed(f) then []
    else
      var polls := if h < |sleeps| && !waiting then sleeps[h] else [];
      var w := Watch(f, polls);
      WatchCalls(f, polls, settings) + CountdownCalls(w.0, waiting || w.1, sleeps, h + 1, total, settings)
  }

  /** Every call of `alarm_timer(duration)`: those the monitor makes during
      the sleeps, then the alarm, logged at `alarmAt`, if the countdown ends
      armed. */
  function TimerCalls(f: Flags, sleeps: seq<seq<Poll>>, duration: int, alarmAt: int,
                      settings: map<string, string>): seq<Call>
  {
    var c := Countdown(f, false, sleeps, 0, HalfTicks(duration));
    CountdownCalls(f, false, sleeps, 0, HalfTicks(duration), settings)
    + (if Armed(c.0) then [Call(AlarmTriggered, AlarmText(duration), alarmAt, Ringing)] else [])
  }

  /** A countdown loop that has run its time, or is no longer armed, stops:
      nothing more changes and nothing more is logged. */
  lemma CountdownStops(f: Flags, waiting: bool, sleeps: seq<seq<Poll>>, h: nat, total: nat,
                       settings: map<string, string>)
    requires h >= total || !Armed(f)
    ensures Countdown(f, waiting, sleeps, h, total) == (f, waiting)
    ensures CountdownCalls(f, waiting, sleeps, h, total, settings) == []
  {
  }

  // ---------------------------------------------------------------------------
  // What the calls say
  // ---------------------------------------------------------------------------

  /** A door call reports the flags its edge leaves: an opening reports the
      countdown armed and no alarm, a closing reports everything cleared. */
  predicate Reported(c: Call) {
    && (c.eventType == DoorOpen ==> c.flags == Flags(true, false, true))
    && (c.eventType == DoorClose ==> c.flags == Idle)
    && (c.eventType == AlarmTriggered ==> c.flags == Ringing)
    && Safe(c.flags)
  }

  /** The monitor only logs door events, each reporting its edge's flags. */
  predicate DoorCall(c: Call) {
    (c.eventType == DoorOpen || c.eventType == DoorClose) && Reported(c)
  }

  predicate AllDoorCalls(calls: seq<Call>) {
    forall i :: 0 <= i < |calls| ==> DoorCall(calls[i])
  }

  lemma {:induction false} WatchCallsAreDoorCalls(f: Flags, polls: seq<Poll>, settings: map<string, string>)
    ensures AllDoorCalls(WatchCalls(f, polls, settings))
    decreases |polls|
  {
    if polls != [] {
      var e := EdgeOf(polls[0].open, f.doorOpen);
      var rest := if e == Rising then [] else WatchCalls(AfterEdge(f, e), polls[1..], settings);
      if e != Rising {
        WatchCallsAreDoorCalls(AfterEdge(f, e), polls[1..], settings);
      }
      DoorCallsConcat(PollCalls(f, polls[0], settings), rest);
    }
  }

  lemma DoorCallsConcat(xs: seq<Call>, ys: seq<Call>)
    requires AllDoorCalls(xs) && AllDoorCalls(ys)
    ensures AllDoorCalls(xs + ys)
  {
    forall i | 0 <= i < |xs + ys| ensures DoorCall((xs + ys)[i]) {
      if i < |xs| {
        assert (xs + ys)[i] == xs[i];
      } else {
        assert (xs + ys)[i] == ys[i - |xs|];
      }
    }
  }

  /** No alarm is logged while the countdown is still running: every call
      made during it is a door event of the monitor. */
  lemma {:induction false} CountdownCallsAreDoorCalls(f: Flags, waiting: bool, sleeps: seq<seq<Poll>>, h: nat,
                                                      total: nat, settings: map<string, string>)
    ensures AllDoorCalls(CountdownCalls(f, waiting, sleeps, h, total, settings))
    decreases total - h
  {
    if h < total && Armed(f) {
      var polls := if h < |sleeps| && !waiting then sleeps[h] else [];
      var w := Watch(f, polls);
      WatchCallsAreDoorCalls(f, polls, settings);
      CountdownCallsAreDoorCalls(w.0, waiting || w.1, sleeps, h + 1, total, settings);
      DoorCallsConcat(WatchCalls(f, polls, settings), CountdownCalls(w.0, waiting || w.1, sleeps, h + 1, total, settings));
    }
  }

  /** A countdown logs exactly one alarm when it raises the alarm and none
      otherwise; the alarm is its last call, and every call reports the
      flags of the moment it is made. */
  lemma AlarmLoggedIffRaised(f: Flags, sleeps: seq<seq<Poll>>, duration: int, alarmAt: int,
                             settings: map<string, string>)
    ensures var calls := TimerCalls(f, sleeps, duration, alarmAt, settings);
            && (forall i :: 0 <= i < |calls| ==> Reported(calls[i]))
            && CountCalls(calls, AlarmTriggered) == (if TimerOutcome(f, sleeps, duration).alarmActive then 1 else 0)
            && (TimerOutcome(f, sleeps, duration).alarmActive ==>
                  calls[|calls| - 1] == Call(AlarmTriggered, AlarmText(duration), alarmAt, Ringing))
  {
    var during := CountdownCalls(f, false, sleeps, 0, HalfTicks(duration), settings);
    CountdownCallsAreDoorCalls(f, false, sleeps, 0, HalfTicks(duration), settings);
    NoAlarmCalls(during);
    var calls := TimerCalls(f, sleeps, duration, alarmAt, settings);
    var c := Countdown(f, false, sleeps, 0, HalfTicks(duration));
    var alarm := if Armed(c.0) then [Call(AlarmTriggered, AlarmText(duration), alarmAt, Ringing)] else [];
    assert calls == during + alarm;
    CountCallsAppend(during, alarm, AlarmTriggered);
  }

  function CountCalls(calls: seq<Call>, t: string): nat
    decreases |calls|
  {
    if calls == [] then 0 else (if calls[0].eventType == t then 1 else 0) + CountCalls(calls[1..], t)
  }

  lemma {:induction false} CountCallsAppend(xs: seq<Call>, ys: seq<Call>, t: string)
    ensures CountCalls(xs + ys, t) == CountCalls(xs, t) + CountCalls(ys, t)
    decreases |xs|
  {
    if xs == [] {
      assert xs + ys == ys;
    } else {
      assert (xs + ys)[0] == xs[0];
      assert (xs + ys)[1..] == xs[1..] + ys;
      CountCallsAppend(xs[1..], ys, t);
    }
  }

  lemma {:induction false} NoAlarmCalls(calls: seq<Call>)
    requires AllDoorCalls(calls)
    ensures CountCalls(calls, AlarmTriggered) == 0
    decreases |calls|
  {
    if calls != [] {
      NoAlarmCalls(calls[1..]);
    }
  }

  // ---------------------------------------------------------------------------
  // The plain logger of app.py
  // ---------------------------------------------------------------------------

  /** What the logger has produced: the event log and the status payloads
      broadcast so far. */
  datatype Trail = Trail(events: seq<Event>, broadcasts: seq<Payload>)

  /** What one `log_event` call of app.py leaves behind: the next row in
      the log, and one status payload broadcast, built after the row is
      inserted (so its statistics count that row) and reporting the call's
      flags. */
  function LogOne(t: Trail, c: Call, settings: map<string, string>): Trail {
    var log' := Append(t.events, c.eventType, c.description, c.at);
    Trail(log', t.broadcasts + [StatusPayload(log'[|t.events|], log', c.flags.doorOpen, c.flags.alarmActive, settings)])
  }

  /** The calls logged one after the other. */
  function Logged(t: Trail, calls: seq<Call>, settings: map<string, string>): Trail
    decreases |calls|
  {
    if calls == [] then t else Logged(LogOne(t, calls[0], settings), calls[1..], settings)
  }

  /** Logging only ever adds: one row and one broadcast per call, the earlier
      ones kept, and the rows still numbered 1, 2, 3, ... */
  lemma {:induction false} LoggedExtends(t: Trail, calls: seq<Call>, settings: map<string, string>)
    ensures var r := Logged(t, calls, settings);
            && |r.events| == |t.events| + |calls| && r.events[..|t.events|] == t.events
            && |r.broadcasts| == |t.broadcasts| + |calls| && r.broadcasts[..|t.broadcasts|] == t.broadcasts
            && (WellNumbered(t.events) ==> WellNumbered(r.events))
    decreases |calls|
  {
    if calls != [] {
      var m := LogOne(t, calls[0], settings);
      AppendShape(t.events, calls[0].eventType, calls[0].description, calls[0].at);
      LoggedExtends(m, calls[1..], settings);
      var r := Logged(t, calls, settings);
      assert r.events[..|t.events|] == r.events[..|m.events|][..|t.events|];
      assert r.broadcasts[..|t.broadcasts|] == r.broadcasts[..|m.broadcasts|][..|t.broadcasts|];
    }
  }

  /** The rows the calls add to the log, leaving the broadcasts aside. */
  function LoggedEvents(log: seq<Event>, calls: seq<Call>): seq<Event>
    decreases |calls|
  {
    if calls == [] then log
    else LoggedEvents(Append(log, calls[0].eventType, calls[0].description, calls[0].at), calls[1..])
  }

  /** The log that logging leaves depends only on the rows before and the
      calls. */
  lemma {:induction false} LoggedEventsOnly(t: Trail, calls: seq<Call>, settings: map<string, string>)
    ensures Logged(t, calls, settings).events == LoggedEvents(t.events, calls)
    decreases |calls|
  {
    if calls != [] {
      var m := LogOne(t, calls[0], settings);
      assert m.events == Append(t.events, calls[0].eventType, calls[0].description, calls[0].at);
      LoggedEventsOnly(m, calls[1..], settings);
    }
  }

  /** Logging more calls leaves an existing row as it was. */
  lemma {:induction false} EventsKeepRow(log: seq<Event>, calls: seq<Call>, k: int)
    requires 0 <= k < |log|
    ensures var r := LoggedEvents(log, calls);
            |r| == |log| + |calls| && r[k] == log[k]
    decreases |calls|
  {
    if calls != [] {
      EventsKeepRow(Append(log, calls[0].eventType, calls[0].description, calls[0].at), calls[1..], k);
    }
  }

  /** Logging more calls keeps the rows that were already there. */
  lemma EventsKeepPrefix(log: seq<Event>, calls: seq<Call>)
    ensures var r := LoggedEvents(log, calls);
            |r| == |log| + |calls| && r[..|log|] == log
  {
    var r := LoggedEvents(log, calls);
    EventsRows(log, calls);
    forall k | 0 <= k < |log|
      ensures r[k] == log[k]
    {
      EventsKeepRow(log, calls, k);
    }
    assert r[..|log|] == log;
  }

  /** Each call adds exactly one row, in order, carrying its event type,
      description and time. */
  lemma {:induction false} EventsRows(log: seq<Event>, calls: seq<Call>)
    ensures var r := LoggedEvents(log, calls);
            && |r| == |log| + |calls|
            && forall i :: 0 <= i < |calls| ==>
                 && r[|log| + i].eventType == calls[i].eventType
                 && r[|log| + i].description == calls[i].description
                 && r[|log| + i].timestamp == calls[i].at
    decreases |calls|
  {
    if calls != [] {
      var m := Append(log, calls[0].eventType, calls[0].description, calls[0].at);
      var r := LoggedEvents(m, calls[1..]);
      EventsRows(m, calls[1..]);
      EventsKeepRow(m, calls[1..], |log|);
      forall i | 1 <= i < |calls|
        ensures r[|log| + i].eventType == calls[i].eventType
        ensures r[|log| + i].description == calls[i].description
        ensures r[|log| + i].timestamp == calls[i].at
      {
        assert calls[i] == calls[1..][i - 1];
        assert |log| + i == |m| + (i - 1);
      }
    }
  }

  /** Each call becomes exactly one row, in order, carrying the call's
      event type, description and time. */
  lemma LoggedRows(t: Trail, calls: seq<Call>, settings: map<string, string>)
    ensures var r := Logged(t, calls, settings);
            && |r.events| == |t.events| + |calls|
            && forall i :: 0 <= i < |calls| ==>
                 && r.events[|t.events| + i].eventType == calls[i].eventType
                 && r.events[|t.events| + i].description == calls[i].description
                 && r.events[|t.events| + i].timestamp == calls[i].at
  {
    LoggedEventsOnly(t, calls, settings);
    EventsRows(t.events, calls);
  }

  /** Logging a single call is one `log_event`. */
  lemma LoggedSingle(t: Trail, c: Call, settings: map<string, string>)
    ensures Logged(t, [c], settings) == LogOne(t, c, settings)
  {
    assert [c][1..] == [];
    assert Logged(t, [c], settings) == Logged(LogOne(t, c, settings), [], settings);
  }

  /** Logging two runs of calls one after the other is logging them together. */
  lemma {:induction false} LoggedAppend(t: Trail, xs: seq<Call>, ys: seq<Call>, settings: map<string, string>)
    ensures Logged(Logged(t, xs, settings), ys, settings) == Logged(t, xs + ys, settings)
    decreases |xs|
  {
    if xs == [] {
      assert xs + ys == ys;
    } else {
      assert (xs + ys)[0] == xs[0];
      assert (xs + ys)[1..] == xs[1..] + ys;
      LoggedAppend(LogOne(t, xs[0], settings), xs[1..], ys, settings);
    }
  }

  /** Logging one more call after a run is one more `log_event` on the log
      that run left. */
  lemma LoggedSnoc(t: Trail, xs: seq<Call>, c: Call, settings: map<string, string>, mid: Trail)
    requires mid == Logged(t, xs, settings)
    ensures Logged(t, xs + [c], settings) == LogOne(mid, c, settings)
  {
    LoggedAppend(t, xs, [c], settings);
    LoggedSingle(mid, c, settings);
  }
}
