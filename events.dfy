/**
  The event log (`EventLog` table), the statistics recomputed from it on
  every logged event, the live status payload sent to dashboard clients,
  and the `timer_duration` setting read from the settings table.

  Timestamps are integers (milliseconds) supplied by the caller in place
  of the wall clock; the IST time zone and `strftime` rendering are not
  modelled.
*/
module Events {
  import opened Wrappers
  import Text

  // Event types used by the door/alarm core.
  const DoorOpen: string := "door_open"
  const DoorClose: string := "door_close"
  const AlarmTriggered: string := "alarm_triggered"

  // The settings-table key holding the countdown length, and its default.
  const TimerKey: string := "timer_duration"
  const DefaultTimerText: string := "30"
  const DefaultDuration: int := 30

  /** One row of the event log. */
  datatype Event = Event(id: nat, eventType: string, description: string, timestamp: int)

  /** Row ids are assigned 1, 2, 3, ... in insertion order (no row is ever deleted). */
  ghost predicate WellNumbered(log: seq<Event>) {
    forall i :: 0 <= i < |log| ==> log[i].id == i + 1
  }

  /** The log after inserting one row: the new row gets the next id and the
      given type, description and time, and the earlier rows are kept. */
  function Append(log: seq<Event>, eventType: string, description: string, now: int): seq<Event> {
    log + [Event(|log| + 1, eventType, description, now)]
  }

  lemma AppendShape(log: seq<Event>, eventType: string, description: string, now: int)
    ensures var log' := Append(log, eventType, description, now);
            && |log'| == |log| + 1 && log'[..|log|] == log
            && log'[|log|].eventType == eventType && log'[|log|].description == description
            && log'[|log|].timestamp == now
            && (WellNumbered(log) ==> WellNumbered(log'))
  {
    var log' := Append(log, eventType, description, now);
    assert log'[..|log|] == log;
  }

  // ---------------------------------------------------------------------------
  // Statistics
  // ---------------------------------------------------------------------------

  /** `EventLog.query.filter_by(event_type=t).count()`. */
  function CountType(log: seq<Event>, t: string): (n: nat)
    ensures n <= |log|
    decreases |log|
  {
    if log == [] then 0
    else (if log[0].eventType == t then 1 else 0) + CountType(log[1..], t)
  }

  /** Inserting one row raises the count of its own type by one and leaves
      every other type's count alone. */
  lemma {:induction false} CountAppend(log: seq<Event>, e: Event, t: string)
    ensures CountType(log + [e], t) == CountType(log, t) + (if e.eventType == t then 1 else 0)
    decreases |log|
  {
    if log != [] {
      assert (log + [e])[1..] == log[1..] + [e];
      CountAppend(log[1..], e, t);
    }
  }

  /** The three door/alarm counts never add up to more than the whole log. */
  lemma {:induction false} CountsWithinTotal(log: seq<Event>)
    ensures CountType(log, DoorOpen) + CountType(log, DoorClose) + CountType(log, AlarmTriggered) <= |log|
    decreases |log|
  {
    if log != [] {
      CountsWithinTotal(log[1..]);
    }
  }

  datatype Statistics = Statistics(totalEvents: nat, doorOpenEvents: nat, doorCloseEvents: nat, alarmEvents: nat)

  /** The `statistics` block of the payload, recomputed from the whole log. */
  function ComputeStatistics(log: seq<Event>): Statistics {
    Statistics(|log|, CountType(log, DoorOpen), CountType(log, DoorClose), CountType(log, AlarmTriggered))
  }

  /** The door and alarm counters never exceed the total. */
  lemma StatisticsWithinTotal(log: seq<Event>)
    ensures var st := ComputeStatistics(log);
            st.doorOpenEvents + st.doorCloseEvents + st.alarmEvents <= st.totalEvents
  {
    CountsWithinTotal(log);
  }

  /** After one more row the total grows by one and exactly the counter of
      that row's type (if it is one of the three) grows by one. */
  lemma StatisticsAfterAppend(log: seq<Event>, eventType: string, description: string, now: int)
    ensures var before := ComputeStatistics(log);
            var after := ComputeStatistics(Append(log, eventType, description, now));
            && after.totalEvents == before.totalEvents + 1
            && after.doorOpenEvents == before.doorOpenEvents + (if eventType == DoorOpen then 1 else 0)
            && after.doorCloseEvents == before.doorCloseEvents + (if eventType == DoorClose then 1 else 0)
            && after.alarmEvents == before.alarmEvents + (if eventType == AlarmTriggered then 1 else 0)
  {
    var e := Event(|log| + 1, eventType, description, now);
    CountAppend(log, e, DoorOpen);
    CountAppend(log, e, DoorClose);
    CountAppend(log, e, AlarmTriggered);
  }

  // ---------------------------------------------------------------------------
  // The most recent event
  // ---------------------------------------------------------------------------

  /** `EventLog.query.order_by(EventLog.timestamp.desc()).first()`: a row with
      the greatest timestamp, None for an empty log. Among rows with equal
      timestamps the database's choice is unspecified; the model takes the
      most recently inserted one. */
  function Latest(log: seq<Event>): Option<Event>
    decreases |log|
  {
    if log == [] then None
    else
      var last := log[|log| - 1];
      var earlier := Latest(log[..|log| - 1]);
      if earlier.None? || earlier.value.timestamp <= last.timestamp then Some(last) else earlier
  }

  /** The latest event exists exactly when the log is not empty, is one of
      its rows, and no row is later. */
  lemma {:induction false} LatestIsNewest(log: seq<Event>)
    ensures Latest(log).Some? <==> log != []
    ensures Latest(log).Some? ==> Latest(log).value in log
    ensures Latest(log).Some? ==> forall i :: 0 <= i < |log| ==> log[i].timestamp <= Latest(log).value.timestamp
    decreases |log|
  {
    if log != [] {
      var init := log[..|log| - 1];
      LatestIsNewest(init);
      assert log == init + [log[|log| - 1]];
      forall i | 0 <= i < |init| ensures init[i] == log[i] { }
    }
  }

  /** With a clock that does not run backwards, the most recent event is the
      one just inserted. */
  lemma LatestAfterAppend(log: seq<Event>, eventType: string, description: string, now: int)
    requires forall e :: e in log ==> e.timestamp <= now
    ensures Latest(Append(log, eventType, description, now)) == Some(Append(log, eventType, description, now)[|log|])
  {
    var log' := Append(log, eventType, description, now);
    assert log'[..|log'| - 1] == log;
    LatestIsNewest(log);
  }

  // ---------------------------------------------------------------------------
  // The countdown setting
  // ---------------------------------------------------------------------------

  /** `timer_setting.value if timer_setting else '30'`: the text shown as
      `timer_set` in the payload. */
  function TimerSetting(settings: map<string, string>): (v: string)
    ensures TimerKey in settings ==> v == settings[TimerKey]
    ensures TimerKey !in settings ==> v == DefaultTimerText
  {
    if TimerKey in settings then settings[TimerKey] else DefaultTimerText
  }

  /** `int(timer_setting.value) if timer_setting else 30`, read when the door
      opens; None is the `ValueError` of a setting that is not an integer. */
  function SnapshotDuration(settings: map<string, string>): (d: Option<int>)
    ensures TimerKey !in settings ==> d == Some(DefaultDuration)
    ensures TimerKey in settings ==> d == Text.ParseInt(settings[TimerKey])
  {
    if TimerKey in settings then Text.ParseInt(settings[TimerKey]) else Some(DefaultDuration)
  }

  /** A duration saved as `str(n)` by the settings form is read back as `n`
      at the next door opening. */
  lemma SnapshotReadsSavedDuration(settings: map<string, string>, n: int)
    ensures SnapshotDuration(settings[TimerKey := Text.ShowInt(n)]) == Some(n)
  {
    Text.ParseShow(n);
  }

  /** The default text '30' written at start-up reads back as the default
      duration, so the payload's `timer_set` and the countdown agree. */
  lemma DefaultSettingAgrees(settings: map<string, string>)
    ensures SnapshotDuration(settings[TimerKey := DefaultTimerText]) == Some(DefaultDuration)
  {
    assert Text.ShowNat(3) == "3";
    assert Text.ShowNat(30) == "3" + "0";
    assert Text.ShowInt(DefaultDuration) == DefaultTimerText;
    Text.ParseShow(DefaultDuration);
  }

  // ---------------------------------------------------------------------------
  // The live status payload
  // ---------------------------------------------------------------------------

  datatype Payload = Payload(
    event: Event,
    doorStatus: string,
    alarmStatus: string,
    timerSet: string,
    lastEvent: Option<Event>,
    statistics: Statistics)

  /** The payload broadcast after `event` has been inserted into `log`. */
  function StatusPayload(event: Event, log: seq<Event>, doorOpen: bool, alarmActive: bool,
                         settings: map<string, string>): Payload {
    Payload(
      event,
      if doorOpen then "Open" else "Closed",
      if alarmActive then "Active" else "Inactive",
      TimerSetting(settings),
      Latest(log),
      ComputeStatistics(log))
  }

  /** The payload reports the new row, the flags as 'Open'/'Closed' and
      'Active'/'Inactive', the setting text, the latest row of the log, and
      counts that match the log. */
  lemma PayloadReports(event: Event, log: seq<Event>, doorOpen: bool, alarmActive: bool,
                       settings: map<string, string>)
    ensures var p := StatusPayload(event, log, doorOpen, alarmActive, settings);
            && p.event == event
            && (p.doorStatus == "Open") == doorOpen && (p.doorStatus == "Closed") == !doorOpen
            && (p.alarmStatus == "Active") == alarmActive && (p.alarmStatus == "Inactive") == !alarmActive
            && p.timerSet == TimerSetting(settings)
            && (p.lastEvent.Some? <==> log != [])
            && (p.lastEvent.Some? ==> p.lastEvent.value in log)
            && (p.lastEvent.Some? ==> forall i :: 0 <= i < |log| ==> log[i].timestamp <= p.lastEvent.value.timestamp)
            && p.statistics.totalEvents == |log|
            && p.statistics.doorOpenEvents == CountType(log, DoorOpen)
            && p.statistics.doorCloseEvents == CountType(log, DoorClose)
            && p.statistics.alarmEvents == CountType(log, AlarmTriggered)
            && p.statistics.doorOpenEvents + p.statistics.doorCloseEvents + p.statistics.alarmEvents <= |log|
  {
    LatestIsNewest(log);
    StatisticsWithinTotal(log);
  }
}
