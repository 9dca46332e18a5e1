# Door alarm controller — a Dafny model

The eDOMOS door alarm controller watches one door sensor. When the door
opens, a countdown starts that blinks a red LED. If the door is still open
when the countdown ends, the alarm goes off and an email is sent. Every
opening, closing and alarm goes into an event log, and a status payload
goes to the dashboard clients.

The repository holds two variants of the controller:

- `door_alarm_system/app.py` logs every event it is given.
- `door_alarm_system/app_with_html_errors.py` puts a duplicate filter in
  front of the log. The filter drops:
  - a repeat of the same event within two seconds;
  - a door event that repeats the door state last logged;
  - a second alarm before the door has closed.

This project models the controller core of both variants and proves
properties of it:

- the monitor's edge step (`monitor_door`);
- the countdown (`alarm_timer`);
- the logger (`log_event`), with its statistics and status payload;
- the readiness gate and recipient list of `send_alarm_email`;
- the checks of the administration handlers: new-user validation, the
  guard against deleting `admin`, and page permissions.

Layout, by module:

- `Wrappers` (wrappers.dfy): the `Option` type.
- `Text` (text.dfy): the Python string operations the core relies on, as
  functions with their laws: `split`, `join`, `strip`, `int()` and `str()`.
- `Events` (events.dfy): the event log, the statistics, the latest event,
  the `timer_duration` setting and the status payload.
- `Notify` (notify.dfy): the email gate and the recipient list.
- `Users` (users.dfy): user creation, user deletion and page permissions.
  The two variants have the same code here (for example app.py:479-500
  and app_with_html_errors.py:558-579), so it is modelled once and cited
  in app.py.
- `Door` (door.dfy): the three shared flags (`door_open`, `alarm_active`,
  `timer_active`) and the decisions that move them, as specification
  functions:
  - `EdgeOf` and `AfterEdge` for one monitor sample;
  - `Countdown`, `Expire` and `TimerOutcome` for `alarm_timer`;
  - `Safe`, the invariant the flags keep under the sequential schedule (see "Real threads" under "## Left out").
- `Monitor` (monitor.dfy): which `log_event` calls the monitor and the
  countdown make (`PollCalls`, `WatchCalls`, `CountdownCalls`,
  `TimerCalls`), and what the plain logger makes of them (`LogOne`,
  `Logged`).
- `Dedup` (dedup.dfy): the duplicate filter as a function of its state
  (`Admit`), its behaviour over a run of submissions (`Run`), and the same
  filter in front of the log (`FilterCall`, `Filtered`).
- `PlainApp` (plain_app.dfy): app.py's controller as a class
  (`AlarmSystem`). The globals become fields that its methods update in
  place, and each method is proved against the functions above.
- `DedupApp` (dedup_app.dfy): the controller of app_with_html_errors.py as
  a class (`DedupAlarmSystem`), with the filter's three globals as fields.

The monitor thread and the countdown thread run sequentially:

- `PollDoor` is one pass of the monitor loop.
- `AlarmTimer` runs one countdown. Its parameters give the polls the
  monitor makes during each of the countdown's half-second sleeps.
- The clock is an integer number of milliseconds passed in by the caller.

## Model

| member | source | states |
|---|---|---|
| Text.Split | door_alarm_system/app.py:213 | `str.split(sep)` always gives at least one piece, and no piece contains the separator |
| Text.SplitLength | door_alarm_system/app.py:213 | the number of pieces is one more than the number of separators |
| Text.JoinSplit | door_alarm_system/app.py:213 | joining the pieces of a split with the separator gives back the original text |
| Text.SplitJoin | door_alarm_system/app.py:500 | splitting a join of separator-free items gives back the items |
| Text.StripEnds | door_alarm_system/app.py:213 | the result of `strip()` neither starts nor ends with whitespace |
| Text.TrimShape | door_alarm_system/app.py:213 | trimming, for `strip()` and for `int()` alike, keeps a contiguous slice and removes only that mode's whitespace on either side of it |
| Text.TrimUntouched | door_alarm_system/app.py:213 | a text that neither starts nor ends with the mode's whitespace is left as it is |
| Text.Strip | door_alarm_system/app.py:213 | `str.strip()`: every `isspace` character removed from both ends; specified by `StripEnds` and `TrimShape` |
| Text.Join | door_alarm_system/app.py:500 | `sep.join(xs)`; specified by `JoinSplit` and `SplitJoin`, its inverse laws with `Split` |
| Text.ParseInt | door_alarm_system/app.py:95 | `int(s)` in base 10: the whitespace `int()` skips (the `isspace` set without U+001C..U+001F) is ignored at both ends, then one optional sign and ASCII digits; anything else is the `ValueError`; specified by `ParseShow`, `ParsedTextHasDigit` and `ParseIntRejectsSeparator` |
| Text.ParseIntRejectsSeparator | door_alarm_system/app.py:95 | a text starting or ending with U+001C..U+001F is rejected, although `strip()` would remove those characters |
| Text.ParsedTextHasDigit | door_alarm_system/app.py:95 | any text `int()` accepts contains a decimal digit |
| Text.ParseShow | door_alarm_system/app.py:95 | `int(str(n)) == n` for every integer |
| Notify.RecipientsShape | door_alarm_system/app.py:213 | one recipient per comma-separated piece (empty pieces included), each the stripped piece, none holding a comma |
| Notify.StripAllShape | door_alarm_system/app.py:213 | the list comprehension strips each piece and keeps the order |
| Notify.ParseRecipients | door_alarm_system/app.py:213 | `[email.strip() for email in text.split(',')]`; specified by `RecipientsShape`, `RecipientsRoundTrip` and `TrailingCommaGivesEmptyRecipient` |
| Notify.AlarmEmail | door_alarm_system/app.py:192-213 | an alert goes out iff the configuration row exists, is marked configured, and has non-empty sender, password and recipients; the alert carries that sender, the parsed recipients and the duration |
| Notify.RecipientsRoundTrip | door_alarm_system/app.py:213 | addresses saved comma-joined (no comma, no surrounding space) are read back exactly |
| Notify.TrailingCommaGivesEmptyRecipient | door_alarm_system/app.py:213 | a trailing comma produces an empty last recipient |
| Notify.StripKeepsOut | door_alarm_system/app.py:213 | `strip()` adds no character that was not there |
| Users.ValidateNewUser | door_alarm_system/app.py:479-486 | each message appears iff its condition holds (username under 4, password under 6, no permission selected); no message twice; no messages iff all three pass |
| Users.ChosenPermissions | door_alarm_system/app.py:465-477 | the form's list when it is non-empty, otherwise the request's; empty exactly when both are |
| Users.CreateUser | door_alarm_system/app.py:450-517 | denied iff the actor is not admin; invalid (with exactly the validation messages) iff admin and validation fails; created iff admin, valid and the username is free; the table gains exactly the new row, with the comma-joined permissions, only when created |
| Users.DeleteUser | door_alarm_system/app.py:552-577 | a non-admin actor is refused with "Permission denied" (403) before any lookup; an admin asking for a missing id gets "User not found" (404); otherwise a row is deleted iff the actor is admin, the id exists and the user is not `admin`; the refusal for `admin` happens iff the row is `admin`; nothing else changes the table |
| Users.AdminSurvivesDelete | door_alarm_system/app.py:570-572 | no delete request removes or alters the `admin` row |
| Users.DashboardPermissions | door_alarm_system/app.py:336 | an empty permission column shows as `['dashboard']`; otherwise the list holds exactly the pages the permission test grants |
| Users.PermitsJoined | door_alarm_system/app.py:369 | a permission string joined from page names grants exactly those pages |
| Users.CreatedUserPermissions | door_alarm_system/app.py:497-501 | a user created by a valid request is granted exactly the selected pages |
| Users.Permits | door_alarm_system/app.py:369 | `page in permissions.split(',')`; specified by `PermitsJoined`, `DashboardPermissions` and `EmptyPermissionsGrantNothing` |
| Users.EmptyPermissionsGrantNothing | door_alarm_system/app.py:336 | an empty permission column grants no named page, although the dashboard shows it as `['dashboard']` |
| Door.EdgeOf | door_alarm_system/app.py:86-102 | a rising edge iff the sample reads open and the door is recorded closed; a falling edge iff the reverse; no edge iff they agree |
| Door.AfterEdge | door_alarm_system/app.py:86-111 | an opening arms the countdown and clears the alarm; a closing clears all flags; no edge changes nothing; an edge always leaves the flags safe |
| Door.Expire | door_alarm_system/app.py:132-146 | after the countdown loop, the alarm is on iff the countdown is still armed; the countdown is off and the door flag is untouched |
| Door.Watch | door_alarm_system/app.py:76-112 | the monitor's handling of the polls during one sleep keeps the flags safe |
| Door.Countdown | door_alarm_system/app.py:119-130 | the countdown loop keeps the flags safe, and once the monitor is waiting it stays waiting |
| Door.TimerOutcome | door_alarm_system/app.py:114-150 | after `alarm_timer` the flags are safe and the countdown is off |
| Door.DoorLeftOpenRaisesAlarm | door_alarm_system/app.py:132-142 | if every poll reads open for the whole countdown, the alarm goes off with the door flag open |
| Door.ClosingCancelsAlarm | door_alarm_system/app.py:143-146 | if the door is seen closed during a sleep and not reopened, the countdown ends with every flag cleared and no alarm |
| Door.ReopenWithinSleepKeepsCountdown | door_alarm_system/app.py:98-101 | for any duration and any sleep of the countdown: if the door stays open until that sleep and, within it, is seen closed and then open again, the running countdown is not cancelled, the monitor waits for it, and it raises the alarm for the new opening; the countdown the monitor then starts clears the alarm although the door is open |
| Door.WatchOpen | door_alarm_system/app.py:86 | with the door open, polls that read open change nothing |
| Door.WatchClosed | door_alarm_system/app.py:102 | with the door closed, polls that read closed change nothing |
| Door.CountdownOpen | door_alarm_system/app.py:120-130 | while every poll reads open, an armed countdown just runs on |
| Door.WatchCloses | door_alarm_system/app.py:102-106 | polls reading open and then only closed leave every flag cleared |
| Door.WatchReopens | door_alarm_system/app.py:86-101 | with the door closed, "closed" polls and then an opening arm a new countdown and make the monitor wait for the running one |
| Door.WatchCloseReopen | door_alarm_system/app.py:86-111 | open polls, a close, closed polls and a reopen within one sleep leave the countdown armed and the monitor waiting |
| Door.CountdownWaiting | door_alarm_system/app.py:119-130 | once the monitor waits, an armed countdown hears no more polls and runs to its end |
| Events.AppendShape | door_alarm_system/app.py:159-161 | inserting a row adds exactly one row with the next id, type, description and time, and keeps the earlier rows |
| Events.CountType | door_alarm_system/app.py:165-167 | a per-type count never exceeds the number of rows |
| Events.CountAppend | door_alarm_system/app.py:165-167 | one more row raises only the count of its own type, by one |
| Events.CountsWithinTotal | door_alarm_system/app.py:164-167 | the three door and alarm counts sum to at most the total |
| Events.StatisticsWithinTotal | door_alarm_system/app.py:164-167 | the payload's counters sum to at most its total |
| Events.ComputeStatistics | door_alarm_system/app.py:163-167 | the four counts of the payload, recomputed from the whole log; specified by `StatisticsWithinTotal` and `StatisticsAfterAppend` |
| Events.StatisticsAfterAppend | door_alarm_system/app.py:163-167 | after a row is inserted the total grows by one, and exactly the counter of the row's type grows by one |
| Events.LatestIsNewest | door_alarm_system/app.py:174 | the latest event exists iff the log is non-empty, is one of its rows, and no row has a later timestamp |
| Events.Latest | door_alarm_system/app.py:174 | the row with the greatest timestamp, or none for an empty log; specified by `LatestIsNewest` and `LatestAfterAppend` |
| Events.StatusPayload | door_alarm_system/app.py:173-187 | the payload broadcast after a row is inserted; specified by `PayloadReports` |
| Events.LatestAfterAppend | door_alarm_system/app.py:174 | with a clock that does not go back, the latest event is the row just inserted |
| Events.TimerSetting | door_alarm_system/app.py:170-171 | `timer_set` is the saved setting text, or `'30'` when there is none |
| Events.SnapshotDuration | door_alarm_system/app.py:94-95 | the countdown length is `int()` of the saved text, or 30 when there is none; `None` is `int()` raising |
| Events.SnapshotReadsSavedDuration | door_alarm_system/app.py:539-545 | a duration saved as `str(n)` by the settings form is read back as `n` at the next opening |
| Events.DefaultSettingAgrees | door_alarm_system/app.py:65 | the default text `'30'` written at start-up reads back as the default duration 30 |
| Events.PayloadReports | door_alarm_system/app.py:175-187 | the payload carries the new row, 'Open'/'Closed' iff the door flag, 'Active'/'Inactive' iff the alarm flag, the setting text, a latest event that exists iff the log is non-empty and is its newest row, and counts equal to the log's |
| Monitor.PollCalls | door_alarm_system/app.py:86-111 | at most one call per sample; a `door_open` call iff a rising edge and the setting reads as an integer; a `door_close` call iff a falling edge; the call reports the flags after the edge |
| Monitor.OpeningCalls | door_alarm_system/app.py:86-97 | an opening seen with the door closed logs one `door_open` reporting the countdown armed, or nothing when `int()` fails |
| Monitor.CountdownStops | door_alarm_system/app.py:120 | a countdown that has run its time or is no longer armed changes and logs nothing more |
| Monitor.WatchCallsAreDoorCalls | door_alarm_system/app.py:76-112 | the monitor logs only door events, each reporting its edge's flags |
| Monitor.CountdownCallsAreDoorCalls | door_alarm_system/app.py:119-130 | no alarm is logged while the countdown runs |
| Monitor.AlarmLoggedIffRaised | door_alarm_system/app.py:132-146 | a countdown logs exactly one alarm iff it raises the alarm, none otherwise; the alarm is its last call, and every call reports the flags at that moment |
| Monitor.LoggedExtends | door_alarm_system/app.py:152-190 | logging calls adds exactly one row and one broadcast per call, keeps what was there, and keeps the ids consecutive |
| Monitor.LogOne | door_alarm_system/app.py:152-190 | one `log_event` of app.py: the next row, then one payload built from the log that includes it; specified by `LoggedExtends`, `LoggedRows` and `PayloadReports` |
| Monitor.Logged | door_alarm_system/app.py:152-190 | `log_event` for each call in turn; specified by `LoggedExtends`, `LoggedRows` and `LoggedAppend` |
| Monitor.LoggedRows | door_alarm_system/app.py:159-161 | the n-th new row carries the n-th call's type, description and time |
| Monitor.LoggedEvents | door_alarm_system/app.py:159-161 | the rows `log_event` inserts for each call in turn, without the broadcasts; specified by `LoggedEventsOnly`, `EventsRows` and `EventsKeepPrefix` |
| Monitor.LoggedEventsOnly | door_alarm_system/app.py:152-190 | the rows logging leaves depend only on the rows before and the calls, not on the broadcasts or settings |
| Monitor.EventsKeepRow | door_alarm_system/app.py:159-161 | logging more calls adds one row per call and leaves every existing row as it was |
| Monitor.EventsKeepPrefix | door_alarm_system/app.py:159-161 | logging more calls keeps the existing rows as a prefix, one new row per call |
| Monitor.EventsRows | door_alarm_system/app.py:159-161 | the n-th new row carries the n-th call's type, description and time |
| Monitor.LoggedAppend | door_alarm_system/app.py:152-190 | logging two runs of calls in turn is logging them together |
| Dedup.Admit | door_alarm_system/app_with_html_errors.py:198-232 | a submission is dropped iff its key was accepted less than 2 s ago or it repeats the door state or alarm on record (so with the door state unknown, either door event passes); other types are subject only to the window; on acceptance only, the key's timestamp is set and the door/alarm record updated |
| Dedup.RepeatWithinWindowDropped | door_alarm_system/app_with_html_errors.py:204-209 | the same type and description submitted again less than 2 s after acceptance is dropped |
| Dedup.RunKeepsOrder | door_alarm_system/app_with_html_errors.py:193-232 | the calls the filter lets through are a subsequence of the calls submitted (same order, some left out), so no more than were submitted |
| Dedup.Run | door_alarm_system/app_with_html_errors.py:193-232 | the filter over a run of submissions and door-closing resets; specified by `RunKeepsOrder`, `AcceptedDoorEventsAlternate` and `AlarmsPerEpisode` |
| Dedup.RunAppend | door_alarm_system/app_with_html_errors.py:193-232 | filtering two runs of steps in turn is filtering them together |
| Dedup.MonitorStepsAppend | door_alarm_system/app_with_html_errors.py:140-152 | the monitor's steps for concatenated calls concatenate |
| Dedup.AcceptedDoorEventsAlternate | door_alarm_system/app_with_html_errors.py:211-223 | whatever is submitted, the accepted door events alternate open/closed, the first differing from the state on record |
| Dedup.AlarmsPerEpisode | door_alarm_system/app_with_html_errors.py:224-229 | accepted alarms never outnumber the door closings seen, plus one unless an alarm is on record |
| Dedup.OneAlarmWithoutClosing | door_alarm_system/app_with_html_errors.py:224-229 | from start-up, with no closing, at most one alarm is logged |
| Dedup.AcceptedShape | door_alarm_system/app_with_html_errors.py:140-152 | the calls accepted from a run of monitor calls alternate door states and hold at most one alarm per closing, plus one unless an alarm is on record |
| Dedup.FilteredLog | door_alarm_system/app_with_html_errors.py:193-269 | the rows the filtered calls leave are the plain rows of the calls the filter accepts |
| Dedup.ResetsAreClosings | door_alarm_system/app_with_html_errors.py:140-152 | the monitor resets the alarm record once per closing it reports |
| Dedup.DedupLogWellFormed | door_alarm_system/app_with_html_errors.py:193-246 | the filtered log gains one row per accepted call, in order, with its type and description; door rows alternate; alarm rows are at most the closings reported plus one |
| Dedup.ReplayAppend | door_alarm_system/app_with_html_errors.py:193-269 | replaying two runs of steps in turn is replaying them together |
| Dedup.ReplayCall | door_alarm_system/app_with_html_errors.py:140-152 | one monitor call, with a closing's reset, replays as one `FilterCall` |
| Dedup.FilteredIsReplay | door_alarm_system/app_with_html_errors.py:193-269 | filtering calls one by one is the filter run over the monitor's steps, followed by logging the accepted calls |
| Dedup.FilterCall | door_alarm_system/app_with_html_errors.py:140-269 | one monitor call of app_with_html_errors.py: a closing's reset of the alarm record, then `log_event` with its filter; specified by `ReplayCall` and `FilteredIsReplay` |
| Dedup.Filtered | door_alarm_system/app_with_html_errors.py:193-269 | `FilterCall` for each call in turn; specified by `FilteredIsReplay` and `DedupLogWellFormed` |
| Dedup.FilteredAppend | door_alarm_system/app_with_html_errors.py:193-269 | filtering two runs of calls in turn is filtering them together |
| Dedup.FilteredSingle | door_alarm_system/app_with_html_errors.py:193-269 | filtering a single call is one `FilterCall` |
| Dedup.FilteredSnoc | door_alarm_system/app_with_html_errors.py:193-269 | one more call after a run is one `FilterCall` on what the run left |
| PlainApp.AlarmSystem.constructor | door_alarm_system/app.py:44-65 | flags idle, countdown length 30, monitor alive, `timer_duration` defaulted to `'30'` when missing, log as given, nothing broadcast or sent |
| PlainApp.AlarmSystem.LogEvent | door_alarm_system/app.py:152-190 | every call appends exactly one row and broadcasts exactly one payload built from the current flags, with no filtering |
| PlainApp.AlarmSystem.SendAlarmEmail | door_alarm_system/app.py:192-213 | the outbox gains the alert iff the gate is open, otherwise it is unchanged |
| PlainApp.AlarmSystem.PollDoor | door_alarm_system/app.py:76-112 | one monitor pass moves the flags as `AfterEdge` says, logs exactly `PollCalls`, keeps `Valid`, and reports quiet, closed, opened with the snapshot length, or crashed when `int()` fails |
| PlainApp.AlarmSystem.DoorJustOpened | door_alarm_system/app.py:86-101 | an opening arms the countdown and either logs `door_open` with the snapshot length or ends the monitor |
| PlainApp.AlarmSystem.CrashOnOpen | door_alarm_system/app.py:94-95 | a setting `int()` rejects leaves the flags set for the opening and the monitor dead |
| PlainApp.AlarmSystem.ArmOnOpen | door_alarm_system/app.py:86-97 | the opening stores the length and logs one `door_open` reporting the armed countdown |
| PlainApp.AlarmSystem.LogSingle | door_alarm_system/app.py:152-161 | one logged call keeps the ids consecutive |
| PlainApp.AlarmSystem.DoorJustClosed | door_alarm_system/app.py:102-111 | a closing clears all flags and logs one `door_close` |
| PlainApp.AlarmSystem.WatchDuringSleep | door_alarm_system/app.py:76-112 | the polls during one sleep move the flags as `Watch` says and log exactly `WatchCalls` |
| PlainApp.AlarmSystem.SleepHalf | door_alarm_system/app.py:125-130 | one half-second sleep handles that sleep's polls unless the monitor is already waiting |
| PlainApp.AlarmSystem.AlarmTimer | door_alarm_system/app.py:114-150 | the countdown leaves the flags at `TimerOutcome`, logs exactly `TimerCalls` (one alarm iff raised), sends the alert iff the alarm is on and the gate is open, and says whether the monitor waits for it |
| PlainApp.AlarmSystem.BlinkWhileOpen | door_alarm_system/app.py:119-130 | the blink loop ends in the state `Countdown` gives and logs exactly `CountdownCalls` |
| PlainApp.AlarmSystem.Blink | door_alarm_system/app.py:120-130 | one loop iteration (two half-second sleeps) keeps the loop invariant and stops only when disarmed |
| PlainApp.AlarmSystem.Tick | door_alarm_system/app.py:121-125 | one armed half-second keeps the loop invariant |
| PlainApp.AlarmSystem.ConcludeCountdown | door_alarm_system/app.py:132-150 | after the loop, the flags become `Expire` of them, the alarm is logged iff still armed, and the alert is sent iff the alarm is on and the gate is open |
| PlainApp.AlarmSystem.ExpireCountdown | door_alarm_system/app.py:132-146 | the decision after the loop and its log row |
| PlainApp.AlarmSystem.RaiseAlarm | door_alarm_system/app.py:133-141 | an armed countdown turns the alarm on, the countdown off, and logs one `alarm_triggered` |
| PlainApp.AlarmSystem.SendIfRaised | door_alarm_system/app.py:142 | the alert goes out iff the alarm is on and the gate is open |
| DedupApp.DedupAlarmSystem.constructor | door_alarm_system/app_with_html_errors.py:76-85 | as in app.py, plus the filter starting with the door state unknown, no alarm and no timestamps |
| DedupApp.DedupAlarmSystem.LogEvent | door_alarm_system/app_with_html_errors.py:193-269 | accepted iff `Admit` accepts; an accepted call updates the filter as `Admit` says and adds exactly one row and one payload; a dropped call changes nothing at all |
| DedupApp.DedupAlarmSystem.PassFilter | door_alarm_system/app_with_html_errors.py:198-232 | the filter's branches decide as `Admit` does and touch the filter state only on acceptance |
| DedupApp.DedupAlarmSystem.WriteRow | door_alarm_system/app_with_html_errors.py:234-269 | one row and one payload built from the current flags |
| DedupApp.DedupAlarmSystem.LogSubmit | door_alarm_system/app_with_html_errors.py:193-269 | a monitor call changes the filter, log and broadcasts exactly as `FilterCall` says, keeping the ids consecutive |
| DedupApp.DedupAlarmSystem.SendAlarmEmail | door_alarm_system/app_with_html_errors.py:271-292 | the outbox gains the alert iff the gate is open |
| DedupApp.DedupAlarmSystem.PollDoor | door_alarm_system/app_with_html_errors.py:114-153 | one monitor pass moves the flags as `AfterEdge` says, and its calls go through the filter as `Filtered` says |
| DedupApp.DedupAlarmSystem.DoorJustOpened | door_alarm_system/app_with_html_errors.py:124-139 | an opening arms the countdown and either submits `door_open` or ends the monitor |
| DedupApp.DedupAlarmSystem.CrashOnOpen | door_alarm_system/app_with_html_errors.py:131-133 | a setting `int()` rejects leaves the flags set for the opening and the monitor dead |
| DedupApp.DedupAlarmSystem.ArmOnOpen | door_alarm_system/app_with_html_errors.py:124-135 | the opening stores the length and submits one `door_open` |
| DedupApp.DedupAlarmSystem.DoorJustClosed | door_alarm_system/app_with_html_errors.py:140-152 | a closing clears all flags, resets the alarm record, and submits one `door_close` |
| DedupApp.DedupAlarmSystem.WatchDuringSleep | door_alarm_system/app_with_html_errors.py:114-153 | the polls during one sleep move the flags as `Watch` says, with their calls filtered |
| DedupApp.DedupAlarmSystem.SleepHalf | door_alarm_system/app_with_html_errors.py:166-171 | one half-second sleep handles its polls unless the monitor is already waiting |
| DedupApp.DedupAlarmSystem.AlarmTimer | door_alarm_system/app_with_html_errors.py:155-191 | the countdown leaves the flags at `TimerOutcome`, its calls go through the filter, and the alert is sent iff the alarm is on and the gate is open (even when the filter drops the alarm row) |
| DedupApp.DedupAlarmSystem.BlinkWhileOpen | door_alarm_system/app_with_html_errors.py:160-171 | the blink loop ends in the state `Countdown` gives, with `CountdownCalls` filtered |
| DedupApp.DedupAlarmSystem.Blink | door_alarm_system/app_with_html_errors.py:161-171 | one loop iteration keeps the loop invariant |
| DedupApp.DedupAlarmSystem.Tick | door_alarm_system/app_with_html_errors.py:162-166 | one armed half-second keeps the loop invariant |
| DedupApp.DedupAlarmSystem.ConcludeCountdown | door_alarm_system/app_with_html_errors.py:173-191 | after the loop, the flags become `Expire` of them, the alarm is submitted iff still armed, and the alert is sent iff the alarm is on |
| DedupApp.DedupAlarmSystem.ExpireCountdown | door_alarm_system/app_with_html_errors.py:173-187 | the decision after the loop and its submission |
| DedupApp.DedupAlarmSystem.RaiseAlarm | door_alarm_system/app_with_html_errors.py:174-182 | an armed countdown turns the alarm on and submits one `alarm_triggered` |
| DedupApp.DedupAlarmSystem.SendIfRaised | door_alarm_system/app_with_html_errors.py:183 | the alert goes out iff the alarm is on and the gate is open |

## Left out

- Flask routing, sessions, templates, `flash`, JSON responses and HTTP status codes are not modelled. Outcomes are datatype values (`CreateOutcome`, `DeleteOutcome`).
- The database is not modelled. The `EventLog` table is a sequence, `Setting` a map, `EmailConfig` an optional value and `User` a map from id. Commits, rollbacks and database errors are left out.
- SMTP, MIME composition, message text and mail error classification are not modelled. An accepted alert is appended to `outbox`.
- GPIO reads and LED outputs are not modelled. A sensor sample is a `Poll` given by the caller, and the LEDs have no state here.
- Socket.IO emission is not modelled, beyond appending the payload to `broadcasts`.
- The wall clock is not modelled. Timestamps are integers in milliseconds supplied by the caller. The IST time zone and `strftime` are not modelled. The 2.0-second float window is a 2000 ms integer window.
- Real threads are not modelled. `event_lock`, sleep overrun and the `time.time() - start_time < duration` clock test are replaced by a count of `2 * duration` half-second sleeps, each with the polls the monitor makes during it. The source's loop can exit earlier when sleeps overrun, which this does not capture. The model also runs the monitor's polls and the timer's post-loop check one after the other. That removes a race the threads allow. `alarm_timer` tests `timer_active and door_open` (app.py:133, app_with_html_errors.py:174) and only then sets `timer_active = False; alarm_active = True` (app.py:135-136, app_with_html_errors.py:176-177). If the monitor handles a closing in between (app.py:104-106, app_with_html_errors.py:142-152), three things happen. First, the flags end with the alarm on and the door closed, which breaks `Safe`. Second, the `alarm_triggered` row is logged after the `door_close` row. Third, in app_with_html_errors.py the closing's reset of `last_logged_alarm_state` is overwritten when the alarm row is accepted, so the next episode's alarm row is dropped. `Safe`, `AlarmLoggedIffRaised` and `AlarmsPerEpisode` hold only under the sequential schedule.
- `TESTING` mode and the debug prints are not modelled.
- Text.ParseInt: Python's `int()` also accepts underscores between digits and non-ASCII decimal digits. The model accepts only ASCII digits, so for those texts the modelled monitor dies where the source's would not. For every other text the model accepts exactly what `int()` accepts, skipping the same whitespace at both ends (U+001C..U+001F excepted, see `ParseIntRejectsSeparator`).
- Events.Latest: among rows with equal timestamps the database's choice is unspecified. The model takes the most recently inserted row, and `LatestIsNewest` states only what the query promises.
- The PUT branch of `manage_user`, the `admin_settings` form handling and the `log_event` calls of the user and settings handlers (`user_created`, `user_deleted`, `user_updated`, `settings_changed` at app.py:548, `setting_changed` from `/api/settings` at app.py:663 and app_with_html_errors.py:742) are not modelled. Only their effect on the door core matters, and the filter treats such types by the window alone (`Dedup.Admit`). The `/api/test-event` route (app.py:956-965, app_with_html_errors.py:1605-1614) is not modelled either. It passes any event type to `log_event`, including `door_close` and `alarm_triggered`, so in app_with_html_errors.py it can move the filter's door and alarm record outside the monitor. `Dedup.Run`, `Dedup.RunKeepsOrder` and `Dedup.Admit` hold for any submissions, such calls included. `DedupLogWellFormed` and the class contracts cover only the calls of the monitor and the countdown.
- Password hashing and login are not modelled. A user row keeps no password.
- A NULL `permissions` column is not modelled. Permissions are a string, empty when none.
- The monitor thread's death on an `int()` failure is modelled as `MonitorCrashed` and `monitorAlive == false`. Nothing after it is modelled.
- Report generation, analytics queries, the event-log page's pagination, config.py, models.py (beyond the fields used) and test_event.py are not part of this model.
- Unicode normalisation and case folding do not arise. Strings are sequences of characters, and `IsSpace` lists the characters Python's `str.strip()` removes.
