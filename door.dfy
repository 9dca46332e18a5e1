/**
  The three shared flags of the controller (`door_open`, `alarm_active`,
  `timer_active`) and the decisions that move them: the monitor's edge
  step and the alarm countdown. Both source files make exactly the same
  decisions here; the classes in PlainApp and DedupApp carry them out.

  The countdown runs in its own thread in the source. Here it is run
  sequentially: the monitor polls that happen during each half-second
  sleep of the countdown are given as a list, and are processed at that
  point of the countdown.
*/
module Door {

  datatype Flags = Flags(doorOpen: bool, alarmActive: bool, timerActive: bool)

  /** The invariant the flags keep when the monitor and the timer take turns
      (the schedule of this model): the alarm and the countdown are never on
      together, and either being on means the door is open. */
  predicate Safe(f: Flags) {
    && !(f.alarmActive && f.timerActive)
    && (f.alarmActive ==> f.doorOpen)
    && (f.timerActive ==> f.doorOpen)
  }

  /** The flags at start-up. */
  const Idle: Flags := Flags(false, false, false)

  datatype Edge = Rising | Falling | NoEdge

  /** What one sensor sample means against the recorded door state. */
  function EdgeOf(sampleOpen: bool, doorOpen: bool): (e: Edge)
    ensures e == Rising <==> sampleOpen && !doorOpen
    ensures e == Falling <==> !sampleOpen && doorOpen
    ensures e == NoEdge <==> sampleOpen == doorOpen
  {
    if sampleOpen && !doorOpen then Rising
    else if !sampleOpen && doorOpen then Falling
    else NoEdge
  }

  /** The flags after the monitor handles an edge: an opening arms the
      countdown and clears the alarm, a closing clears everything, and no
      edge changes nothing. Every result of an edge is safe. */
  function AfterEdge(f: Flags, e: Edge): (g: Flags)
    ensures e == Rising ==> g.doorOpen && g.timerActive && !g.alarmActive
    ensures e == Falling ==> g == Idle
    ensures e == NoEdge ==> g == f
    ensures e != NoEdge || Safe(f) ==> Safe(g)
  {
    match e
    case Rising => Flags(true, false, true)
    case Falling => Idle
    case NoEdge => f
  }

  /** The condition the countdown keeps checking: `timer_active and door_open`. */
  predicate Armed(f: Flags) {
    f.timerActive && f.doorOpen
  }

  /** The decision after the countdown loop: still armed means the alarm goes
      off; otherwise both flags are cleared. The countdown is over either way. */
  function Expire(f: Flags): (g: Flags)
    ensures !g.timerActive && g.doorOpen == f.doorOpen
    ensures g.alarmActive <==> Armed(f)
    ensures Safe(g)
  {
    if Armed(f) then Flags(f.doorOpen, true, false) else Flags(f.doorOpen, false, false)
  }

  /** One monitor poll: the sensor reading and the clock when it was taken. */
  datatype Poll = Poll(open: bool, at: int)

  /** The monitor handling the polls of one half-second sleep of a running
      countdown. An opening makes the monitor wait for the running countdown
      to finish (`timer_thread.join()`), so the polls after it are not
      handled; the second component says whether that happened. */
  function Watch(f: Flags, polls: seq<Poll>): (r: (Flags, bool))
    ensures Safe(f) ==> Safe(r.0)
    ensures !r.1 ==> r.0.doorOpen == f.doorOpen || !r.0.doorOpen
    decreases |polls|
  {
    if polls == [] then (f, false)
    else
      var e := EdgeOf(polls[0].open, f.doorOpen);
      var g := AfterEdge(f, e);
      if e == Rising then (g, true) else Watch(g, polls[1..])
  }

  /** Number of half-second sleeps a countdown of `duration` seconds takes
      when it is not interrupted. */
  function HalfTicks(duration: int): nat {
    if duration > 0 then 2 * duration else 0
  }

  /** The countdown loop from half-second `h` on: before each sleep it stops
      unless still armed; during sleep `h` the monitor handles `sleeps[h]`
      unless it is already waiting. Gives the flags at loop exit and whether
      the monitor is waiting for this countdown to finish. */
  function Countdown(f: Flags, waiting: bool, sleeps: seq<seq<Poll>>, h: nat, total: nat): (r: (Flags, bool))
    ensures Safe(f) ==> Safe(r.0)
    ensures waiting ==> r.1
    decreases total - h
  {
    if h >= total || !Armed(f) then (f, waiting)
    else
      var polls := if h < |sleeps| && !waiting then sleeps[h] else [];
      var w := Watch(f, polls);
      Countdown(w.0, waiting || w.1, sleeps, h + 1, total)
  }

  /** `alarm_timer(duration)` from the flags it starts with: the flags when
      the countdown thread ends. */
  function TimerOutcome(f: Flags, sleeps: seq<seq<Poll>>, duration: int): (g: Flags)
    ensures Safe(g) && !g.timerActive
  {
    Expire(Countdown(f, false, sleeps, 0, HalfTicks(duration)).0)
  }

  // ---------------------------------------------------------------------------
  // What the countdown decides
  // ---------------------------------------------------------------------------

  /** Every poll of these sleeps reads "open". */
  predicate StaysOpen(sleeps: seq<seq<Poll>>, from: nat, to: nat) {
    forall k, j :: from <= k < to && k < |sleeps| && 0 <= j < |sleeps[k]| ==> sleeps[k][j].open
  }

  /** With the door open, polls that all read "open" change nothing. */
  lemma {:induction false} WatchOpen(f: Flags, polls: seq<Poll>)
    requires f.doorOpen
    requires forall j :: 0 <= j < |polls| ==> polls[j].open
    ensures Watch(f, polls) == (f, false)
    decreases |polls|
  {
    if polls != [] {
      WatchOpen(f, polls[1..]);
    }
  }

  /** While every poll reads "open", an armed countdown just runs on. */
  lemma {:induction false} CountdownOpen(f: Flags, waiting: bool, sleeps: seq<seq<Poll>>, h: nat, to: nat, total: nat)
    requires Armed(f) && h <= to <= total
    requires StaysOpen(sleeps, h, to)
    ensures Countdown(f, waiting, sleeps, h, total) == Countdown(f, waiting, sleeps, to, total)
    decreases (to as int) - (h as int)
  {
    if h < to {
      var polls := if h < |sleeps| && !waiting then sleeps[h] else [];
      WatchOpen(f, polls);
      CountdownOpen(f, waiting, sleeps, h + 1, to, total);
    }
  }

  /** A door that stays open for the whole countdown raises the alarm:
      an armed countdown whose polls all read "open" ends with the alarm
      on (immediately when the duration is not positive). */
  lemma DoorLeftOpenRaisesAlarm(f: Flags, sleeps: seq<seq<Poll>>, duration: int)
    requires Armed(f)
    requires StaysOpen(sleeps, 0, HalfTicks(duration))
    ensures TimerOutcome(f, sleeps, duration).alarmActive
    ensures TimerOutcome(f, sleeps, duration).doorOpen
  {
    CountdownOpen(f, false, sleeps, 0, HalfTicks(duration), HalfTicks(duration));
  }

  /** With the door open, polls that read "open" and then only "closed"
      leave every flag cleared, and the monitor is not waiting. */
  lemma {:induction false} WatchCloses(f: Flags, opens: seq<Poll>, closes: seq<Poll>)
    requires f.doorOpen
    requires forall j :: 0 <= j < |opens| ==> opens[j].open
    requires closes != [] && forall j :: 0 <= j < |closes| ==> !closes[j].open
    ensures Watch(f, opens + closes) == (Idle, false)
    decreases |opens| + |closes|
  {
    if opens != [] {
      assert (opens + closes)[1..] == opens[1..] + closes;
      WatchCloses(f, opens[1..], closes);
    } else {
      assert opens + closes == closes;
      WatchClosed(Idle, closes[1..]);
    }
  }

  /** With the door closed, polls that read "closed" change nothing. */
  lemma {:induction false} WatchClosed(f: Flags, polls: seq<Poll>)
    requires !f.doorOpen
    requires forall j :: 0 <= j < |polls| ==> !polls[j].open
    ensures Watch(f, polls) == (f, false)
    decreases |polls|
  {
    if polls != [] {
      WatchClosed(f, polls[1..]);
    }
  }

  /** Closing the door cancels the countdown: if the door stays open up to
      some sleep of the countdown and during that sleep it is seen closed
      and not reopened, the countdown ends without the alarm. */
  lemma ClosingCancelsAlarm(f: Flags, sleeps: seq<seq<Poll>>, duration: int, h: nat,
                            opens: seq<Poll>, closes: seq<Poll>)
    requires Armed(f)
    requires h < HalfTicks(duration) && h < |sleeps|
    requires StaysOpen(sleeps, 0, h)
    requires sleeps[h] == opens + closes
    requires forall j :: 0 <= j < |opens| ==> opens[j].open
    requires closes != [] && forall j :: 0 <= j < |closes| ==> !closes[j].open
    ensures !TimerOutcome(f, sleeps, duration).alarmActive
    ensures TimerOutcome(f, sleeps, duration) == Idle
  {
    var total := HalfTicks(duration);
    CountdownOpen(f, false, sleeps, 0, h, total);
    WatchCloses(f, opens, closes);
    assert Countdown(f, false, sleeps, h, total) == Countdown(Idle, false, sleeps, h + 1, total);
  }

  /** With the door closed, polls that read "closed" and then an opening:
      the monitor arms a new countdown and waits for the running one. */
  lemma {:induction false} WatchReopens(g: Flags, closes: seq<Poll>, reopen: Poll, rest: seq<Poll>)
    requires !g.doorOpen && reopen.open
    requires forall j :: 0 <= j < |closes| ==> !closes[j].open
    ensures Watch(g, closes + [reopen] + rest) == (Flags(true, false, true), true)
    decreases |closes|
  {
    var polls := closes + [reopen] + rest;
    if closes == [] {
      assert polls[0] == reopen;
    } else {
      assert polls[0] == closes[0];
      assert polls[1..] == closes[1..] + [reopen] + rest;
      WatchReopens(g, closes[1..], reopen, rest);
    }
  }

  /** With the door open, polls that read "open", then a close, more
      "closed" polls and an opening: the monitor ends up waiting, with a new
      countdown armed. */
  lemma {:induction false} WatchCloseReopen(f: Flags, opens: seq<Poll>, close: Poll, closes: seq<Poll>,
                                            reopen: Poll, rest: seq<Poll>)
    requires f.doorOpen && !close.open && reopen.open
    requires forall j :: 0 <= j < |opens| ==> opens[j].open
    requires forall j :: 0 <= j < |closes| ==> !closes[j].open
    ensures Watch(f, opens + [close] + closes + [reopen] + rest) == (Flags(true, false, true), true)
    decreases |opens|
  {
    var polls := opens + [close] + closes + [reopen] + rest;
    if opens != [] {
      assert polls[0] == opens[0];
      assert polls[1..] == opens[1..] + [close] + closes + [reopen] + rest;
      WatchCloseReopen(f, opens[1..], close, closes, reopen, rest);
    } else {
      assert polls[0] == close;
      assert polls[1..] == closes + [reopen] + rest;
      WatchReopens(Idle, closes, reopen, rest);
    }
  }

  /** Once the monitor waits, an armed countdown hears no more polls and runs
      to its end. */
  lemma {:induction false} CountdownWaiting(f: Flags, sleeps: seq<seq<Poll>>, h: nat, total: nat)
    requires Armed(f)
    ensures Countdown(f, true, sleeps, h, total) == (f, true)
    decreases total - h
  {
    if h < total {
      CountdownWaiting(f, sleeps, h + 1, total);
    }
  }

  /** A close and a reopen inside one half-second sleep do not cancel the
      countdown that is running: whatever the duration and whichever sleep
      it happens in, the countdown raises the alarm for the new opening when
      its own time is up, and the monitor is then waiting to start the new
      countdown. That new countdown starts disarmed (the alarm already
      cleared `timer_active`), so it ends at once and clears `alarm_active`
      although the door is still open. */
  lemma ReopenWithinSleepKeepsCountdown(f: Flags, sleeps: seq<seq<Poll>>, duration: int, h: nat,
                                        opens: seq<Poll>, close: Poll, closes: seq<Poll>,
                                        reopen: Poll, rest: seq<Poll>)
    requires Armed(f)
    requires h < HalfTicks(duration) && h < |sleeps|
    requires StaysOpen(sleeps, 0, h)
    requires sleeps[h] == opens + [close] + closes + [reopen] + rest
    requires forall j :: 0 <= j < |opens| ==> opens[j].open
    requires !close.open && reopen.open
    requires forall j :: 0 <= j < |closes| ==> !closes[j].open
    ensures Countdown(f, false, sleeps, 0, HalfTicks(duration)).1
    ensures TimerOutcome(f, sleeps, duration) == Flags(true, true, false)
    ensures forall next: seq<seq<Poll>>, d: int ::
              TimerOutcome(Flags(true, true, false), next, d) == Flags(true, false, false)
  {
    var total := HalfTicks(duration);
    var armed := Flags(true, false, true);
    CountdownOpen(f, false, sleeps, 0, h, total);
    WatchCloseReopen(f, opens, close, closes, reopen, rest);
    assert Countdown(f, false, sleeps, h, total) == Countdown(armed, true, sleeps, h + 1, total);
    CountdownWaiting(armed, sleeps, h + 1, total);
  }
}
