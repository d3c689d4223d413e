/**
 The timer record of zq/timer.py: the queue of student names, the individual
 countdown, the group count-up, the mode, the pause flag, and the once-per-second
 `tick` with its two alert points. Settings values arrive as parameters; the
 meeting-minutes setting, which the duration command rewrites, is a field.
 */
module Timer {
  import opened Wrappers
  import opened Text

  /** `Mode` (zq/timer.py:13-19). */
  datatype Mode = Group | Individual | Start | End

  /** The two alerts `tick` plays: `chime.warning()` and `chime.error()`. */
  datatype Cue = Warning | Urgent

  datatype State = State(
    queue: seq<string>,                  // student_names; the front is in session
    individualSeconds: nat,              // counts down
    previousSeconds: Option<nat>,        // previous_individual_seconds, set by rotation
    groupSeconds: nat,                   // counts up
    maxIndividualSeconds: nat,           // meeting minutes * 60 + transition seconds
    minEmptyWaitlistSeconds: nat,        // meeting minutes * 30, the single-student floor
    mode: Mode,
    pause: bool,
    meetingMinutes: nat,                 // settings["meeting minutes"]
    individualLabel: string              // mode_names[INDIVIDUAL]
  )

  /** What follows the minute count in the individual-mode label. */
  const IndividualSuffix: string := "-minute individual meetings"

  /** The label shown for individual mode with `minutes`-minute meetings: the count as `str` writes it, then the suffix. */
  function IndividualLabel(minutes: nat): (r: string)
    ensures |r| > |IndividualSuffix| && EndsWith(r, IndividualSuffix)
  {
    NatToString(minutes) + IndividualSuffix
  }

  /** The label's leading number is the canonical decimal of the minute count. */
  lemma IndividualLabelReadsBack(minutes: nat)
    ensures var r := IndividualLabel(minutes);
      Canonical(r[..|r| - |IndividualSuffix|]) && ParseDecimal(r[..|r| - |IndividualSuffix|]) == minutes
  {
    var digits := NatToString(minutes);
    ParseNatToString(minutes);
    assert (digits + IndividualSuffix)[..|digits|] == digits;
  }

  /** Different minute counts give different labels. */
  lemma IndividualLabelInjective(a: nat, b: nat)
    requires IndividualLabel(a) == IndividualLabel(b)
    ensures a == b
  {
    IndividualLabelReadsBack(a);
    IndividualLabelReadsBack(b);
  }

  /** `mode_names[current_mode.value]`: fixed names except individual mode, whose label tracks the meeting length. */
  function ModeName(s: State): (r: string)
    ensures s.mode == Group ==> r == "group meeting"
    ensures s.mode == Individual ==> r == s.individualLabel
    ensures s.mode == Individual && s.individualLabel == IndividualLabel(s.meetingMinutes)
            ==> ParseDecimal(r[..|r| - |IndividualSuffix|]) == s.meetingMinutes
    ensures s.mode == Start ==> r == "start"
    ensures s.mode == End ==> r == "end"
  {
    IndividualLabelReadsBack(s.meetingMinutes);
    match s.mode
    case Group => "group meeting"
    case Individual => s.individualLabel
    case Start => "start"
    case End => "end"
  }

  /** The derived timer settings agree with the meeting-minutes setting. */
  predicate Configured(s: State, transition: nat) {
    && s.maxIndividualSeconds == s.meetingMinutes * 60 + transition
    && s.minEmptyWaitlistSeconds == s.meetingMinutes * 30
    && s.individualLabel == IndividualLabel(s.meetingMinutes)
  }

  /** The class attributes of `Timer` (zq/timer.py:24-39) for the given settings. */
  function Initial(minutes: nat, transition: nat): (s: State)
    ensures s.meetingMinutes == minutes && Configured(s, transition)
    ensures s.queue == [] && s.pause && s.mode == Group && s.previousSeconds == None
    ensures s.individualSeconds == s.maxIndividualSeconds && s.groupSeconds == 0
  {
    State([], minutes * 60 + transition, None, 0, minutes * 60 + transition, minutes * 30,
          Group, true, minutes, IndividualLabel(minutes))
  }

  /** Whether the countdown may advance on this tick (the condition at zq/timer.py:82-90). */
  predicate CountingDown(s: State) {
    && |s.queue| > 0
    && s.individualSeconds != 0
    && !s.pause
    && ((s.mode == Individual && |s.queue| > 1) || s.individualSeconds > s.minEmptyWaitlistSeconds)
  }

  /** The alert due once the countdown shows `seconds`. */
  function CueAt(seconds: nat, transition: nat): (cues: seq<Cue>)
    ensures |cues| <= 1
    ensures Warning in cues <==> seconds == transition
    ensures Urgent in cues <==> seconds == 1 && seconds != transition
  {
    if seconds == transition then [Warning] else if seconds == 1 then [Urgent] else []
  }

  /** `tick`: one second passes; returns the new state and the alerts played. */
  function Tick(s: State, transition: nat): (r: (State, seq<Cue>))
    // only the two clocks move
    ensures r.0 == s.(individualSeconds := r.0.individualSeconds, groupSeconds := r.0.groupSeconds)
    // the countdown drops by exactly one or not at all
    ensures r.0.individualSeconds <= s.individualSeconds <= r.0.individualSeconds + 1
    ensures |s.queue| == 0 || s.pause || s.individualSeconds == 0
            ==> r.0.individualSeconds == s.individualSeconds
    // freeze at the floor unless individual mode has someone waiting
    ensures !(s.mode == Individual && |s.queue| >= 2) && s.individualSeconds <= s.minEmptyWaitlistSeconds
            ==> r.0.individualSeconds == s.individualSeconds
    ensures r.0.individualSeconds < s.individualSeconds
            ==> |s.queue| > 0 && !s.pause
                && ((s.mode == Individual && |s.queue| >= 2) || s.individualSeconds > s.minEmptyWaitlistSeconds)
    ensures |s.queue| > 0 && !s.pause && s.individualSeconds > 0
            && ((s.mode == Individual && |s.queue| >= 2) || s.individualSeconds > s.minEmptyWaitlistSeconds)
            ==> r.0.individualSeconds + 1 == s.individualSeconds
    // the group clock counts up exactly in group mode with a non-empty queue, paused or not
    ensures r.0.groupSeconds == s.groupSeconds + 1 <==> s.mode == Group && |s.queue| > 0
    ensures r.0.groupSeconds == s.groupSeconds <==> !(s.mode == Group && |s.queue| > 0)
    // alerts look at the countdown after the decrement, at most one per tick
    ensures |r.1| <= 1
    ensures Warning in r.1 <==> r.0.individualSeconds == transition
    ensures Urgent in r.1 <==> r.0.individualSeconds == 1 && transition != 1
  {
    var seconds := if CountingDown(s) then s.individualSeconds - 1 else s.individualSeconds;
    var group := if s.mode == Group && |s.queue| > 0 then s.groupSeconds + 1 else s.groupSeconds;
    (s.(individualSeconds := seconds, groupSeconds := group), CueAt(seconds, transition))
  }

  /** The state after `n` ticks. */
  function Run(s: State, transition: nat, n: nat): State
    decreases n
  {
    if n == 0 then s else Run(Tick(s, transition).0, transition, n - 1)
  }

  /** Ticking never changes the queue, the mode, the pause flag or the settings. */
  lemma {:induction false} RunKeepsSetup(s: State, transition: nat, n: nat)
    ensures var t := Run(s, transition, n);
      t == s.(individualSeconds := t.individualSeconds, groupSeconds := t.groupSeconds)
    ensures Run(s, transition, n).individualSeconds <= s.individualSeconds
    decreases n
  {
    if n > 0 {
      RunKeepsSetup(Tick(s, transition).0, transition, n - 1);
    }
  }

  /**
   The waitlist floor: unless individual mode has someone waiting, the countdown
   never passes below `minEmptyWaitlistSeconds`, however long it runs unpaused,
   and a countdown already at or below the floor stays exactly where it is.
   */
  lemma {:induction false} FreezeAtFloor(s: State, transition: nat, n: nat)
    requires !(s.mode == Individual && |s.queue| >= 2)
    ensures s.individualSeconds <= s.minEmptyWaitlistSeconds
            ==> Run(s, transition, n).individualSeconds == s.individualSeconds
    ensures s.individualSeconds > s.minEmptyWaitlistSeconds
            ==> Run(s, transition, n).individualSeconds >= s.minEmptyWaitlistSeconds
    decreases n
  {
    if n > 0 {
      FreezeAtFloor(Tick(s, transition).0, transition, n - 1);
    }
  }

  /** With a student waiting in individual mode and the timer running, each tick takes one second off, down to 0. */
  lemma {:induction false} CountdownToZero(s: State, transition: nat, n: nat)
    requires s.mode == Individual && |s.queue| >= 2 && !s.pause
    ensures n <= s.individualSeconds ==> Run(s, transition, n).individualSeconds == s.individualSeconds - n
    ensures n >= s.individualSeconds ==> Run(s, transition, n).individualSeconds == 0
    decreases n
  {
    if n > 0 {
      CountdownToZero(Tick(s, transition).0, transition, n - 1);
    }
  }

  /** While paused the countdown stands still. */
  lemma {:induction false} PausedCountdownStill(s: State, transition: nat, n: nat)
    requires s.pause
    ensures Run(s, transition, n).individualSeconds == s.individualSeconds
    decreases n
  {
    if n > 0 {
      PausedCountdownStill(Tick(s, transition).0, transition, n - 1);
    }
  }

  /** The group clock counts every tick in group mode with someone queued, whether or not the timer is paused. */
  lemma {:induction false} GroupClockCountsTicks(s: State, transition: nat, n: nat)
    requires s.mode == Group && |s.queue| > 0
    ensures Run(s, transition, n).groupSeconds == s.groupSeconds + n
    decreases n
  {
    if n > 0 {
      GroupClockCountsTicks(Tick(s, transition).0, transition, n - 1);
    }
  }

  /** Alerts are level-triggered: a countdown paused on the transition second warns on every tick. */
  lemma WarningRepeatsWhilePaused(s: State, transition: nat)
    requires s.pause && s.individualSeconds == transition
    ensures Tick(s, transition).1 == [Warning]
    ensures Tick(Tick(s, transition).0, transition).1 == [Warning]
  {
  }

  /** Ticking never disturbs the agreement between meeting length and the derived settings. */
  lemma RunKeepsConfigured(s: State, transition: nat, n: nat)
    requires Configured(s, transition)
    ensures Configured(Run(s, transition, n), transition)
    ensures Configured(Tick(s, transition).0, transition)
  {
    RunKeepsSetup(s, transition, n);
  }

  /** One stored row: a name and the shared wait time. */
  datatype Row = Row(name: string, seconds: nat)

  /**
   The rows `save_all_students` writes: the queue in order, every row carrying
   the same current countdown value.
   */
  function SaveRows(s: State): (rows: seq<Row>)
    ensures |rows| == |s.queue|
    ensures forall i :: 0 <= i < |rows| ==> rows[i].name == s.queue[i]
    ensures forall i :: 0 <= i < |rows| ==> rows[i].seconds == s.individualSeconds
  {
    seq(|s.queue|, i requires 0 <= i < |s.queue| => Row(s.queue[i], s.individualSeconds))
  }
}
