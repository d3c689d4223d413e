# zq office-hours queue: a Dafny model

zq is a terminal "office hours" queue. Students' names wait in a queue; the one
at the front is in a timed one-on-one meeting. A countdown tracks the current
meeting, and a count-up clock tracks group meetings. An alert sounds near the
end of each meeting. Keys rotate to the next student, undo that rotation, add
and remove students, adjust the clock, and switch between group, individual,
"starting soon" and "ending soon" modes.

This project models that state machine as pure Dafny functions over one
immutable record, and proves the properties the program relies on.

- `Wrappers` holds `Option`.
- `Text` covers ASCII decimal strings. `ParseDecimal` is Python's `int` on
  digits and `NatToString` is `str(n)`; each is proved to invert the other.
  It also has `EndsWith` and the head of `str.split`.
- `Clock` is `format_time`, with a parser proved to read every display back.
- `Timer` (zq/timer.py) defines the `State` record, the initial values, and
  `Tick`, which returns the new state and the alerts (`Cue`) it plays.
  Multi-tick lemmas over `Run` cover the freeze at the waitlist floor, the
  countdown, pause, and the group clock. `SaveRows` gives the stored rows.
- `Display` (zq/timer.py) reads break entries ("N-minute break"). It defines
  the waiting-time projection twice: `WaitingOffsets` is the reference, and
  `Projection` is the source's loop with its `break_previously` flag. The two
  are proved equal. `Render` returns a structured `Screen` in place of markup.
- `Commands` (src/zq/main.py) holds the key handlers and the dispatcher
  `OnKey` with its guards. It also holds `Load`, and lemmas that relate
  several commands: rotate then undo, double undo, add then remove, and the
  save/load round trip.

Settings become parameters. The transition seconds are an argument. The
meeting-minutes setting is rewritten by the duration command
(src/zq/main.py:73), so it is the field `meetingMinutes`. `Configured` states
that the derived fields agree with it, and every key and tick preserves that.

Four facts about the code's behaviour are proved as lemmas:

- Alerts are level-triggered. A countdown that is paused or frozen on the
  transition second warns on every tick
  (`Timer.WarningRepeatsWhilePaused`).
- The pause flag stops only the countdown. The group clock keeps counting
  while paused (`Timer.GroupClockCountsTicks`).
- Two undos in a row trade the countdowns back. They do not restore the
  queue: a second student moves from the back to the front
  (`Commands.PreviousTwice`).
- The undo key is guarded only by a saved countdown.
  Adding two students, rotating and removing both reaches a state where the
  source's undo raises at src/zq/main.py:187
  (`Commands.UndoOnEmptyQueueReachable`). `PreviousMeeting` therefore requires
  a non-empty queue, and `OnKey` requires it for that key.

## Model

| member | source | states |
|---|---|---|
| Clock.TwoDigits | zq/timer.py:10 | the seconds field is exactly two decimal digits whose value is the number |
| Clock.FormatTimeRoundTrip | zq/timer.py:9-10 | every displayed time reads back as the seconds it came from |
| Clock.FormatTimeInjective | zq/timer.py:9-10 | two different second counts never display the same |
| Clock.FormatTime | zq/timer.py:9-10 | a display is the whole minutes as canonical digits, a colon, then exactly two digits holding the seconds within the minute |
| Clock.FormatTime1620 | zq/timer.py:9-10 | 1620 seconds display as "27:00" |
| Clock.FormatTime65 | zq/timer.py:9-10 | 65 seconds display as "1:05", the seconds padded to two digits |
| Clock.FormatTime120 | zq/timer.py:9-10 | 120 seconds display as "2:00" |
| Clock.FormatTimeExamples | zq/timer.py:9-10 | 1620 displays as "27:00", 65 as "1:05", 120 as "2:00" |
| Timer.IndividualLabel | zq/timer.py:32 | the individual-mode name is the meeting minutes followed by "-minute individual meetings" |
| Timer.IndividualLabelReadsBack | src/zq/main.py:78-80 | the number in front of the suffix is canonical and reads back as the meeting minutes |
| Timer.IndividualLabelInjective | src/zq/main.py:78-80 | different meeting lengths give different labels |
| Timer.ModeName | zq/timer.py:102 | group mode shows "group meeting", individual mode the current label, START "start" and END "end"; when the label matches the meeting minutes, its number reads back as those minutes |
| Timer.Initial | zq/timer.py:24-39 | the start-up record for the given meeting minutes: those minutes recorded, empty queue, paused, group mode, no saved countdown, a full meeting on the clock, derived settings consistent |
| Timer.CueAt | zq/timer.py:94-97 | warning exactly at the transition second, urgent exactly at 1 when that is not the transition second, never both |
| Timer.Tick | zq/timer.py:80-97 | only the two clocks move; the countdown drops by at most one, never from 0, while paused or with an empty queue, and never at or below the floor unless individual mode has someone waiting; the group clock gains one exactly in group mode with a non-empty queue; alerts read the post-decrement value |
| Timer.RunKeepsSetup | zq/timer.py:80-97 | any number of ticks leaves queue, mode, pause and settings alone and never raises the countdown |
| Timer.FreezeAtFloor | zq/timer.py:82-91 | without a waiting student in individual mode the countdown never goes below the waitlist floor, and stays put once at or below it |
| Timer.CountdownToZero | zq/timer.py:82-91 | unpaused individual mode with someone waiting loses one second per tick down to exactly 0 |
| Timer.PausedCountdownStill | zq/timer.py:82-91 | while paused the countdown does not move |
| Timer.GroupClockCountsTicks | zq/timer.py:92-93 | in group mode with a queue the group clock counts every tick, paused or not |
| Timer.WarningRepeatsWhilePaused | zq/timer.py:94-95 | a countdown paused on the transition second warns on consecutive ticks |
| Timer.RunKeepsConfigured | zq/timer.py:80-97 | ticking any number of times keeps the derived settings consistent with the meeting length |
| Timer.SaveRows | zq/timer.py:45-59 | one row per queued name in queue order, each carrying the same current countdown |
| Display.Classify | zq/timer.py:128-129 | a name is a break exactly when it ends in "-minute break"; its length is the number before the first occurrence of that suffix; an unreadable number is flagged |
| Display.ClassifyBreakName | zq/timer.py:128-129 | "N-minute break" is read as an N-minute break for every N |
| Display.WaitingOffsets | zq/timer.py:119-132 | the first waiting student starts at the countdown; each next one a full meeting later, or the break's minutes times 60 after a break |
| Display.Projection | zq/timer.py:119-132 | the source's lazy-increment loop with its break flag yields exactly the reference offsets, and fails exactly when a break length cannot be read |
| Display.WaitingLines | zq/timer.py:125-127 | each waiting line pairs a name with its formatted projected start |
| Display.Render | zq/timer.py:61-117 | ticks first; START and END show their notice whatever the queue; an empty queue in group or individual mode zeroes the group clock and shows the placeholder; group mode lists every name under the elapsed group time (already advanced by this tick); a single student in individual mode is shown with the countdown; only an unreadable break fails |
| Display.RenderListsQueue | zq/timer.py:104-117 | in group and individual mode the screen lists every queued name once, in queue order |
| Display.RenderEmptyResetsGroupClock | zq/timer.py:72-76 | with nobody queued in group or individual mode the group time is reported as zero |
| Display.RenderWaitingTimes | zq/timer.py:109-127 | individual mode with someone waiting shows the front name and each waiting name at its projected start after this tick |
| Display.WaitingOffsetsExample | zq/timer.py:119-127 | Bob waits 120 seconds and Carol 1620 for 120 seconds left of a 1500-second meeting |
| Display.ProjectionExample | zq/timer.py:119-127 | paused Alice, Bob, Carol with 120 of 1500 seconds left shows Bob at "2:00" and Carol at "27:00" |
| Display.BreakProjectionExample | zq/timer.py:123-130 | after a 5-minute break the next student starts 300 seconds later, not a full meeting later |
| Commands.AddStudent | src/zq/main.py:58-66 | an empty name changes nothing; otherwise one entry goes to the back, earlier entries unchanged, with " II" appended exactly when the name is already queued; the pause flag clears exactly when the queue becomes one long |
| Commands.MinutesOf | src/zq/main.py:71 | a duration entry is accepted exactly when it is all decimal digits with a positive value |
| Commands.SetMeetingMinutes | src/zq/main.py:68-81 | an accepted entry m sets a meeting of m*60 plus transition seconds, a floor of m*30 and the "m-minute individual meetings" label; anything else changes nothing; queue and clocks are untouched |
| Commands.FrontToBack | src/zq/main.py:172 | the front entry moves to the back and the others move up one place, a permutation |
| Commands.BackToFront | src/zq/main.py:186-188 | the back entry moves to the front and the others move down one place, a permutation |
| Commands.BackToFrontUndoesFrontToBack | src/zq/main.py:172-188 | moving front-to-back and then back-to-front restores the order |
| Commands.BackToFrontTwice | src/zq/main.py:186-188 | two back-to-front moves bring the last two entries to the front |
| Commands.NextStudent | src/zq/main.py:171-178 | rotates the queue, saves the current countdown and starts a full meeting |
| Commands.PreviousMeeting | src/zq/main.py:180-188 | trades current and saved countdowns and moves the back student to the front |
| Commands.RemoveLastStudent | src/zq/main.py:190-196 | an empty queue is left alone; otherwise only the back name goes; a sole remaining student gets a full meeting, otherwise the countdown is kept |
| Commands.AddSeconds | src/zq/main.py:122-133 | adds exactly the amount, nothing else changes |
| Commands.SubtractSeconds | src/zq/main.py:125-139 | takes off the amount when there is that much, else sets 0; never increases, never negative |
| Commands.ResetTimer | src/zq/main.py:140-145 | a full meeting on the clock and paused, nothing else changes |
| Commands.ResetHoldsFullMeeting | src/zq/main.py:140-145 | after a reset the full meeting stays on the clock however many ticks pass |
| Commands.TogglePause | src/zq/main.py:119-121 | flips the pause flag only |
| Commands.ToggleMode | src/zq/main.py:107-112 | group becomes individual with the group clock kept; any other mode becomes group with the group clock zeroed |
| Commands.Shuffle | src/zq/main.py:105-106 | the queue becomes the supplied permutation of itself |
| Commands.OnQueueKey | src/zq/main.py:93-106 | add, "n", "z", "!" and "$" run their handlers; "n" with at most one student and "z" without a saved countdown do nothing; settings are untouched |
| Commands.OnClockKey | src/zq/main.py:119-145 | "k"/space, "j", "l", up, down and "r" run pause, plus or minus 5 or 30 seconds and reset; the queue and settings are untouched |
| Commands.OnKey | src/zq/main.py:83-151 | every key runs its own handler; "n" with at most one student and "z" without a saved countdown do nothing; home/end set START/END only; unknown keys do nothing; keys other than add and remove keep the same students; every key preserves the derived-settings agreement |
| Commands.Load | src/zq/main.py:47-56 | the stored names become the queue in order; the countdown comes from the first row, kept when there are none |
| Commands.NextThenPrevious | src/zq/main.py:96-102 | with two or more students, next then undo restores queue order and countdown |
| Commands.PreviousTwice | src/zq/main.py:180-188 | a double undo restores both countdowns but moves the last two students to the front |
| Commands.PreviousTwiceExample | src/zq/main.py:180-188 | Ann, Ben, Cal becomes Ben, Cal, Ann after two undos, not the starting order |
| Commands.UndoOnEmptyQueueReachable | src/zq/main.py:98-104 | from start-up, add two, next, remove twice leaves a saved countdown with an empty queue |
| Commands.DuplicateNames | src/zq/main.py:61-64 | Alice twice gives Alice, Alice II; a third Alice is again Alice II |
| Commands.AddStartsTimerOnlyWhenEmpty | src/zq/main.py:64-66 | the first student unpauses the timer; later ones leave the flag alone |
| Commands.RemoveUndoesAdd | src/zq/main.py:58-66 | removing the last student undoes adding one, for the queue |
| Commands.RemoveLastOfTwo | src/zq/main.py:190-196 | removing from two students leaves the front one with a full meeting |
| Commands.MinutesFromNumber | src/zq/main.py:71-80 | typing any positive m sets m*60 plus transition seconds, the m*30 floor and the m-minute label |
| Commands.MinutesInputRejected | src/zq/main.py:71 | empty, "0", "-5" and "abc" change nothing |
| Commands.SevenWithZeros | src/zq/main.py:71 | "007" is all digits and reads as 7 |
| Commands.MinutesInputLeadingZeros | src/zq/main.py:71-80 | "007" sets a 7-minute meeting whose label starts with "7", not "007" |
| Commands.MinutesIdempotent | src/zq/main.py:71-80 | entering the same duration twice equals entering it once |
| Commands.SubtractUndoesAdd | src/zq/main.py:122-139 | subtracting what was just added restores the state |
| Commands.SubtractClampExample | src/zq/main.py:125-130 | 3 seconds minus 5 is 0 |
| Commands.ToggleModeTwice | src/zq/main.py:107-112 | "m" twice returns group or individual mode to itself with the group clock cleared, and takes START/END to individual |
| Commands.TogglePauseTwice | src/zq/main.py:119-121 | pausing twice changes nothing |
| Commands.SaveLoadRoundTrip | src/zq/main.py:47-56 | loading the rows saved from a non-empty queue restores the names in order and the countdown |
| Commands.SaveLoadEmpty | src/zq/main.py:47-56 | loading the rows of an empty queue empties the queue and keeps the start-up countdown |

## Left out

- Terminal presentation is left out: the Textual app and widgets, Rich alignment and markup, blank lines, help text and its toggle. Opening the settings file in a browser is left out too. `Render` returns a structured `Screen` instead.
- Persistence is left out: the sqlite connection, table creation, and the fallback when the table is missing. Only the abstract row sequence is modelled. `Load` assumes rows come back in the order they were written, since the source's SELECT has no ORDER BY.
- Audio is left out: `chime` calls become returned `Cue` values.
- Scheduling is left out: `set_interval`, the async `on_mount`/`on_key`, and the periodic save. `Tick` and `Render` are step functions.
- The line editor is left out. A typed name or minute count arrives already completed, and opening a field ("a", "d") or saving ("s") does not change the timer state.
- Settings file handling and `save_settings` are left out. Settings values are parameters.
- `random.shuffle` is left out: the shuffled order is supplied by the caller, and must be a permutation of the queue.
- Floats are left out: `minutes / 2 * 60` is a float in the source and is the exact integer m*30 here.
- Display.Classify: Python's `int` also accepts surrounding whitespace, a sign, underscores and non-ASCII digits before "-minute break". Only plain ASCII digits are read here; any other prefix is flagged as unreadable, as an unparsable prefix is in the source.
- Commands.MinutesOf: `str.isdigit` also accepts non-ASCII digits. Only ASCII digits are accepted here.
- Stored seconds are natural numbers: the database column would also admit negative integers.
- Commands.PreviousMeeting and Commands.OnKey: these require a non-empty queue for undo, because the source raises there.
