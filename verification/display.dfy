/**
 What the timer widget shows (zq/timer.py:61-133): the START/END notices, the
 empty-queue placeholder, the group listing, and the individual listing with
 each waiting student's projected start time.
 */
module Display {
  import opened Wrappers
  import opened Text
  import opened Clock
  import opened Timer

  /** Names ending in this suffix are scheduled breaks, "<N>-minute break". */
  const BreakSuffix: string := "-minute break"

  /** How the waiting list reads a queue entry. */
  datatype Entry =
    | Student
    | Break(minutes: nat)
    | BadBreak  // ends in the break suffix but `int(...)` cannot read what precedes it

  /** Reads a name the way zq/timer.py:128-129 does: the suffix test, then the text before the suffix's first occurrence. */
  function Classify(name: string): (e: Entry)
    ensures e.Student? <==> !EndsWith(name, BreakSuffix)
    ensures e.Break? ==> IsDecimal(SplitHead(name, BreakSuffix))
                         && e.minutes == ParseDecimal(SplitHead(name, BreakSuffix))
    ensures e.BadBreak? ==> !IsDecimal(SplitHead(name, BreakSuffix))
  {
    if EndsWith(name, BreakSuffix) then
      var head := SplitHead(name, BreakSuffix);
      if IsDecimal(head) then Break(ParseDecimal(head)) else BadBreak
    else Student
  }

  /** A name written as "<N>-minute break" is read as an N-minute break. */
  lemma ClassifyBreakName(minutes: nat)
    ensures Classify(NatToString(minutes) + BreakSuffix) == Break(minutes)
  {
    var digits := NatToString(minutes);
    var name := digits + BreakSuffix;
    assert forall i :: 0 <= i < |digits| ==> digits[i] != BreakSuffix[0];
    SplitHeadOfSuffixed(digits, BreakSuffix);
    assert name[|name| - |BreakSuffix|..] == BreakSuffix;
    ParseNatToString(minutes);
  }

  /** Seconds from the start of one waiting entry to the start of the next. */
  function StepAfter(e: Entry, maxSeconds: nat): nat {
    match e
    case Break(minutes) => minutes * 60
    case _ => maxSeconds
  }

  /** No waiting name is a break whose length cannot be read. */
  predicate Projectable(waiting: seq<string>) {
    forall j :: 0 <= j < |waiting| ==> !Classify(waiting[j]).BadBreak?
  }

  /**
   Reference definition of the waiting projection: the first waiting student
   starts when the current countdown runs out, and each later one a full
   meeting after the previous one, or the break's own length after a break.
   */
  function WaitingOffsets(waiting: seq<string>, start: nat, maxSeconds: nat): (r: seq<nat>)
    ensures |r| == |waiting|
    ensures |r| > 0 ==> r[0] == start
    ensures forall i :: 0 < i < |r| ==> r[i] == r[i - 1] + StepAfter(Classify(waiting[i - 1]), maxSeconds)
    decreases |waiting|
  {
    if |waiting| == 0 then []
    else [start] + WaitingOffsets(waiting[1..], start + StepAfter(Classify(waiting[0]), maxSeconds), maxSeconds)
  }

  /**
   The loop of `get_timer_message` (zq/timer.py:120-132) with its
   `break_previously` flag: the full-meeting increment is added lazily before
   each later name and skipped after a break, whose own minutes were added
   right after it was listed. `None` where the source's `int(...)` raises.
   */
  method Projection(waiting: seq<string>, current: nat, maxSeconds: nat) returns (r: Option<seq<nat>>)
    ensures r.None? <==> !Projectable(waiting)
    ensures r.Some? ==> r.value == WaitingOffsets(waiting, current, maxSeconds)
  {
    ghost var spec := WaitingOffsets(waiting, current, maxSeconds);
    var offsets: seq<nat> := [];
    var next := current;
    var breakPreviously := false;
    var i := 0;
    while i < |waiting|
      invariant 0 <= i <= |waiting|
      invariant forall j :: 0 <= j < i ==> !Classify(waiting[j]).BadBreak?
      invariant offsets == spec[..i]
      invariant breakPreviously <==> i > 0 && Classify(waiting[i - 1]).Break?
      invariant i == 0 ==> next == current
      invariant i > 0 && breakPreviously ==> next == spec[i - 1] + StepAfter(Classify(waiting[i - 1]), maxSeconds)
      invariant i > 0 && !breakPreviously ==> next == spec[i - 1]
    {
      var entry := Classify(waiting[i]);
      if i > 0 && !breakPreviously {
        next := next + maxSeconds;
      }
      assert next == spec[i];
      offsets := offsets + [next];
      match entry {
        case Break(minutes) =>
          next := next + minutes * 60;
          breakPreviously := true;
        case BadBreak =>
          return None;
        case Student =>
          breakPreviously := false;
      }
      i := i + 1;
    }
    return Some(offsets);
  }

  /** One line of the waiting list: projected start and name. */
  datatype Waiting = Waiting(time: string, name: string)

  /** The message the widget renders, without markup. */
  datatype Screen =
    | Starting                                                 // settings["starting message"]
    | Ending                                                   // settings["ending message"]
    | NoStudents                                               // "(no students in queue)"
    | GroupMeeting(title: string, elapsed: string, names: seq<string>)
    | SoloMeeting(title: string, countdown: string, name: string)
    | Meeting(title: string, current: string, waiting: seq<Waiting>)

  /** What `render` produced: the state after it, the alerts it played, and the screen (`None` where it raises). */
  datatype Frame = Frame(state: State, cues: seq<Cue>, screen: Option<Screen>)

  /** The waiting list for queue entries `waiting` starting at the given offsets. */
  function WaitingLines(waiting: seq<string>, offsets: seq<nat>): (lines: seq<Waiting>)
    requires |offsets| == |waiting|
    ensures |lines| == |waiting|
    ensures forall i :: 0 <= i < |lines| ==> lines[i] == Waiting(FormatTime(offsets[i]), waiting[i])
  {
    seq(|waiting|, i requires 0 <= i < |waiting| => Waiting(FormatTime(offsets[i]), waiting[i]))
  }

  /** `render`: tick first, then pick the message by mode and queue. */
  function Render(s: State, transition: nat): (f: Frame)
    ensures f.cues == Tick(s, transition).1
    ensures s.mode == Start ==> f.screen == Some(Starting) && f.state == Tick(s, transition).0
    ensures s.mode == End ==> f.screen == Some(Ending) && f.state == Tick(s, transition).0
    ensures (s.mode == Group || s.mode == Individual) && |s.queue| == 0
            ==> f.screen == Some(NoStudents) && f.state == Tick(s, transition).0.(groupSeconds := 0)
    ensures |s.queue| > 0 ==> f.state == Tick(s, transition).0
    ensures s.mode == Group && |s.queue| > 0
            ==> f.screen == Some(GroupMeeting("group meeting", FormatTime(s.groupSeconds + 1), s.queue))
    ensures s.mode == Individual && |s.queue| == 1
            ==> f.screen == Some(SoloMeeting(s.individualLabel, FormatTime(Tick(s, transition).0.individualSeconds), s.queue[0]))
    ensures f.screen.None? <==> s.mode == Individual && |s.queue| >= 2 && !Projectable(s.queue[1..])
  {
    var t := Tick(s, transition).0;
    var cues := Tick(s, transition).1;
    if t.mode == Start then Frame(t, cues, Some(Starting))
    else if t.mode == End then Frame(t, cues, Some(Ending))
    else if |t.queue| == 0 then Frame(t.(groupSeconds := 0), cues, Some(NoStudents))
    else if t.mode == Group then
      Frame(t, cues, Some(GroupMeeting(ModeName(t), FormatTime(t.groupSeconds), t.queue)))
    else if |t.queue| == 1 then
      Frame(t, cues, Some(SoloMeeting(ModeName(t), FormatTime(t.individualSeconds), t.queue[0])))
    else if Projectable(t.queue[1..]) then
      var offsets := WaitingOffsets(t.queue[1..], t.individualSeconds, t.maxIndividualSeconds);
      Frame(t, cues, Some(Meeting(ModeName(t), t.queue[0], WaitingLines(t.queue[1..], offsets))))
    else Frame(t, cues, None)
  }

  /** The names a screen lists, in order. */
  function Shown(sc: Screen): seq<string> {
    match sc
    case GroupMeeting(_, _, names) => names
    case SoloMeeting(_, _, name) => [name]
    case Meeting(_, current, waiting) => [current] + seq(|waiting|, i requires 0 <= i < |waiting| => waiting[i].name)
    case _ => []
  }

  /** In group and individual mode every queued student is listed, once and in queue order. */
  lemma RenderListsQueue(s: State, transition: nat)
    requires s.mode == Group || s.mode == Individual
    requires Render(s, transition).screen.Some?
    ensures Shown(Render(s, transition).screen.value) == s.queue
  {
    var sc := Render(s, transition).screen.value;
    if s.mode == Individual && |s.queue| >= 2 {
      assert Shown(sc) == [s.queue[0]] + s.queue[1..];
    }
  }

  /** With nobody queued, group and individual mode report a group time of zero. */
  lemma RenderEmptyResetsGroupClock(s: State, transition: nat)
    requires (s.mode == Group || s.mode == Individual) && |s.queue| == 0
    ensures Render(s, transition).state.groupSeconds == 0
    ensures Render(s, transition).screen == Some(NoStudents)
  {
  }

  /**
   The individual listing's times are the projection of the countdown after
   this tick: the first waiting student at the countdown, later ones spaced by
   full meetings or break lengths.
   */
  lemma RenderWaitingTimes(s: State, transition: nat, i: nat)
    requires s.mode == Individual && |s.queue| >= 2 && Projectable(s.queue[1..])
    requires i < |s.queue| - 1
    ensures var t := Tick(s, transition).0;
      Render(s, transition).screen
      == Some(Meeting(t.individualLabel, s.queue[0],
                      WaitingLines(s.queue[1..], WaitingOffsets(s.queue[1..], t.individualSeconds, s.maxIndividualSeconds))))
    ensures Render(s, transition).screen.value.waiting[i].name == s.queue[i + 1]
  {
  }

  /** Bob waits for the 120 seconds left; Carol a full 1500-second meeting after him. */
  lemma WaitingOffsetsExample()
    ensures WaitingOffsets(["Bob", "Carol"], 120, 1500) == [120, 1620]
  {
    assert Classify("Bob") == Student;
  }

  /**
   The scenario of a paused individual queue Alice, Bob, Carol with 120
   seconds left of 1500: Bob is shown at "2:00" and Carol at "27:00".
   */
  lemma ProjectionExample(s: State, transition: nat)
    requires s.mode == Individual && s.pause && s.queue == ["Alice", "Bob", "Carol"]
    requires s.individualSeconds == 120 && s.maxIndividualSeconds == 1500
    ensures Render(s, transition).screen
            == Some(Meeting(s.individualLabel, "Alice", [Waiting("2:00", "Bob"), Waiting("27:00", "Carol")]))
  {
    var waiting := s.queue[1..];
    assert waiting == ["Bob", "Carol"];
    assert Classify("Bob") == Student;
    assert Classify("Carol") == Student;
    assert Projectable(waiting);
    RenderWaitingTimes(s, transition, 0);
    WaitingOffsetsExample();
    FormatTimeExamples();
    var lines := WaitingLines(waiting, [120, 1620]);
    assert lines == [Waiting("2:00", "Bob"), Waiting("27:00", "Carol")];
  }

  /** A break in the waiting list adds its own minutes instead of a full meeting. */
  lemma BreakProjectionExample()
    ensures WaitingOffsets(["Bob", "5-minute break", "Carol"], 120, 1500) == [120, 1620, 1920]
  {
    assert Classify("Bob") == Student;
    ClassifyBreakName(5);
    assert NatToString(5) + BreakSuffix == "5-minute break";
  }
}
