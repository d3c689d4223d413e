/**
 The command handlers of src/zq/main.py: adding a name, changing the meeting
 length, rotating to the next student and undoing it, removing the last
 student, the manual time adjustments, reset, pause and mode changes, the key
 dispatcher that guards them, and reading the saved rows back.
 */
module Commands {
  import opened Wrappers
  import opened Text
  import opened Timer

  /** The suffix that tells a repeated name apart. */
  const DuplicateSuffix: string := " II"

  /**
   `get_name_input` once a name has been typed: an empty name is ignored; a
   name already queued gets " II" appended (once, without cascading); the entry
   goes to the back, and adding the only student unpauses the timer.
   */
  function AddStudent(s: State, name: string): (r: State)
    ensures name == [] ==> r == s
    ensures name != [] ==> r == s.(queue := r.queue, pause := r.pause)
    ensures name != [] ==> |r.queue| == |s.queue| + 1 && r.queue[..|s.queue|] == s.queue
    ensures name != [] && name in s.queue ==> r.queue[|s.queue|] == name + DuplicateSuffix
    ensures name != [] && name !in s.queue ==> r.queue[|s.queue|] == name
    ensures name != [] ==> (r.pause <==> s.pause && |r.queue| != 1)
  {
    if name == [] then s
    else
      var entry := if name in s.queue then name + DuplicateSuffix else name;
      var queue := s.queue + [entry];
      s.(queue := queue, pause := if |queue| == 1 then false else s.pause)
  }

  /** The minute count a duration entry sets, or `None` when it is ignored. */
  function MinutesOf(text: string): (m: Option<nat>)
    ensures m.Some? <==> IsDecimal(text) && ParseDecimal(text) > 0
    ensures m.Some? ==> m.value > 0 && m.value == ParseDecimal(text)
  {
    if IsDecimal(text) && ParseDecimal(text) > 0 then Some(ParseDecimal(text)) else None
  }

  /**
   `get_minutes_input` once a value has been typed: a positive whole number of
   minutes m sets the meeting length to m*60 plus the transition seconds, the
   single-student floor to half the meeting, and the individual-mode label;
   anything else changes nothing.
   */
  function SetMeetingMinutes(s: State, text: string, transition: nat): (r: State)
    ensures MinutesOf(text).None? ==> r == s
    ensures MinutesOf(text).Some? ==>
      var m := ParseDecimal(text);
      && r.maxIndividualSeconds == m * 60 + transition
      && r.minEmptyWaitlistSeconds == m * 30
      && r.individualLabel == NatToString(m) + "-minute individual meetings"
      && r.meetingMinutes == m
      && Configured(r, transition)
    ensures r.queue == s.queue && r.individualSeconds == s.individualSeconds && r.groupSeconds == s.groupSeconds
    ensures r.previousSeconds == s.previousSeconds && r.mode == s.mode && r.pause == s.pause
  {
    match MinutesOf(text)
    case None => s
    case Some(m) =>
      s.(meetingMinutes := m, maxIndividualSeconds := m * 60 + transition,
         minEmptyWaitlistSeconds := m * 30, individualLabel := IndividualLabel(m))
  }

  /** `names.append(names.pop(0))`: the front entry moves to the back, the rest move up one place. */
  function FrontToBack(q: seq<string>): (r: seq<string>)
    requires |q| > 0
    ensures |r| == |q| && multiset(r) == multiset(q)
    ensures forall i :: 0 <= i < |q| - 1 ==> r[i] == q[i + 1]
    ensures r[|q| - 1] == q[0]
  {
    assert q == [q[0]] + q[1..];
    q[1..] + [q[0]]
  }

  /** `names.insert(0, names.pop())`: the back entry moves to the front, the rest move down one place. */
  function BackToFront(q: seq<string>): (r: seq<string>)
    requires |q| > 0
    ensures |r| == |q| && multiset(r) == multiset(q)
    ensures r[0] == q[|q| - 1]
    ensures forall i :: 0 <= i < |q| - 1 ==> r[i + 1] == q[i]
  {
    assert q == q[..|q| - 1] + [q[|q| - 1]];
    [q[|q| - 1]] + q[..|q| - 1]
  }

  /** Moving the front to the back and then the back to the front restores the order. */
  lemma BackToFrontUndoesFrontToBack(q: seq<string>)
    requires |q| > 0
    ensures BackToFront(FrontToBack(q)) == q
  {
    var r := BackToFront(FrontToBack(q));
    assert forall i :: 0 <= i < |q| ==> r[i] == q[i] by {
      forall i | 0 <= i < |q|
        ensures r[i] == q[i]
      {
        if i > 0 {
          assert r[i] == FrontToBack(q)[i - 1];
        }
      }
    }
  }

  /** Moving the back to the front twice brings the last two entries, in order, to the front. */
  lemma BackToFrontTwice(q: seq<string>)
    requires |q| >= 2
    ensures BackToFront(BackToFront(q)) == q[|q| - 2..] + q[..|q| - 2]
  {
    var n := |q|;
    var r := BackToFront(BackToFront(q));
    var e := q[n - 2..] + q[..n - 2];
    assert forall i :: 0 <= i < n ==> r[i] == e[i] by {
      forall i | 0 <= i < n
        ensures r[i] == e[i]
      {
        if i >= 2 {
          assert r[i] == BackToFront(q)[i - 1] == q[i - 2];
        } else if i == 1 {
          assert r[1] == BackToFront(q)[0];
        }
      }
    }
  }

  /** `go_to_next_student`: the front student goes to the back and the next one starts a full meeting. */
  function NextStudent(s: State): (r: State)
    requires |s.queue| > 0
    ensures r.queue == FrontToBack(s.queue)
    ensures r.previousSeconds == Some(s.individualSeconds)
    ensures r.individualSeconds == s.maxIndividualSeconds
    ensures r == s.(queue := r.queue, previousSeconds := r.previousSeconds, individualSeconds := r.individualSeconds)
  {
    s.(queue := FrontToBack(s.queue),
       previousSeconds := Some(s.individualSeconds),
       individualSeconds := s.maxIndividualSeconds)
  }

  /**
   `return_to_previous_meeting`: the current and saved countdowns trade places
   and the back student returns to the front. The source pops from the queue
   unconditionally, so it needs a non-empty queue as well as a saved value.
   */
  function PreviousMeeting(s: State): (r: State)
    requires s.previousSeconds.Some? && |s.queue| > 0
    ensures r.queue == BackToFront(s.queue)
    ensures r.individualSeconds == s.previousSeconds.value
    ensures r.previousSeconds == Some(s.individualSeconds)
    ensures r == s.(queue := r.queue, previousSeconds := r.previousSeconds, individualSeconds := r.individualSeconds)
  {
    s.(queue := BackToFront(s.queue),
       previousSeconds := Some(s.individualSeconds),
       individualSeconds := s.previousSeconds.value)
  }

  /** `remove_last_student`: drop the back name, if any; a sole remaining student starts a full meeting. */
  function RemoveLastStudent(s: State): (r: State)
    ensures |s.queue| == 0 ==> r == s
    ensures |s.queue| > 0 ==> r.queue == s.queue[..|s.queue| - 1]
    ensures |r.queue| == 1 ==> r.individualSeconds == s.maxIndividualSeconds
    ensures |r.queue| != 1 ==> r.individualSeconds == s.individualSeconds
    ensures r == s.(queue := r.queue, individualSeconds := r.individualSeconds)
  {
    var queue := if |s.queue| > 0 then s.queue[..|s.queue| - 1] else s.queue;
    s.(queue := queue, individualSeconds := if |queue| == 1 then s.maxIndividualSeconds else s.individualSeconds)
  }

  /** The "j" and "up" keys: add `amount` seconds to the current meeting. */
  function AddSeconds(s: State, amount: nat): (r: State)
    ensures r.individualSeconds == s.individualSeconds + amount
    ensures r == s.(individualSeconds := r.individualSeconds)
  {
    s.(individualSeconds := s.individualSeconds + amount)
  }

  /** The "l" and "down" keys: take off up to `amount` seconds, stopping at 0. */
  function SubtractSeconds(s: State, amount: nat): (r: State)
    ensures r.individualSeconds <= s.individualSeconds
    ensures s.individualSeconds >= amount ==> r.individualSeconds + amount == s.individualSeconds
    ensures s.individualSeconds < amount ==> r.individualSeconds == 0
    ensures r == s.(individualSeconds := r.individualSeconds)
  {
    s.(individualSeconds := if s.individualSeconds >= amount then s.individualSeconds - amount else 0)
  }

  /** The "r" key: a full meeting on the clock, paused. */
  function ResetTimer(s: State): (r: State)
    ensures r.individualSeconds == s.maxIndividualSeconds && r.pause
    ensures r == s.(individualSeconds := r.individualSeconds, pause := r.pause)
  {
    s.(individualSeconds := s.maxIndividualSeconds, pause := true)
  }

  /** The "k" and space keys. */
  function TogglePause(s: State): (r: State)
    ensures r.pause != s.pause
    ensures r == s.(pause := r.pause)
  {
    s.(pause := !s.pause)
  }

  /** The "m" key: group becomes individual; anything else becomes group with the group clock at zero. */
  function ToggleMode(s: State): (r: State)
    ensures s.mode == Group ==> r == s.(mode := Individual)
    ensures s.mode != Group ==> r == s.(mode := Group, groupSeconds := 0)
  {
    if s.mode == Group then s.(mode := Individual) else s.(mode := Group, groupSeconds := 0)
  }

  /** The "$" key, with the order `random.shuffle` happened to produce supplied by the caller. */
  function Shuffle(s: State, order: seq<string>): (r: State)
    requires multiset(order) == multiset(s.queue)
    ensures multiset(r.queue) == multiset(s.queue) && |r.queue| == |s.queue|
    ensures r == s.(queue := order)
  {
    assert |order| == |multiset(order)|;
    s.(queue := order)
  }

  /** A key press as the dispatcher sees it; typed names and minutes arrive already completed. */
  datatype Key =
    | NameEntered(name: string)       // "a", then the name field
    | MinutesEntered(text: string)    // "d", then the minutes field
    | Next                            // "n"
    | Undo                            // "z"
    | RemoveLast                      // "!"
    | Randomize(order: seq<string>)   // "$"
    | SwitchMode                      // "m"
    | Home                            // "home"
    | EndKey                          // "end"
    | Pause                           // "k" or space
    | PlusFive                        // "j"
    | MinusFive                       // "l"
    | PlusThirty                      // "up"
    | MinusThirty                     // "down"
    | Reset                           // "r"
    | Other                           // "h", "o", "s" and unbound keys: no change to the timer state

  /** What a key needs from the state for the source not to raise. */
  predicate KeyAllowed(s: State, key: Key) {
    && (key.Undo? && s.previousSeconds.Some? ==> |s.queue| > 0)
    && (key.Randomize? ==> multiset(key.order) == multiset(s.queue))
  }

  /** The meeting length and everything derived from it are untouched. */
  predicate SameSettings(s: State, r: State) {
    && r.meetingMinutes == s.meetingMinutes
    && r.maxIndividualSeconds == s.maxIndividualSeconds
    && r.minEmptyWaitlistSeconds == s.minEmptyWaitlistSeconds
    && r.individualLabel == s.individualLabel
  }

  /** The keys that edit the queue: a typed name, "n", "z", "!" and "$". */
  predicate QueueKey(key: Key) {
    key.NameEntered? || key.Next? || key.Undo? || key.RemoveLast? || key.Randomize?
  }

  /** The keys that only touch the countdown or the pause flag: "k", "j", "l", "up", "down" and "r". */
  predicate ClockKey(key: Key) {
    key.Pause? || key.PlusFive? || key.MinusFive? || key.PlusThirty? || key.MinusThirty? || key.Reset?
  }

  /** The queue branches of `on_key`, with the guards on "n" (src/zq/main.py:96) and "z" (src/zq/main.py:98-101). */
  function OnQueueKey(s: State, key: Key): (r: State)
    requires QueueKey(key) && KeyAllowed(s, key)
    ensures key.NameEntered? ==> r == AddStudent(s, key.name)
    ensures key.Next? && |s.queue| > 1 ==> r == NextStudent(s)
    ensures key.Next? && |s.queue| <= 1 ==> r == s
    ensures key.Undo? && s.previousSeconds.Some? ==> r == PreviousMeeting(s)
    ensures key.Undo? && s.previousSeconds.None? ==> r == s
    ensures key.RemoveLast? ==> r == RemoveLastStudent(s)
    ensures key.Randomize? ==> r == Shuffle(s, key.order)
    ensures !key.NameEntered? && !key.RemoveLast? ==> multiset(r.queue) == multiset(s.queue)
    ensures SameSettings(s, r)
  {
    match key
    case NameEntered(name) => AddStudent(s, name)
    case Next => if |s.queue| > 1 then NextStudent(s) else s
    case Undo => if s.previousSeconds.Some? then PreviousMeeting(s) else s
    case RemoveLast => RemoveLastStudent(s)
    case Randomize(order) => Shuffle(s, order)
  }

  /** The countdown and pause branches of `on_key` (src/zq/main.py:119-145). */
  function OnClockKey(s: State, key: Key): (r: State)
    requires ClockKey(key)
    ensures key.Pause? ==> r == TogglePause(s)
    ensures key.PlusFive? ==> r == AddSeconds(s, 5)
    ensures key.MinusFive? ==> r == SubtractSeconds(s, 5)
    ensures key.PlusThirty? ==> r == AddSeconds(s, 30)
    ensures key.MinusThirty? ==> r == SubtractSeconds(s, 30)
    ensures key.Reset? ==> r == ResetTimer(s)
    ensures r.queue == s.queue && SameSettings(s, r)
  {
    match key
    case Pause => TogglePause(s)
    case PlusFive => AddSeconds(s, 5)
    case MinusFive => SubtractSeconds(s, 5)
    case PlusThirty => AddSeconds(s, 30)
    case MinusThirty => SubtractSeconds(s, 30)
    case Reset => ResetTimer(s)
  }

  /**
   `on_key` outside text entry: each key runs its handler, "n" only with more
   than one student and "z" only once a countdown has been saved by a
   rotation; every key keeps the derived settings consistent with the
   meeting length.
   */
  function OnKey(s: State, key: Key, transition: nat): (r: State)
    requires KeyAllowed(s, key)
    ensures key.NameEntered? ==> r == AddStudent(s, key.name)
    ensures key.MinutesEntered? ==> r == SetMeetingMinutes(s, key.text, transition)
    ensures key.Next? && |s.queue| > 1 ==> r == NextStudent(s)
    ensures key.Next? && |s.queue| <= 1 ==> r == s
    ensures key.Undo? && s.previousSeconds.Some? ==> r == PreviousMeeting(s)
    ensures key.Undo? && s.previousSeconds.None? ==> r == s
    ensures key.RemoveLast? ==> r == RemoveLastStudent(s)
    ensures key.Randomize? ==> r == Shuffle(s, key.order)
    ensures key.SwitchMode? ==> r == ToggleMode(s)
    ensures key.Pause? ==> r == TogglePause(s)
    ensures key.PlusFive? ==> r == AddSeconds(s, 5)
    ensures key.MinusFive? ==> r == SubtractSeconds(s, 5)
    ensures key.PlusThirty? ==> r == AddSeconds(s, 30)
    ensures key.MinusThirty? ==> r == SubtractSeconds(s, 30)
    ensures key.Reset? ==> r == ResetTimer(s)
    ensures key.Other? ==> r == s
    ensures (key.Home? ==> r == s.(mode := Start)) && (key.EndKey? ==> r == s.(mode := End))
    ensures !key.NameEntered? && !key.RemoveLast? ==> multiset(r.queue) == multiset(s.queue)
    ensures Configured(s, transition) ==> Configured(r, transition)
  {
    if QueueKey(key) then OnQueueKey(s, key)
    else if ClockKey(key) then OnClockKey(s, key)
    else
      match key
      case MinutesEntered(text) => SetMeetingMinutes(s, text, transition)
      case SwitchMode => ToggleMode(s)
      case Home => s.(mode := Start)
      case EndKey => s.(mode := End)
      case Other => s
  }

  /**
   `load_students` (src/zq/main.py:47-56): the stored names become the queue;
   the countdown is taken from the first row and left alone when there is none.
   */
  function Load(s: State, rows: seq<Row>): (r: State)
    ensures |r.queue| == |rows|
    ensures forall i :: 0 <= i < |rows| ==> r.queue[i] == rows[i].name
    ensures |rows| > 0 ==> r.individualSeconds == rows[0].seconds
    ensures |rows| == 0 ==> r.individualSeconds == s.individualSeconds
    ensures r == s.(queue := r.queue, individualSeconds := r.individualSeconds)
  {
    var names := seq(|rows|, i requires 0 <= i < |rows| => rows[i].name);
    s.(queue := names, individualSeconds := if |rows| > 0 then rows[0].seconds else s.individualSeconds)
  }

  /** Rotating and then undoing restores the queue order and the countdown; the saved value is now the full meeting. */
  lemma NextThenPrevious(s: State, transition: nat)
    requires |s.queue| > 1
    ensures PreviousMeeting(NextStudent(s)) == s.(previousSeconds := Some(s.maxIndividualSeconds))
    ensures OnKey(OnKey(s, Next, transition), Undo, transition) == s.(previousSeconds := Some(s.maxIndividualSeconds))
  {
    BackToFrontUndoesFrontToBack(s.queue);
  }

  /**
   Undo is not an involution on the queue: a second undo trades the countdowns
   back but moves another student from the back to the front.
   */
  lemma PreviousTwice(s: State)
    requires s.previousSeconds.Some? && |s.queue| >= 2
    ensures var u := PreviousMeeting(PreviousMeeting(s));
      && u.individualSeconds == s.individualSeconds
      && u.previousSeconds == s.previousSeconds
      && u.queue == s.queue[|s.queue| - 2..] + s.queue[..|s.queue| - 2]
  {
    BackToFrontTwice(s.queue);
  }

  /** For Ann, Ben, Cal a double undo leaves Ben, Cal, Ann: not the starting order. */
  lemma PreviousTwiceExample(s: State)
    requires s.previousSeconds.Some? && s.queue == ["Ann", "Ben", "Cal"]
    ensures PreviousMeeting(PreviousMeeting(s)).queue == ["Ben", "Cal", "Ann"]
    ensures PreviousMeeting(PreviousMeeting(s)).queue != s.queue
  {
    PreviousTwice(s);
    assert s.queue[1..] + s.queue[..1] == ["Ben", "Cal", "Ann"];
  }

  /**
   The undo key is not guarded by the queue length: from a startup start, adding
   two students, rotating and removing both leaves a saved countdown with an
   empty queue, where the source's undo raises.
   */
  lemma UndoOnEmptyQueueReachable(minutes: nat, transition: nat)
    ensures var s := OnKey(OnKey(OnKey(OnKey(OnKey(Initial(minutes, transition),
                NameEntered("Ann"), transition), NameEntered("Ben"), transition),
                Next, transition), RemoveLast, transition), RemoveLast, transition);
      s.previousSeconds.Some? && s.queue == [] && !KeyAllowed(s, Undo)
  {
    var s1 := AddStudent(Initial(minutes, transition), "Ann");
    assert s1.queue == ["Ann"];
    var s2 := AddStudent(s1, "Ben");
    assert s2.queue == ["Ann", "Ben"];
  }

  /** A repeated name gets one " II"; a third copy gets " II" again rather than " III". */
  lemma DuplicateNames(s: State)
    requires s.queue == []
    ensures AddStudent(AddStudent(s, "Alice"), "Alice").queue == ["Alice", "Alice II"]
    ensures AddStudent(AddStudent(AddStudent(s, "Alice"), "Alice"), "Alice").queue
            == ["Alice", "Alice II", "Alice II"]
  {
    var one := AddStudent(s, "Alice");
    assert one.queue == ["Alice"];
    var two := AddStudent(one, "Alice");
    assert "Alice" in one.queue;
    assert "Alice" + DuplicateSuffix == "Alice II";
    assert two.queue == ["Alice", "Alice II"];
    assert "Alice" in two.queue;
  }

  /** Adding the first student starts the timer; later additions leave the pause flag alone. */
  lemma AddStartsTimerOnlyWhenEmpty(s: State, name: string)
    requires name != []
    ensures |s.queue| == 0 ==> !AddStudent(s, name).pause
    ensures |s.queue| > 0 ==> AddStudent(s, name).pause == s.pause
  {
  }

  /** Removing the last student undoes an addition, queue-wise. */
  lemma RemoveUndoesAdd(s: State, name: string)
    requires name != []
    ensures RemoveLastStudent(AddStudent(s, name)).queue == s.queue
  {
  }

  /** Removing from two students leaves one, with a full meeting on the clock. */
  lemma RemoveLastOfTwo(s: State)
    requires |s.queue| == 2
    ensures RemoveLastStudent(s).queue == [s.queue[0]]
    ensures RemoveLastStudent(s).individualSeconds == s.maxIndividualSeconds
  {
  }

  /** Typing any positive number m sets a meeting of m minutes. */
  lemma MinutesFromNumber(s: State, m: nat, transition: nat)
    requires m > 0
    ensures var r := SetMeetingMinutes(s, NatToString(m), transition);
      && r.maxIndividualSeconds == m * 60 + transition
      && r.minEmptyWaitlistSeconds == m * 30
      && r.individualLabel == IndividualLabel(m)
  {
    ParseNatToString(m);
  }

  /** Entries that are empty, zero, signed or not numbers change nothing. */
  lemma MinutesInputRejected(s: State, transition: nat)
    ensures SetMeetingMinutes(s, "", transition) == s
    ensures SetMeetingMinutes(s, "0", transition) == s
    ensures SetMeetingMinutes(s, "-5", transition) == s
    ensures SetMeetingMinutes(s, "abc", transition) == s
  {
    assert !IsDigit('-') && !IsDigit('a');
    assert ParseDecimal("0") == 0;
  }

  /** "007" reads as 7: leading zeros add nothing. */
  lemma SevenWithZeros()
    ensures IsDecimal("007") && ParseDecimal("007") == 7
  {
    assert "007"[..2] == "00" && "00"[..1] == "0" && "0"[..0] == "";
    assert '0' as int == 48 && '7' as int == 55;
  }

  /** The label for 7 minutes is "7" followed by the fixed suffix. */
  lemma SevenMinuteLabel()
    ensures IndividualLabel(7) == "7" + IndividualSuffix
  {
    assert '7' as int == 55;
    assert NatToString(7) == "7";
  }

  /** Leading zeros are read as the number; the label shows the number, not the typed text. */
  lemma MinutesInputLeadingZeros(s: State, transition: nat)
    ensures SetMeetingMinutes(s, "007", transition).maxIndividualSeconds == 420 + transition
    ensures SetMeetingMinutes(s, "007", transition).individualLabel == "7" + IndividualSuffix
  {
    SevenWithZeros();
    SevenMinuteLabel();
  }

  /** Entering the same duration twice is the same as entering it once. */
  lemma MinutesIdempotent(s: State, text: string, transition: nat)
    ensures SetMeetingMinutes(SetMeetingMinutes(s, text, transition), text, transition)
            == SetMeetingMinutes(s, text, transition)
  {
  }

  /** Taking off what was just added gives the original state back. */
  lemma SubtractUndoesAdd(s: State, amount: nat)
    ensures SubtractSeconds(AddSeconds(s, amount), amount) == s
  {
  }

  /** 3 seconds minus 5 is 0, never negative. */
  lemma SubtractClampExample(s: State)
    requires s.individualSeconds == 3
    ensures SubtractSeconds(s, 5).individualSeconds == 0
  {
  }

  /**
   "m" twice returns group and individual mode to themselves, with the group
   clock cleared on the way through group mode; from START or END it lands in
   individual mode.
   */
  lemma ToggleModeTwice(s: State)
    ensures s.mode == Group ==> ToggleMode(ToggleMode(s)) == s.(groupSeconds := 0)
    ensures s.mode == Individual ==> ToggleMode(ToggleMode(s)) == s.(groupSeconds := 0)
    ensures s.mode == Start || s.mode == End ==> ToggleMode(ToggleMode(s)) == s.(mode := Individual, groupSeconds := 0)
  {
  }

  /** After a reset the clock holds a full meeting however many seconds tick by, until someone unpauses. */
  lemma ResetHoldsFullMeeting(s: State, transition: nat, n: nat)
    ensures Run(ResetTimer(s), transition, n).individualSeconds == s.maxIndividualSeconds
  {
    PausedCountdownStill(ResetTimer(s), transition, n);
  }

  /** Pausing twice changes nothing. */
  lemma TogglePauseTwice(s: State)
    ensures TogglePause(TogglePause(s)) == s
  {
  }

  /** Saving a non-empty queue and loading it back restores the names in order and the countdown. */
  lemma SaveLoadRoundTrip(saved: State, startup: State)
    requires |saved.queue| > 0
    ensures Load(startup, SaveRows(saved)) == startup.(queue := saved.queue, individualSeconds := saved.individualSeconds)
  {
    assert Load(startup, SaveRows(saved)).queue == saved.queue;
  }

  /** Saving an empty queue and loading it back gives an empty queue and keeps the start-up countdown. */
  lemma SaveLoadEmpty(saved: State, startup: State)
    requires |saved.queue| == 0
    ensures Load(startup, SaveRows(saved)) == startup.(queue := [])
  {
  }
}
