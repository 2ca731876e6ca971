/** The focus/break countdown timer. The state is the record the component keeps (phase, seconds
    left, running flag, completed focus sessions) plus the number of 500 ms auto-advance timeouts
    that are scheduled and have not fired yet; every handler and timer callback is a function
    from one state to the next. */
module Pomodoro {

  import opened Text

  datatype Phase = Focus | Break

  /** The length of each phase in seconds. */
  function Duration(p: Phase): nat
  {
    match p
    case Focus => 25 * 60
    case Break => 5 * 60
  }

  function Other(p: Phase): Phase
  {
    match p
    case Focus => Break
    case Break => Focus
  }

  datatype State = State(phase: Phase, secondsLeft: int, running: bool, completedFocus: nat, pending: nat)

  const Initial: State := State(Focus, Duration(Focus), false, 0, 0)

  /** The countdown stays between 0 and the current phase's length. */
  predicate Inv(s: State)
  {
    0 <= s.secondsLeft <= Duration(s.phase)
  }

  // ---------------------------------------------------------------------------
  // Transitions

  /** The one-second interval, which exists only while the timer runs: counts down, never below 0. */
  function Tick(s: State): (t: State)
    ensures !s.running ==> t == s
    ensures s.running && s.secondsLeft > 0 ==> t == s.(secondsLeft := s.secondsLeft - 1)
    ensures s.running && s.secondsLeft <= 0 ==> t == s.(secondsLeft := 0)
    ensures t.secondsLeft >= 0 || t.secondsLeft == s.secondsLeft
    ensures Inv(s) ==> Inv(t)
  {
    if s.running then s.(secondsLeft := if s.secondsLeft > 0 then s.secondsLeft - 1 else 0) else s
  }

  /** The effect that watches for zero: a running timer at 0 stops and schedules one advance. */
  function Settle(s: State): (t: State)
    ensures t.running ==> t.secondsLeft > 0
    ensures s.running && s.secondsLeft <= 0 ==> t == s.(running := false, pending := s.pending + 1)
    ensures !(s.running && s.secondsLeft <= 0) ==> t == s
    ensures Inv(s) ==> Inv(t)
  {
    if s.running && s.secondsLeft <= 0 then s.(running := false, pending := s.pending + 1) else s
  }

  /** The flip shared by skipping and auto-advancing: the other phase at its full length, and one
      more completed focus session when leaving focus. */
  function Flip(s: State): (t: State)
    ensures t.phase == Other(s.phase) && t.secondsLeft == Duration(t.phase)
    ensures t.completedFocus == s.completedFocus + (if s.phase == Focus then 1 else 0)
    ensures t.running == s.running && t.pending == s.pending
    ensures Inv(t)
  {
    var next := Other(s.phase);
    State(next, Duration(next), s.running, s.completedFocus + (if s.phase == Focus then 1 else 0), s.pending)
  }

  /** A scheduled 500 ms timeout fires: flips the phase and starts running. */
  function Advance(s: State): (t: State)
    requires s.pending > 0
    ensures t.phase == Other(s.phase) && t.secondsLeft == Duration(t.phase) && t.running
    ensures t.completedFocus == s.completedFocus + (if s.phase == Focus then 1 else 0)
    ensures t.pending == s.pending - 1
    ensures Inv(t)
  {
    Flip(s).(running := true, pending := s.pending - 1)
  }

  /** `handleStartPause`: toggles running and nothing else. */
  function StartPause(s: State): (t: State)
    ensures t.running == !s.running
    ensures t.(running := s.running) == s
  {
    s.(running := !s.running)
  }

  /** `handleReset`: focus at full length, stopped; the completed count and any scheduled advance
      are untouched. */
  function Reset(s: State): (t: State)
    ensures t.phase == Focus && t.secondsLeft == 1500 && !t.running
    ensures t.completedFocus == s.completedFocus && t.pending == s.pending
  {
    s.(phase := Focus, secondsLeft := Duration(Focus), running := false)
  }

  /** `handleSkip`: flips the phase at once and stops. */
  function Skip(s: State): (t: State)
    ensures t.phase == Other(s.phase) && t.secondsLeft == Duration(t.phase) && !t.running
    ensures t.completedFocus == s.completedFocus + (if s.phase == Focus then 1 else 0)
    ensures t.pending == s.pending
  {
    Flip(s).(running := false)
  }

  datatype Event = TickEvent | AdvanceEvent | StartPauseEvent | ResetEvent | SkipEvent

  /** The event may happen in this state: a timeout fires only if one is scheduled. */
  predicate Enabled(s: State, e: Event)
  {
    e == AdvanceEvent ==> s.pending > 0
  }

  /** One event followed by the zero-watching effect, which runs after every state change. */
  function Step(s: State, e: Event): State
    requires Enabled(s, e)
  {
    var t := match e
      case TickEvent => Tick(s)
      case AdvanceEvent => Advance(s)
      case StartPauseEvent => StartPause(s)
      case ResetEvent => Reset(s)
      case SkipEvent => Skip(s);
    Settle(t)
  }

  /** Every step keeps the countdown within the phase's length and never loses a completed
      focus session. */
  lemma StepKeepsInvariant(s: State, e: Event)
    requires Inv(s) && Enabled(s, e)
    ensures Inv(Step(s, e))
    ensures Step(s, e).completedFocus >= s.completedFocus
  {
  }

  /** Reaching zero and auto-advancing makes the same flip as skipping, except that the timer
      resumes instead of stopping. */
  lemma AdvanceMatchesSkip(s: State)
    requires s.running && s.secondsLeft <= 0
    ensures var t := Advance(Settle(s));
      t == Skip(s).(running := true) && t.pending == s.pending
  {
  }

  /** A running focus phase at its last second becomes a running break after one tick and the
      timeout, with one more completed session. */
  lemma LastSecondOfFocus(s: State)
    requires s.phase == Focus && s.secondsLeft == 1 && s.running
    ensures var t := Step(Step(s, TickEvent), AdvanceEvent);
      t.phase == Break && t.secondsLeft == 300 && t.running &&
      t.completedFocus == s.completedFocus + 1 && t.pending == s.pending
  {
  }

  // ---------------------------------------------------------------------------
  // MM:SS

  /** `padStart(width, fill)`. */
  function PadStart(s: string, width: nat, fill: char): (r: string)
    ensures |r| == if |s| >= width then |s| else width
    ensures r[|r| - |s|..] == s
    ensures forall i :: 0 <= i < |r| - |s| ==> r[i] == fill
  {
    if |s| >= width then s else seq(width - |s|, _ => fill) + s
  }

  /** Two decimal digits, most significant first. */
  function TwoDigitValue(s: string): int
    requires |s| == 2 && AllDigits(s)
  {
    10 * (s[0] as int - 48) + (s[1] as int - 48)
  }

  function Pad2(n: nat): string
  {
    PadStart(NatToString(n), 2, '0')
  }

  /** Below 100 a number pads to exactly two digits, which read back as the number. */
  lemma Pad2Digits(n: nat)
    requires n < 100
    ensures |Pad2(n)| == 2 && AllDigits(Pad2(n)) && TwoDigitValue(Pad2(n)) == n
  {
    var d := NatToString(n);
    if n < 10 {
      assert d == [DigitChar(n)];
      assert Pad2(n) == ['0', DigitChar(n)];
    } else {
      assert NatToString(n / 10) == [DigitChar(n / 10)];
      assert d == [DigitChar(n / 10), DigitChar(n % 10)];
      assert Pad2(n) == d;
    }
  }

  /** `formatTime(totalSeconds)`: zero-padded minutes, a colon, zero-padded seconds. */
  function FormatTime(total: nat): string
  {
    Pad2(total / 60) + ":" + Pad2(total % 60)
  }

  /** Text of the form `MM:SS` with the seconds below 60. */
  predicate IsClockText(r: string)
  {
    |r| == 5 && r[2] == ':' && AllDigits(r[..2]) && AllDigits(r[3..]) && TwoDigitValue(r[3..]) < 60
  }

  /** The number of seconds that `MM:SS` text stands for. */
  function ClockSeconds(r: string): int
    requires IsClockText(r)
  {
    60 * TwoDigitValue(r[..2]) + TwoDigitValue(r[3..])
  }

  /** Two two-digit texts joined by a colon read back as minutes and seconds. */
  lemma ClockTextOf(mm: string, ss: string)
    requires |mm| == 2 && AllDigits(mm) && |ss| == 2 && AllDigits(ss) && TwoDigitValue(ss) < 60
    ensures IsClockText(mm + ":" + ss)
    ensures ClockSeconds(mm + ":" + ss) == 60 * TwoDigitValue(mm) + TwoDigitValue(ss)
  {
    var r := mm + ":" + ss;
    assert r[..2] == mm && r[3..] == ss && r[2] == ':';
  }

  /** Below 100 minutes the text is `MM:SS` and reads back as the total. */
  lemma FormatTimeReadsBack(total: nat)
    requires total < 6000
    ensures IsClockText(FormatTime(total)) && ClockSeconds(FormatTime(total)) == total
  {
    var m, sec := total / 60, total % 60;
    assert m < 100 && sec < 60 && 60 * m + sec == total;
    var mm, ss := Pad2(m), Pad2(sec);
    Pad2Digits(m);
    Pad2Digits(sec);
    assert FormatTime(total) == mm + ":" + ss;
    ClockTextOf(mm, ss);
    assert ClockSeconds(mm + ":" + ss) == 60 * m + sec;
  }
}
