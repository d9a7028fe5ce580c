/** src/app/components/StudyTimer.tsx: the Pomodoro timer. The component
    state is a transition system; `Step` says which handler or effect an
    event runs and when the screen offers it, and class `Timer` holds the
    same state in fields that its methods update in place. */
module StudyTimer {
  import opened Wrappers
  import opened Text
  import opened Sequences

  datatype Phase = Work | Break

  datatype Preset = Preset(name: string, work: nat, brk: nat)

  /** `POMODORO_PRESETS`: work and break minutes of the four presets. */
  const Presets: seq<Preset> := [
    Preset("Clássico", 25, 5),
    Preset("Estendido", 50, 10),
    Preset("Curto", 15, 3),
    Preset("Intenso", 90, 20)
  ]

  /** The state the timer's behaviour depends on. `resumePending` marks the
      one-second timeout that `handlePhaseComplete` schedules to start the
      next phase. */
  datatype TimerState = TimerState(
    phase: Phase,
    elapsed: nat,
    cycles: nat,
    running: bool,
    showFeedback: bool,
    started: bool,
    workMinutes: nat,
    breakMinutes: nat,
    presetIndex: nat,
    resumePending: bool)

  /** The state on mount: the first preset, a work phase, nothing elapsed. */
  const Initial: TimerState := TimerState(Work, 0, 0, false, false, false, 25, 5, 0, false)

  /** `targetSeconds`: the current phase's minutes times 60. */
  function Target(s: TimerState): nat {
    (if s.phase == Work then s.workMinutes else s.breakMinutes) * 60
  }

  /** `isComplete` */
  predicate IsComplete(s: TimerState) {
    s.elapsed >= Target(s)
  }

  // The handlers, as the component writes them.

  /** One interval callback: one more second. */
  function Tick(s: TimerState): TimerState {
    s.(elapsed := s.elapsed + 1)
  }

  /** `handlePhaseComplete` */
  function PhaseComplete(s: TimerState): TimerState {
    var stopped := s.(running := false);
    if s.phase == Work then
      var newCycles := s.cycles + 1;
      if newCycles >= 2 then stopped.(cycles := newCycles, showFeedback := true)
      else stopped.(cycles := newCycles, phase := Break, elapsed := 0, resumePending := true)
    else
      stopped.(phase := Work, elapsed := 0, resumePending := true)
  }

  /** `handleStart` */
  function Start(s: TimerState): TimerState {
    s.(started := true, running := true)
  }

  /** `handlePause` */
  function Pause(s: TimerState): TimerState {
    s.(running := false)
  }

  /** The timeout scheduled by `handlePhaseComplete` fires. */
  function Resume(s: TimerState): TimerState {
    s.(running := true, resumePending := false)
  }

  /** `handlePresetChange` */
  function PresetChange(s: TimerState, i: nat): TimerState
    requires i < |Presets|
  {
    s.(presetIndex := i, workMinutes := Presets[i].work, breakMinutes := Presets[i].brk, elapsed := 0, running := false)
  }

  /** The finish button (`setShowFeedback(true)`). */
  function FinishEarly(s: TimerState): TimerState {
    s.(showFeedback := true)
  }

  /** `handleCompleteFeedback`: the minutes handed to `onComplete`. */
  function SubmitMinutes(s: TimerState): nat {
    s.cycles * s.workMinutes
  }

  // When each handler runs.

  datatype Event =
    | TickEvent            // the one-second interval
    | CompletionEffect     // the effect on [isComplete, isRunning]
    | ResumeTimeout        // the one-second timeout after a phase ends
    | StartClick
    | PauseClick
    | PresetClick(index: nat)
    | FinishClick
    | SubmitClick
    | CancelClick

  /** The interval runs only while the timer runs and the phase is not
      complete; a pending resume timeout was scheduled before any interval
      started after it, so it fires before the next tick. The completion
      effect runs when the phase is complete and the timer runs. Start,
      pause, the presets, finish and cancel are on the main screen, which is
      replaced by the feedback screen; Start shows while stopped and Pause
      while running; the presets show until the session is started; finish
      shows once a cycle is complete. Submit and cancel leave the state to
      the parent, which closes the timer. */
  function Step(s: TimerState, e: Event): TimerState {
    match e
    case TickEvent => if s.running && !IsComplete(s) && !s.resumePending then Tick(s) else s
    case CompletionEffect => if IsComplete(s) && s.running then PhaseComplete(s) else s
    case ResumeTimeout => if s.resumePending then Resume(s) else s
    case StartClick => if !s.showFeedback && !s.running then Start(s) else s
    case PauseClick => if !s.showFeedback && s.running then Pause(s) else s
    case PresetClick(i) => if !s.showFeedback && !s.started && i < |Presets| then PresetChange(s, i) else s
    case FinishClick => if !s.showFeedback && s.cycles > 0 then FinishEarly(s) else s
    case SubmitClick => s
    case CancelClick => s
  }

  /** What the timer reports to its parent. */
  datatype Report = Completed(minutes: nat) | Cancelled

  function ReportOf(s: TimerState, e: Event): Option<Report> {
    match e
    case SubmitClick => if s.showFeedback then Some(Completed(SubmitMinutes(s))) else None
    case CancelClick => if !s.showFeedback then Some(Cancelled) else None
    case _ => None
  }

  function Run(s: TimerState, events: seq<Event>): TimerState
    decreases |events|
  {
    if events == [] then s else Run(Step(s, events[0]), events[1..])
  }

  // The invariant every reachable state keeps.

  predicate Inv(s: TimerState) {
    s.presetIndex < |Presets|
    && s.workMinutes == Presets[s.presetIndex].work
    && s.breakMinutes == Presets[s.presetIndex].brk
    && s.elapsed <= Target(s)
    && s.cycles <= 2
    && (s.phase == Break ==> s.cycles == 1)
    && (s.resumePending ==> s.elapsed == 0 && s.cycles == 1)
    && (s.cycles == 2 ==> s.showFeedback && !s.running && !s.resumePending)
    && (s.showFeedback ==> s.cycles >= 1 && s.started)
    && (s.running ==> s.started)
    && (!s.started ==> s.phase == Work && s.cycles == 0 && s.elapsed == 0 && !s.resumePending && !s.showFeedback)
  }

  lemma InitialInv()
    ensures Inv(Initial) && !IsComplete(Initial)
  {
  }

  /** Every event keeps the invariant: elapsed never passes the target,
      cycles stay in 0..2, a break only follows the first cycle, and two
      cycles always mean a stopped timer on the feedback screen. */
  lemma StepKeepsInv(s: TimerState, e: Event)
    requires Inv(s)
    ensures Inv(Step(s, e))
  {
    match e
    case CompletionEffect =>
      if IsComplete(s) && s.running {
        assert s.cycles < 2;
      }
    case _ =>
  }

  lemma {:induction false} RunKeepsInv(s: TimerState, events: seq<Event>)
    requires Inv(s)
    ensures Inv(Run(s, events))
    decreases |events|
  {
    if events != [] {
      StepKeepsInv(s, events[0]);
      RunKeepsInv(Step(s, events[0]), events[1..]);
    }
  }

  /** The states reachable from mount keep the invariant. */
  lemma ReachableInv(events: seq<Event>)
    ensures var s := Run(Initial, events);
      s.elapsed <= Target(s) && s.cycles <= 2 &&
      (s.cycles == 2 ==> s.showFeedback && !s.running)
  {
    InitialInv();
    RunKeepsInv(Initial, events);
  }

  /** Completing a work phase adds exactly one cycle; the second one stops
      the timer and opens the feedback screen with phase and elapsed time
      untouched; the first one starts a break from zero. Completing a break
      keeps the cycles and returns to work from zero. Both schedule the
      resume, except when feedback opens. */
  lemma CompletionCountsCycles(s: TimerState)
    requires Inv(s) && IsComplete(s) && s.running
    ensures var t := Step(s, CompletionEffect);
      !t.running &&
      (s.phase == Work ==> t.cycles == s.cycles + 1) &&
      (s.phase == Work && t.cycles == 2 ==> t.showFeedback && t.phase == Work && t.elapsed == s.elapsed && !t.resumePending) &&
      (s.phase == Work && t.cycles < 2 ==> t.phase == Break && t.elapsed == 0 && t.resumePending && !t.showFeedback) &&
      (s.phase == Break ==> t.cycles == s.cycles && t.phase == Work && t.elapsed == 0 && t.resumePending)
  {
  }

  /** Only the interval and the completion effect move time or cycles: the
      other events leave elapsed seconds, phase and cycles as they are, and
      start and pause change nothing but the running and started flags. */
  lemma ClicksKeepProgress(s: TimerState, e: Event)
    requires !e.TickEvent? && !e.CompletionEffect? && !e.PresetClick?
    ensures Step(s, e).elapsed == s.elapsed && Step(s, e).phase == s.phase && Step(s, e).cycles == s.cycles
    ensures e == PauseClick ==> Step(s, e) == s.(running := s.running && s.showFeedback)
    ensures e == StartClick && !s.showFeedback && !s.running ==> Step(s, e) == s.(running := true, started := true)
  {
  }

  /** A preset sets both durations from the table, restarts the phase from
      zero and stops the timer; phase and cycles stay. */
  lemma PresetResets(s: TimerState, i: nat)
    requires !s.showFeedback && !s.started && i < |Presets|
    ensures var t := Step(s, PresetClick(i));
      t.workMinutes == Presets[i].work && t.breakMinutes == Presets[i].brk &&
      t.elapsed == 0 && !t.running && t.phase == s.phase && t.cycles == s.cycles
  {
  }

  /** Submitting reports cycles times work minutes, which on the feedback
      screen is one or two work phases; cancel never reports completion. */
  lemma ReportedMinutes(s: TimerState, e: Event)
    requires Inv(s)
    ensures ReportOf(s, e).Some? && ReportOf(s, e).value.Completed? ==>
      e == SubmitClick && s.showFeedback &&
      (ReportOf(s, e).value.minutes == s.workMinutes || ReportOf(s, e).value.minutes == 2 * s.workMinutes) &&
      ReportOf(s, e).value.minutes > 0
    ensures ReportOf(s, CancelClick) != Some(Completed(SubmitMinutes(s)))
  {
  }

  // Runs of the interval.

  function Ticks(k: nat): (events: seq<Event>)
    ensures |events| == k && forall i :: 0 <= i < k ==> events[i] == TickEvent
  {
    if k == 0 then [] else [TickEvent] + Ticks(k - 1)
  }

  lemma {:induction false} RunAppend(s: TimerState, a: seq<Event>, b: seq<Event>)
    ensures Run(s, a + b) == Run(Run(s, a), b)
    decreases |a|
  {
    if a == [] {
      assert a + b == b;
    } else {
      assert (a + b)[1..] == a[1..] + b;
      RunAppend(Step(s, a[0]), a[1..], b);
    }
  }

  /** A running timer without a pending resume counts k seconds in k ticks,
      up to the target. */
  lemma {:induction false} TicksCount(s: TimerState, k: nat)
    requires s.running && !s.resumePending && s.elapsed + k <= Target(s)
    ensures Run(s, Ticks(k)) == s.(elapsed := s.elapsed + k)
    decreases k
  {
    if k > 0 {
      TicksCount(Tick(s), k - 1);
    }
  }

  /** Once the target is reached, ticks change nothing more. */
  lemma {:induction false} TicksStopAtTarget(s: TimerState, k: nat)
    requires IsComplete(s)
    ensures Run(s, Ticks(k)) == s
    decreases k
  {
    if k > 0 {
      TicksStopAtTarget(s, k - 1);
    }
  }

  /** One phase from a fresh start to its end: `Target` ticks, then the
      completion effect, then the resume timeout. */
  function PhaseEvents(seconds: nat): seq<Event> {
    Ticks(seconds) + [CompletionEffect, ResumeTimeout]
  }

  lemma RunPhase(s: TimerState, seconds: nat)
    requires s.running && !s.resumePending && s.elapsed == 0 && Target(s) == seconds && seconds > 0
    requires s.phase == Break || s.cycles == 0
    ensures var t := Run(s, PhaseEvents(seconds));
      t.running && !t.resumePending && t.elapsed == 0 &&
      t.phase == (if s.phase == Work then Break else Work) &&
      t.cycles == (if s.phase == Work then s.cycles + 1 else s.cycles) &&
      t.showFeedback == s.showFeedback && t.started == s.started &&
      t.workMinutes == s.workMinutes && t.breakMinutes == s.breakMinutes && t.presetIndex == s.presetIndex
  {
    TicksCount(s, seconds);
    RunAppend(s, Ticks(seconds), [CompletionEffect, ResumeTimeout]);
    var u := Run(s, Ticks(seconds));
    assert Run(u, [CompletionEffect, ResumeTimeout]) == Step(Step(u, CompletionEffect), ResumeTimeout);
  }

  /** A whole session with preset i, left to run: work, break, work, after
      which the feedback screen is open and submitting reports two work
      phases. */
  lemma FullSession(i: nat)
    requires i < |Presets|
    ensures var w := Presets[i].work * 60;
      var b := Presets[i].brk * 60;
      var events := [PresetClick(i), StartClick] + PhaseEvents(w) + PhaseEvents(b) + Ticks(w) + [CompletionEffect];
      var t := Run(Initial, events);
      t.showFeedback && !t.running && t.cycles == 2 &&
      ReportOf(t, SubmitClick) == Some(Completed(2 * Presets[i].work))
  {
    var w := Presets[i].work * 60;
    var b := Presets[i].brk * 60;
    var s0 := Initial;
    var s1 := Step(Step(s0, PresetClick(i)), StartClick);
    assert [PresetClick(i), StartClick][1..] == [StartClick];
    assert [StartClick][1..] == [];
    assert Run(Step(s0, PresetClick(i)), [StartClick]) == Run(s1, []) == s1;
    assert Run(s0, [PresetClick(i), StartClick]) == s1;
    RunPhase(s1, w);
    var s2 := Run(s1, PhaseEvents(w));
    RunPhase(s2, b);
    var s3 := Run(s2, PhaseEvents(b));
    TicksCount(s3, w);
    var s4 := Run(s3, Ticks(w));
    var s5 := Step(s4, CompletionEffect);
    assert Run(s4, [CompletionEffect]) == s5;
    var e0 := [PresetClick(i), StartClick];
    var e1 := PhaseEvents(w);
    var e2 := PhaseEvents(b);
    var e3 := Ticks(w);
    var e4 := [CompletionEffect];
    RunAppend(s0, e0 + e1 + e2 + e3, e4);
    RunAppend(s0, e0 + e1 + e2, e3);
    RunAppend(s0, e0 + e1, e2);
    RunAppend(s0, e0, e1);
  }

  // Display.

  /** `formatTime`: minutes and seconds, each padded to two digits. */
  function FormatTime(seconds: nat): string {
    PadStart2(NatToString(seconds / 60)) + ":" + PadStart2(NatToString(seconds % 60))
  }

  /** The clock text gives back the seconds it shows. */
  lemma FormatTimeRoundTrip(seconds: nat)
    ensures ReadClock(FormatTime(seconds)) == Some(seconds)
  {
    var q, r := seconds / 60, seconds % 60;
    assert 60 * q + r == seconds;
    ClockOfParts(q, r);
  }

  lemma ClockOfParts(q: nat, r: nat)
    requires r < 60
    ensures ReadClock(PadStart2(NatToString(q)) + ":" + PadStart2(NatToString(r))) == Some(60 * q + r)
  {
    PaddedValue(q);
    PaddedValue(r);
    PaddedTwoDigits(r);
    ReadClockOf(PadStart2(NatToString(q)), PadStart2(NatToString(r)), q, r);
  }

  /** `remainingSeconds` */
  function RemainingSeconds(s: TimerState): nat {
    if Target(s) > s.elapsed then Target(s) - s.elapsed else 0
  }

  /** In every reachable state elapsed and remaining seconds add up to the
      target, and each counted tick takes one second off the remainder. */
  lemma RemainingAddsUp(s: TimerState)
    requires Inv(s)
    ensures s.elapsed + RemainingSeconds(s) == Target(s)
    ensures Step(s, TickEvent) != s ==> RemainingSeconds(Step(s, TickEvent)) == RemainingSeconds(s) - 1
  {
  }

  /** The component's state in fields, updated in place by the handlers. */
  class Timer {
    var phase: Phase
    var elapsedSeconds: nat
    var cyclesCompleted: nat
    var isRunning: bool
    var showFeedback: bool
    var sessionStarted: bool
    var workMinutes: nat
    var breakMinutes: nat
    var presetIndex: nat
    var resumePending: bool

    function State(): TimerState
      reads this
    {
      TimerState(phase, elapsedSeconds, cyclesCompleted, isRunning, showFeedback, sessionStarted,
        workMinutes, breakMinutes, presetIndex, resumePending)
    }

    predicate Valid()
      reads this
    {
      Inv(State())
    }

    constructor ()
      ensures State() == Initial && Valid()
    {
      phase := Work;
      elapsedSeconds := 0;
      cyclesCompleted := 0;
      isRunning := false;
      showFeedback := false;
      sessionStarted := false;
      workMinutes := Presets[0].work;
      breakMinutes := Presets[0].brk;
      presetIndex := 0;
      resumePending := false;
    }

    /** The interval callback, while the interval runs. */
    method OnTick()
      requires Valid()
      modifies this
      ensures State() == Step(old(State()), TickEvent) && Valid()
    {
      StepKeepsInv(State(), TickEvent);
      var target := (if phase == Work then workMinutes else breakMinutes) * 60;
      if isRunning && elapsedSeconds < target && !resumePending {
        elapsedSeconds := elapsedSeconds + 1;
      }
    }

    /** `handlePhaseComplete` */
    method HandlePhaseComplete()
      requires Valid() && IsComplete(State()) && isRunning
      modifies this
      ensures State() == PhaseComplete(old(State())) && Valid()
    {
      StepKeepsInv(State(), CompletionEffect);
      isRunning := false;
      if phase == Work {
        var newCycles := cyclesCompleted + 1;
        cyclesCompleted := newCycles;
        if newCycles >= 2 {
          showFeedback := true;
        } else {
          phase := Break;
          elapsedSeconds := 0;
          resumePending := true;
        }
      } else {
        phase := Work;
        elapsedSeconds := 0;
        resumePending := true;
      }
    }

    /** The effect on [isComplete, isRunning]. */
    method OnCompletionEffect()
      requires Valid()
      modifies this
      ensures State() == Step(old(State()), CompletionEffect) && Valid()
    {
      StepKeepsInv(State(), CompletionEffect);
      if elapsedSeconds >= (if phase == Work then workMinutes else breakMinutes) * 60 && isRunning {
        HandlePhaseComplete();
      }
    }

    /** The resume timeout fires. */
    method OnResumeTimeout()
      requires Valid()
      modifies this
      ensures State() == Step(old(State()), ResumeTimeout) && Valid()
    {
      StepKeepsInv(State(), ResumeTimeout);
      if resumePending {
        isRunning := true;
        resumePending := false;
      }
    }

    /** `handleStart`, offered while stopped on the main screen. */
    method HandleStart()
      requires Valid() && !showFeedback && !isRunning
      modifies this
      ensures State() == Step(old(State()), StartClick) && Valid()
    {
      StepKeepsInv(State(), StartClick);
      if !sessionStarted {
        sessionStarted := true;
      }
      isRunning := true;
    }

    /** `handlePause`, offered while running on the main screen. */
    method HandlePause()
      requires Valid() && !showFeedback && isRunning
      modifies this
      ensures State() == Step(old(State()), PauseClick) && Valid()
    {
      StepKeepsInv(State(), PauseClick);
      isRunning := false;
    }

    /** `handlePresetChange`, offered before the session starts. */
    method HandlePresetChange(i: nat)
      requires Valid() && !showFeedback && !sessionStarted && i < |Presets|
      modifies this
      ensures State() == Step(old(State()), PresetClick(i)) && Valid()
    {
      StepKeepsInv(State(), PresetClick(i));
      presetIndex := i;
      workMinutes := Presets[i].work;
      breakMinutes := Presets[i].brk;
      elapsedSeconds := 0;
      isRunning := false;
    }

    /** The finish button, offered once a cycle is complete. */
    method HandleFinish()
      requires Valid() && !showFeedback && cyclesCompleted > 0
      modifies this
      ensures State() == Step(old(State()), FinishClick) && Valid()
    {
      StepKeepsInv(State(), FinishClick);
      showFeedback := true;
    }

    /** `handleCompleteFeedback`: the minutes handed to `onComplete`, one or
      two whole work phases. */
    method HandleCompleteFeedback() returns (totalMinutes: nat)
      requires Valid() && showFeedback
      ensures totalMinutes == SubmitMinutes(State())
      ensures totalMinutes == workMinutes || totalMinutes == 2 * workMinutes
    {
      totalMinutes := cyclesCompleted * workMinutes;
    }
  }
}
