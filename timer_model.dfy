/** The Pomodoro timer's state machine as values.

    `State` gathers the closure variables of script.js (`timeLeft`,
    `isWorking`, `isPaused`, `isEndless`), whether the one-second interval is
    active (`ticking`), the auto-advances that `setTimeout` has scheduled and
    not yet run (`pending`), the status line as an enumeration and the number
    of alarm requests. There is one function per callback of the source; the
    class in module PomodoroTimer is proved to perform exactly these
    transitions. */
module TimerModel {

  /** Phase lengths in seconds: 25 and 5 minutes. */
  const WORK_TIME: nat := 25 * 60
  const BREAK_TIME: nat := 5 * 60

  datatype Phase = Work | Break

  /** The status line; `AsLoaded` is whatever the page showed before the
      first callback wrote to it. */
  datatype Status =
    | AsLoaded
    | FocusStarted | BreakStarted
    | WorkDoneStartingBreak | BreakOverStartingWork
    | SessionComplete | BreakComplete
    | WorkPaused | BreakPaused
    | ReadyToFocus | ReadyForWork | ReadyForBreak

  datatype State = State(
    timeLeft: int,
    isWorking: bool,
    isPaused: bool,
    isEndless: bool,
    ticking: bool,         // an interval is active
    pending: seq<Phase>,   // scheduled auto-advances, oldest first
    status: Status,
    alarms: nat)           // number of times the alarm sound was requested

  function Duration(working: bool): nat {
    if working then WORK_TIME else BREAK_TIME
  }

  /** The phase a completed phase advances to in endless mode. */
  function NextPhase(working: bool): Phase {
    if working then Break else Work
  }

  /** What every reachable state satisfies: the countdown lies within the
      current phase's length, and an active interval implies the timer is
      not paused (so the guard of `StartTimer` never starts a second
      interval) and has at least one second left (so no tick happens at 0). */
  predicate Inv(s: State) {
    && 0 <= s.timeLeft <= Duration(s.isWorking)
    && (s.ticking ==> !s.isPaused && 0 < s.timeLeft)
  }

  /** The state when the page has loaded: work phase, paused, 25:00. */
  function Initial(endless: bool): (s: State)
    ensures Inv(s) && s.isWorking && s.isPaused && !s.ticking
    ensures s.timeLeft == WORK_TIME && s.pending == [] && s.alarms == 0 && s.isEndless == endless
  {
    State(WORK_TIME, true, true, endless, false, [], AsLoaded, 0)
  }

  /** `startTimer`: does nothing unless paused; otherwise unpauses and starts
      the interval. */
  function StartTimer(s: State): (r: State)
    ensures !r.isPaused && (r.ticking <==> s.ticking || s.isPaused)
    ensures !s.isPaused ==> r == s
    ensures r.timeLeft == s.timeLeft && r.isWorking == s.isWorking && r.isEndless == s.isEndless
    ensures r.pending == s.pending && r.alarms == s.alarms
  {
    if !s.isPaused then s
    else s.(isPaused := false, ticking := true,
            status := if s.isWorking then FocusStarted else BreakStarted)
  }

  /** The body of the interval, run once a second while it is active. */
  function Tick(s: State): (r: State)
    requires s.ticking
    ensures r.timeLeft == s.timeLeft - 1
    ensures r.isWorking == s.isWorking && r.isEndless == s.isEndless
    ensures r.ticking <==> r.timeLeft > 0
    ensures r.alarms == if r.ticking then s.alarms else s.alarms + 1
    ensures r.isPaused <==> s.isPaused || (!r.ticking && !s.isEndless)
    ensures r.pending == if !r.ticking && s.isEndless then s.pending + [NextPhase(s.isWorking)] else s.pending
  {
    var t := s.timeLeft - 1;
    if t <= 0 then
      var done := s.(timeLeft := t, ticking := false, alarms := s.alarms + 1);
      if s.isEndless then
        if s.isWorking then done.(status := WorkDoneStartingBreak, pending := s.pending + [Break])
        else done.(status := BreakOverStartingWork, pending := s.pending + [Work])
      else
        done.(status := if s.isWorking then SessionComplete else BreakComplete, isPaused := true)
    else
      s.(timeLeft := t)
  }

  /** `pauseTimer`: stops the interval and pauses, keeping the countdown. */
  function Pause(s: State): (r: State)
    ensures r.isPaused && !r.ticking
    ensures r.timeLeft == s.timeLeft && r.isWorking == s.isWorking && r.isEndless == s.isEndless
    ensures r.pending == s.pending && r.alarms == s.alarms
  {
    s.(ticking := false, isPaused := true,
       status := if s.isWorking then WorkPaused else BreakPaused)
  }

  /** `resetTimer`: back to a paused work phase with a full countdown. */
  function Reset(s: State): (r: State)
    ensures r.isWorking && r.isPaused && !r.ticking && r.timeLeft == WORK_TIME
    ensures r.isEndless == s.isEndless && r.pending == s.pending && r.alarms == s.alarms
  {
    s.(ticking := false, isPaused := true, isWorking := true, timeLeft := WORK_TIME,
       status := ReadyToFocus)
  }

  /** `startWork(autoStart)`: a full work countdown, running iff `autoStart`. */
  function StartWork(s: State, autoStart: bool): (r: State)
    ensures r.isWorking && r.timeLeft == WORK_TIME
    ensures r.isPaused == !autoStart && r.ticking == autoStart
    ensures r.isEndless == s.isEndless && r.pending == s.pending && r.alarms == s.alarms
  {
    var cleared := s.(ticking := false, isWorking := true, timeLeft := WORK_TIME);
    if autoStart then StartTimer(cleared.(isPaused := true))
    else cleared.(isPaused := true, status := ReadyForWork)
  }

  /** `startBreak(autoStart)`: a full break countdown, running iff `autoStart`. */
  function StartBreak(s: State, autoStart: bool): (r: State)
    ensures !r.isWorking && r.timeLeft == BREAK_TIME
    ensures r.isPaused == !autoStart && r.ticking == autoStart
    ensures r.isEndless == s.isEndless && r.pending == s.pending && r.alarms == s.alarms
  {
    var cleared := s.(ticking := false, isWorking := false, timeLeft := BREAK_TIME);
    if autoStart then StartTimer(cleared.(isPaused := true))
    else cleared.(isPaused := true, status := ReadyForBreak)
  }

  /** The start button: on break or paused, start a fresh work countdown;
      while work is running, pause it. */
  function ClickStart(s: State): (r: State)
    ensures !s.isWorking || s.isPaused ==>
      r.isWorking && !r.isPaused && r.ticking && r.timeLeft == WORK_TIME && r.status == FocusStarted
    ensures s.isWorking && !s.isPaused ==>
      r.isWorking && r.isPaused && !r.ticking && r.timeLeft == s.timeLeft && r.status == WorkPaused
    ensures r.isEndless == s.isEndless && r.pending == s.pending && r.alarms == s.alarms
  {
    if !s.isWorking || s.isPaused then StartTimer(StartWork(s, false)) else Pause(s)
  }

  /** The break button: working or paused, start a fresh break countdown;
      while a break is running, pause it. */
  function ClickBreak(s: State): (r: State)
    ensures s.isWorking || s.isPaused ==>
      !r.isWorking && !r.isPaused && r.ticking && r.timeLeft == BREAK_TIME && r.status == BreakStarted
    ensures !s.isWorking && !s.isPaused ==>
      !r.isWorking && r.isPaused && !r.ticking && r.timeLeft == s.timeLeft && r.status == BreakPaused
    ensures r.isEndless == s.isEndless && r.pending == s.pending && r.alarms == s.alarms
  {
    if s.isWorking || s.isPaused then StartTimer(StartBreak(s, false)) else Pause(s)
  }

  /** The oldest scheduled auto-advance runs: `startBreak(true)` or
      `startWork(true)`, whatever the state is by then. */
  function FirePending(s: State): (r: State)
    requires s.pending != []
    ensures r.isWorking <==> s.pending[0] == Work
    ensures !r.isPaused && r.ticking && r.timeLeft == Duration(r.isWorking)
    ensures r.isEndless == s.isEndless && r.pending == s.pending[1..] && r.alarms == s.alarms
  {
    var rest := s.(pending := s.pending[1..]);
    match s.pending[0]
    case Break => StartBreak(rest, true)
    case Work => StartWork(rest, true)
  }

  /** What the host's event loop can deliver: a click on one of the three
      buttons, the interval firing, or the oldest timeout firing. */
  datatype Event = StartClick | BreakClick | ResetClick | IntervalFires | TimeoutFires

  /** One callback. An interval that is not active and a timeout queue that
      is empty deliver nothing. */
  function Step(s: State, e: Event): State {
    match e
    case StartClick => ClickStart(s)
    case BreakClick => ClickBreak(s)
    case ResetClick => Reset(s)
    case IntervalFires => if s.ticking then Tick(s) else s
    case TimeoutFires => if s.pending != [] then FirePending(s) else s
  }

  /** The callbacks `es`, one after another. */
  function Run(s: State, es: seq<Event>): State
    decreases |es|
  {
    if es == [] then s else Run(Step(s, es[0]), es[1..])
  }

  /** `n` firings of the interval. */
  function Ticks(n: nat): (es: seq<Event>)
    ensures |es| == n && forall i :: 0 <= i < n ==> es[i] == IntervalFires
  {
    seq(n, _ => IntervalFires)
  }

  predicate IsClick(e: Event) {
    e.StartClick? || e.BreakClick? || e.ResetClick?
  }
}
