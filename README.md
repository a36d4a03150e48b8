# Pomodoro timer: a verified model

This project is a Dafny model of the Pomodoro timer in `script.js`. The timer alternates a
25-minute work phase with a 5-minute break, counting down once a second. Three buttons
drive it: start/pause work, start/pause break, and reset. In endless mode, which is the
mode the page always runs in, a completed phase moves to the other phase by itself two
seconds later.

- **`Clock`** (`clock.dfy`) models `formatTime`, the `MM:SS` rendering of the countdown. It
  also defines `ParseClock`, which reads a clock face back. The round trip through the two
  is proved for every non-negative number of seconds.
- **`TimerModel`** (`timer_model.dfy`) is the state machine as values. `State` holds the
  page's closure variables: `timeLeft`, `isWorking`, `isPaused` and `isEndless`. It adds a
  few fields for what the page does through the browser:
  - `ticking`: the one-second interval is active;
  - `pending`: the queue of auto-advances scheduled with `setTimeout` and not yet run.
    They run oldest first, since all have the same delay;
  - `status`: the status line, as an enumeration;
  - `alarms`: how many times the alarm was requested.

  There is one transition function per callback. `Step` and `Run` deliver a sequence of
  host events: a button click, the interval firing, or a timeout firing.
- **`PomodoroTimer`** (`timer.dfy`) is the timer as the page runs it. The `Timer` class has
  the same fields, updated in place. Each callback is a method. Each method is proved to
  perform exactly the matching `TimerModel` transition and to keep the invariant `Inv`.
- **`TimerProperties`** (`timer_properties.dfy`) proves what the transitions guarantee:
  - every reachable state keeps the countdown within its phase's length;
  - no interval runs while the timer is paused, so no second interval is ever started;
  - a countdown completes after exactly `timeLeft` ticks and requests the alarm exactly once;
  - in endless mode the scheduled advance switches phase and restarts the countdown from
    the full length.

The code has three quirks, and the model keeps them as written:
- The start button on a paused work phase restarts the countdown from 25:00 instead of
  resuming it (`PauseThenStartRestarts`).
- In endless mode a completed phase is left neither paused nor ticking
  (`EndlessCompletionNotPaused`).
- A scheduled auto-advance is never cancelled. Pause, reset and fresh starts made during
  the 2-second window are overridden when it fires (`AdvanceSurvivesClicks`). Neither
  `pauseTimer` nor `resetTimer` clears the pending timeout.

## Model

| member | source | states |
|---|---|---|
| `Clock.Decimal` | script.js:20 | an integer renders as a non-empty string of digits with no leading zero; it has one digit exactly below 10 and two digits exactly in 10..99 |
| `Clock.DecimalValue` | script.js:20 | reading the rendered digits back gives the integer |
| `Clock.TwoDigits` | script.js:20 | the zero-padded field is all digits and reads back as `n`; it is at least two characters, and exactly two when `n < 100`; from 10 up it is the plain decimal rendering with no padding |
| `Clock.FormatTime` | script.js:17-21 | `MM:SS`: the text before the colon reads as `seconds / 60`; the two digits after it read as `seconds % 60 < 60`; the text is 5 characters exactly when `seconds < 6000` |
| `Clock.FormatTimeRoundTrip` | script.js:17-21 | parsing the formatted time gives back the same number of seconds, for every non-negative input |
| `Clock.FormatTimeInjective` | script.js:17-21 | two different countdown values never show the same text |
| `TimerModel.Initial` | script.js:8-15 | the loaded page is in the work phase, paused, at 1500 s, with no interval, nothing scheduled and the invariant holding |
| `TimerModel.StartTimer` | script.js:27-32 | when not paused, nothing changes; when paused, it unpauses and starts the interval; the countdown, phase and schedule are kept |
| `TimerModel.Tick` | script.js:32-52 | takes off exactly one second and keeps the phase; the interval stays active exactly while time is left; at zero it requests one alarm, and then either pauses (normal mode) or schedules the other phase (endless mode) |
| `TimerModel.Pause` | script.js:55-59 | paused with no interval; countdown, phase and schedule kept |
| `TimerModel.Reset` | script.js:61-69 | work phase, paused, no interval, 1500 s; the scheduled advances are kept |
| `TimerModel.StartWork` | script.js:71-83 | work phase at 1500 s; running with an interval iff `autoStart`, paused otherwise |
| `TimerModel.StartBreak` | script.js:85-97 | break phase at 300 s; running with an interval iff `autoStart`, paused otherwise |
| `TimerModel.ClickStart` | script.js:112-119 | on a break or paused: work running from 1500 s; while work runs: paused with the countdown kept |
| `TimerModel.ClickBreak` | script.js:121-128 | working or paused: break running from 300 s; while a break runs: paused with the countdown kept |
| `TimerModel.FirePending` | script.js:39-46 | the oldest scheduled advance switches to its phase and runs it from the full length, whatever the state was; it leaves the queue |
| `PomodoroTimer.Timer.constructor` | script.js:11-15 | the fields start as the initial state and satisfy the invariant |
| `PomodoroTimer.Timer.StartTimer` | script.js:27-53 | the fields change as `TimerModel.StartTimer` says, and the invariant is kept |
| `PomodoroTimer.Timer.Tick` | script.js:32-52 | the fields change as `TimerModel.Tick` says, and the invariant is kept |
| `PomodoroTimer.Timer.PauseTimer` | script.js:55-59 | the fields change as `TimerModel.Pause` says, and the invariant is kept |
| `PomodoroTimer.Timer.ResetTimer` | script.js:61-69 | the fields change as `TimerModel.Reset` says, and the invariant is kept |
| `PomodoroTimer.Timer.StartWork` | script.js:71-83 | the fields change as `TimerModel.StartWork` says, and the invariant is kept |
| `PomodoroTimer.Timer.StartBreak` | script.js:85-97 | the fields change as `TimerModel.StartBreak` says, and the invariant is kept |
| `PomodoroTimer.Timer.ClickStart` | script.js:112-119 | the fields change as `TimerModel.ClickStart` says, and the invariant is kept |
| `PomodoroTimer.Timer.ClickBreak` | script.js:121-128 | the fields change as `TimerModel.ClickBreak` says, and the invariant is kept |
| `PomodoroTimer.Timer.FirePending` | script.js:42-45 | the fields change as `TimerModel.FirePending` says, and the invariant is kept |
| `TimerProperties.StartTimerIdempotent` | script.js:28 | starting twice is the same as starting once; with an interval active, start changes nothing |
| `TimerProperties.PauseIdempotent` | script.js:55-59 | pausing twice is the same as pausing once |
| `TimerProperties.ResetForgetsRun` | script.js:61-66 | the state after reset depends only on the mode, the scheduled advances and the alarm count |
| `TimerProperties.StepPreservesInv` | script.js:27-128 | every callback keeps the countdown within the current phase's length, and keeps an active interval only while unpaused with time left |
| `TimerProperties.RunPreservesInv` | script.js:27-128 | any sequence of callbacks keeps the invariant |
| `TimerProperties.ReachableInv` | script.js:8-15 | every state reachable from the loaded page satisfies the invariant |
| `TimerProperties.CountdownRunning` | script.js:32-36 | fewer ticks than the time left only take off one second each |
| `TimerProperties.CountdownCompletes` | script.js:32-50 | exactly `timeLeft` ticks bring the countdown to 0 and stop the interval with one alarm, in the same phase; it is paused in normal mode, and in endless mode the other phase is scheduled; the mode is kept |
| `TimerProperties.IdleWithoutClicks` | script.js:32-52 | with no interval and nothing scheduled, ticks and timeouts change nothing |
| `TimerProperties.NormalCompletionWaits` | script.js:47-50 | in normal mode a completed phase stays paused at 0 in the same phase until a button is clicked |
| `TimerProperties.AutoAdvance` | script.js:39-46 | in endless mode, once the scheduled advance fires, the other phase runs from its full length |
| `TimerProperties.EndlessCompletionNotPaused` | script.js:36-46 | in endless mode a completed phase is neither paused nor ticking, and the start button right after work completes takes the pause branch |
| `TimerProperties.ClicksKeepPending` | script.js:55-69 | no button click removes a scheduled advance |
| `TimerProperties.AdvanceSurvivesClicks` | script.js:42-45 | after any button clicks, the scheduled advance still switches to its phase and runs it from the full length |
| `TimerProperties.PauseThenStartRestarts` | script.js:113-117 | pausing running work keeps the countdown; clicking start again restarts from 1500 s instead of resuming |
| `TimerProperties.WorkSession` | script.js:8-52 | from the loaded page: start, then 1500 or more ticks, reaches 0 in work with exactly one alarm; normal mode waits paused; in endless mode the timeout starts a 300 s break |
| `TimerProperties.IdleIgnoresTicks` | script.js:37 | once the interval is cleared, further ticks deliver nothing |

## Left out

- The DOM: looking up elements, `updateDisplay` and every write to `textContent`. Each
  change to `timeLeft` is followed by `updateDisplay`, so the display always shows
  `Clock.FormatTime(timeLeft)`. The status texts become the `TimerModel.Status` enumeration.
  The page's initial status text lives in its HTML, which is not part of this model.
- `playAlarmSound`: an audio API call with an asynchronous error handler. It is recorded
  only as the `alarms` counter.
- Real time: the 1000 ms period of `setInterval` and the 2000 ms delay of `setTimeout`.
  These are host-event-loop concerns. The host's callbacks are the explicit events `Tick`
  and `FirePending`.
  - Because time is abstracted away, the model allows several auto-advances to be
    scheduled at once. It therefore keeps them as a queue.
  - With real timing, a 300-second phase cannot complete within a 2-second window, so the
    queue holds at most one advance.
- Registering the event listeners and `DOMContentLoaded`. The handlers are the methods
  `ClickStart`, `ClickBreak` and `ResetTimer`.
- `isEndless` is initialised to `true` and never reassigned in `script.js`. The model
  makes it a `const` set by the constructor, so that both modes can be stated.
- Configurable work and break durations, and their clamping. `script.js` has neither; its
  durations are constants.
- PomodoroTimer.Timer.StartTimer: requires a positive countdown whenever the timer is
  paused. `script.js` calls `startTimer` only right after `startWork` or `startBreak` has
  loaded a full countdown (lines 78, 92, 115 and 124). A start at 0 is therefore
  unreachable.
- Clock.Decimal: renders every non-negative integer as plain digits. JavaScript switches to
  exponent notation from 10^21 up. The timer never comes near that, since `timeLeft` is at
  most 1500 (`TimerProperties.ReachableInv`).
- Clock.FormatTime: takes a non-negative number of seconds. `timeLeft` never goes below 0
  (`TimerProperties.ReachableInv`), so negative and fractional JavaScript numbers are not
  modelled.
