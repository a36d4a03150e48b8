/** The timer as the page runs it: the closure variables of script.js become
    the fields of one `Timer` object, and each callback becomes a method that
    updates them in place. The host's `setInterval` and `setTimeout` are
    represented by the flag `ticking` and the queue `pending`; the host calls
    `Tick` when the interval fires and `FirePending` when a timeout fires.
    Each method is proved to perform the matching transition of TimerModel. */
module PomodoroTimer {
  import M = TimerModel

  class Timer {
    var timeLeft: int
    var isWorking: bool
    var isPaused: bool
    const isEndless: bool
    var ticking: bool
    var pending: seq<M.Phase>
    var status: M.Status
    var alarms: nat

    function Snapshot(): M.State
      reads this
    {
      M.State(timeLeft, isWorking, isPaused, isEndless, ticking, pending, status, alarms)
    }

    ghost predicate Valid()
      reads this
    {
      M.Inv(Snapshot())
    }

    /** The page has loaded. The page itself always passes `true`. */
    constructor (endless: bool)
      ensures Valid() && Snapshot() == M.Initial(endless)
    {
      timeLeft := M.WORK_TIME;
      isWorking := true;
      isPaused := true;
      isEndless := endless;
      ticking := false;
      pending := [];
      status := M.AsLoaded;
      alarms := 0;
    }

    method StartTimer()
      requires Valid() && (isPaused ==> timeLeft > 0)
      modifies this
      ensures Valid() && Snapshot() == M.StartTimer(old(Snapshot()))
    {
      if !isPaused {
        return;
      }
      isPaused := false;
      status := if isWorking then M.FocusStarted else M.BreakStarted;
      ticking := true;
    }

    /** The interval body. */
    method Tick()
      requires Valid() && ticking
      modifies this
      ensures Valid() && Snapshot() == M.Tick(old(Snapshot()))
    {
      timeLeft := timeLeft - 1;
      if timeLeft <= 0 {
        ticking := false;
        alarms := alarms + 1;
        if isEndless {
          if isWorking {
            status := M.WorkDoneStartingBreak;
            pending := pending + [M.Break];
          } else {
            status := M.BreakOverStartingWork;
            pending := pending + [M.Work];
          }
        } else {
          status := if isWorking then M.SessionComplete else M.BreakComplete;
          isPaused := true;
        }
      }
    }

    method PauseTimer()
      requires Valid()
      modifies this
      ensures Valid() && Snapshot() == M.Pause(old(Snapshot()))
    {
      ticking := false;
      isPaused := true;
      status := if isWorking then M.WorkPaused else M.BreakPaused;
    }

    /** Also the handler of the reset button. */
    method ResetTimer()
      requires Valid()
      modifies this
      ensures Valid() && Snapshot() == M.Reset(old(Snapshot()))
    {
      ticking := false;
      isPaused := true;
      isWorking := true;
      timeLeft := M.WORK_TIME;
      status := M.ReadyToFocus;
    }

    method StartWork(autoStart: bool)
      requires Valid()
      modifies this
      ensures Valid() && Snapshot() == M.StartWork(old(Snapshot()), autoStart)
    {
      ticking := false;
      isWorking := true;
      timeLeft := M.WORK_TIME;
      if autoStart {
        isPaused := true;
        StartTimer();
      } else {
        isPaused := true;
        status := M.ReadyForWork;
      }
    }

    method StartBreak(autoStart: bool)
      requires Valid()
      modifies this
      ensures Valid() && Snapshot() == M.StartBreak(old(Snapshot()), autoStart)
    {
      ticking := false;
      isWorking := false;
      timeLeft := M.BREAK_TIME;
      if autoStart {
        isPaused := true;
        StartTimer();
      } else {
        isPaused := true;
        status := M.ReadyForBreak;
      }
    }

    /** Handler of the start button. */
    method ClickStart()
      requires Valid()
      modifies this
      ensures Valid() && Snapshot() == M.ClickStart(old(Snapshot()))
    {
      if !isWorking || isPaused {
        StartWork(false);
        StartTimer();
      } else {
        PauseTimer();
      }
    }

    /** Handler of the break button. */
    method ClickBreak()
      requires Valid()
      modifies this
      ensures Valid() && Snapshot() == M.ClickBreak(old(Snapshot()))
    {
      if isWorking || isPaused {
        StartBreak(false);
        StartTimer();
      } else {
        PauseTimer();
      }
    }

    /** The oldest scheduled auto-advance runs. */
    method FirePending()
      requires Valid() && pending != []
      modifies this
      ensures Valid() && Snapshot() == M.FirePending(old(Snapshot()))
    {
      var next := pending[0];
      pending := pending[1..];
      match next
      case Break => StartBreak(true);
      case Work => StartWork(true);
    }
  }
}
