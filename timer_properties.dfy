/** What the timer's transitions guarantee, alone and over sequences of
    callbacks. */
module TimerProperties {
  import opened TimerModel

  /** Starting a timer that is already running changes nothing, so a second
      start never creates a second interval. */
  lemma StartTimerIdempotent(s: State)
    ensures StartTimer(StartTimer(s)) == StartTimer(s)
    ensures Inv(s) && s.ticking ==> StartTimer(s) == s
  {
  }

  lemma PauseIdempotent(s: State)
    ensures Pause(Pause(s)) == Pause(s)
  {
  }

  /** Reset leaves nothing of the run behind: two states with the same
      scheduled advances and alarm count reset to the same state. */
  lemma ResetForgetsRun(s: State, t: State)
    requires s.isEndless == t.isEndless && s.pending == t.pending && s.alarms == t.alarms
    ensures Reset(s) == Reset(t)
  {
  }

  lemma StepPreservesInv(s: State, e: Event)
    requires Inv(s)
    ensures Inv(Step(s, e))
  {
  }

  lemma {:induction false} RunPreservesInv(s: State, es: seq<Event>)
    requires Inv(s)
    ensures Inv(Run(s, es))
    decreases |es|
  {
    if es != [] {
      StepPreservesInv(s, es[0]);
      RunPreservesInv(Step(s, es[0]), es[1..]);
    }
  }

  /** Every state the page can reach keeps the countdown within its phase's
      length and never has an interval running while paused. */
  lemma ReachableInv(endless: bool, es: seq<Event>)
    ensures Inv(Run(Initial(endless), es))
  {
    RunPreservesInv(Initial(endless), es);
  }

  lemma {:induction false} RunAppend(s: State, a: seq<Event>, b: seq<Event>)
    ensures Run(s, a + b) == Run(Run(s, a), b)
    decreases |a|
  {
    if a != [] {
      assert (a + b)[0] == a[0] && (a + b)[1..] == a[1..] + b;
      RunAppend(Step(s, a[0]), a[1..], b);
    } else {
      assert a + b == b;
    }
  }

  /** Before the countdown reaches zero, each tick takes off exactly one
      second and nothing else happens. */
  lemma {:induction false} CountdownRunning(s: State, k: nat)
    requires Inv(s) && s.ticking && k < s.timeLeft
    ensures Run(s, Ticks(k)) == s.(timeLeft := s.timeLeft - k)
    decreases k
  {
    if k > 0 {
      assert Ticks(k)[0] == IntervalFires && Ticks(k)[1..] == Ticks(k - 1);
      CountdownRunning(Tick(s), k - 1);
    }
  }

  /** A running countdown with `timeLeft` seconds left completes after
      exactly that many ticks: the interval stops, the alarm sounds once, the
      phase is unchanged, and either the timer pauses (normal mode) or the
      next phase is scheduled (endless mode). */
  lemma {:induction false} CountdownCompletes(s: State)
    requires Inv(s) && s.ticking
    ensures var r := Run(s, Ticks(s.timeLeft));
      && r.timeLeft == 0 && !r.ticking
      && r.isWorking == s.isWorking && r.alarms == s.alarms + 1
      && r.isEndless == s.isEndless && r.isPaused == !s.isEndless
      && r.pending == (if s.isEndless then s.pending + [NextPhase(s.isWorking)] else s.pending)
    decreases s.timeLeft
  {
    var n := s.timeLeft;
    assert Ticks(n)[0] == IntervalFires && Ticks(n)[1..] == Ticks(n - 1);
    if n > 1 {
      CountdownCompletes(Tick(s));
    }
  }

  /** With no interval active and nothing scheduled, ticks and timeouts
      change nothing: the timer waits for a button. */
  lemma {:induction false} IdleWithoutClicks(s: State, es: seq<Event>)
    requires !s.ticking && s.pending == []
    requires forall i :: 0 <= i < |es| ==> !IsClick(es[i])
    ensures Run(s, es) == s
    decreases |es|
  {
    if es != [] {
      IdleWithoutClicks(Step(s, es[0]), es[1..]);
    }
  }

  /** In normal mode a completed phase stays paused at 00:00 in the same
      phase whatever ticks or timeouts follow. */
  lemma NormalCompletionWaits(s: State, es: seq<Event>)
    requires Inv(s) && s.ticking && !s.isEndless && s.pending == []
    requires forall i :: 0 <= i < |es| ==> !IsClick(es[i])
    ensures var r := Run(s, Ticks(s.timeLeft) + es);
      r.isPaused && !r.ticking && r.timeLeft == 0 && r.isWorking == s.isWorking
  {
    RunAppend(s, Ticks(s.timeLeft), es);
    CountdownCompletes(s);
    IdleWithoutClicks(Run(s, Ticks(s.timeLeft)), es);
  }

  /** In endless mode, once the scheduled advance fires, the other phase is
      running with its full length. */
  lemma AutoAdvance(s: State)
    requires Inv(s) && s.ticking && s.isEndless && s.pending == []
    ensures var r := Step(Run(s, Ticks(s.timeLeft)), TimeoutFires);
      && r.isWorking == !s.isWorking && r.ticking && !r.isPaused
      && r.timeLeft == Duration(!s.isWorking) && r.pending == []
  {
    CountdownCompletes(s);
  }

  /** In endless mode a completed phase is left neither paused nor ticking;
      so a click on the start button right after a work phase completes
      takes the pause branch instead of starting anything. */
  lemma EndlessCompletionNotPaused(s: State)
    requires Inv(s) && s.ticking && s.isEndless
    ensures var r := Run(s, Ticks(s.timeLeft));
      && !r.isPaused && !r.ticking
      && (s.isWorking ==> ClickStart(r).isPaused && !ClickStart(r).ticking && ClickStart(r).status == WorkPaused)
  {
    CountdownCompletes(s);
  }

  /** Button clicks never cancel a scheduled auto-advance. */
  lemma {:induction false} ClicksKeepPending(s: State, es: seq<Event>)
    requires forall i :: 0 <= i < |es| ==> IsClick(es[i])
    ensures Run(s, es).pending == s.pending
    decreases |es|
  {
    if es != [] {
      ClicksKeepPending(Step(s, es[0]), es[1..]);
    }
  }

  /** Whatever the buttons did since a phase completed (pause, reset, a
      fresh work or break countdown), the scheduled advance still switches
      to its phase and starts it from the full length. */
  lemma AdvanceSurvivesClicks(s: State, es: seq<Event>)
    requires s.pending != []
    requires forall i :: 0 <= i < |es| ==> IsClick(es[i])
    ensures var r := Step(Run(s, es), TimeoutFires);
      && (r.isWorking <==> s.pending[0] == Work)
      && r.ticking && !r.isPaused && r.timeLeft == Duration(r.isWorking)
      && r.pending == s.pending[1..]
  {
    ClicksKeepPending(s, es);
  }

  /** Pausing work and pressing the start button again does not resume: the
      countdown starts over from 25:00. */
  lemma PauseThenStartRestarts(s: State)
    requires Inv(s) && s.isWorking && s.ticking
    ensures ClickStart(s).isPaused && ClickStart(s).timeLeft == s.timeLeft
    ensures var r := ClickStart(ClickStart(s));
      r.isWorking && r.ticking && r.timeLeft == WORK_TIME
  {
  }

  /** From the loaded page: start, then any number `n >= 1500` of interval
      firings. The work phase ends at 00:00 with exactly one alarm; in
      normal mode the timer then waits, paused; in endless mode the
      scheduled advance starts a five-minute break. */
  lemma WorkSession(endless: bool, n: nat)
    requires n >= WORK_TIME
    ensures var r := Run(Initial(endless), [StartClick] + Ticks(n));
      && r.timeLeft == 0 && r.isWorking && !r.ticking && r.alarms == 1
      && r.isPaused == !endless
      && r.pending == (if endless then [Break] else [])
      && (endless ==> var b := Step(r, TimeoutFires);
            !b.isWorking && b.ticking && b.timeLeft == BREAK_TIME && b.pending == [])
  {
    var s0 := Initial(endless);
    var s1 := ClickStart(s0);
    assert Run(s0, [StartClick]) == s1;
    assert Ticks(n) == Ticks(WORK_TIME) + Ticks(n - WORK_TIME);
    RunAppend(s0, [StartClick], Ticks(n));
    RunAppend(s1, Ticks(WORK_TIME), Ticks(n - WORK_TIME));
    CountdownCompletes(s1);
    var r1 := Run(s1, Ticks(WORK_TIME));
    if !endless {
      IdleWithoutClicks(r1, Ticks(n - WORK_TIME));
    } else {
      IdleIgnoresTicks(r1, n - WORK_TIME);
    }
  }

  /** With no interval active, further firings deliver nothing. */
  lemma {:induction false} IdleIgnoresTicks(s: State, k: nat)
    requires !s.ticking
    ensures Run(s, Ticks(k)) == s
    decreases k
  {
    if k > 0 {
      assert Ticks(k)[0] == IntervalFires && Ticks(k)[1..] == Ticks(k - 1);
      IdleIgnoresTicks(s, k - 1);
    }
  }
}
