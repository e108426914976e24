/** The rest timer as the app runs it (src/App.tsx): the provider's value is
    passed to the display as `isVisible`, `initialTime`, `resetTrigger` and
    `workoutPaused`, and the display's `onClose` is `hideRestTimer`. The
    session is driven by explicit events: the four context operations, one
    interval tick, the end of one grace delay, and the two buttons. */
module RestTimerApp {
  import opened Wrappers
  import Text
  import C = RestTimerContext
  import D = RestTimer

  datatype Session = Session(ctx: C.ContextValue, display: D.DisplayState)

  datatype Event =
    | Start(duration: Option<int>)      // startRestTimer
    | Reset(duration: Option<int>)      // resetRestTimer
    | Hide                              // hideRestTimer
    | SetWorkoutPaused(paused: bool)    // setWorkoutPaused
    | IntervalTick                      // the display's one-second interval fires
    | GraceElapsed                      // one scheduled 500 ms close delay ends
    | PressReset                        // the display's reset button
    | PressPauseResume                  // the display's pause/resume button

  /** The wiring of App.tsx. */
  function PropsOf(c: C.ContextValue): D.Props {
    D.Props(c.isTimerVisible, c.restTime, c.workoutPaused, c.resetTrigger)
  }

  const Initial: Session := Session(C.InitialValue, D.Mount(PropsOf(C.InitialValue)))

  /** A new context value re-renders the display, whose effects see the changed props. */
  function Update(s: Session, c: C.ContextValue): Session {
    Session(c, D.PropsChanged(PropsOf(s.ctx), PropsOf(c), s.display))
  }

  predicate Counting(s: Session) {
    D.Counting(PropsOf(s.ctx), s.display)
  }

  /** One event of the session. The display's own events never touch the
      shared value; only a reset moves the counter; at most one close is
      scheduled per event; a grace delay hides the timer exactly when a close
      was pending, and is otherwise a no-op. */
  function Step(s: Session, e: Event): (r: Session)
    ensures e.IntervalTick? || e.PressReset? || e.PressPauseResume? ==> r.ctx == s.ctx
    ensures r.ctx.resetTrigger == s.ctx.resetTrigger + (if e.Reset? then 1 else 0)
    ensures r.display.pendingCloses <= s.display.pendingCloses + 1
    ensures e.GraceElapsed? && s.display.pendingCloses > 0 ==>
      !r.ctx.isTimerVisible && r.display.pendingCloses == s.display.pendingCloses - 1
    ensures e.GraceElapsed? && s.display.pendingCloses == 0 ==> r == s
  {
    var p := PropsOf(s.ctx);
    match e
    case Start(d) => Update(s, C.StartTimer(s.ctx, d))
    case Reset(d) => Update(s, C.ResetTimer(s.ctx, d))
    case Hide => Update(s, C.HideTimer(s.ctx))
    case SetWorkoutPaused(b) => Update(s, C.PauseWorkout(s.ctx, b))
    case IntervalTick => s.(display := D.Tick(p, s.display))
    case GraceElapsed =>
      if s.display.pendingCloses > 0 then
        Update(s.(display := s.display.(pendingCloses := s.display.pendingCloses - 1)), C.HideTimer(s.ctx))
      else s
    // The buttons exist only while the card is rendered.
    case PressReset => if D.Rendered(p) then s.(display := D.Restart(p, s.display)) else s
    case PressPauseResume => if D.Rendered(p) then s.(display := D.PauseResume(s.display)) else s
  }

  function Run(s: Session, es: seq<Event>): Session
    decreases |es|
  {
    if es == [] then s else Run(Step(s, es[0]), es[1..])
  }

  function Ticks(n: nat): seq<Event> {
    seq(n, _ => IntervalTick)
  }

  function CountResets(es: seq<Event>): nat {
    if es == [] then 0 else (if es[0].Reset? then 1 else 0) + CountResets(es[1..])
  }

  // ---------------------------------------------------------------------------
  // Sequences of events

  lemma {:induction false} RunAppend(s: Session, a: seq<Event>, b: seq<Event>)
    ensures Run(s, a + b) == Run(Run(s, a), b)
    decreases |a|
  {
    if a == [] {
      assert a + b == b;
    } else {
      assert (a + b)[1..] == a[1..] + b;
      RunAppend(Step(s, a[0]), a[1..], b);
    }
  }

  lemma TicksSplit(n: nat)
    requires n > 0
    ensures Ticks(n) == Ticks(n - 1) + [IntervalTick]
    ensures Ticks(n)[0] == IntervalTick && Ticks(n)[1..] == Ticks(n - 1)
  {
  }

  /** `resetTrigger` is the number of resets so far: it never decreases, and
      only a reset moves it, by exactly one. */
  lemma {:induction false} ResetTriggerCountsResets(s: Session, es: seq<Event>)
    ensures Run(s, es).ctx.resetTrigger == s.ctx.resetTrigger + CountResets(es)
    decreases |es|
  {
    if es != [] {
      ResetTriggerCountsResets(Step(s, es[0]), es[1..]);
    }
  }

  /** Durations passed to start and reset are not negative (or omitted). */
  predicate NonNegativeDuration(e: Event) {
    (e.Start? || e.Reset?) ==> e.duration.None? || e.duration.value >= 0
  }

  predicate NonNegativeTimes(s: Session) {
    s.display.timeRemaining >= 0 && s.ctx.restTime >= 0
  }

  lemma StepKeepsNonNegative(s: Session, e: Event)
    requires NonNegativeTimes(s) && NonNegativeDuration(e)
    ensures NonNegativeTimes(Step(s, e))
  {
  }

  /** With non-negative durations the remaining time never becomes negative,
      whatever events arrive in whatever order. */
  lemma {:induction false} TimeRemainingNeverNegative(s: Session, es: seq<Event>)
    requires NonNegativeTimes(s)
    requires forall i :: 0 <= i < |es| ==> NonNegativeDuration(es[i])
    ensures NonNegativeTimes(Run(s, es))
    decreases |es|
  {
    if es != [] {
      StepKeepsNonNegative(s, es[0]);
      TimeRemainingNeverNegative(Step(s, es[0]), es[1..]);
    }
  }

  // ---------------------------------------------------------------------------
  // The countdown

  /** While the countdown is not running (hidden, paused by either pause, or
      at 0 or below) ticks change nothing: no time passes, no close is scheduled. */
  lemma {:induction false} IdleTicksChangeNothing(s: Session, n: nat)
    requires !Counting(s)
    ensures Run(s, Ticks(n)) == s
    decreases n
  {
    if n > 0 {
      TicksSplit(n);
      IdleTicksChangeNothing(s, n - 1);
      RunAppend(s, Ticks(n - 1), [IntervalTick]);
    }
  }

  /** A running countdown loses exactly one second per tick until its last second. */
  lemma {:induction false} CountdownProgress(s: Session, n: nat)
    requires Counting(s) && n < s.display.timeRemaining
    ensures Run(s, Ticks(n)) == s.(display := s.display.(timeRemaining := s.display.timeRemaining - n))
    decreases n
  {
    if n > 0 {
      TicksSplit(n);
      CountdownProgress(s, n - 1);
      RunAppend(s, Ticks(n - 1), [IntervalTick]);
    }
  }

  /** After as many ticks as there were seconds the countdown shows 0, the
      timer is still shown, and exactly one close has been scheduled. */
  lemma CountdownCompletes(s: Session)
    requires Counting(s)
    ensures Run(s, Ticks(s.display.timeRemaining)) ==
      s.(display := s.display.(timeRemaining := 0, pendingCloses := s.display.pendingCloses + 1))
  {
    var t := s.display.timeRemaining;
    TicksSplit(t);
    CountdownProgress(s, t - 1);
    RunAppend(s, Ticks(t - 1), [IntervalTick]);
  }

  /** From a finished countdown: further ticks schedule no second close, the
      card still renders `0:00`, and when the grace delay ends the timer is
      hidden with nothing left scheduled beyond what was there before. */
  lemma CompletionClosesOnce(s: Session, k: nat)
    requires Counting(s) && s.display.pendingCloses == 0 && !s.ctx.workoutPaused
    ensures var done := Run(s, Ticks(s.display.timeRemaining));
      && Run(done, Ticks(k)) == done
      && D.Render(PropsOf(done.ctx), done.display) == Some(D.View("0:00", false))
      && !Step(done, GraceElapsed).ctx.isTimerVisible
      && Step(done, GraceElapsed).display.pendingCloses == 0
      && Step(done, GraceElapsed).display.timeRemaining == 0
  {
    CountdownCompletes(s);
    var done := Run(s, Ticks(s.display.timeRemaining));
    IdleTicksChangeNothing(done, k);
    Text.FormatMinSecExamples();
  }

  /** A close is scheduled only by a tick that takes a running countdown to 0;
      with no time left, nothing can schedule one. */
  lemma ClosesComeOnlyFromCountdown(s: Session, e: Event)
    requires Step(s, e).display.pendingCloses > s.display.pendingCloses
    ensures e == IntervalTick && Counting(s) && s.display.timeRemaining <= 1
    ensures Step(s, e).display.timeRemaining == 0
  {
  }

  // ---------------------------------------------------------------------------
  // Pausing

  /** Pausing the workout hides the card and freezes the countdown; resuming
      gives back exactly the state before the pause, whatever ticks came between. */
  lemma WorkoutPauseFreezes(s: Session, n: nat)
    requires !s.ctx.workoutPaused
    ensures D.Render(PropsOf(Step(s, SetWorkoutPaused(true)).ctx), s.display).None?
    ensures Run(s, [SetWorkoutPaused(true)] + Ticks(n) + [SetWorkoutPaused(false)]) == s
  {
    var paused := Step(s, SetWorkoutPaused(true));
    assert paused == s.(ctx := s.ctx.(workoutPaused := true));
    IdleTicksChangeNothing(paused, n);
    RunAppend(s, [SetWorkoutPaused(true)] + Ticks(n), [SetWorkoutPaused(false)]);
    RunAppend(s, [SetWorkoutPaused(true)], Ticks(n));
  }

  /** The display's own pause button freezes the countdown the same way, and
      pressing it again resumes from the frozen value. */
  lemma LocalPauseFreezes(s: Session, n: nat)
    requires D.Rendered(PropsOf(s.ctx)) && !s.display.isPaused
    ensures Run(s, [PressPauseResume] + Ticks(n) + [PressPauseResume]) == s
  {
    var paused := Step(s, PressPauseResume);
    IdleTicksChangeNothing(paused, n);
    RunAppend(s, [PressPauseResume] + Ticks(n), [PressPauseResume]);
    RunAppend(s, [PressPauseResume], Ticks(n));
  }

  // ---------------------------------------------------------------------------
  // Restarting

  /** `startRestTimer` restarts the countdown exactly when the timer was hidden
      or the duration changes; a start with the same duration while shown
      leaves the running countdown alone. */
  lemma StartRestartsIff(s: Session, d: Option<int>)
    ensures Step(s, Start(d)).ctx.isTimerVisible && Step(s, Start(d)).ctx.restTime == C.Duration(d)
    ensures Step(s, Start(d)).ctx.resetTrigger == s.ctx.resetTrigger
    ensures Step(s, Start(d)).display ==
      if !s.ctx.isTimerVisible || s.ctx.restTime != C.Duration(d)
      then s.display.(timeRemaining := C.Duration(d), isPaused := false)
      else s.display
  {
  }

  /** `resetRestTimer` always restarts the countdown from the new duration and
      shows the timer, whether it was shown or not. */
  lemma ResetAlwaysRestarts(s: Session, d: Option<int>)
    ensures Step(s, Reset(d)).ctx == s.ctx.(isTimerVisible := true, restTime := C.Duration(d),
                                             resetTrigger := s.ctx.resetTrigger + 1)
    ensures Step(s, Reset(d)).display == s.display.(timeRemaining := C.Duration(d), isPaused := false)
  {
  }

  /** Hiding changes only the visibility: the remaining time, pause flag and
      scheduled closes stay as they were. */
  lemma HideKeepsCountdown(s: Session)
    ensures Step(s, Hide) == Session(s.ctx.(isTimerVisible := false), s.display)
  {
  }

  /** A close scheduled before a restart still arrives: pressing reset during
      the grace delay restarts the countdown, and the pending close then hides it. */
  lemma PendingCloseSurvivesRestart(s: Session)
    requires D.Rendered(PropsOf(s.ctx)) && s.display.pendingCloses > 0
    ensures Step(s, PressReset).display.timeRemaining == s.ctx.restTime
    ensures !Run(s, [PressReset, GraceElapsed]).ctx.isTimerVisible
  {
    assert [PressReset, GraceElapsed][1..] == [GraceElapsed];
  }

  /** The ten-second walk-through: start a 10 s rest, let ten ticks pass, see
      `0:00`, and after the grace delay the timer is gone. */
  lemma TenSecondRest()
    ensures var started := Step(Initial, Start(Some(10)));
      && started.display.timeRemaining == 10
      && var done := Run(started, Ticks(10));
      && done.display.timeRemaining == 0 && done.ctx.isTimerVisible
      && D.Render(PropsOf(done.ctx), done.display) == Some(D.View("0:00", false))
      && !Step(done, GraceElapsed).ctx.isTimerVisible
  {
    var started := Step(Initial, Start(Some(10)));
    assert started == Session(C.ContextValue(true, 10, 0, false), D.DisplayState(10, false, 0));
    CompletionClosesOnce(started, 0);
  }

  // ---------------------------------------------------------------------------
  // The objects

  /** The provider and the display as the app holds them. */
  class RestTimerApp {
    const provider: C.RestTimerProvider
    const display: D.RestTimerDisplay

    function State(): Session
      reads provider, display
    {
      Session(provider.Value(), display.State())
    }

    constructor ()
      ensures State() == Initial
      ensures fresh(provider) && fresh(display)
    {
      provider := new C.RestTimerProvider();
      display := new D.RestTimerDisplay(PropsOf(C.InitialValue));
    }

    /** Delivers one event to the provider and lets the display react. */
    method Dispatch(e: Event)
      modifies provider, display
      ensures State() == Step(old(State()), e)
    {
      var prev := PropsOf(provider.Value());
      match e {
        case Start(d) =>
          provider.StartRestTimer(d);
          display.OnPropsChanged(prev, PropsOf(provider.Value()));
        case Reset(d) =>
          provider.ResetRestTimer(d);
          display.OnPropsChanged(prev, PropsOf(provider.Value()));
        case Hide =>
          provider.HideRestTimer();
          display.OnPropsChanged(prev, PropsOf(provider.Value()));
        case SetWorkoutPaused(b) =>
          provider.SetWorkoutPaused(b);
          display.OnPropsChanged(prev, PropsOf(provider.Value()));
        case IntervalTick =>
          display.OnInterval(prev);
        case GraceElapsed =>
          var closeCalled := display.OnGraceElapsed();
          if closeCalled {
            provider.HideRestTimer();  // onClose
            display.OnPropsChanged(prev, PropsOf(provider.Value()));
          }
        case PressReset =>
          if D.Rendered(prev) {
            display.HandleReset(prev);
          }
        case PressPauseResume =>
          if D.Rendered(prev) {
            display.HandlePauseResume();
          }
      }
    }
  }
}
