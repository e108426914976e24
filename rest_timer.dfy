/** The countdown display (src/components/RestTimer.tsx): the seconds left,
    its own pause flag, and the auto-close calls it has scheduled. The
    one-second interval, the effects that restart the countdown and the
    500 ms grace delay become explicit events. */
module RestTimer {
  import opened Wrappers
  import opened Text

  /** What the component receives: `isVisible`, `initialTime` (default 120),
      `workoutPaused` (default false) and `resetTrigger` (default 0). */
  datatype Props = Props(isVisible: bool, initialTime: int, workoutPaused: bool, resetTrigger: int)

  /** The component's own state. `pendingCloses` counts the `onClose` calls
      scheduled by a completed countdown and not yet delivered. */
  datatype DisplayState = DisplayState(timeRemaining: int, isPaused: bool, pendingCloses: nat)

  /** First render: `useState(initialTime)`, not paused, nothing scheduled.
      The mount-time effects set the same values. */
  function Mount(p: Props): DisplayState {
    DisplayState(p.initialTime, false, 0)
  }

  /** The interval runs exactly when the display is visible, neither it nor
      the workout is paused, and there is time left. */
  predicate Counting(p: Props, d: DisplayState) {
    p.isVisible && !d.isPaused && !p.workoutPaused && d.timeRemaining > 0
  }

  /** One interval callback: the last second goes to 0 and schedules the close. */
  function Tick(p: Props, d: DisplayState): (r: DisplayState)
    ensures !Counting(p, d) ==> r == d
    ensures Counting(p, d) ==> r.timeRemaining == d.timeRemaining - 1 && r.isPaused == d.isPaused
    ensures r.pendingCloses == d.pendingCloses + (if Counting(p, d) && r.timeRemaining == 0 then 1 else 0)
  {
    if !Counting(p, d) then d
    else if d.timeRemaining <= 1 then d.(timeRemaining := 0, pendingCloses := d.pendingCloses + 1)
    else d.(timeRemaining := d.timeRemaining - 1)
  }

  /** `handleReset`, and what either reset effect does. */
  function Restart(p: Props, d: DisplayState): DisplayState {
    d.(timeRemaining := p.initialTime, isPaused := false)
  }

  /** The two reset effects after a render with new props: one depends on
      `[isVisible, initialTime]` and restarts when visible, the other on
      `[resetTrigger, initialTime]` and restarts when `resetTrigger > 0`. */
  function PropsChanged(prev: Props, next: Props, d: DisplayState): (r: DisplayState)
    ensures r.pendingCloses == d.pendingCloses
    ensures prev == next ==> r == d
    ensures r != d ==> r.timeRemaining == next.initialTime && !r.isPaused
    ensures !prev.isVisible && next.isVisible ==> r.timeRemaining == next.initialTime && !r.isPaused
    ensures 0 <= prev.resetTrigger < next.resetTrigger ==> r.timeRemaining == next.initialTime && !r.isPaused
  {
    var visibilityEffect :=
      (prev.isVisible != next.isVisible || prev.initialTime != next.initialTime) && next.isVisible;
    var triggerEffect :=
      (prev.resetTrigger != next.resetTrigger || prev.initialTime != next.initialTime) && next.resetTrigger > 0;
    if visibilityEffect || triggerEffect then Restart(next, d) else d
  }

  /** `handlePauseResume`. */
  function PauseResume(d: DisplayState): DisplayState {
    d.(isPaused := !d.isPaused)
  }

  /** The card is rendered unless hidden or the workout is paused. */
  predicate Rendered(p: Props) {
    p.isVisible && !p.workoutPaused
  }

  /** What the card shows: the clock text and whether the play icon (paused) is shown. */
  datatype View = View(clock: string, showsPlay: bool)

  function Render(p: Props, d: DisplayState): Option<View> {
    if !Rendered(p) then None else Some(View(FormatMinSec(d.timeRemaining), d.isPaused))
  }

  /** A tick never takes a non-negative time below zero and never moves a
      non-positive one; a close is scheduled only by the tick that reaches 0. */
  lemma TickBounds(p: Props, d: DisplayState)
    ensures d.timeRemaining >= 0 ==> Tick(p, d).timeRemaining >= 0
    ensures d.timeRemaining <= 0 ==> Tick(p, d) == d
    ensures Tick(p, d).pendingCloses > d.pendingCloses ==>
      Tick(p, d).pendingCloses == d.pendingCloses + 1 && Tick(p, d).timeRemaining == 0
    ensures Counting(p, d) && d.timeRemaining > 1 ==> Tick(p, d).timeRemaining == d.timeRemaining - 1
  {
  }

  /** Pressing pause/resume twice restores the state; it never touches the time. */
  lemma PauseResumeInvolution(d: DisplayState)
    ensures PauseResume(PauseResume(d)) == d
    ensures PauseResume(d).timeRemaining == d.timeRemaining
  {
  }

  /** The display component: its state fields, updated by the interval, the
      effects and the buttons. */
  class RestTimerDisplay {
    var timeRemaining: int
    var isPaused: bool
    var pendingCloses: nat

    function State(): DisplayState
      reads this
    {
      DisplayState(timeRemaining, isPaused, pendingCloses)
    }

    constructor (p: Props)
      ensures State() == Mount(p)
    {
      timeRemaining := p.initialTime;
      isPaused := false;
      pendingCloses := 0;
    }

    /** `handleTimerComplete`: schedules `onClose` for after the grace delay. */
    method HandleTimerComplete()
      modifies this
      ensures pendingCloses == old(pendingCloses) + 1
      ensures timeRemaining == old(timeRemaining) && isPaused == old(isPaused)
    {
      pendingCloses := pendingCloses + 1;
    }

    /** One firing of the one-second interval (armed only while counting). */
    method OnInterval(p: Props)
      modifies this
      ensures State() == Tick(p, old(State()))
    {
      if p.isVisible && !isPaused && !p.workoutPaused && timeRemaining > 0 {
        if timeRemaining <= 1 {
          HandleTimerComplete();
          timeRemaining := 0;
        } else {
          timeRemaining := timeRemaining - 1;
        }
      }
    }

    /** The reset effects, run after a render whose props changed from `prev` to `next`. */
    method OnPropsChanged(prev: Props, next: Props)
      modifies this
      ensures State() == PropsChanged(prev, next, old(State()))
    {
      if (prev.isVisible != next.isVisible || prev.initialTime != next.initialTime) && next.isVisible {
        timeRemaining := next.initialTime;
        isPaused := false;
      }
      if (prev.resetTrigger != next.resetTrigger || prev.initialTime != next.initialTime) && next.resetTrigger > 0 {
        timeRemaining := next.initialTime;
        isPaused := false;
      }
    }

    method HandleReset(p: Props)
      modifies this
      ensures timeRemaining == p.initialTime && !isPaused && pendingCloses == old(pendingCloses)
      ensures State() == Restart(p, old(State()))
    {
      timeRemaining := p.initialTime;
      isPaused := false;
    }

    method HandlePauseResume()
      modifies this
      ensures isPaused == !old(isPaused)
      ensures timeRemaining == old(timeRemaining) && pendingCloses == old(pendingCloses)
    {
      isPaused := !isPaused;
    }

    /** The grace delay of one scheduled close has passed: `onClose` is called
        if one was scheduled. */
    method OnGraceElapsed() returns (closeCalled: bool)
      modifies this
      ensures closeCalled == (old(pendingCloses) > 0)
      ensures pendingCloses == if closeCalled then old(pendingCloses) - 1 else old(pendingCloses)
      ensures timeRemaining == old(timeRemaining) && isPaused == old(isPaused)
    {
      closeCalled := pendingCloses > 0;
      if closeCalled {
        pendingCloses := pendingCloses - 1;
      }
    }

    /** The render guard and what the card shows. */
    function Shown(p: Props): (v: Option<View>)
      reads this
      ensures v.None? <==> !p.isVisible || p.workoutPaused
      ensures v.Some? ==> v.value.showsPlay == isPaused
      ensures v.Some? && timeRemaining >= 0 ==> ParseMinSec(v.value.clock) == Some(timeRemaining)
    {
      if timeRemaining >= 0 then
        FormatMinSecRoundTrip(timeRemaining);
        Render(p, State())
      else
        Render(p, State())
    }
  }
}
