/** The shared rest-timer state held by `RestTimerProvider`
    (src/contexts/RestTimerContext.tsx): whether the timer is shown, the rest
    duration, the reset counter and the workout-pause mirror, with the four
    operations that change them and the `useRestTimer` accessor. */
module RestTimerContext {
  import opened Wrappers

  /** The duration used when a caller passes none: two minutes. */
  const DefaultRestTime: int := 120

  /** The value the provider hands to its consumers. `resetTrigger` is an edge
      counter: each increment tells the display to restart its countdown even
      when `isTimerVisible` does not change. */
  datatype ContextValue = ContextValue(
    isTimerVisible: bool,
    restTime: int,
    resetTrigger: nat,
    workoutPaused: bool)

  const InitialValue: ContextValue := ContextValue(false, DefaultRestTime, 0, false)

  /** A `duration?: number` parameter with default 120. */
  function Duration(duration: Option<int>): int {
    duration.GetOr(DefaultRestTime)
  }

  // The four operations as functions on the shared value.

  function StartTimer(c: ContextValue, duration: Option<int>): ContextValue {
    c.(restTime := Duration(duration), isTimerVisible := true)
  }

  function HideTimer(c: ContextValue): ContextValue {
    c.(isTimerVisible := false)
  }

  function ResetTimer(c: ContextValue, duration: Option<int>): ContextValue {
    var bumped := c.(restTime := Duration(duration), resetTrigger := c.resetTrigger + 1);
    if !c.isTimerVisible then bumped.(isTimerVisible := true) else bumped
  }

  function PauseWorkout(c: ContextValue, paused: bool): ContextValue {
    c.(workoutPaused := paused)
  }

  /** `useRestTimer`: the provider's value, or the error it throws outside a provider. */
  function UseRestTimer(provided: Option<ContextValue>): (r: Result<ContextValue, string>)
    ensures r.Success? <==> provided.Some?
    ensures provided.Some? ==> r.value == provided.value
    ensures provided.None? ==> r.error == "useRestTimer must be used within a RestTimerProvider"
  {
    match provided
    case None => Failure("useRestTimer must be used within a RestTimerProvider")
    case Some(c) => Success(c)
  }

  /** Only a reset moves the counter, and by exactly one; a reset shows the
      timer whether or not it was shown, with the new duration. */
  lemma ResetTriggerSteps(c: ContextValue, duration: Option<int>, paused: bool)
    ensures ResetTimer(c, duration).resetTrigger == c.resetTrigger + 1
    ensures ResetTimer(c, duration).isTimerVisible
    ensures ResetTimer(c, duration).restTime == Duration(duration)
    ensures ResetTimer(c, duration).workoutPaused == c.workoutPaused
    ensures StartTimer(c, duration).resetTrigger == c.resetTrigger
    ensures HideTimer(c).resetTrigger == c.resetTrigger
    ensures PauseWorkout(c, paused).resetTrigger == c.resetTrigger
  {
  }

  /** Starting twice with the same duration is the same as starting once,
      and so is hiding twice; a start followed by a hide leaves only the
      new duration behind. */
  lemma StartAndHideIdempotent(c: ContextValue, duration: Option<int>)
    ensures StartTimer(StartTimer(c, duration), duration) == StartTimer(c, duration)
    ensures HideTimer(HideTimer(c)) == HideTimer(c)
    ensures HideTimer(StartTimer(c, duration)) == HideTimer(c).(restTime := Duration(duration))
  {
  }

  /** The provider: four pieces of React state updated by its operations. */
  class RestTimerProvider {
    var isTimerVisible: bool
    var restTime: int
    var resetTrigger: nat
    var workoutPaused: bool

    function Value(): ContextValue
      reads this
    {
      ContextValue(isTimerVisible, restTime, resetTrigger, workoutPaused)
    }

    constructor ()
      ensures Value() == InitialValue
      ensures !isTimerVisible && restTime == 120 && resetTrigger == 0 && !workoutPaused
    {
      isTimerVisible := false;
      restTime := DefaultRestTime;
      resetTrigger := 0;
      workoutPaused := false;
    }

    method StartRestTimer(duration: Option<int>)
      modifies this
      ensures isTimerVisible && restTime == Duration(duration)
      ensures resetTrigger == old(resetTrigger) && workoutPaused == old(workoutPaused)
      ensures Value() == StartTimer(old(Value()), duration)
    {
      restTime := Duration(duration);
      isTimerVisible := true;
    }

    method HideRestTimer()
      modifies this
      ensures !isTimerVisible
      ensures restTime == old(restTime) && resetTrigger == old(resetTrigger)
      ensures workoutPaused == old(workoutPaused)
      ensures Value() == HideTimer(old(Value()))
    {
      isTimerVisible := false;
    }

    method ResetRestTimer(duration: Option<int>)
      modifies this
      ensures isTimerVisible && restTime == Duration(duration)
      ensures resetTrigger == old(resetTrigger) + 1 && workoutPaused == old(workoutPaused)
      ensures Value() == ResetTimer(old(Value()), duration)
    {
      restTime := Duration(duration);
      resetTrigger := resetTrigger + 1;
      if !isTimerVisible {
        isTimerVisible := true;
      }
    }

    method SetWorkoutPaused(paused: bool)
      modifies this
      ensures workoutPaused == paused
      ensures isTimerVisible == old(isTimerVisible) && restTime == old(restTime)
      ensures resetTrigger == old(resetTrigger)
      ensures Value() == PauseWorkout(old(Value()), paused)
    {
      workoutPaused := paused;
    }
  }
}
