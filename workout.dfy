/** The workout builder page (src/pages/Workout.tsx): a named list of
    exercises, each with its sets, a started flag that unlocks the set
    buttons, and the cancel dialog. */
module Workout {
  import opened Wrappers
  import Text

  /** src/types/workout.ts */
  datatype WorkoutSet = WorkoutSet(reps: int, weight: int, completed: bool)

  datatype WorkoutExercise = WorkoutExercise(
    id: int,
    name: string,
    sets: seq<WorkoutSet>,
    primaryMuscles: seq<string>,
    secondaryMuscles: Option<seq<string>>,
    restTime: int)

  /** The exercise `handleAddExercise` appends; `id` stands for `Date.now()`. */
  function SampleExercise(id: int): WorkoutExercise {
    WorkoutExercise(
      id,
      "Barbell Back Squat",
      [WorkoutSet(10, 135, false), WorkoutSet(8, 155, false), WorkoutSet(6, 175, false)],
      ["Quads", "Glutes"],
      None,
      180)
  }

  /** Every added exercise has three open sets and a three-minute rest, shown as `3:00`. */
  lemma SampleExerciseShape(id: int)
    ensures |SampleExercise(id).sets| == 3
    ensures forall j :: 0 <= j < 3 ==> !SampleExercise(id).sets[j].completed
    ensures SampleExercise(id).restTime == 180
    ensures Text.FormatMinSec(SampleExercise(id).restTime) == "3:00"
  {
    Text.FormatMinSecExamples();
  }

  predicate ValidSetIndex(exercises: seq<WorkoutExercise>, index: int, setIndex: int) {
    0 <= index < |exercises| && 0 <= setIndex < |exercises[index].sets|
  }

  predicate NoSetCompleted(exercises: seq<WorkoutExercise>) {
    forall i, j :: 0 <= i < |exercises| && 0 <= j < |exercises[i].sets| ==> !exercises[i].sets[j].completed
  }

  /** The set button's click: flips `completed` of that one set. */
  function ToggleSet(exercises: seq<WorkoutExercise>, index: int, setIndex: int): (r: seq<WorkoutExercise>)
    requires ValidSetIndex(exercises, index, setIndex)
    ensures |r| == |exercises|
    ensures forall k :: 0 <= k < |r| && k != index ==> r[k] == exercises[k]
    ensures |r[index].sets| == |exercises[index].sets|
    ensures r[index].sets[setIndex].completed == !exercises[index].sets[setIndex].completed
    ensures r[index].sets[setIndex].reps == exercises[index].sets[setIndex].reps
    ensures r[index].sets[setIndex].weight == exercises[index].sets[setIndex].weight
    ensures forall m :: 0 <= m < |r[index].sets| && m != setIndex ==> r[index].sets[m] == exercises[index].sets[m]
    ensures r[index].(sets := exercises[index].sets) == exercises[index]
  {
    var e := exercises[index];
    var s := e.sets[setIndex];
    exercises[index := e.(sets := e.sets[setIndex := s.(completed := !s.completed)])]
  }

  /** Pressing the same set button twice gives back the list it started from. */
  lemma ToggleSetTwice(exercises: seq<WorkoutExercise>, index: int, setIndex: int)
    requires ValidSetIndex(exercises, index, setIndex)
    ensures ValidSetIndex(ToggleSet(exercises, index, setIndex), index, setIndex)
    ensures ToggleSet(ToggleSet(exercises, index, setIndex), index, setIndex) == exercises
  {
    var once := ToggleSet(exercises, index, setIndex);
    var twice := ToggleSet(once, index, setIndex);
    assert twice[index].sets == exercises[index].sets;
    assert twice[index] == exercises[index];
    assert forall k :: 0 <= k < |twice| ==> twice[k] == exercises[k];
  }

  /** The page's state. */
  class WorkoutPage {
    var workoutName: string
    var exercises: seq<WorkoutExercise>
    var workoutStarted: bool
    var showCancelAlert: bool

    /** Started only with exercises, nothing done before the start, and every
        exercise in the list is an added one: three sets, three minutes' rest. */
    ghost predicate Valid()
      reads this
    {
      && (workoutStarted ==> |exercises| > 0)
      && (!workoutStarted ==> NoSetCompleted(exercises))
      && (forall k :: 0 <= k < |exercises| ==> |exercises[k].sets| == 3 && exercises[k].restTime == 180)
    }

    constructor ()
      ensures Valid()
      ensures workoutName == "New Workout" && exercises == []
      ensures !workoutStarted && !showCancelAlert
    {
      workoutName := "New Workout";
      exercises := [];
      workoutStarted := false;
      showCancelAlert := false;
    }

    /** The Finish button is shown once the workout has started; on a valid
        page it is then never offered on an empty list, and while it is not
        offered no set is completed. */
    function FinishOffered(): (offered: bool)
      reads this
      ensures Valid() && offered ==> |exercises| > 0
      ensures Valid() && !offered ==> NoSetCompleted(exercises)
    {
      workoutStarted
    }

    /** The Start button is shown before the start, once there is an exercise:
        never together with Finish, and only while no set is completed. */
    function StartOffered(): (offered: bool)
      reads this
      ensures offered ==> |exercises| > 0 && !FinishOffered()
      ensures Valid() && offered ==> NoSetCompleted(exercises)
    {
      !workoutStarted && |exercises| > 0
    }

    /** An add button is shown: the empty-state button with no exercises, the
        floating one before the start. On a valid page that is exactly "not started". */
    function AddOffered(): (offered: bool)
      reads this
      requires Valid()
      ensures offered <==> !workoutStarted
    {
      |exercises| == 0 || (|exercises| > 0 && !workoutStarted)
    }

    /** The line under exercise `k`'s name: its number of sets and its rest,
        through `formatRestTime`. On a valid page every line reads the same. */
    function SetsInfo(k: int): (line: string)
      reads this
      requires Valid() && 0 <= k < |exercises|
      ensures line == "3 sets \U{2022} Rest: 3:00"
    {
      assert |exercises[k].sets| == 3 && exercises[k].restTime == 180;
      Text.FormatMinSecExamples();
      assert Text.IntToString(3) == "3";
      Text.IntToString(|exercises[k].sets|) + " sets \U{2022} Rest: " + Text.FormatMinSec(exercises[k].restTime)
    }

    /** The title bar: "Active Workout" exactly while Finish is offered; a
        "Workout Builder" page of a valid workout has no completed set. */
    function Title(): (title: string)
      reads this
      ensures title == "Active Workout" <==> FinishOffered()
      ensures Valid() && title != "Active Workout" ==> NoSetCompleted(exercises)
    {
      if workoutStarted then "Active Workout" else "Workout Builder"
    }

    method HandleCloseClick()
      modifies this
      ensures showCancelAlert
      ensures workoutName == old(workoutName) && exercises == old(exercises)
      ensures workoutStarted == old(workoutStarted)
    {
      showCancelAlert := true;
    }

    method HandleKeepWorkout()
      modifies this
      ensures !showCancelAlert
      ensures workoutName == old(workoutName) && exercises == old(exercises)
      ensures workoutStarted == old(workoutStarted)
    {
      showCancelAlert := false;
    }

    /** Closes the dialog and leaves for the dashboard (the returned route). */
    method HandleCancelWorkout() returns (route: string)
      modifies this
      ensures !showCancelAlert && route == "/dashboard"
      ensures workoutName == old(workoutName) && exercises == old(exercises)
      ensures workoutStarted == old(workoutStarted)
    {
      showCancelAlert := false;
      route := "/dashboard";
    }

    /** Appends one exercise at the end; `id` stands for `Date.now()`. */
    method HandleAddExercise(id: int)
      requires Valid()
      modifies this
      ensures Valid()
      ensures exercises == old(exercises) + [SampleExercise(id)]
      ensures workoutName == old(workoutName) && workoutStarted == old(workoutStarted)
      ensures showCancelAlert == old(showCancelAlert)
    {
      exercises := exercises + [SampleExercise(id)];
    }

    /** The Start button: the only place the started flag is set, and only to true. */
    method HandleStartWorkout()
      requires Valid() && StartOffered()
      modifies this
      ensures Valid() && workoutStarted
      ensures exercises == old(exercises) && workoutName == old(workoutName)
      ensures showCancelAlert == old(showCancelAlert)
    {
      workoutStarted := true;
    }

    /** The Finish button leaves for the dashboard and changes nothing. */
    method HandleFinishWorkout() returns (route: string)
      requires FinishOffered()
      ensures route == "/dashboard"
    {
      route := "/dashboard";
    }

    /** A click on a set's button; the button is disabled until the start. */
    method PressSetButton(index: int, setIndex: int)
      requires Valid() && ValidSetIndex(exercises, index, setIndex)
      modifies this
      ensures Valid()
      ensures exercises == if old(workoutStarted) then ToggleSet(old(exercises), index, setIndex) else old(exercises)
      ensures workoutName == old(workoutName) && workoutStarted == old(workoutStarted)
      ensures showCancelAlert == old(showCancelAlert)
    {
      if workoutStarted {
        exercises := ToggleSet(exercises, index, setIndex);
      }
    }
  }
}
