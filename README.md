# IronForge rest timer and exercise lists, modelled in Dafny

This project models the logic core of the IronForge workout app (Ionic/React):

- **The inter-set rest timer.** `RestTimerProvider` holds the shared state: visibility, rest time, a reset counter and the workout-pause mirror. The countdown display `RestTimer` counts down and shows `m:ss`. It can be paused locally and restarted. When it reaches 0 it schedules `onClose` after a 500 ms grace delay. `App.tsx` wires the two together, and the model runs them as one session driven by explicit events.
- **The workout builder page.** It appends sample exercises, toggles a set's `completed` flag once the workout has started, and offers Start and Finish at the right times. It also runs the cancel dialog.
- **The exercise library page.** It holds a catalog sorted by name and a case-insensitive search. Its filter drawer has three selection lists, each changed by a membership toggle, and a Reset.
- **The add-exercise picker.** It sorts by segment (most used, or by name) and filters by search. It shows a `displayCount` window that infinite scroll widens 20 at a time. Selecting an id adds that exercise.
- **The test suite's mock exercise API.** It filters and paginates a list, with `total`, `totalPages` and `hasMore`, and looks entries up by id (404 when unknown).

Files and modules:

| file | module | models |
|---|---|---|
| `wrappers.dfy` | `Wrappers` | `Option` (`undefined`, `null`) and `Result` (a thrown error) |
| `text.dfy` | `Text` | ASCII `toLowerCase`, `includes`, `toString`, `padStart(2, '0')`, JavaScript `%`, the `m:ss` format, and the name order |
| `seqs.dfy` | `Seqs` | `filter`, `find`, `slice` with JavaScript bounds, and a stable `sort` with a comparator |
| `search.dfy` | `Search` | the name-or-description search shared by three screens |
| `rest_timer_context.dfy` | `RestTimerContext` | `src/contexts/RestTimerContext.tsx` |
| `rest_timer.dfy` | `RestTimer` | `src/components/RestTimer.tsx` |
| `rest_timer_app.dfy` | `RestTimerApp` | the provider and display wired as in `src/App.tsx:89-95` |
| `workout.dfy` | `Workout` | `src/pages/Workout.tsx` and the types of `src/types/workout.ts` |
| `exercise_library.dfy` | `ExerciseLibrary` | `src/pages/Exercise.tsx` |
| `add_exercise.dfy` | `AddExercise` | `src/components/AddExercise.tsx` |
| `mock_api.dfy` | `MockApi` | `src/__tests__/mocks/handlers.ts` |

Component state that handlers update becomes a `class` whose fields are that state. Each method states its new state, either field by field or as `State() == Step(old(State()), …)`. The pure step functions are where the lemmas about event sequences live.

Timers become events:

- the display's one-second interval is `IntervalTick`;
- the end of a 500 ms close delay is `GraceElapsed`;
- the picker's 800 ms loading delay ends with `LoadingElapsed`;
- a load-more is applied when its delay has passed.

React effects become explicit reactions to a change of props. `RestTimer.PropsChanged` fires:

- the visibility effect when `isVisible` or `initialTime` changed and the timer is visible;
- the trigger effect when `resetTrigger` or `initialTime` changed and `resetTrigger > 0`.

The rest-timer controller does not clamp non-positive durations:

- A negative duration is stored as is.
- The countdown never runs (`RestTimer.Counting` needs a positive time), so no close is ever scheduled.
- The card shows JavaScript's rendering of the negative number, such as "-1:-5" for -5 seconds (`Text.FormatMinSecNegative`).

A finished countdown schedules a close 500 ms after reaching 0, and nothing cancels it. A restart during that delay is therefore hidden anyway. `RestTimerApp.PendingCloseSurvivesRestart` states this.

## Model

| member | source | states |
|---|---|---|
| `RestTimerContext.RestTimerProvider.constructor` | src/contexts/RestTimerContext.tsx:21-24 | the provider starts hidden, with rest time 120, reset counter 0 and the workout not paused |
| `RestTimerContext.RestTimerProvider.StartRestTimer` | src/contexts/RestTimerContext.tsx:26-29 | the timer becomes visible with the given duration (120 when omitted); the reset counter and the pause mirror are unchanged |
| `RestTimerContext.RestTimerProvider.HideRestTimer` | src/contexts/RestTimerContext.tsx:31-33 | only the visibility changes, to hidden |
| `RestTimerContext.RestTimerProvider.ResetRestTimer` | src/contexts/RestTimerContext.tsx:35-41 | sets the duration, raises the reset counter by exactly one, and leaves the timer visible whether or not it was |
| `RestTimerContext.RestTimerProvider.SetWorkoutPaused` | src/contexts/RestTimerContext.tsx:51 | sets the pause mirror and no other field |
| `RestTimerContext.UseRestTimer` | src/contexts/RestTimerContext.tsx:61-66 | outside a provider it fails with "useRestTimer must be used within a RestTimerProvider"; inside one it returns the provider's value unchanged |
| `RestTimerContext.ResetTriggerSteps` | src/contexts/RestTimerContext.tsx:35-41 | a reset moves the counter by exactly one and shows the timer with the new duration; start, hide and pause never move the counter |
| `RestTimerContext.StartAndHideIdempotent` | src/contexts/RestTimerContext.tsx:26-33 | starting twice with one duration equals starting once; hiding twice equals hiding once; start then hide leaves only the new duration behind |
| `RestTimer.RestTimerDisplay.constructor` | src/components/RestTimer.tsx:30-32 | the display mounts with the initial time, not paused, nothing scheduled |
| `RestTimer.RestTimerDisplay.OnInterval` | src/components/RestTimer.tsx:35-57 | one interval firing is the tick: nothing unless visible, neither pause active and time left; above 1 it subtracts one; at 1 or below it sets 0 and schedules the close |
| `RestTimer.RestTimerDisplay.OnPropsChanged` | src/components/RestTimer.tsx:59-73 | restarts from `initialTime`, unpaused, exactly when one of the two effects fires for the prop change |
| `RestTimer.RestTimerDisplay.HandleReset` | src/components/RestTimer.tsx:90-93 | restores the initial time and clears the local pause; scheduled closes stay |
| `RestTimer.RestTimerDisplay.HandlePauseResume` | src/components/RestTimer.tsx:95-97 | negates the local pause flag and touches nothing else |
| `RestTimer.RestTimerDisplay.HandleTimerComplete` | src/components/RestTimer.tsx:99-104 | schedules one more `onClose` |
| `RestTimer.RestTimerDisplay.OnGraceElapsed` | src/components/RestTimer.tsx:101-103 | a close is delivered exactly when one was scheduled, and then one fewer is pending |
| `RestTimer.RestTimerDisplay.Shown` | src/components/RestTimer.tsx:106-139 | nothing is rendered exactly when hidden or the workout is paused; otherwise the clock text reads back as the remaining seconds and the play icon shows exactly when paused |
| `RestTimer.Tick` | src/components/RestTimer.tsx:35-57 | a tick while not counting changes nothing; a counting tick takes exactly one second off and keeps the pause flag; it schedules one close exactly when it reaches 0 |
| `RestTimer.PropsChanged` | src/components/RestTimer.tsx:59-73 | a re-render never schedules or cancels a close and changes nothing when the props are the same; any change it makes is a restart from `initialTime`, unpaused; showing the timer restarts it, and so does a raised reset counter |
| `RestTimer.TickBounds` | src/components/RestTimer.tsx:36-45 | a tick keeps a non-negative time non-negative; it leaves a time at or below 0 alone; it subtracts one above 1; a close is scheduled only by the tick that reaches 0 |
| `RestTimer.PauseResumeInvolution` | src/components/RestTimer.tsx:95-97 | pause/resume twice restores the state, and it never changes the time |
| `Text.FormatMinSecRoundTrip` | src/components/RestTimer.tsx:84-88 | for every non-negative number of seconds, the `m:ss` text parses back to that number: minutes, a colon, two digits below 60 |
| `Text.FormatMinSecInjective` | src/components/RestTimer.tsx:84-88 | two different durations never show the same label |
| `Text.FormatMinSecExamples` | src/pages/Workout.tsx:77-81 | 0, 90, 120 and 180 seconds read "0:00", "1:30", "2:00" and "3:00" |
| `Text.JsRemainder` | src/components/RestTimer.tsx:86 | `%` is `a - b * Math.trunc(a / b)`, so the remainder keeps the dividend's sign: in `0..59` for non-negative seconds, in `-59..0` for negative ones |
| `Text.FormatMinSec` | src/components/RestTimer.tsx:84-88 | `formatTime` (and `formatRestTime` at src/pages/Workout.tsx:77-81): a non-negative duration shows digits, a colon and two digits; a negative one starts with a minus sign |
| `Text.FormatMinSecNegative` | src/components/RestTimer.tsx:84-88 | -5, -65 and -60 seconds read "-1:-5", "-2:-5" and "-1:00", with floor division for the minutes and a signed remainder for the seconds |
| `RestTimerApp.RestTimerApp.constructor` | src/App.tsx:89-95 | the app starts from the provider's initial value and a display mounted on it |
| `RestTimerApp.RestTimerApp.Dispatch` | src/App.tsx:89-95 | delivering an event to the provider and letting the wired display react is one `Step` of the session |
| `RestTimerApp.Step` | src/App.tsx:89-95 | the display's own events (tick, its two buttons) never change the shared value; only a reset moves the counter, by one; an event schedules at most one close; a grace delay hides the timer and uses up one close exactly when one is pending, and is otherwise a no-op |
| `RestTimerApp.ResetTriggerCountsResets` | src/contexts/RestTimerContext.tsx:37 | after any event sequence the reset counter has grown by exactly the number of resets in it, so it never decreases |
| `RestTimerApp.StepKeepsNonNegative` | src/components/RestTimer.tsx:38-44 | with non-negative durations, one event of any kind keeps the remaining time and the rest time non-negative |
| `RestTimerApp.TimeRemainingNeverNegative` | src/components/RestTimer.tsx:38-44 | with non-negative durations, the remaining time is never negative after any sequence of events |
| `RestTimerApp.IdleTicksChangeNothing` | src/components/RestTimer.tsx:36 | while hidden, paused by either pause, or at 0, any number of ticks changes nothing and schedules no close |
| `RestTimerApp.CountdownProgress` | src/components/RestTimer.tsx:38-44 | a running countdown loses exactly one second per tick before its last second |
| `RestTimerApp.CountdownCompletes` | src/components/RestTimer.tsx:38-43 | after as many ticks as seconds the time is 0, the timer is still shown, and exactly one close is scheduled |
| `RestTimerApp.CompletionClosesOnce` | src/components/RestTimer.tsx:99-104 | a finished countdown still renders "0:00", further ticks schedule no second close, and the grace delay hides the timer with nothing left pending |
| `RestTimerApp.ClosesComeOnlyFromCountdown` | src/components/RestTimer.tsx:39-42 | the only event that schedules a close is a tick taking a running countdown to 0 |
| `RestTimerApp.WorkoutPauseFreezes` | src/components/RestTimer.tsx:35-57 | pausing the workout hides the card; pause, any ticks, then resume gives back exactly the earlier session, so the countdown continues from the frozen value |
| `RestTimerApp.LocalPauseFreezes` | src/components/RestTimer.tsx:95-97 | the card's own pause freezes the countdown across any ticks, and pressing it again resumes from the frozen value |
| `RestTimerApp.StartRestartsIff` | src/components/RestTimer.tsx:60-65 | a start restarts the countdown exactly when the timer was hidden or the duration changes; a repeated start while shown leaves it running |
| `RestTimerApp.ResetAlwaysRestarts` | src/components/RestTimer.tsx:68-73 | a reset always restarts from the new duration, unpaused, and shows the timer |
| `RestTimerApp.HideKeepsCountdown` | src/contexts/RestTimerContext.tsx:31-33 | hiding changes only visibility: time, pause and scheduled closes stay |
| `RestTimerApp.PendingCloseSurvivesRestart` | src/components/RestTimer.tsx:99-104 | a close scheduled before a reset-button restart still arrives and hides the restarted timer |
| `RestTimerApp.TenSecondRest` | src/App.tsx:89-95 | a 10 s rest counts to 0 in ten ticks while still shown as "0:00", and the grace delay then hides it |
| `Workout.SampleExerciseShape` | src/pages/Workout.tsx:53-63 | every added exercise has three open sets and a 180 s rest, shown as "3:00" |
| `Workout.ToggleSet` | src/pages/Workout.tsx:188-192 | flips `completed` of exactly the chosen set; its reps and weight, every other set and every other exercise are unchanged |
| `Workout.ToggleSetTwice` | src/pages/Workout.tsx:190 | toggling the same set twice gives back the original list |
| `Workout.WorkoutPage.constructor` | src/pages/Workout.tsx:33-36 | the page starts as "New Workout", with no exercises, not started and the cancel alert closed |
| `Workout.WorkoutPage.HandleCloseClick` | src/pages/Workout.tsx:38-40 | opens the cancel alert and changes nothing else |
| `Workout.WorkoutPage.HandleCancelWorkout` | src/pages/Workout.tsx:42-45 | closes the alert and goes to "/dashboard" |
| `Workout.WorkoutPage.HandleKeepWorkout` | src/pages/Workout.tsx:47-49 | closes the cancel alert and changes nothing else |
| `Workout.WorkoutPage.HandleAddExercise` | src/pages/Workout.tsx:51-65 | appends exactly one sample exercise at the end; earlier exercises are unchanged and in order |
| `Workout.WorkoutPage.HandleStartWorkout` | src/pages/Workout.tsx:67-70 | sets the started flag, the only update it ever gets, and keeps the page invariant |
| `Workout.WorkoutPage.HandleFinishWorkout` | src/pages/Workout.tsx:72-75 | goes to "/dashboard" |
| `Workout.WorkoutPage.PressSetButton` | src/pages/Workout.tsx:183-192 | before the start a set button changes nothing, so no set is completed before the start; after it, it toggles that set |
| `Workout.WorkoutPage.AddOffered` | src/pages/Workout.tsx:209-237 | an add button (empty-state or floating) is offered exactly while the workout has not started |
| `Workout.WorkoutPage.StartOffered` | src/pages/Workout.tsx:98-103 | the Start button is offered only with an exercise, never together with Finish, and only while no set is completed |
| `Workout.WorkoutPage.FinishOffered` | src/pages/Workout.tsx:104-109 | the Finish button is never offered on an empty list, and while it is not offered no set is completed |
| `Workout.WorkoutPage.Title` | src/pages/Workout.tsx:95 | the title reads "Active Workout" exactly while Finish is offered; a "Workout Builder" page has no completed set |
| `Workout.WorkoutPage.SetsInfo` | src/pages/Workout.tsx:159 | every exercise's line reads "3 sets • Rest: 3:00" |
| `Seqs.Filter` | src/pages/Exercise.tsx:54 | `filter` keeps only passing elements, all of them, and never grows the list |
| `Seqs.FilterAppend` | src/pages/Exercise.tsx:88-91 | filtering keeps the order: filtering two parts put together is putting their filtered parts together |
| `Seqs.FilterDistinct` | src/pages/Exercise.tsx:54 | filtering a list without repeats gives a list without repeats |
| `Seqs.Find` | src/components/AddExercise.tsx:253 | `find` returns nothing exactly when no element passes; otherwise it returns an element of the list that passes |
| `Seqs.FirstIndex` | src/components/AddExercise.tsx:253 | the index found is the first that passes |
| `Seqs.Slice` | src/components/AddExercise.tsx:369 | `slice` gives the elements between the two bounds; negative bounds count from the end, and both bounds are clamped to the list |
| `Seqs.SliceAdjacent` | src/__tests__/mocks/handlers.ts:67-69 | two adjacent slices put together are the slice spanning both |
| `Seqs.SortBySorted` | src/pages/Exercise.tsx:86 | under a total preorder, the sort gives a list in comparator order that is a permutation of its input |
| `Text.IncludesIffOccurs` | src/pages/Exercise.tsx:89-90 | `includes` holds exactly when the text occurs at some position |
| `Text.LexLeTotal` | src/pages/Exercise.tsx:86 | the name order used for `localeCompare` compares any two names |
| `Text.LexLeTransitive` | src/pages/Exercise.tsx:86 | the name order is transitive |
| `Text.LexLeAntisymmetric` | src/pages/Exercise.tsx:86 | two names ordered both ways are the same name |
| `Search.MatchesIffOccurs` | src/pages/Exercise.tsx:88-91 | an exercise matches exactly when the lower-cased query occurs in its lower-cased name or description |
| `Search.MatchesIgnoresQueryCase` | src/pages/Exercise.tsx:89-90 | the case of the query does not change whether an exercise matches |
| `Search.SearchResults` | src/pages/Exercise.tsx:88-91 | the result keeps exactly the matching entries and nothing else, and an empty search keeps the whole list |
| `Search.SearchResultsAppend` | src/components/AddExercise.tsx:266-272 | the search keeps list order |
| `Search.SearchResultsIgnoreQueryCase` | src/components/AddExercise.tsx:266-272 | the same query typed in another case gives the same results |
| `ExerciseLibrary.ByNameTotalPreorder` | src/pages/Exercise.tsx:86 | the name comparator is a total preorder, so the sort is well defined |
| `ExerciseLibrary.CatalogSortedByName` | src/pages/Exercise.tsx:75-86 | the page's catalog is in name order and holds exactly the ten written entries |
| `ExerciseLibrary.Toggle` | src/pages/Exercise.tsx:51-57 | afterwards the value is selected exactly when it was not, and every other value keeps its selection |
| `ExerciseLibrary.ToggleKeepsDistinct` | src/pages/Exercise.tsx:52-56 | a selection list without repeats stays without repeats |
| `ExerciseLibrary.ToggleTwiceAbsent` | src/pages/Exercise.tsx:52-56 | toggling an unselected value twice gives back the same list |
| `ExerciseLibrary.ToggleTwicePresent` | src/pages/Exercise.tsx:52-56 | toggling a selected value twice keeps the same selection but moves that value to the end |
| `ExerciseLibrary.ToggleKeepsSelection` | src/pages/Exercise.tsx:59-73 | toggling an offered chip keeps a list of offered values without repeats; the same toggle serves all three lists |
| `ExerciseLibrary.ExerciseLibraryPage.constructor` | src/pages/Exercise.tsx:26-32 | the page starts with an empty search, all three exercise types, no muscle group, no equipment, the catalog sorted by name, and the drawer and menu closed |
| `ExerciseLibrary.ExerciseLibraryPage.Listed` | src/pages/Exercise.tsx:88-91 | the listed entries are exactly the catalog entries matching the search; an empty search lists the whole catalog |
| `ExerciseLibrary.ExerciseLibraryPage.SetSearchText` | src/pages/Exercise.tsx:121 | sets the search text and nothing else |
| `ExerciseLibrary.ExerciseLibraryPage.ToggleExerciseType` | src/pages/Exercise.tsx:51-57 | toggles the type's membership; the other lists, the search and the drawer are unchanged |
| `ExerciseLibrary.ExerciseLibraryPage.ToggleMuscleGroup` | src/pages/Exercise.tsx:59-65 | toggles the group's membership; the rest is unchanged |
| `ExerciseLibrary.ExerciseLibraryPage.ToggleEquipment` | src/pages/Exercise.tsx:67-73 | toggles the equipment's membership; the rest is unchanged |
| `ExerciseLibrary.ExerciseLibraryPage.ResetFilters` | src/pages/Exercise.tsx:207-211 | restores the types to strength, cardio and mobility and empties the other two lists; the search and the drawer stay |
| `ExerciseLibrary.ExerciseLibraryPage.SetFilterDrawerOpen` | src/pages/Exercise.tsx:128 | opens or closes the drawer and changes nothing else |
| `ExerciseLibrary.ExerciseLibraryPage.SetMenuOpen` | src/pages/Exercise.tsx:46-49 | opens or closes an entry's menu and changes nothing else |
| `AddExercise.CatalogIdsDistinct` | src/components/AddExercise.tsx:52-242 | the ten written entries have ten different ids |
| `AddExercise.SegmentOrderTotalPreorder` | src/components/AddExercise.tsx:243-249 | both segment comparators are total preorders |
| `AddExercise.SortedForSegment` | src/components/AddExercise.tsx:243-249 | in "most-used" the completion counts never increase down the list; in any other segment the names are in order; either way the entries are the written ones |
| `AddExercise.Displayed` | src/components/AddExercise.tsx:369 | the displayed items are exactly the first min(`displayCount`, filtered size) filtered entries |
| `AddExercise.LoadMore` | src/components/AddExercise.tsx:289 | a load-more sets the window to 20 more entries or to the whole filtered list, whichever is smaller |
| `AddExercise.LoadMoreWidens` | src/components/AddExercise.tsx:287-292 | while scrolling is enabled, a load-more adds between 1 and 20 entries and never exceeds the filtered size; it disables scrolling exactly when it reaches the end |
| `AddExercise.LoadMoreReachesEnd` | src/components/AddExercise.tsx:287-292 | `n` load-mores disable scrolling once the window plus `20 * n` covers the filtered list |
| `AddExercise.DisabledShowsAll` | src/components/AddExercise.tsx:399 | once scrolling is disabled the window is the whole filtered list |
| `AddExercise.Select` | src/components/AddExercise.tsx:251-258 | a known id adds an entry with that id and closes; an unknown id does neither |
| `AddExercise.AddExercisePicker.constructor` | src/components/AddExercise.tsx:45-49 | the picker starts with an empty search, segment "most-used", the checkbox off, loading, and a window of 20 |
| `AddExercise.AddExercisePicker.SetOpen` | src/components/AddExercise.tsx:275-284 | opening sets loading, resets the window to 20 and arms the timer; closing clears the timer; the search and segment survive |
| `AddExercise.AddExercisePicker.LoadingElapsed` | src/components/AddExercise.tsx:279-281 | the armed timer ends loading; a cleared one does nothing |
| `AddExercise.AddExercisePicker.SetSearchText` | src/components/AddExercise.tsx:323 | sets the search text and nothing else |
| `AddExercise.AddExercisePicker.SetSegment` | src/components/AddExercise.tsx:342-344 | sets the segment and nothing else |
| `AddExercise.AddExercisePicker.SetCopyFromLastWorkout` | src/components/AddExercise.tsx:333-335 | sets the checkbox and nothing else |
| `AddExercise.AddExercisePicker.LoadMoreExercises` | src/components/AddExercise.tsx:287-292 | the window becomes min(`displayCount` + 20, filtered size), never beyond the filtered list |
| `AddExercise.AddExercisePicker.View` | src/components/AddExercise.tsx:294-403 | nothing is rendered exactly when closed; eight skeleton rows exactly while loading; otherwise the first min(`displayCount`, filtered size) entries, with scrolling disabled exactly when `displayCount` reaches the filtered size |
| `AddExercise.AddExercisePicker.SelectExercise` | src/components/AddExercise.tsx:251-258 | a tap adds and closes exactly when the sorted list has an entry with that id, and the entry added is a catalog entry with that id |
| `MockApi.CeilDiv` | src/__tests__/mocks/handlers.ts:79 | `Math.ceil(n / limit)`: the least page count whose pages hold `n` entries |
| `MockApi.FilteredFor` | src/__tests__/mocks/handlers.ts:49-64 | filtering never grows the list, and with neither a search nor a muscle group it returns the whole list |
| `MockApi.FilteredForExactly` | src/__tests__/mocks/handlers.ts:49-64 | every entry left comes from the list, matches the search and works the muscle group when one is given; every entry of the list doing both is kept |
| `MockApi.Paginate` | src/__tests__/mocks/handlers.ts:66-81 | the reply reports the whole filtered size and echoes the page asked for |
| `MockApi.ListExercises` | src/__tests__/mocks/handlers.ts:42-83 | the list request always answers 200 with a list, echoing the page, with the filtered size as the total |
| `MockApi.ListDefaults` | src/__tests__/mocks/handlers.ts:44-45 | an absent page or limit means page 1 of 20 |
| `MockApi.PaginateContents` | src/__tests__/mocks/handlers.ts:67-69 | for positive page and limit the page holds the filtered entries from `(page - 1) * limit` on, at most `limit` of them, as many as remain |
| `MockApi.PaginateKeepsSelected` | src/__tests__/mocks/handlers.ts:66-69 | any page cut from a list of selected entries holds only selected entries |
| `MockApi.ListPageMatches` | src/__tests__/mocks/handlers.ts:49-69 | every entry on any page of the list endpoint matches the search and works the muscle group when one is given |
| `MockApi.TotalIndependentOfPage` | src/__tests__/mocks/handlers.ts:77-79 | `total` and `totalPages` do not depend on the page asked for |
| `MockApi.PageCountAndHasMore` | src/__tests__/mocks/handlers.ts:79-80 | `totalPages` is the ceiling of total over limit, and `hasMore` holds exactly when `page * limit` is below the total |
| `MockApi.ListPagesShareFilter` | src/__tests__/mocks/handlers.ts:49-81 | the reply for any page and limit is that page cut from one filtered list, the same for every page; with `PaginateContents` it holds the filtered entries from `(page - 1) * limit` on |
| `MockApi.PagesUpToPrefix` | src/__tests__/mocks/handlers.ts:67-69 | pages 1 to `k` put together are the first `k * limit` filtered entries |
| `MockApi.PagesConcatenate` | src/__tests__/mocks/handlers.ts:67-69 | pages 1 to `totalPages` put together are exactly the filtered list |
| `MockApi.GetExercise` | src/__tests__/mocks/handlers.ts:86-103 | an unknown id gives 404 with "Exercise not found"; a known one gives 200 with an entry having that id |
| `MockApi.MockExercisesFound` | src/__tests__/mocks/handlers.ts:86-103 | each mock exercise is returned under its own id |
| `MockApi.AddToWorkout` | src/__tests__/mocks/handlers.ts:106-112 | adding an exercise to any workout answers 201 with a success message |

## Left out

- The real timers are left out: `setInterval`, `clearInterval`, the `intervalId` state and the `setTimeout` handles. Each interval firing, each end of a delay and the end of the loading delay is an explicit event. The unmount cleanup effect (`src/components/RestTimer.tsx:75-82`) is left out with them.
- React's scheduling is abstracted: batching of state updates, effect ordering within one render, and StrictMode double invocation. After each event the model applies the effects of the props that changed.
- `localeCompare` is modelled as code-point lexicographic order, which is a total order. Locale collation, such as ignoring case or accents, is not modelled.
- `toLowerCase` lowers ASCII letters only.
- The `id` that `Date.now()` gives a new workout exercise is a parameter.
- `history.push('/dashboard')` becomes a returned route. `history.goBack()` and the `console.log` calls are not modelled.
- Weights are integers. The source's `number` could hold fractions, but the app only writes whole numbers.
- Numbers are unbounded integers. Floating-point rounding of large products in the mock API is not modelled.
- The set button's handler copies only the outer list, then flips `completed` on a set object shared with the old state (`src/pages/Workout.tsx:189-190`). The model flips it in a new value. Aliasing with earlier renders is not captured.
- The workout's elapsed-time clock, the workout-level pause button and the dispatch from a completed set to the rest timer are absent from `src/pages/Workout.tsx`, so they are not modelled.
- The picker's instructions, commentary and similar-exercise ids are display text and are not modelled. The same goes for the library's info buttons and menu items, which only log.
- The filter drawer's selections in `src/pages/Exercise.tsx` are kept but never narrow the list, as in the source. `selectedFilter` is constant and left out.
- `ExerciseLibrary.ExerciseLibraryPage.ToggleExerciseType`: requires a value offered by the drawer (the same holds for `ToggleMuscleGroup` and `ToggleEquipment`), because the page only calls it with those. `ExerciseLibrary.Toggle` itself takes any value.
- `AddExercise.AddExercisePicker.LoadMoreExercises`: uses the filtered size when the delay ends, not the size captured when the scroll began. A search typed during the 500 ms delay can make these differ.
- `MockApi.ListExercises`: requires a non-zero limit. A zero limit makes `totalPages` `Infinity` or `NaN`, which integers cannot hold. Zero and negative pages, and negative limits, are modelled with JavaScript's `slice` bounds. The ordering lemmas assume a positive page and limit.
- `parseInt` on malformed query text (`NaN`) is not modelled: query parameters arrive already parsed, and an empty one counts as absent.
- The request and response plumbing is not modelled: `rest.get`, `rest.post`, `ctx.delay`, `ctx.status` and `ctx.json`.
- Route matching between handlers is not modelled. This includes which handler serves `/api/exercises/error`, registered after `/api/exercises/:id`, whose pattern also matches it. The 500 response of that handler is therefore not modelled.
- `Workout.WorkoutPage.HandleStartWorkout`: requires that the Start button is shown (started flag off, at least one exercise), because the button exists only then.
- `Workout.WorkoutPage.HandleFinishWorkout`: requires that the Finish button is shown.
