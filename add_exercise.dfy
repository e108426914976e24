/** The add-exercise picker (src/components/AddExercise.tsx): a catalog
    sorted by the chosen segment, filtered by the search text, and shown
    through a `displayCount` window that infinite scroll widens 20 at a time.
    The 800 ms loading delay ends with an explicit event. */
module AddExercise {
  import opened Wrappers
  import opened Seqs
  import opened Search
  import Text

  /** One catalog entry; its instructions, commentary and similar-exercise
      ids are display text and are not modelled. */
  datatype PickerExercise = PickerExercise(
    id: string,
    name: string,
    description: string,
    completionCount: int,
    muscleGroups: seq<string>,
    primaryMuscles: seq<string>,
    secondaryMuscles: seq<string>)

  /** The catalog in the order it is written. */
  const Catalog: seq<PickerExercise> := [
    PickerExercise("barbell-back-squat", "Barbell Back Squat",
      "Compound lower body exercise targeting quads, glutes, and hamstrings", 23,
      ["Quads", "Glutes", "Back"], ["Quads", "Glutes"], ["Back", "Core"]),
    PickerExercise("bench-press", "Bench Press",
      "Upper body compound movement for chest, shoulders, and triceps", 18,
      ["Chest", "Shoulders", "Triceps"], ["Chest"], ["Shoulders", "Triceps"]),
    PickerExercise("deadlift", "Deadlift",
      "Full body compound exercise focusing on posterior chain", 15,
      ["Back", "Glutes", "Posterior thighs"], ["Back", "Glutes", "Hamstrings"], ["Traps", "Forearms", "Core"]),
    PickerExercise("dumbbell-bicep-curl", "Dumbbell Bicep Curl",
      "Isolation exercise for bicep development", 31,
      ["Biceps", "Forearms"], ["Biceps"], ["Forearms"]),
    PickerExercise("lat-pulldown", "Lat Pulldown",
      "Upper body pulling exercise for back and biceps", 12,
      ["Back", "Biceps"], ["Lats", "Rhomboids"], ["Biceps", "Rear Delts"]),
    PickerExercise("leg-press", "Leg Press",
      "Machine-based lower body exercise for quad development", 8,
      ["Quads", "Glutes"], ["Quads"], ["Glutes", "Calves"]),
    PickerExercise("overhead-press", "Overhead Press",
      "Standing shoulder press for deltoid strength", 14,
      ["Shoulders", "Triceps", "Abs"], ["Shoulders"], ["Triceps", "Core"]),
    PickerExercise("pull-ups", "Pull-ups",
      "Bodyweight upper body pulling exercise", 27,
      ["Back", "Biceps", "Forearms"], ["Lats", "Rhomboids"], ["Biceps", "Rear Delts", "Forearms"]),
    PickerExercise("romanian-deadlift", "Romanian Deadlift",
      "Hip-hinge movement targeting hamstrings and glutes", 9,
      ["Posterior thighs", "Glutes", "Back"], ["Hamstrings", "Glutes"], ["Lower Back", "Core"]),
    PickerExercise("tricep-dips", "Tricep Dips",
      "Bodyweight exercise for tricep development", 22,
      ["Triceps", "Chest", "Shoulders"], ["Triceps"], ["Chest", "Front Delts"])
  ]

  /** Every id is written once, so a selection can pick out only one entry. */
  lemma CatalogIdsDistinct()
    ensures |Catalog| == 10
    ensures forall i, j :: 0 <= i < j < |Catalog| ==> Catalog[i].id != Catalog[j].id
  {
  }

  /** The number of entries shown on opening and added by each load-more. */
  const PageSize: nat := 20

  // ---------------------------------------------------------------------------
  // Segment order

  /** The "most-used" comparator `b.completionCount - a.completionCount <= 0`. */
  predicate MostUsedFirst(a: PickerExercise, b: PickerExercise) {
    a.completionCount >= b.completionCount
  }

  /** The comparator of every other segment: `a.name.localeCompare(b.name) <= 0`. */
  predicate ByName(a: PickerExercise, b: PickerExercise) {
    Text.LexLe(a.name, b.name)
  }

  function SegmentOrder(segment: string): (PickerExercise, PickerExercise) -> bool {
    if segment == "most-used" then MostUsedFirst else ByName
  }

  lemma SegmentOrderTotalPreorder(segment: string)
    ensures TotalPreorder(SegmentOrder(segment))
  {
    if segment != "most-used" {
      forall a: PickerExercise, b: PickerExercise
        ensures ByName(a, b) || ByName(b, a)
      {
        Text.LexLeTotal(a.name, b.name);
      }
      forall a: PickerExercise, b: PickerExercise, c: PickerExercise | ByName(a, b) && ByName(b, c)
        ensures ByName(a, c)
      {
        Text.LexLeTransitive(a.name, b.name, c.name);
      }
    }
  }

  /** The catalog as the picker holds it for the selected segment. */
  function SortedFor(written: seq<PickerExercise>, segment: string): seq<PickerExercise> {
    SortBy(written, SegmentOrder(segment))
  }

  /** In "most-used" the counts never increase down the list; in any other
      segment the names are in order; either way it is the same entries. */
  lemma SortedForSegment(written: seq<PickerExercise>, segment: string)
    ensures multiset(SortedFor(written, segment)) == multiset(written)
    ensures segment == "most-used" ==>
      forall i, j :: 0 <= i < j < |SortedFor(written, segment)| ==>
        SortedFor(written, segment)[i].completionCount >= SortedFor(written, segment)[j].completionCount
    ensures segment != "most-used" ==>
      forall i, j :: 0 <= i < j < |SortedFor(written, segment)| ==>
        Text.LexLe(SortedFor(written, segment)[i].name, SortedFor(written, segment)[j].name)
  {
    SegmentOrderTotalPreorder(segment);
    SortBySorted(written, SegmentOrder(segment));
  }

  // ---------------------------------------------------------------------------
  // Search and the display window

  /** `filteredExercises`: the entries whose name or description contains the
      search text, ignoring case, in list order. */
  function Filtered(exercises: seq<PickerExercise>, searchText: string): seq<PickerExercise> {
    SearchResults(exercises, (e: PickerExercise) => e.name, (e: PickerExercise) => e.description, searchText)
  }

  /** `filteredExercises.slice(0, displayCount)`: the first
      `min(displayCount, |filtered|)` filtered entries. */
  function Displayed(filtered: seq<PickerExercise>, displayCount: nat): (r: seq<PickerExercise>)
    ensures |r| == Min(displayCount, |filtered|)
    ensures forall i :: 0 <= i < |r| ==> r[i] == filtered[i]
  {
    Slice(filtered, 0, displayCount)
  }

  /** The infinite-scroll `disabled` condition. */
  predicate ScrollDisabled(displayCount: nat, filteredLength: nat) {
    displayCount >= filteredLength
  }

  /** The count `loadMoreExercises` sets: `Math.min(prev + 20, filtered.length)`. */
  function LoadMore(displayCount: nat, filteredLength: nat): (r: nat)
    ensures r <= filteredLength && r <= displayCount + PageSize
    ensures r == filteredLength || r == displayCount + PageSize
  {
    Min(displayCount + PageSize, filteredLength)
  }

  /** While scrolling is enabled, a load-more shows 20 more entries or all the
      rest, never more than there are, and disables scrolling exactly when it
      reaches the end. */
  lemma LoadMoreWidens(displayCount: nat, filteredLength: nat)
    requires !ScrollDisabled(displayCount, filteredLength)
    ensures displayCount < LoadMore(displayCount, filteredLength) <= filteredLength
    ensures LoadMore(displayCount, filteredLength) - displayCount <= PageSize
    ensures ScrollDisabled(LoadMore(displayCount, filteredLength), filteredLength)
      <==> displayCount + PageSize >= filteredLength
  {
  }

  /** From any window, `n` load-mores disable scrolling once the window plus
      `20 * n` covers the filtered list; `DisabledShowsAll` then says the
      window is the whole list. */
  lemma {:induction false} LoadMoreReachesEnd(displayCount: nat, filteredLength: nat, n: nat)
    requires displayCount + PageSize * n >= filteredLength
    ensures ScrollDisabled(LoadMoreTimes(displayCount, filteredLength, n), filteredLength)
    decreases n
  {
    if n > 0 && !ScrollDisabled(displayCount, filteredLength) {
      LoadMoreReachesEnd(LoadMore(displayCount, filteredLength), filteredLength, n - 1);
    }
  }

  /** `n` load-mores in a row, each one only while scrolling is enabled. */
  function LoadMoreTimes(displayCount: nat, filteredLength: nat, n: nat): nat
    decreases n
  {
    if n == 0 || ScrollDisabled(displayCount, filteredLength) then displayCount
    else LoadMoreTimes(LoadMore(displayCount, filteredLength), filteredLength, n - 1)
  }

  /** Once scrolling is disabled the window shows every filtered entry. */
  lemma DisabledShowsAll(filtered: seq<PickerExercise>, displayCount: nat)
    requires ScrollDisabled(displayCount, |filtered|)
    ensures Displayed(filtered, displayCount) == filtered
  {
  }

  // ---------------------------------------------------------------------------
  // Selection

  /** The callbacks a selection makes: `onAddExercise` with an entry, and `onClose`. */
  datatype Callbacks = Callbacks(added: Option<PickerExercise>, closed: bool)

  /** `handleSelectExercise`: looks the id up in the sorted catalog; a hit adds
      that entry and closes, an unknown id does neither. */
  function Select(exercises: seq<PickerExercise>, id: string): (r: Callbacks)
    ensures r.closed <==> r.added.Some?
    ensures r.added.None? <==> forall i :: 0 <= i < |exercises| ==> exercises[i].id != id
    ensures r.added.Some? ==> r.added.value in exercises && r.added.value.id == id
  {
    var found := Find(exercises, (e: PickerExercise) => e.id == id);
    Callbacks(found, found.Some?)
  }

  // ---------------------------------------------------------------------------
  // The component

  /** What the picker renders: nothing while closed, eight skeleton rows while
      loading, otherwise the window and whether infinite scroll is disabled. */
  datatype PickerView =
    | Hidden
    | Skeleton(rows: nat)
    | Listing(items: seq<PickerExercise>, scrollDisabled: bool)

  class AddExercisePicker {
    const written: seq<PickerExercise>
    var isOpen: bool
    var searchText: string
    var selectedSegment: string
    var copyFromLastWorkout: bool
    var isLoading: bool
    var displayCount: nat
    /** The 800 ms loading timer is set and not yet cleared. */
    var loadTimerPending: bool

    ghost predicate Valid()
      reads this
    {
      loadTimerPending ==> isOpen && isLoading
    }

    function Exercises(): seq<PickerExercise>
      reads this
    {
      SortedFor(written, selectedSegment)
    }

    function FilteredNow(): seq<PickerExercise>
      reads this
    {
      Filtered(Exercises(), searchText)
    }

    /** First render with the `isOpen` prop, and the open effect when it is true. */
    constructor (catalog: seq<PickerExercise>, open: bool)
      ensures Valid()
      ensures written == catalog && isOpen == open
      ensures searchText == "" && selectedSegment == "most-used" && !copyFromLastWorkout
      ensures isLoading && displayCount == PageSize && loadTimerPending == open
    {
      written := catalog;
      isOpen := open;
      searchText := "";
      selectedSegment := "most-used";
      copyFromLastWorkout := false;
      isLoading := true;
      displayCount := PageSize;
      loadTimerPending := open;
    }

    /** A new `isOpen` prop. Opening runs the effect (loading, window back to
        20, timer set); any change first clears the pending timer. The search,
        segment and checkbox survive a close. */
    method SetOpen(open: bool)
      requires Valid()
      modifies this
      ensures Valid() && isOpen == open
      ensures open && !old(isOpen) ==> isLoading && displayCount == PageSize && loadTimerPending
      ensures open != old(isOpen) && !open ==>
        !loadTimerPending && isLoading == old(isLoading) && displayCount == old(displayCount)
      ensures open == old(isOpen) ==>
        isLoading == old(isLoading) && displayCount == old(displayCount) && loadTimerPending == old(loadTimerPending)
      ensures searchText == old(searchText) && selectedSegment == old(selectedSegment)
      ensures copyFromLastWorkout == old(copyFromLastWorkout)
    {
      if open != isOpen {
        loadTimerPending := false;
        isOpen := open;
        if open {
          isLoading := true;
          displayCount := PageSize;
          loadTimerPending := true;
        }
      }
    }

    /** The 800 ms loading timer fires. */
    method LoadingElapsed()
      requires Valid()
      modifies this
      ensures Valid()
      ensures isLoading == (old(isLoading) && !old(loadTimerPending)) && !loadTimerPending
      ensures isOpen == old(isOpen) && displayCount == old(displayCount)
      ensures searchText == old(searchText) && selectedSegment == old(selectedSegment)
      ensures copyFromLastWorkout == old(copyFromLastWorkout)
    {
      if loadTimerPending {
        isLoading := false;
        loadTimerPending := false;
      }
    }

    method SetSearchText(text: string)
      requires Valid()
      modifies this
      ensures Valid() && searchText == text
      ensures isOpen == old(isOpen) && isLoading == old(isLoading) && displayCount == old(displayCount)
      ensures loadTimerPending == old(loadTimerPending)
      ensures selectedSegment == old(selectedSegment) && copyFromLastWorkout == old(copyFromLastWorkout)
    {
      searchText := text;
    }

    method SetSegment(segment: string)
      requires Valid()
      modifies this
      ensures Valid() && selectedSegment == segment
      ensures isOpen == old(isOpen) && isLoading == old(isLoading) && displayCount == old(displayCount)
      ensures loadTimerPending == old(loadTimerPending)
      ensures searchText == old(searchText) && copyFromLastWorkout == old(copyFromLastWorkout)
    {
      selectedSegment := segment;
    }

    method SetCopyFromLastWorkout(checked: bool)
      requires Valid()
      modifies this
      ensures Valid() && copyFromLastWorkout == checked
      ensures isOpen == old(isOpen) && isLoading == old(isLoading) && displayCount == old(displayCount)
      ensures loadTimerPending == old(loadTimerPending)
      ensures searchText == old(searchText) && selectedSegment == old(selectedSegment)
    {
      copyFromLastWorkout := checked;
    }

    /** `loadMoreExercises`, once its 500 ms delay has passed. */
    method LoadMoreExercises()
      requires Valid()
      modifies this
      ensures Valid()
      ensures displayCount == LoadMore(old(displayCount), |FilteredNow()|)
      ensures displayCount <= |FilteredNow()|
      ensures isOpen == old(isOpen) && isLoading == old(isLoading)
      ensures loadTimerPending == old(loadTimerPending)
      ensures searchText == old(searchText) && selectedSegment == old(selectedSegment)
      ensures copyFromLastWorkout == old(copyFromLastWorkout)
    {
      var n := |FilteredNow()|;
      displayCount := if displayCount + PageSize < n then displayCount + PageSize else n;
    }

    /** The render: nothing when closed; the skeleton while loading; else the
        window of the filtered list and the scroll's disabled flag. */
    function View(): (v: PickerView)
      reads this
      ensures v.Hidden? <==> !isOpen
      ensures v.Skeleton? <==> isOpen && isLoading
      ensures v.Skeleton? ==> v.rows == 8
      ensures v.Listing? ==>
        |v.items| == Min(displayCount, |FilteredNow()|)
        && (forall i :: 0 <= i < |v.items| ==> v.items[i] == FilteredNow()[i])
        && (v.scrollDisabled <==> displayCount >= |FilteredNow()|)
    {
      if !isOpen then Hidden
      else if isLoading then Skeleton(8)
      else Listing(Displayed(FilteredNow(), displayCount), ScrollDisabled(displayCount, |FilteredNow()|))
    }

    /** A tap on an entry: the callbacks it makes, with nothing changed here. */
    function SelectExercise(id: string): (r: Callbacks)
      reads this
      ensures r.closed <==> r.added.Some?
      ensures r.added.Some? <==> exists i :: 0 <= i < |Exercises()| && Exercises()[i].id == id
      ensures r.added.Some? ==> r.added.value in written && r.added.value.id == id
    {
      var r := Select(Exercises(), id);
      assert multiset(Exercises()) == multiset(written);
      assert r.added.Some? ==> r.added.value in multiset(Exercises());
      r
    }
  }
}
