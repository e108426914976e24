/** The exercise library page (src/pages/Exercise.tsx): a fixed catalog
    sorted by name, a case-insensitive search over name and description, and
    a filter drawer whose three selection lists are toggled chip by chip. */
module ExerciseLibrary {
  import opened Seqs
  import opened Search
  import Text

  datatype LibraryEntry = LibraryEntry(name: string, description: string)

  /** The catalog in the order it is written, before sorting. */
  const Unsorted: seq<LibraryEntry> := [
    LibraryEntry("Barbell Back Squat", "Compound lower body exercise targeting quads, glutes, and hamstrings"),
    LibraryEntry("Bench Press", "Upper body compound movement for chest, shoulders, and triceps"),
    LibraryEntry("Deadlift", "Full body compound exercise focusing on posterior chain"),
    LibraryEntry("Dumbbell Bicep Curl", "Isolation exercise for bicep development"),
    LibraryEntry("Lat Pulldown", "Upper body pulling exercise for back and biceps"),
    LibraryEntry("Leg Press", "Machine-based lower body exercise for quad development"),
    LibraryEntry("Overhead Press", "Standing shoulder press for deltoid strength"),
    LibraryEntry("Pull-ups", "Bodyweight upper body pulling exercise"),
    LibraryEntry("Romanian Deadlift", "Hip-hinge movement targeting hamstrings and glutes"),
    LibraryEntry("Tricep Dips", "Bodyweight exercise for tricep development")
  ]

  /** The sort's comparator: `a.name.localeCompare(b.name) <= 0`. */
  predicate ByName(a: LibraryEntry, b: LibraryEntry) {
    Text.LexLe(a.name, b.name)
  }

  lemma ByNameTotalPreorder()
    ensures TotalPreorder(ByName)
  {
    forall a: LibraryEntry, b: LibraryEntry
      ensures ByName(a, b) || ByName(b, a)
    {
      Text.LexLeTotal(a.name, b.name);
    }
    forall a: LibraryEntry, b: LibraryEntry, c: LibraryEntry | ByName(a, b) && ByName(b, c)
      ensures ByName(a, c)
    {
      Text.LexLeTransitive(a.name, b.name, c.name);
    }
  }

  /** The list the page shows when nothing is searched. */
  const Catalog: seq<LibraryEntry> := SortBy(Unsorted, ByName)

  /** The catalog is in name order and holds exactly the written entries. */
  lemma CatalogSortedByName()
    ensures SortedBy(Catalog, ByName)
    ensures multiset(Catalog) == multiset(Unsorted)
    ensures |Catalog| == 10
  {
    ByNameTotalPreorder();
    SortBySorted(Unsorted, ByName);
    assert |multiset(Catalog)| == |multiset(Unsorted)|;
  }

  /** `filteredExercises`: the entries whose name or description contains the
      search text, ignoring case, in catalog order. An empty search keeps all. */
  function FilteredExercises(entries: seq<LibraryEntry>, searchText: string): seq<LibraryEntry> {
    SearchResults(entries, (e: LibraryEntry) => e.name, (e: LibraryEntry) => e.description, searchText)
  }

  // ---------------------------------------------------------------------------
  // Filter selections

  /** The list without `x`: `prev.filter(t => t !== x)`. */
  function Without(selected: seq<string>, x: string): seq<string> {
    Filter(selected, y => y != x)
  }

  /** The updater shared by `toggleExerciseType`, `toggleMuscleGroup` and
      `toggleEquipment`: removes every copy of `x` if present, else appends it.
      Afterwards `x` is selected exactly when it was not, and every other
      value keeps its selection. */
  function Toggle(selected: seq<string>, x: string): (r: seq<string>)
    ensures x in r <==> x !in selected
    ensures forall y :: y != x ==> (y in r <==> y in selected)
  {
    if x in selected then Without(selected, x) else selected + [x]
  }

  /** A list without repeats stays without repeats. */
  lemma ToggleKeepsDistinct(selected: seq<string>, x: string)
    requires Distinct(selected)
    ensures Distinct(Toggle(selected, x))
  {
    if x in selected {
      FilterDistinct(selected, y => y != x);
    }
  }

  /** Two toggles of an unselected value give back the very same list. */
  lemma ToggleTwiceAbsent(selected: seq<string>, x: string)
    requires x !in selected
    ensures Toggle(Toggle(selected, x), x) == selected
  {
    FilterAppend(selected, [x], y => y != x);
    FilterKeepsAll(selected, y => y != x);
    assert Filter([x], y => y != x) == [];
  }

  /** Two toggles of a selected value keep the same selection but move that
      value to the end of the list. */
  lemma ToggleTwicePresent(selected: seq<string>, x: string)
    requires x in selected
    ensures Toggle(Toggle(selected, x), x) == Without(selected, x) + [x]
    ensures forall y :: y in Toggle(Toggle(selected, x), x) <==> y in selected
  {
  }

  const ExerciseTypeOptions: seq<string> := ["strength", "cardio", "mobility"]

  const MuscleGroupOptions: seq<string> := [
    "Posterior thighs", "Neck", "Forearms", "Triceps", "Quads", "Biceps", "Hip flexor",
    "Abs", "Shoulders", "Back", "Lower legs", "Glutes", "Chest"]

  const EquipmentOptions: seq<string> := [
    "Barbell", "Dumbbell", "Machine", "Kettlebell", "Body Weight", "Resistance Band",
    "Cable Machine", "Other", "None"]

  /** A selection list the drawer can produce: no repeats, only offered values. */
  predicate SelectionOf(selected: seq<string>, options: seq<string>) {
    Distinct(selected) && forall i :: 0 <= i < |selected| ==> selected[i] in options
  }

  /** Toggling an offered value keeps a selection list well formed. */
  lemma ToggleKeepsSelection(selected: seq<string>, options: seq<string>, x: string)
    requires SelectionOf(selected, options) && x in options
    ensures SelectionOf(Toggle(selected, x), options)
  {
    ToggleKeepsDistinct(selected, x);
    var r := Toggle(selected, x);
    forall i | 0 <= i < |r|
      ensures r[i] in options
    {
      if r[i] != x {
        assert r[i] in selected;
      }
    }
  }

  /** The page's state. `selectedFilter` is set to `'all'` and never changed,
      so it is left out. */
  class ExerciseLibraryPage {
    var exercises: seq<LibraryEntry>
    var searchText: string
    var selectedExerciseTypes: seq<string>
    var selectedMuscleGroups: seq<string>
    var selectedEquipment: seq<string>
    var menuOpen: bool
    var filterDrawerOpen: bool

    ghost predicate Valid()
      reads this
    {
      && SortedBy(exercises, ByName)
      && SelectionOf(selectedExerciseTypes, ExerciseTypeOptions)
      && SelectionOf(selectedMuscleGroups, MuscleGroupOptions)
      && SelectionOf(selectedEquipment, EquipmentOptions)
    }

    /** The page over the written catalog; the page itself passes `Unsorted`. */
    constructor (written: seq<LibraryEntry>)
      ensures Valid()
      ensures exercises == SortBy(written, ByName)
      ensures searchText == "" && selectedExerciseTypes == ExerciseTypeOptions
      ensures selectedMuscleGroups == [] && selectedEquipment == []
      ensures !menuOpen && !filterDrawerOpen
    {
      ByNameTotalPreorder();
      SortBySorted(written, ByName);
      exercises := SortBy(written, ByName);
      searchText := "";
      selectedExerciseTypes := ["strength", "cardio", "mobility"];
      selectedMuscleGroups := [];
      selectedEquipment := [];
      menuOpen := false;
      filterDrawerOpen := false;
    }

    /** The list on screen. The drawer's selections do not narrow it. */
    function Listed(): (r: seq<LibraryEntry>)
      reads this
      ensures forall i :: 0 <= i < |r| ==> r[i] in exercises && Matches(r[i].name, r[i].description, searchText)
      ensures forall i :: 0 <= i < |exercises| && Matches(exercises[i].name, exercises[i].description, searchText) ==>
        exercises[i] in r
      ensures searchText == "" ==> r == exercises
    {
      FilteredExercises(exercises, searchText)
    }

    method SetSearchText(text: string)
      modifies this
      ensures searchText == text && exercises == old(exercises)
      ensures selectedExerciseTypes == old(selectedExerciseTypes)
      ensures selectedMuscleGroups == old(selectedMuscleGroups)
      ensures selectedEquipment == old(selectedEquipment)
      ensures menuOpen == old(menuOpen) && filterDrawerOpen == old(filterDrawerOpen)
    {
      searchText := text;
    }

    method ToggleExerciseType(t: string)
      requires Valid() && t in ExerciseTypeOptions
      modifies this
      ensures Valid()
      ensures selectedExerciseTypes == Toggle(old(selectedExerciseTypes), t)
      ensures searchText == old(searchText) && exercises == old(exercises)
      ensures selectedMuscleGroups == old(selectedMuscleGroups)
      ensures selectedEquipment == old(selectedEquipment)
      ensures menuOpen == old(menuOpen) && filterDrawerOpen == old(filterDrawerOpen)
    {
      ToggleKeepsSelection(selectedExerciseTypes, ExerciseTypeOptions, t);
      selectedExerciseTypes := Toggle(selectedExerciseTypes, t);
    }

    method ToggleMuscleGroup(g: string)
      requires Valid() && g in MuscleGroupOptions
      modifies this
      ensures Valid()
      ensures selectedMuscleGroups == Toggle(old(selectedMuscleGroups), g)
      ensures searchText == old(searchText) && exercises == old(exercises)
      ensures selectedExerciseTypes == old(selectedExerciseTypes)
      ensures selectedEquipment == old(selectedEquipment)
      ensures menuOpen == old(menuOpen) && filterDrawerOpen == old(filterDrawerOpen)
    {
      ToggleKeepsSelection(selectedMuscleGroups, MuscleGroupOptions, g);
      selectedMuscleGroups := Toggle(selectedMuscleGroups, g);
    }

    method ToggleEquipment(e: string)
      requires Valid() && e in EquipmentOptions
      modifies this
      ensures Valid()
      ensures selectedEquipment == Toggle(old(selectedEquipment), e)
      ensures searchText == old(searchText) && exercises == old(exercises)
      ensures selectedExerciseTypes == old(selectedExerciseTypes)
      ensures selectedMuscleGroups == old(selectedMuscleGroups)
      ensures menuOpen == old(menuOpen) && filterDrawerOpen == old(filterDrawerOpen)
    {
      ToggleKeepsSelection(selectedEquipment, EquipmentOptions, e);
      selectedEquipment := Toggle(selectedEquipment, e);
    }

    /** The drawer's Reset button: back to the initial selections; the search
        text and the drawer stay as they are. */
    method ResetFilters()
      requires Valid()
      modifies this
      ensures Valid()
      ensures selectedExerciseTypes == ExerciseTypeOptions
      ensures selectedMuscleGroups == [] && selectedEquipment == []
      ensures exercises == old(exercises) && searchText == old(searchText)
      ensures menuOpen == old(menuOpen) && filterDrawerOpen == old(filterDrawerOpen)
    {
      selectedExerciseTypes := ["strength", "cardio", "mobility"];
      selectedMuscleGroups := [];
      selectedEquipment := [];
    }

    /** The filter button opens the drawer; Apply or dismissing closes it. */
    method SetFilterDrawerOpen(open: bool)
      modifies this
      ensures filterDrawerOpen == open
      ensures searchText == old(searchText) && menuOpen == old(menuOpen) && exercises == old(exercises)
      ensures selectedExerciseTypes == old(selectedExerciseTypes)
      ensures selectedMuscleGroups == old(selectedMuscleGroups)
      ensures selectedEquipment == old(selectedEquipment)
    {
      filterDrawerOpen := open;
    }

    /** An entry's menu button opens the popover; any of its items, or
        dismissing it, closes it. */
    method SetMenuOpen(open: bool)
      modifies this
      ensures menuOpen == open
      ensures searchText == old(searchText) && filterDrawerOpen == old(filterDrawerOpen) && exercises == old(exercises)
      ensures selectedExerciseTypes == old(selectedExerciseTypes)
      ensures selectedMuscleGroups == old(selectedMuscleGroups)
      ensures selectedEquipment == old(selectedEquipment)
    {
      menuOpen := open;
    }
  }
}
