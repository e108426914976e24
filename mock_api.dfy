/** The mock exercise API of the test suite (src/__tests__/mocks/handlers.ts):
    `GET /api/exercises` filters a fixed list and cuts one page out of it,
    `GET /api/exercises/:id` looks one entry up, and
    `POST /api/workouts/:workoutId/exercises` always succeeds. Query
    parameters arrive already read as numbers or text. */
module MockApi {
  import opened Wrappers
  import opened Seqs
  import opened Search

  datatype ApiExercise = ApiExercise(
    id: string,
    name: string,
    description: string,
    completionCount: int,
    muscleGroups: seq<string>,
    primaryMuscles: seq<string>,
    secondaryMuscles: seq<string>,
    equipment: string,
    exerciseType: string)

  const MockExercises: seq<ApiExercise> := [
    ApiExercise("barbell-back-squat", "Barbell Back Squat",
      "Compound lower body exercise targeting quads, glutes, and hamstrings", 23,
      ["Quads", "Glutes", "Back"], ["Quads", "Glutes"], ["Back", "Core"], "Barbell", "strength"),
    ApiExercise("bench-press", "Bench Press",
      "Upper body compound movement for chest, shoulders, and triceps", 18,
      ["Chest", "Shoulders", "Triceps"], ["Chest"], ["Shoulders", "Triceps"], "Barbell", "strength"),
    ApiExercise("deadlift", "Deadlift",
      "Full body compound exercise focusing on posterior chain", 15,
      ["Back", "Glutes", "Posterior thighs"], ["Back", "Glutes", "Hamstrings"], ["Traps", "Forearms", "Core"],
      "Barbell", "strength")
  ]

  /** The query string: `page`, `limit`, `search` and `muscleGroup`. An absent
      parameter is `None`; an empty `page` or `limit` counts as absent. */
  datatype Query = Query(page: Option<int>, limit: Option<int>, search: Option<string>, muscleGroup: Option<string>)
  {
    /** The search text; an absent one is empty and filters nothing. */
    function SearchText(): string { search.GetOr("") }

    /** The muscle group; an absent one is empty and filters nothing. */
    function Group(): string { muscleGroup.GetOr("") }
  }

  /** A JSON reply body. */
  datatype Body =
    | ExerciseList(exercises: seq<ApiExercise>, total: nat, page: int, totalPages: int, hasMore: bool)
    | ExerciseDetails(exercise: ApiExercise)
    | ErrorMessage(error: string)
    | Confirmation(success: bool, message: string)

  datatype Response = Response(status: int, body: Body)

  const DefaultPage: int := 1
  const DefaultLimit: int := 20

  /** `Math.ceil(n / limit)` for a non-zero limit. */
  function CeilDiv(n: nat, limit: int): (r: int)
    requires limit != 0
    ensures limit > 0 ==> (r - 1) * limit < n <= r * limit
    ensures limit < 0 ==> r * limit <= n < (r - 1) * limit
  {
    if limit > 0 then (n + limit - 1) / limit else -(n / -limit)
  }

  /** The list after the search filter (only for a non-empty search) and the
      muscle-group filter (only for a non-empty group). */
  function FilteredFor(db: seq<ApiExercise>, search: string, group: string): (r: seq<ApiExercise>)
    ensures |r| <= |db|
    ensures search == "" && group == "" ==> r == db
  {
    var bySearch :=
      if search != "" then SearchResults(db, (e: ApiExercise) => e.name, (e: ApiExercise) => e.description, search)
      else db;
    if group != "" then Filter(bySearch, (e: ApiExercise) => group in e.muscleGroups) else bySearch
  }

  /** An entry the query asks for: it matches the search, and works the muscle
      group when one is given. */
  predicate Selected(e: ApiExercise, search: string, group: string) {
    && Matches(e.name, e.description, search)
    && (group == "" || group in e.muscleGroups)
  }

  /** The filtered list holds entries of the list the query selects, and
      every entry of the list the query selects is kept. */
  lemma FilteredForExactly(db: seq<ApiExercise>, search: string, group: string)
    ensures forall i :: 0 <= i < |FilteredFor(db, search, group)| ==> FilteredFor(db, search, group)[i] in db
    ensures forall i :: 0 <= i < |FilteredFor(db, search, group)| ==> Selected(FilteredFor(db, search, group)[i], search, group)
    ensures forall i :: 0 <= i < |db| && Selected(db[i], search, group) ==> db[i] in FilteredFor(db, search, group)
  {
    if search == "" {
      forall i | 0 <= i < |db|
        ensures Matches(db[i].name, db[i].description, search)
      {
        EmptyQueryMatches(db[i].name, db[i].description);
      }
    }
  }

  /** `(page - 1) * limit` and `page * limit` are one `limit` apart. */
  lemma PageBounds(page: int, limit: int)
    ensures (page - 1) * limit + limit == page * limit
    ensures page >= 1 && limit >= 0 ==> (page - 1) * limit >= 0
  {
    if page >= 1 && limit >= 0 {
      MulNonNegative(page - 1, limit);
    }
  }

  lemma {:induction false} MulNonNegative(a: nat, b: nat)
    ensures a * b >= 0
    decreases a
  {
    if a > 0 {
      MulNonNegative(a - 1, b);
      assert a * b == (a - 1) * b + b;
    }
  }

  /** The reply body for page `page` of `limit` entries cut from `filtered`. */
  function Paginate(filtered: seq<ApiExercise>, page: int, limit: int): (b: Body)
    requires limit != 0
    ensures b.ExerciseList? && b.total == |filtered| && b.page == page
  {
    var startIndex := (page - 1) * limit;
    var endIndex := startIndex + limit;
    ExerciseList(
      Slice(filtered, startIndex, endIndex),
      |filtered|,
      page,
      CeilDiv(|filtered|, limit),
      endIndex < |filtered|)
  }

  /** `GET /api/exercises`: the filtered list's page `page` of `limit` entries,
      with the list's size, the page count and whether more follows. */
  function ListExercises(db: seq<ApiExercise>, q: Query): (r: Response)
    requires q.limit.GetOr(DefaultLimit) != 0
    ensures r.status == 200 && r.body.ExerciseList?
    ensures r.body.page == q.page.GetOr(DefaultPage)
    ensures r.body.total == |FilteredFor(db, q.SearchText(), q.Group())|
  {
    Response(200, Paginate(FilteredFor(db, q.SearchText(), q.Group()), q.page.GetOr(DefaultPage), q.limit.GetOr(DefaultLimit)))
  }

  /** An absent page or limit means page 1 of 20. */
  lemma ListDefaults(db: seq<ApiExercise>, search: Option<string>, muscleGroup: Option<string>)
    ensures ListExercises(db, Query(None, None, search, muscleGroup))
      == ListExercises(db, Query(Some(1), Some(20), search, muscleGroup))
  {
  }

  /** For a positive page and limit the page holds the filtered entries from
      position `(page - 1) * limit` on, at most `limit` of them and as many as
      the list has left. */
  lemma PaginateContents(filtered: seq<ApiExercise>, page: int, limit: int)
    requires page >= 1 && limit >= 1
    ensures var b := Paginate(filtered, page, limit);
      var start := (page - 1) * limit;
      && 0 <= start
      && |b.exercises| <= limit
      && |b.exercises| == (if start < |filtered| then Min(start + limit, |filtered|) - start else 0)
      && (forall i :: 0 <= i < |b.exercises| ==> start + i < |filtered| && b.exercises[i] == filtered[start + i])
  {
    PageBounds(page, limit);
  }

  /** A page cut from a list of selected entries holds only selected entries,
      whatever page and limit are asked for. */
  lemma PaginateKeepsSelected(filtered: seq<ApiExercise>, page: int, limit: int, search: string, group: string)
    requires limit != 0
    requires forall i :: 0 <= i < |filtered| ==> Selected(filtered[i], search, group)
    ensures forall i :: 0 <= i < |Paginate(filtered, page, limit).exercises| ==>
      Selected(Paginate(filtered, page, limit).exercises[i], search, group)
  {
    var b := Paginate(filtered, page, limit);
    var start := SliceBound((page - 1) * limit, |filtered|);
    forall i | 0 <= i < |b.exercises|
      ensures Selected(b.exercises[i], search, group)
    {
      assert b.exercises[i] == filtered[start + i];
    }
  }

  /** Every entry on any page of `GET /api/exercises` is one the query selects. */
  lemma ListPageMatches(db: seq<ApiExercise>, q: Query)
    requires q.limit.GetOr(DefaultLimit) != 0
    ensures var r := ListExercises(db, q);
      forall i :: 0 <= i < |r.body.exercises| ==> Selected(r.body.exercises[i], q.SearchText(), q.Group())
  {
    FilteredForExactly(db, q.SearchText(), q.Group());
    PaginateKeepsSelected(FilteredFor(db, q.SearchText(), q.Group()), q.page.GetOr(DefaultPage),
      q.limit.GetOr(DefaultLimit), q.SearchText(), q.Group());
  }

  /** The total, and with it the page count, does not depend on which page is asked for. */
  lemma TotalIndependentOfPage(db: seq<ApiExercise>, q: Query, otherPage: Option<int>)
    requires q.limit.GetOr(DefaultLimit) != 0
    ensures ListExercises(db, q.(page := otherPage)).body.total == ListExercises(db, q).body.total
    ensures ListExercises(db, q.(page := otherPage)).body.totalPages == ListExercises(db, q).body.totalPages
  {
  }

  /** `totalPages` is the least number of `limit`-sized pages holding the
      whole list, and `hasMore` holds exactly when this page ends before the list does. */
  lemma PageCountAndHasMore(filtered: seq<ApiExercise>, page: int, limit: int)
    requires limit >= 1
    ensures var b := Paginate(filtered, page, limit);
      && (b.totalPages - 1) * limit < b.total <= b.totalPages * limit
      && (b.hasMore <==> page * limit < b.total)
  {
    PageBounds(page, limit);
  }

  /** Every page of `GET /api/exercises` is cut from the same filtered
      list, whatever the page and limit asked for. */
  lemma ListPagesShareFilter(db: seq<ApiExercise>, q: Query, page: int, limit: int)
    requires limit != 0
    ensures ListExercises(db, q.(page := Some(page), limit := Some(limit))).body
      == Paginate(FilteredFor(db, q.SearchText(), q.Group()), page, limit)
  {
  }

  /** Pages `1..k` of `limit` entries each, put end to end. */
  function PagesUpTo(filtered: seq<ApiExercise>, limit: int, k: nat): seq<ApiExercise>
    requires limit >= 1
  {
    if k == 0 then [] else PagesUpTo(filtered, limit, k - 1) + Paginate(filtered, k, limit).exercises
  }

  lemma {:induction false} PagesUpToPrefix(filtered: seq<ApiExercise>, limit: int, k: nat)
    requires limit >= 1
    ensures PagesUpTo(filtered, limit, k) == Slice(filtered, 0, k * limit)
  {
    if k > 0 {
      PagesUpToPrefix(filtered, limit, k - 1);
      PageBounds(k, limit);
      var a: nat := (k - 1) * limit;
      var c: nat := a + limit;
      assert Paginate(filtered, k, limit).exercises == Slice(filtered, a, c);
      SliceAdjacent(filtered, 0, a, c);
    }
  }

  /** Asking for every page from 1 to `totalPages` and putting the pages end
      to end gives back the filtered list, each entry once and in order. */
  lemma PagesConcatenate(filtered: seq<ApiExercise>, limit: int)
    requires limit >= 1
    ensures var totalPages := Paginate(filtered, 1, limit).totalPages;
      totalPages >= 0 && PagesUpTo(filtered, limit, totalPages) == filtered
  {
    var totalPages := CeilDiv(|filtered|, limit);
    assert totalPages >= 0;
    PagesUpToPrefix(filtered, limit, totalPages);
    assert Slice(filtered, 0, totalPages * limit) == filtered;
  }

  /** `GET /api/exercises/:id`: 404 with an error when no entry has the id,
      otherwise 200 with the first entry that has it. */
  function GetExercise(db: seq<ApiExercise>, id: string): (r: Response)
    ensures r.status == 404 <==> forall i :: 0 <= i < |db| ==> db[i].id != id
    ensures r.status == 404 ==> r.body == ErrorMessage("Exercise not found")
    ensures r.status != 404 ==>
      r.status == 200 && r.body.ExerciseDetails? && r.body.exercise in db && r.body.exercise.id == id
  {
    match Find(db, (e: ApiExercise) => e.id == id)
    case None => Response(404, ErrorMessage("Exercise not found"))
    case Some(e) => Response(200, ExerciseDetails(e))
  }

  /** Each mock exercise is found under its own id. */
  lemma MockExercisesFound()
    ensures forall i :: 0 <= i < |MockExercises| ==>
      GetExercise(MockExercises, MockExercises[i].id) == Response(200, ExerciseDetails(MockExercises[i]))
  {
    forall i | 0 <= i < |MockExercises|
      ensures GetExercise(MockExercises, MockExercises[i].id) == Response(200, ExerciseDetails(MockExercises[i]))
    {
      var r := GetExercise(MockExercises, MockExercises[i].id);
      assert r.body.exercise.id == MockExercises[i].id;
    }
  }

  /** `POST /api/workouts/:workoutId/exercises`: created, whatever the workout. */
  function AddToWorkout(workoutId: string): (r: Response)
    ensures r.status == 201
    ensures r.body == Confirmation(true, "Exercise added to workout")
  {
    Response(201, Confirmation(true, "Exercise added to workout"))
  }
}
