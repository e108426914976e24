/** The search used by the exercise library, the add-exercise picker and the
    mock exercise API: an exercise matches when the lower-cased query occurs
    in its lower-cased name or in its lower-cased description. */
module Search {
  import opened Text
  import opened Seqs

  predicate Matches(name: string, description: string, query: string) {
    Includes(Lower(name), Lower(query)) || Includes(Lower(description), Lower(query))
  }

  /** A match means the query occurs, ignoring case, at some index of the
      name or of the description, and every such occurrence is a match. */
  lemma MatchesIffOccurs(name: string, description: string, query: string)
    ensures Matches(name, description, query) <==>
      (exists i :: OccursAt(Lower(name), Lower(query), i))
      || (exists i :: OccursAt(Lower(description), Lower(query), i))
  {
    IncludesIffOccurs(Lower(name), Lower(query));
    IncludesIffOccurs(Lower(description), Lower(query));
  }

  /** The empty query matches every exercise. */
  lemma EmptyQueryMatches(name: string, description: string)
    ensures Matches(name, description, "")
  {
  }

  /** Typing the query in another case does not change the result. */
  lemma MatchesIgnoresQueryCase(name: string, description: string, query: string)
    ensures Matches(name, description, query) == Matches(name, description, Lower(query))
  {
    LowerIdempotent(query);
  }

  /** The test applied to one entry, given how to read its name and description. */
  function MatcherOn<T>(nameOf: T -> string, descriptionOf: T -> string, query: string): T -> bool {
    (e: T) => Matches(nameOf(e), descriptionOf(e), query)
  }

  /** The entries whose name or description contains the query, ignoring
      case, in their original order; an empty query keeps every entry. */
  function SearchResults<T>(entries: seq<T>, nameOf: T -> string, descriptionOf: T -> string, query: string): (r: seq<T>)
    ensures |r| <= |entries|
    ensures forall i :: 0 <= i < |r| ==> r[i] in entries && Matches(nameOf(r[i]), descriptionOf(r[i]), query)
    ensures forall i :: 0 <= i < |entries| && Matches(nameOf(entries[i]), descriptionOf(entries[i]), query) ==>
      entries[i] in r
    ensures query == "" ==> r == entries
  {
    if query == "" then
      forall i | 0 <= i < |entries|
        ensures MatcherOn(nameOf, descriptionOf, query)(entries[i])
      {
        EmptyQueryMatches(nameOf(entries[i]), descriptionOf(entries[i]));
      }
      FilterKeepsAll(entries, MatcherOn(nameOf, descriptionOf, query));
      Filter(entries, MatcherOn(nameOf, descriptionOf, query))
    else
      Filter(entries, MatcherOn(nameOf, descriptionOf, query))
  }

  /** Searching a list made of two parts searches each part in turn. */
  lemma SearchResultsAppend<T>(a: seq<T>, b: seq<T>, nameOf: T -> string, descriptionOf: T -> string, query: string)
    ensures SearchResults(a + b, nameOf, descriptionOf, query)
      == SearchResults(a, nameOf, descriptionOf, query) + SearchResults(b, nameOf, descriptionOf, query)
  {
    FilterAppend(a, b, MatcherOn(nameOf, descriptionOf, query));
  }

  /** The results do not depend on the case in which the query is typed. */
  lemma SearchResultsIgnoreQueryCase<T>(entries: seq<T>, nameOf: T -> string, descriptionOf: T -> string, query: string)
    ensures SearchResults(entries, nameOf, descriptionOf, Lower(query))
      == SearchResults(entries, nameOf, descriptionOf, query)
  {
    forall i | 0 <= i < |entries|
      ensures MatcherOn(nameOf, descriptionOf, Lower(query))(entries[i])
        == MatcherOn(nameOf, descriptionOf, query)(entries[i])
    {
      MatchesIgnoresQueryCase(nameOf(entries[i]), descriptionOf(entries[i]), query);
    }
    FilterCongruent(entries, MatcherOn(nameOf, descriptionOf, Lower(query)), MatcherOn(nameOf, descriptionOf, query));
    if query == "" {
      assert Lower(query) == "";
    }
  }
}
