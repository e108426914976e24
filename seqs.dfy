/** Array operations the pages use: `filter`, `find`, `slice` and a stable
    `sort` with a comparator. */
module Seqs {
  import opened Wrappers

  function Min(a: int, b: int): int {
    if a <= b then a else b
  }

  // ---------------------------------------------------------------------------
  // filter

  /** `xs.filter(p)`. */
  function Filter<T>(xs: seq<T>, p: T -> bool): (r: seq<T>)
    ensures |r| <= |xs|
    ensures forall i :: 0 <= i < |r| ==> r[i] in xs && p(r[i])
    ensures forall i :: 0 <= i < |xs| && p(xs[i]) ==> xs[i] in r
  {
    if xs == [] then [] else (if p(xs[0]) then [xs[0]] else []) + Filter(xs[1..], p)
  }

  /** Filtering keeps the order: filtering a concatenation is concatenating the filtered parts. */
  lemma {:induction false} FilterAppend<T>(a: seq<T>, b: seq<T>, p: T -> bool)
    ensures Filter(a + b, p) == Filter(a, p) + Filter(b, p)
  {
    if a == [] {
      assert a + b == b;
    } else {
      assert (a + b)[1..] == a[1..] + b;
      FilterAppend(a[1..], b, p);
    }
  }

  /** A filter every element passes gives back the whole list. */
  lemma {:induction false} FilterKeepsAll<T>(xs: seq<T>, p: T -> bool)
    requires forall i :: 0 <= i < |xs| ==> p(xs[i])
    ensures Filter(xs, p) == xs
  {
    if xs != [] {
      FilterKeepsAll(xs[1..], p);
    }
  }

  /** Two tests that agree on every element keep the same elements. */
  lemma {:induction false} FilterCongruent<T>(xs: seq<T>, p: T -> bool, q: T -> bool)
    requires forall i :: 0 <= i < |xs| ==> p(xs[i]) == q(xs[i])
    ensures Filter(xs, p) == Filter(xs, q)
  {
    if xs != [] {
      FilterCongruent(xs[1..], p, q);
    }
  }

  predicate Distinct<T(==)>(xs: seq<T>) {
    forall i, j :: 0 <= i < j < |xs| ==> xs[i] != xs[j]
  }

  /** Filtering a list without duplicates gives a list without duplicates. */
  lemma {:induction false} FilterDistinct<T>(xs: seq<T>, p: T -> bool)
    requires Distinct(xs)
    ensures Distinct(Filter(xs, p))
  {
    if xs != [] {
      var rest := Filter(xs[1..], p);
      FilterDistinct(xs[1..], p);
      if p(xs[0]) {
        forall j | 0 <= j < |rest|
          ensures rest[j] != xs[0]
        {
          var k :| 0 <= k < |xs[1..]| && xs[1..][k] == rest[j];
          assert xs[k + 1] == rest[j];
        }
      }
    }
  }

  // ---------------------------------------------------------------------------
  // find

  /** The index of the first element satisfying `p`, if any. */
  function FirstIndex<T>(xs: seq<T>, p: T -> bool): (r: Option<nat>)
    ensures r.Some? ==> r.value < |xs| && p(xs[r.value])
    ensures r.Some? ==> forall j :: 0 <= j < r.value ==> !p(xs[j])
    ensures r.None? ==> forall j :: 0 <= j < |xs| ==> !p(xs[j])
  {
    if xs == [] then None
    else if p(xs[0]) then Some(0)
    else match FirstIndex(xs[1..], p)
      case None => None
      case Some(i) => Some(i + 1)
  }

  /** `xs.find(p)`: the first element satisfying `p`, or `undefined`. */
  function Find<T>(xs: seq<T>, p: T -> bool): (r: Option<T>)
    ensures r.None? <==> forall i :: 0 <= i < |xs| ==> !p(xs[i])
    ensures r.Some? ==> r.value in xs && p(r.value)
  {
    match FirstIndex(xs, p)
    case None => None
    case Some(i) => Some(xs[i])
  }

  // ---------------------------------------------------------------------------
  // slice

  /** A `slice` bound as a position in a list of length `n`: a negative
      bound counts back from the end, and every bound is clamped to `0..n`. */
  function SliceBound(i: int, n: nat): (r: nat)
    ensures r <= n
    ensures 0 <= i ==> r == Min(i, n)
    ensures i < 0 ==> r == if n + i < 0 then 0 else n + i
  {
    if i < 0 then (if n + i < 0 then 0 else n + i) else Min(i, n)
  }

  /** `xs.slice(start, end)`: the elements from the start bound up to, not
      including, the end bound; empty when the end bound is not past the start. */
  function Slice<T>(xs: seq<T>, start: int, end: int): (r: seq<T>)
    ensures |r| == if SliceBound(start, |xs|) < SliceBound(end, |xs|)
      then SliceBound(end, |xs|) - SliceBound(start, |xs|) else 0
    ensures 0 <= start && 0 <= end ==> |r| == if start < end && start < |xs| then Min(end, |xs|) - start else 0
    ensures forall i :: 0 <= i < |r| ==> SliceBound(start, |xs|) + i < |xs| && r[i] == xs[SliceBound(start, |xs|) + i]
  {
    var lo := SliceBound(start, |xs|);
    var hi := SliceBound(end, |xs|);
    if lo < hi then xs[lo..hi] else []
  }

  /** Adjacent slices put together give the slice spanning both. */
  lemma SliceAdjacent<T>(xs: seq<T>, a: nat, b: nat, c: nat)
    requires a <= b <= c
    ensures Slice(xs, a, b) + Slice(xs, b, c) == Slice(xs, a, c)
  {
    var n := |xs|;
    if a < n && b < n && c < n {
      assert xs[a..b] + xs[b..c] == xs[a..c];
    } else if a < n && b < n {
      assert xs[a..b] + xs[b..n] == xs[a..n];
    }
  }

  // ---------------------------------------------------------------------------
  // sort

  /** `le` is a total preorder: the comparator `sort` needs for a meaningful result. */
  ghost predicate TotalPreorder<T(!new)>(le: (T, T) -> bool) {
    && (forall a, b :: le(a, b) || le(b, a))
    && (forall a, b, c :: le(a, b) && le(b, c) ==> le(a, c))
  }

  predicate SortedBy<T>(xs: seq<T>, le: (T, T) -> bool) {
    forall i, j :: 0 <= i < j < |xs| ==> le(xs[i], xs[j])
  }

  /** Inserts `x` in front of the first element it may precede; equal
      elements already present stay before it only if they come first. */
  function Insert<T>(x: T, ys: seq<T>, le: (T, T) -> bool): (r: seq<T>)
    ensures multiset(r) == multiset(ys) + multiset{x}
  {
    if ys == [] || le(x, ys[0]) then [x] + ys
    else
      assert ys == [ys[0]] + ys[1..];
      [ys[0]] + Insert(x, ys[1..], le)
  }

  /** `xs.sort(compare)` as an insertion sort; `le(a, b)` means `compare(a, b) <= 0`. */
  function SortBy<T>(xs: seq<T>, le: (T, T) -> bool): (r: seq<T>)
    ensures multiset(r) == multiset(xs)
  {
    if xs == [] then []
    else
      assert xs == [xs[0]] + xs[1..];
      Insert(xs[0], SortBy(xs[1..], le), le)
  }

  lemma {:induction false} InsertSorted<T(!new)>(x: T, ys: seq<T>, le: (T, T) -> bool)
    requires TotalPreorder(le) && SortedBy(ys, le)
    ensures SortedBy(Insert(x, ys, le), le)
  {
    if ys != [] && !le(x, ys[0]) {
      var tail := Insert(x, ys[1..], le);
      InsertSorted(x, ys[1..], le);
      forall z | z in tail
        ensures le(ys[0], z)
      {
        assert z in multiset(tail);
        if z != x {
          assert z in multiset(ys[1..]);
          var j :| 0 <= j < |ys[1..]| && ys[1..][j] == z;
          assert ys[j + 1] == z;
        }
      }
      var r := [ys[0]] + tail;
      forall i, j | 0 <= i < j < |r|
        ensures le(r[i], r[j])
      {
        if i == 0 {
          assert r[j] == tail[j - 1];
          assert r[j] in tail;
        }
      }
    }
  }

  /** Sorting yields a list in comparator order that is a permutation of the input. */
  lemma {:induction false} SortBySorted<T(!new)>(xs: seq<T>, le: (T, T) -> bool)
    requires TotalPreorder(le)
    ensures SortedBy(SortBy(xs, le), le)
    ensures multiset(SortBy(xs, le)) == multiset(xs)
  {
    if xs != [] {
      SortBySorted(xs[1..], le);
      InsertSorted(xs[0], SortBy(xs[1..], le), le);
    }
  }
}
