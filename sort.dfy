/**
 * The sort engine of sort.go: the flag dispatch, the date comparator with its
 * zero-date policy, the three entry comparators, and an in-place sort of an
 * array of entries that rearranges it by swaps only.
 */
module Sorting {
  import opened Wrappers
  import opened Timers
  import T = Timestamps

  /** The sort flags, numbered as `iota` numbers them. */
  const SortUnfinishedStart: int := 0
  const SortStartDateAsc: int := 1
  const SortStartDateDesc: int := 2
  const SortFinishDateAsc: int := 3
  const SortFinishDateDesc: int := 4

  /** The comparator a flag selects. */
  datatype Order = UnfinishedThenStart | ByStartDate(asc: bool) | ByFinishDate(asc: bool)

  /** The `switch` of `Sort`: `None` stands for "Unrecognized sort option". */
  function OrderOf(flag: int): (r: Option<Order>)
    ensures r.None? <==> !(SortUnfinishedStart <= flag <= SortFinishDateDesc)
    ensures flag == SortUnfinishedStart ==> r == Some(UnfinishedThenStart)
    ensures flag in {SortStartDateAsc, SortStartDateDesc} ==> r == Some(ByStartDate(flag == SortStartDateAsc))
    ensures flag in {SortFinishDateAsc, SortFinishDateDesc} ==> r == Some(ByFinishDate(flag == SortFinishDateAsc))
  {
    if flag == SortUnfinishedStart then Some(UnfinishedThenStart)
    else if flag == SortStartDateAsc || flag == SortStartDateDesc then Some(ByStartDate(flag == SortStartDateAsc))
    else if flag == SortFinishDateAsc || flag == SortFinishDateDesc then Some(ByFinishDate(flag == SortFinishDateAsc))
    else None
  }

  /** `sortByDate`: compares two dates, ascending or descending, with its own rule for zero dates. */
  predicate SortByDate(asc: bool, d1: T.Time, d2: T.Time) {
    if asc then
      if !T.IsZero(d1) && !T.IsZero(d2) then T.Before(d1, d2) else !T.IsZero(d2)
    else
      if !T.IsZero(d1) && !T.IsZero(d2) then T.After(d1, d2) else T.IsZero(d2)
  }

  /** The `by` function of each comparator: open entries (no finish stamp) first, then by start date descending. */
  predicate Less(o: Order, t1: Timer, t2: Timer) {
    match o
    case UnfinishedThenStart =>
      if T.IsZero(t1.finishDate) && !T.IsZero(t2.finishDate) then true
      else if T.IsZero(t2.finishDate) && !T.IsZero(t1.finishDate) then false
      else SortByDate(false, t1.startDate, t2.startDate)
    case ByStartDate(asc) => SortByDate(asc, t1.startDate, t2.startDate)
    case ByFinishDate(asc) => SortByDate(asc, t1.finishDate, t2.finishDate)
  }

  /**
   * The strict part of a comparator: `t1` must come before `t2`. It differs from
   * `Less` only on two zero dates in descending mode, where `Less` holds both ways.
   */
  predicate StrictLess(o: Order, t1: Timer, t2: Timer) {
    Less(o, t1, t2) && !Less(o, t2, t1)
  }

  /** No entry is placed after one it must come before. */
  predicate Sorted(o: Order, s: seq<Timer>) {
    forall i, j :: 0 <= i < j < |s| ==> !StrictLess(o, s[j], s[i])
  }

  // ---------------------------------------------------------------------------
  // Facts about the comparators
  // ---------------------------------------------------------------------------

  /** Ascending: both set compares the instants; a zero date comes before a set one, never after. */
  lemma SortByDateAscending(d1: T.Time, d2: T.Time)
    ensures !T.IsZero(d1) && !T.IsZero(d2) ==> (SortByDate(true, d1, d2) <==> T.Before(d1, d2))
    ensures T.IsZero(d1) && !T.IsZero(d2) ==> SortByDate(true, d1, d2)
    ensures T.IsZero(d2) ==> !SortByDate(true, d1, d2)
  {
  }

  /** Descending: both set compares the instants the other way; a set date comes before a zero one. */
  lemma SortByDateDescending(d1: T.Time, d2: T.Time)
    ensures !T.IsZero(d1) && !T.IsZero(d2) ==> (SortByDate(false, d1, d2) <==> T.After(d1, d2))
    ensures !T.IsZero(d1) && T.IsZero(d2) ==> SortByDate(false, d1, d2)
    ensures T.IsZero(d1) && !T.IsZero(d2) ==> !SortByDate(false, d1, d2)
  {
  }

  /** Descending mode holds of two zero dates, so `sortByDate` is not irreflexive. */
  lemma DescendingNotIrreflexive()
    ensures SortByDate(false, T.Zero, T.Zero)
    ensures exists t: Timer :: Less(ByStartDate(false), t, t)
  {
    var t := NewTimer(T.Zero);
    assert Less(ByStartDate(false), t, t);
  }

  /** Ascending mode is irreflexive; on it `StrictLess` and `Less` agree. */
  lemma AscendingStrictIsLess(start: bool, t1: Timer, t2: Timer)
    ensures var o := if start then ByStartDate(true) else ByFinishDate(true);
      StrictLess(o, t1, t2) <==> Less(o, t1, t2)
  {
  }

  /** An open entry must come before a finished one, and a finished one never before an open one. */
  lemma OpenBeforeFinished(t1: Timer, t2: Timer)
    requires T.IsZero(t1.finishDate) && !T.IsZero(t2.finishDate)
    ensures StrictLess(UnfinishedThenStart, t1, t2)
    ensures !Less(UnfinishedThenStart, t2, t1)
  {
  }

  /** Among entries alike in being open or finished, the later start comes first. */
  lemma UnfinishedThenStartTies(t1: Timer, t2: Timer)
    requires T.IsZero(t1.finishDate) == T.IsZero(t2.finishDate)
    ensures Less(UnfinishedThenStart, t1, t2) <==> SortByDate(false, t1.startDate, t2.startDate)
  {
  }

  /** The start and finish comparators look at one date only. */
  lemma ComparesOneDate(asc: bool, t1: Timer, t2: Timer, u1: Timer, u2: Timer)
    ensures t1.startDate == u1.startDate && t2.startDate == u2.startDate ==>
      (Less(ByStartDate(asc), t1, t2) <==> Less(ByStartDate(asc), u1, u2))
    ensures t1.finishDate == u1.finishDate && t2.finishDate == u2.finishDate ==>
      (Less(ByFinishDate(asc), t1, t2) <==> Less(ByFinishDate(asc), u1, u2))
  {
  }

  /** A rank of each date: comparing ranks lexicographically gives the strict comparator. */
  function DateRank(asc: bool, d: T.Time): (int, int) {
    if asc then (if T.IsZero(d) then (0, 0) else (1, d.seconds))
    else (if T.IsZero(d) then (1, 0) else (0, 0 - d.seconds))
  }

  function Rank(o: Order, t: Timer): (int, int, int) {
    match o
    case UnfinishedThenStart =>
      var r := DateRank(false, t.startDate);
      (if T.IsZero(t.finishDate) then 0 else 1, r.0, r.1)
    case ByStartDate(asc) => var r := DateRank(asc, t.startDate); (0, r.0, r.1)
    case ByFinishDate(asc) => var r := DateRank(asc, t.finishDate); (0, r.0, r.1)
  }

  predicate RankLess(a: (int, int, int), b: (int, int, int)) {
    a.0 < b.0 || (a.0 == b.0 && (a.1 < b.1 || (a.1 == b.1 && a.2 < b.2)))
  }

  /** The strict comparator is a comparison of ranks. */
  lemma StrictLessIsRankLess(o: Order, t1: Timer, t2: Timer)
    ensures StrictLess(o, t1, t2) <==> RankLess(Rank(o, t1), Rank(o, t2))
  {
  }

  /**
   * `StrictLess` is a strict weak order: never both ways, and if neither `x`
   * before `y` nor `y` before `z` is required, neither is `x` before `z`.
   */
  lemma StrictLessNegativelyTransitive(o: Order, x: Timer, y: Timer, z: Timer)
    requires !StrictLess(o, x, y) && !StrictLess(o, y, z)
    ensures !StrictLess(o, x, z)
  {
    StrictLessIsRankLess(o, x, y);
    StrictLessIsRankLess(o, y, z);
    StrictLessIsRankLess(o, x, z);
  }

  lemma StrictLessAsymmetric(o: Order, x: Timer, y: Timer)
    ensures StrictLess(o, x, y) ==> !StrictLess(o, y, x)
  {
  }

  // ---------------------------------------------------------------------------
  // What a sorted list looks like
  // ---------------------------------------------------------------------------

  /** Sorted for the default order: no finished entry sits before an open one. */
  lemma SortedOpenFirst(s: seq<Timer>, i: int, j: int)
    requires Sorted(UnfinishedThenStart, s) && 0 <= i < j < |s|
    ensures T.IsZero(s[j].finishDate) ==> T.IsZero(s[i].finishDate)
  {
    if T.IsZero(s[j].finishDate) && !T.IsZero(s[i].finishDate) {
      OpenBeforeFinished(s[j], s[i]);
      assert false;
    }
  }

  /** Sorted by start date ascending: zero start dates first, set ones never decreasing. */
  lemma SortedByStartAscending(s: seq<Timer>, i: int, j: int)
    requires Sorted(ByStartDate(true), s) && 0 <= i < j < |s|
    ensures T.IsZero(s[j].startDate) ==> T.IsZero(s[i].startDate)
    ensures !T.IsZero(s[i].startDate) ==> s[i].startDate.seconds <= s[j].startDate.seconds
  {
    assert !StrictLess(ByStartDate(true), s[j], s[i]);
  }

  /** Sorted by finish date descending: set finish dates first, never increasing; zero ones last. */
  lemma SortedByFinishDescending(s: seq<Timer>, i: int, j: int)
    requires Sorted(ByFinishDate(false), s) && 0 <= i < j < |s|
    ensures T.IsZero(s[i].finishDate) ==> T.IsZero(s[j].finishDate)
    ensures !T.IsZero(s[j].finishDate) ==> s[i].finishDate.seconds >= s[j].finishDate.seconds
  {
    assert !StrictLess(ByFinishDate(false), s[j], s[i]);
  }

  // ---------------------------------------------------------------------------
  // The in-place sort
  // ---------------------------------------------------------------------------

  /** `timerlistSort.Swap`. */
  method Swap(a: array<Timer>, l: int, r: int)
    requires 0 <= l < a.Length && 0 <= r < a.Length
    modifies a
    ensures a[..] == old(a[..])[l := old(a[r])][r := old(a[l])]
    ensures multiset(a[..]) == multiset(old(a[..]))
  {
    a[l], a[r] := a[r], a[l];
  }

  /** The inner-loop invariant: sorted up to `i` except for the pairs at `j`. */
  ghost predicate SortedExcept(o: Order, s: seq<Timer>, i: int, j: int)
    requires 0 <= j <= i < |s|
  {
    forall p, q :: 0 <= p < q <= i && p != j && q != j ==> !StrictLess(o, s[q], s[p])
  }

  /**
   * `sortBy`: rearranges the array by swaps of neighbours (an insertion sort)
   * until no entry sits after one it must come before.
   */
  method SortTimers(a: array<Timer>, o: Order)
    modifies a
    ensures Sorted(o, a[..])
    ensures multiset(a[..]) == multiset(old(a[..]))
  {
    var i := 0;
    while i < a.Length
      invariant 0 <= i <= a.Length
      invariant forall p, q :: 0 <= p < q < i ==> !StrictLess(o, a[q], a[p])
      invariant multiset(a[..]) == multiset(old(a[..]))
    {
      InsertAt(a, o, i);
      i := i + 1;
    }
  }

  /** The inner loop: moves `a[i]` down past every entry it must come before. */
  method InsertAt(a: array<Timer>, o: Order, i: int)
    requires 0 <= i < a.Length
    requires forall p, q :: 0 <= p < q < i ==> !StrictLess(o, a[q], a[p])
    modifies a
    ensures forall p, q :: 0 <= p < q < i + 1 ==> !StrictLess(o, a[q], a[p])
    ensures multiset(a[..]) == multiset(old(a[..]))
  {
    var j := i;
    while j > 0 && Less(o, a[j], a[j - 1])
      invariant 0 <= j <= i
      invariant SortedExcept(o, a[..], i, j)
      invariant forall q :: j < q <= i ==> Less(o, a[j], a[q])
      invariant forall p, q :: 0 <= p < j < q <= i ==> !StrictLess(o, a[q], a[p])
      invariant multiset(a[..]) == multiset(old(a[..]))
    {
      InsertStep(a[..], o, i, j);
      Swap(a, j - 1, j);
      j := j - 1;
    }
    InsertDone(a[..], o, i, j);
  }

  /** One swap of the inner loop keeps its invariant, with `j - 1` in place of `j`. */
  lemma InsertStep(s: seq<Timer>, o: Order, i: int, j: int)
    requires 0 < j <= i < |s|
    requires Less(o, s[j], s[j - 1])
    requires SortedExcept(o, s, i, j)
    requires forall q :: j < q <= i ==> Less(o, s[j], s[q])
    requires forall p, q :: 0 <= p < j < q <= i ==> !StrictLess(o, s[q], s[p])
    ensures var s' := s[j - 1 := s[j]][j := s[j - 1]];
      && SortedExcept(o, s', i, j - 1)
      && (forall q :: j - 1 < q <= i ==> Less(o, s'[j - 1], s'[q]))
      && (forall p, q :: 0 <= p < j - 1 < q <= i ==> !StrictLess(o, s'[q], s'[p]))
  {
    var s' := s[j - 1 := s[j]][j := s[j - 1]];
    forall p, q | 0 <= p < q <= i && p != j - 1 && q != j - 1
      ensures !StrictLess(o, s'[q], s'[p])
    {
      if q == j {
        if p < j - 1 {
          assert s'[q] == s[j - 1] && s'[p] == s[p];
        }
      } else if p == j {
        assert s'[p] == s[j - 1] && s'[q] == s[q];
      } else {
        assert s'[p] == s[p] && s'[q] == s[q];
      }
    }
    forall p, q | 0 <= p < j - 1 < q <= i
      ensures !StrictLess(o, s'[q], s'[p])
    {
      if q == j {
        assert s'[q] == s[j - 1] && s'[p] == s[p];
      } else {
        assert s'[q] == s[q] && s'[p] == s[p];
      }
    }
  }

  /** When the inner loop stops, the array is sorted up to and including `i`. */
  lemma InsertDone(s: seq<Timer>, o: Order, i: int, j: int)
    requires 0 <= j <= i < |s|
    requires j == 0 || !Less(o, s[j], s[j - 1])
    requires SortedExcept(o, s, i, j)
    requires forall q :: j < q <= i ==> Less(o, s[j], s[q])
    requires forall p, q :: 0 <= p < j < q <= i ==> !StrictLess(o, s[q], s[p])
    ensures forall p, q :: 0 <= p < q < i + 1 ==> !StrictLess(o, s[q], s[p])
  {
    forall p, q | 0 <= p < q < i + 1 ensures !StrictLess(o, s[q], s[p]) {
      if q == j && p < j - 1 {
        StrictLessNegativelyTransitive(o, s[j], s[j - 1], s[p]);
      }
    }
  }
}
