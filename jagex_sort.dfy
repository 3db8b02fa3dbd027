/**
 * `jagex_quicksort` of `src/jagex_sort.rs`: the game's own in-place quicksort
 * of a rank combination by cost. The element at index `i` goes left of the
 * pivot when `cost - pivot < i & 1`: strictly cheaper at even indices,
 * cheaper or equal at odd ones. The result is sorted by cost, but the order of
 * equal costs depends on their positions, and decides which perk wins.
 *
 * The functions below are the algorithm on sequences; `SortRange` and
 * `JagexQuicksort` are the in-place version on an array of ranks, proved to
 * compute exactly those functions.
 */
module JagexSort {
  import opened Enums
  import opened PreludeData

  function Swap<T>(s: seq<T>, i: nat, j: nat): (r: seq<T>)
    requires i < |s| && j < |s|
    ensures |r| == |s| && r[i] == s[j] && r[j] == s[i]
  {
    s[i := s[j]][j := s[i]]
  }

  /** The comparison of the partition loop; `i & 1` is `i % 2` for an index. */
  predicate GoesLeft(cost: int, pivot: int, i: nat)
  {
    cost - pivot < i % 2
  }

  /** A partly partitioned list and the loop's `counter`: the next slot left of the pivot. */
  datatype Split = Split(ranks: seq<PerkRankValues>, counter: nat)

  /** The `for i in low..high` loop from index `i` on, with `counter` the next left slot. */
  function PartitionLoop(s: seq<PerkRankValues>, pivot: int, i: nat, high: nat, counter: nat): (r: Split)
    requires counter <= i <= high < |s|
    ensures |r.ranks| == |s| && counter <= r.counter <= high
    decreases high - i
  {
    if i == high then Split(s, counter)
    else if GoesLeft(s[i].cost, pivot, i) then PartitionLoop(Swap(s, i, counter), pivot, i + 1, high, counter + 1)
    else PartitionLoop(s, pivot, i + 1, high, counter)
  }

  /** One call of the inner `f` before its recursion: park the middle element at `high`, partition, put it back at `counter`. */
  function Partition(s: seq<PerkRankValues>, low: nat, high: nat): (r: Split)
    requires low <= high < |s|
    ensures |r.ranks| == |s| && low <= r.counter <= high
  {
    var p := (low + high) / 2;
    var pivot := s[p].cost;
    var s1 := Swap(s, p, high);
    var r2 := PartitionLoop(s1, pivot, low, high, low);
    Split(Swap(r2.ranks, high, r2.counter), r2.counter)
  }

  /**
   * The inner `f(comb, low, high)`: it recurses only on the strictly smaller
   * ranges beside the pivot. The left test is made on signed values,
   * `low < counter - 1`, which is `low + 1 < counter` without the underflow.
   */
  function SortRangeSpec(s: seq<PerkRankValues>, low: nat, high: nat): (r: seq<PerkRankValues>)
    requires low <= high < |s|
    ensures |r| == |s|
    decreases high - low, 2
  {
    var p := Partition(s, low, high);
    SortAbove(SortBelow(p, low), p.counter, high)
  }

  /** The left call `f(comb, low, counter - 1)`, made when `low < counter - 1`. */
  function SortBelow(p: Split, low: nat): (r: seq<PerkRankValues>)
    requires low <= p.counter < |p.ranks|
    ensures |r| == |p.ranks|
    decreases p.counter - low, 1
  {
    if low + 1 < p.counter then SortRangeSpec(p.ranks, low, p.counter - 1) else p.ranks
  }

  /** The right call `f(comb, counter + 1, high)`, made when `counter + 1 < high`. */
  function SortAbove(s: seq<PerkRankValues>, counter: nat, high: nat): (r: seq<PerkRankValues>)
    requires counter <= high < |s|
    ensures |r| == |s|
    decreases high - counter, 1
  {
    if counter + 1 < high then SortRangeSpec(s, counter + 1, high) else s
  }

  /** `jagex_quicksort`: the call `f(comb, 0, len - 1)`, which needs a non-empty list. */
  function Quicksort(s: seq<PerkRankValues>): (r: seq<PerkRankValues>)
    requires |s| > 0
    ensures |r| == |s|
  {
    SortRangeSpec(s, 0, |s| - 1)
  }

  // ---------------------------------------------------------------------------
  // Range predicates (half-open ranges `[lo, hi)`).

  ghost predicate AllCostAtMost(s: seq<PerkRankValues>, lo: nat, hi: nat, bound: int)
    requires lo <= hi <= |s|
  {
    forall k :: lo <= k < hi ==> s[k].cost <= bound
  }

  ghost predicate AllCostAtLeast(s: seq<PerkRankValues>, lo: nat, hi: nat, bound: int)
    requires lo <= hi <= |s|
  {
    forall k :: lo <= k < hi ==> s[k].cost >= bound
  }

  /** `s` and `t` agree everywhere outside `[lo, hi)`. */
  ghost predicate SameOutside<T>(s: seq<T>, t: seq<T>, lo: nat, hi: nat)
  {
    |s| == |t| && forall k :: 0 <= k < |s| && (k < lo || hi <= k) ==> s[k] == t[k]
  }

  /** `t` is `s` with only the elements of `[lo, hi)` rearranged. */
  ghost predicate PermutedWithin<T>(s: seq<T>, t: seq<T>, lo: nat, hi: nat)
  {
    lo <= hi <= |s| && SameOutside(s, t, lo, hi) && multiset(s) == multiset(t)
  }

  ghost predicate SortedWithin(s: seq<PerkRankValues>, lo: nat, hi: nat)
    requires lo <= hi <= |s|
  {
    forall i, j :: lo <= i < j < hi ==> s[i].cost <= s[j].cost
  }

  // ---------------------------------------------------------------------------
  // Permutation bookkeeping.

  lemma SwapKeepsOthers<T>(s: seq<T>, i: nat, j: nat)
    requires i < |s| && j < |s|
    ensures forall k :: 0 <= k < |s| && k != i && k != j ==> Swap(s, i, j)[k] == s[k]
  {
  }

  lemma SwapPermutes<T>(s: seq<T>, i: nat, j: nat, lo: nat, hi: nat)
    requires lo <= i < hi <= |s| && lo <= j < hi
    ensures PermutedWithin(s, Swap(s, i, j), lo, hi)
  {
    SwapKeepsOthers(s, i, j);
  }

  lemma PermutedWithinTrans<T>(s: seq<T>, t: seq<T>, u: seq<T>, lo: nat, hi: nat)
    requires PermutedWithin(s, t, lo, hi) && PermutedWithin(t, u, lo, hi)
    ensures PermutedWithin(s, u, lo, hi)
  {
  }

  /** A rearrangement of a sub-range is a rearrangement of any range around it. */
  lemma PermutedWithinWiden<T>(s: seq<T>, t: seq<T>, lo: nat, hi: nat, lo': nat, hi': nat)
    requires PermutedWithin(s, t, lo, hi)
    requires lo' <= lo && hi <= hi' <= |s|
    ensures PermutedWithin(s, t, lo', hi')
  {
  }

  lemma MultisetOfThirds<T>(s: seq<T>, lo: nat, hi: nat)
    requires lo <= hi <= |s|
    ensures multiset(s) == multiset(s[..lo]) + multiset(s[lo..hi]) + multiset(s[hi..])
  {
    assert s == s[..lo] + s[lo..hi] + s[hi..];
  }

  /** The rearranged range itself holds the same elements as before. */
  lemma PermutedSlice<T>(s: seq<T>, t: seq<T>, lo: nat, hi: nat)
    requires PermutedWithin(s, t, lo, hi)
    ensures multiset(s[lo..hi]) == multiset(t[lo..hi])
  {
    MultisetOfThirds(s, lo, hi);
    MultisetOfThirds(t, lo, hi);
    assert s[..lo] == t[..lo];
    assert s[hi..] == t[hi..];
    var x, y := multiset(s[lo..hi]), multiset(t[lo..hi]);
    var a, b := multiset(s[..lo]), multiset(s[hi..]);
    assert a + x + b == a + y + b;
    assert forall e :: x[e] == (a + x + b)[e] - a[e] - b[e];
    assert forall e :: y[e] == (a + y + b)[e] - a[e] - b[e];
  }

  /** Rearranging a range keeps every bound that held over the range. */
  lemma PermutedKeepsBounds(s: seq<PerkRankValues>, t: seq<PerkRankValues>, lo: nat, hi: nat, bound: int)
    requires PermutedWithin(s, t, lo, hi)
    ensures AllCostAtMost(s, lo, hi, bound) ==> AllCostAtMost(t, lo, hi, bound)
    ensures AllCostAtLeast(s, lo, hi, bound) ==> AllCostAtLeast(t, lo, hi, bound)
  {
    PermutedSlice(s, t, lo, hi);
    forall k | lo <= k < hi ensures t[k] in multiset(s[lo..hi]) {
      assert t[k] == t[lo..hi][k - lo];
    }
    forall k | lo <= k < hi ensures exists j :: lo <= j < hi && s[j] == t[k] {
      var j :| 0 <= j < hi - lo && s[lo..hi][j] == t[k];
      assert s[lo + j] == t[k];
    }
  }

  /** A rearrangement of a range is a rearrangement of the whole sequence. */
  lemma PermutedWithinWhole<T>(s: seq<T>, t: seq<T>, lo: nat, hi: nat)
    requires PermutedWithin(s, t, lo, hi)
    ensures multiset(s) == multiset(t)
  {
  }

  // ---------------------------------------------------------------------------
  // The partition.

  /** The loop only swaps inside `[low, high)`. */
  lemma {:induction false} PartitionLoopPermutes(s: seq<PerkRankValues>, pivot: int, low: nat, i: nat, high: nat, counter: nat)
    requires low <= counter <= i <= high < |s|
    ensures PermutedWithin(s, PartitionLoop(s, pivot, i, high, counter).ranks, low, high)
    decreases high - i
  {
    if i == high {
    } else if GoesLeft(s[i].cost, pivot, i) {
      var s' := Swap(s, i, counter);
      SwapPermutes(s, i, counter, low, high);
      PartitionLoopPermutes(s', pivot, low, i + 1, high, counter + 1);
      PermutedWithinTrans(s, s', PartitionLoop(s', pivot, i + 1, high, counter + 1).ranks, low, high);
    } else {
      PartitionLoopPermutes(s, pivot, low, i + 1, high, counter);
    }
  }

  /**
   * The loop keeps `[low, counter)` at most the pivot and `[counter, i)` at
   * least the pivot, whichever way the parity test breaks a tie, and never
   * touches index `high`.
   */
  lemma {:induction false} PartitionLoopBounds(s: seq<PerkRankValues>, pivot: int, low: nat, i: nat, high: nat, counter: nat)
    requires low <= counter <= i <= high < |s|
    requires AllCostAtMost(s, low, counter, pivot) && AllCostAtLeast(s, counter, i, pivot)
    ensures var r := PartitionLoop(s, pivot, i, high, counter);
      AllCostAtMost(r.ranks, low, r.counter, pivot) && AllCostAtLeast(r.ranks, r.counter, high, pivot)
      && r.ranks[high] == s[high]
    decreases high - i
  {
    if i == high {
    } else if GoesLeft(s[i].cost, pivot, i) {
      var s' := Swap(s, i, counter);
      SwapKeepsOthers(s, i, counter);
      assert s'[counter].cost <= pivot;
      assert AllCostAtMost(s', low, counter + 1, pivot);
      assert AllCostAtLeast(s', counter + 1, i + 1, pivot);
      PartitionLoopBounds(s', pivot, low, i + 1, high, counter + 1);
    } else {
      PartitionLoopBounds(s, pivot, low, i + 1, high, counter);
    }
  }

  /** `Partition` only rearranges `[low, high]`. */
  lemma PartitionPermutes(s: seq<PerkRankValues>, low: nat, high: nat)
    requires low <= high < |s|
    ensures PermutedWithin(s, Partition(s, low, high).ranks, low, high + 1)
  {
    var p := (low + high) / 2;
    var s1 := Swap(s, p, high);
    SwapPermutes(s, p, high, low, high + 1);
    PartitionLoopPermutes(s1, s[p].cost, low, low, high, low);
    var r2 := PartitionLoop(s1, s[p].cost, low, high, low);
    PermutedWithinWiden(s1, r2.ranks, low, high, low, high + 1);
    SwapPermutes(r2.ranks, high, r2.counter, low, high + 1);
    PermutedWithinTrans(s, s1, r2.ranks, low, high + 1);
    PermutedWithinTrans(s, r2.ranks, Swap(r2.ranks, high, r2.counter), low, high + 1);
  }

  /** After `Partition` the pivot's cost sits at `counter`, cheaper-or-equal left of it, dearer-or-equal right of it. */
  lemma PartitionBounds(s: seq<PerkRankValues>, low: nat, high: nat)
    requires low <= high < |s|
    ensures var r := Partition(s, low, high);
      var pivot := s[(low + high) / 2].cost;
      r.ranks[r.counter].cost == pivot
      && AllCostAtMost(r.ranks, low, r.counter, pivot) && AllCostAtLeast(r.ranks, r.counter + 1, high + 1, pivot)
  {
    var p := (low + high) / 2;
    var pivot := s[p].cost;
    var s1 := Swap(s, p, high);
    PartitionLoopBounds(s1, pivot, low, low, high, low);
    var r2 := PartitionLoop(s1, pivot, low, high, low);
    SwapKeepsOthers(r2.ranks, high, r2.counter);
    var t := Swap(r2.ranks, high, r2.counter);
    assert t[r2.counter] == r2.ranks[high] == s1[high] == s[p];
    assert AllCostAtMost(t, low, r2.counter, pivot);
    assert AllCostAtLeast(t, r2.counter + 1, high + 1, pivot);
  }

  /**
   * After `Partition`, the pivot sits at `c`, everything in `[low, c)` costs at
   * most the pivot and everything in `(c, high]` at least the pivot; only
   * `[low, high]` has been rearranged.
   */
  lemma PartitionSplits(s: seq<PerkRankValues>, low: nat, high: nat)
    requires low <= high < |s|
    ensures var r := Partition(s, low, high);
      var pivot := s[(low + high) / 2].cost;
      r.ranks[r.counter].cost == pivot
      && AllCostAtMost(r.ranks, low, r.counter, pivot) && AllCostAtLeast(r.ranks, r.counter + 1, high + 1, pivot)
      && PermutedWithin(s, r.ranks, low, high + 1)
  {
    PartitionPermutes(s, low, high);
    PartitionBounds(s, low, high);
  }

  // ---------------------------------------------------------------------------
  // The sort.

  /** The left recursion: `[low, counter)` comes out sorted, rearranged, and still at most the pivot. */
  lemma SortBelowSorts(p: Split, low: nat, pivot: int)
    requires low <= p.counter < |p.ranks| && AllCostAtMost(p.ranks, low, p.counter, pivot)
    ensures var t := SortBelow(p, low);
      PermutedWithin(p.ranks, t, low, p.counter) && SortedWithin(t, low, p.counter) && AllCostAtMost(t, low, p.counter, pivot)
    decreases p.counter - low, 0
  {
    if low + 1 < p.counter {
      SortRangeSorts(p.ranks, low, p.counter - 1);
      PermutedKeepsBounds(p.ranks, SortBelow(p, low), low, p.counter, pivot);
    }
  }

  /** The right recursion: `(counter, high]` comes out sorted, rearranged, and still at least the pivot. */
  lemma SortAboveSorts(s: seq<PerkRankValues>, counter: nat, high: nat, pivot: int)
    requires counter <= high < |s| && AllCostAtLeast(s, counter + 1, high + 1, pivot)
    ensures var t := SortAbove(s, counter, high);
      PermutedWithin(s, t, counter + 1, high + 1) && SortedWithin(t, counter + 1, high + 1) && AllCostAtLeast(t, counter + 1, high + 1, pivot)
    decreases high - counter, 0
  {
    if counter + 1 < high {
      SortRangeSorts(s, counter + 1, high);
      PermutedKeepsBounds(s, SortAbove(s, counter, high), counter + 1, high + 1, pivot);
    }
  }

  /** Two sorted sides split by the pivot make one sorted range. */
  lemma SortedAroundPivot(t: seq<PerkRankValues>, low: nat, c: nat, high: nat, pivot: int)
    requires low <= c <= high < |t|
    requires SortedWithin(t, low, c) && AllCostAtMost(t, low, c, pivot)
    requires t[c].cost == pivot
    requires SortedWithin(t, c + 1, high + 1) && AllCostAtLeast(t, c + 1, high + 1, pivot)
    ensures SortedWithin(t, low, high + 1)
  {
  }

  /** Partition, then left and right recursions: the range is sorted and a rearrangement of the input's. */
  lemma CombineSides(s: seq<PerkRankValues>, s1: seq<PerkRankValues>, s2: seq<PerkRankValues>, s3: seq<PerkRankValues>,
                     low: nat, c: nat, high: nat, pivot: int)
    requires low <= c <= high < |s1|
    requires PermutedWithin(s, s1, low, high + 1) && s1[c].cost == pivot
    requires PermutedWithin(s1, s2, low, c) && SortedWithin(s2, low, c) && AllCostAtMost(s2, low, c, pivot)
    requires PermutedWithin(s2, s3, c + 1, high + 1) && SortedWithin(s3, c + 1, high + 1) && AllCostAtLeast(s3, c + 1, high + 1, pivot)
    ensures SortedWithin(s3, low, high + 1) && PermutedWithin(s, s3, low, high + 1)
  {
    assert s3[c] == s2[c] == s1[c];
    assert SortedWithin(s3, low, c) && AllCostAtMost(s3, low, c, pivot) by {
      forall k | low <= k < c ensures s3[k] == s2[k] { }
    }
    SortedAroundPivot(s3, low, c, high, pivot);
    PermutedWithinWiden(s1, s2, low, c, low, high + 1);
    PermutedWithinWiden(s2, s3, c + 1, high + 1, low, high + 1);
    PermutedWithinTrans(s, s1, s2, low, high + 1);
    PermutedWithinTrans(s, s2, s3, low, high + 1);
  }

  /** `f(comb, low, high)` sorts `[low, high]` by cost, only rearranging that range. */
  lemma {:induction false} SortRangeSorts(s: seq<PerkRankValues>, low: nat, high: nat)
    requires low <= high < |s|
    ensures SortedWithin(SortRangeSpec(s, low, high), low, high + 1)
    ensures PermutedWithin(s, SortRangeSpec(s, low, high), low, high + 1)
    decreases high - low, 3
  {
    var p := Partition(s, low, high);
    var pivot := s[(low + high) / 2].cost;
    PartitionSplits(s, low, high);
    SortBelowSorts(p, low, pivot);
    var s2 := SortBelow(p, low);
    SortAboveSorts(s2, p.counter, high, pivot);
    CombineSides(s, p.ranks, s2, SortAbove(s2, p.counter, high), low, p.counter, high, pivot);
  }

  /** The whole list comes out sorted by cost and is a permutation of the input. */
  lemma QuicksortSortsAndPermutes(s: seq<PerkRankValues>)
    requires |s| > 0
    ensures forall i, j :: 0 <= i < j < |s| ==> Quicksort(s)[i].cost <= Quicksort(s)[j].cost
    ensures multiset(Quicksort(s)) == multiset(s)
  {
    SortRangeSorts(s, 0, |s| - 1);
    PermutedWithinWhole(s, Quicksort(s), 0, |s|);
  }

  // ---------------------------------------------------------------------------
  // The in-place version.

  /** The partition step of `f` in place: returns the pivot's final index `counter`. */
  method PartitionInPlace(a: array<PerkRankValues>, low: nat, high: nat) returns (counter: nat)
    requires low <= high < a.Length
    modifies a
    ensures Partition(old(a[..]), low, high) == Split(a[..], counter)
  {
    var pivotIndex := (low + high) / 2;
    var pivotValue := a[pivotIndex];
    a[pivotIndex], a[high] := a[high], a[pivotIndex];
    ghost var s1 := a[..];
    counter := low;
    var i := low;
    while i < high
      invariant low <= counter <= i <= high
      invariant PartitionLoop(a[..], pivotValue.cost, i, high, counter) == PartitionLoop(s1, pivotValue.cost, low, high, low)
    {
      if a[i].cost - pivotValue.cost < i % 2 {
        a[i], a[counter] := a[counter], a[i];
        counter := counter + 1;
      }
      i := i + 1;
    }
    a[high], a[counter] := a[counter], a[high];
  }

  /** The inner `f`: partitions `a[low..=high]` in place, then recurses on both sides. */
  method SortRange(a: array<PerkRankValues>, low: nat, high: nat)
    requires low <= high < a.Length
    modifies a
    ensures a[..] == SortRangeSpec(old(a[..]), low, high)
    decreases high - low
  {
    ghost var s0 := a[..];
    var counter := PartitionInPlace(a, low, high);
    ghost var p := Split(a[..], counter);
    assert p == Partition(s0, low, high);
    ghost var s1 := SortBelow(p, low);
    if low + 1 < counter {
      SortRange(a, low, counter - 1);
    }
    assert a[..] == s1;
    if counter + 1 < high {
      SortRange(a, counter + 1, high);
    }
    assert a[..] == SortAbove(s1, counter, high);
    assert SortRangeSpec(s0, low, high) == SortAbove(s1, counter, high);
  }

  /**
   * `jagex_quicksort` on the ranks of a combination; the array keeps its length,
   * and the combination's probability is not touched.
   */
  method JagexQuicksort(ranks: array<PerkRankValues>)
    requires ranks.Length > 0
    modifies ranks
    ensures ranks[..] == Quicksort(old(ranks[..]))
    ensures forall i, j :: 0 <= i < j < ranks.Length ==> ranks[i].cost <= ranks[j].cost
    ensures multiset(ranks[..]) == multiset(old(ranks[..]))
  {
    QuicksortSortsAndPermutes(ranks[..]);
    SortRange(ranks, 0, ranks.Length - 1);
  }

  // ---------------------------------------------------------------------------
  // The tie-order test vectors.

  function Rank(name: string, cost: nat): PerkRankValues
  {
    PerkRankValues(Named(name), 0, cost, 0, false, false)
  }

  /** `even_equal_costs5`: the two cost-10 ranks keep the order B, A. */
  lemma EvenEqualCosts5()
    ensures Quicksort([Rank("C", 30), Rank("B", 10), Rank("A", 10), Rank("D", 40)])
         == [Rank("B", 10), Rank("A", 10), Rank("C", 30), Rank("D", 40)]
  {
    var a, b, c, d := Rank("A", 10), Rank("B", 10), Rank("C", 30), Rank("D", 40);
    var s := [c, b, a, d];
    assert PartitionLoop([c, d, a, b], 10, 0, 3, 0) == Split([c, d, a, b], 0);
    var p := Partition(s, 0, 3);
    assert p == Split([b, d, a, c], 0);
    assert SortBelow(p, 0) == [b, d, a, c];
    assert PartitionLoop([b, d, c, a], 10, 1, 3, 1) == Split([b, d, c, a], 1);
    var q := Partition([b, d, a, c], 1, 3);
    assert q == Split([b, a, c, d], 1);
    assert PartitionLoop([b, a, d, c], 30, 2, 3, 2) == Split([b, a, d, c], 2);
    assert Partition([b, a, c, d], 2, 3) == Split([b, a, c, d], 2);
    assert SortRangeSpec([b, a, c, d], 2, 3) == [b, a, c, d];
    assert SortRangeSpec([b, d, a, c], 1, 3) == [b, a, c, d];
  }

  /** `even_equal_costs1`: the same costs from another start give the order A, B. */
  lemma EvenEqualCosts1()
    ensures Quicksort([Rank("B", 10), Rank("A", 10), Rank("D", 40), Rank("C", 30)])
         == [Rank("A", 10), Rank("B", 10), Rank("C", 30), Rank("D", 40)]
  {
    var a, b, c, d := Rank("A", 10), Rank("B", 10), Rank("C", 30), Rank("D", 40);
    var s := [b, a, d, c];
    assert PartitionLoop([b, c, d, a], 10, 0, 3, 0) == Split([b, c, d, a], 0);
    var p := Partition(s, 0, 3);
    assert p == Split([a, c, d, b], 0);
    assert PartitionLoop([a, c, b, d], 40, 1, 3, 1) == Split([a, c, b, d], 3);
    assert Partition([a, c, d, b], 1, 3) == Split([a, c, b, d], 3);
    assert PartitionLoop([a, b, c, d], 30, 1, 2, 1) == Split([a, b, c, d], 2);
    assert Partition([a, c, b, d], 1, 2) == Split([a, b, c, d], 2);
    assert SortRangeSpec([a, c, b, d], 1, 2) == [a, b, c, d];
    assert SortRangeSpec([a, c, d, b], 1, 3) == [a, b, c, d];
  }

  /** `even_no_equal_costs`: distinct costs come out in cost order. */
  lemma EvenNoEqualCosts()
    ensures Quicksort([Rank("B", 20), Rank("A", 10), Rank("D", 40), Rank("C", 30)])
         == [Rank("A", 10), Rank("B", 20), Rank("C", 30), Rank("D", 40)]
  {
    var a, b, c, d := Rank("A", 10), Rank("B", 20), Rank("C", 30), Rank("D", 40);
    var s := [b, a, d, c];
    assert PartitionLoop([b, c, d, a], 10, 0, 3, 0) == Split([b, c, d, a], 0);
    var p := Partition(s, 0, 3);
    assert p == Split([a, c, d, b], 0);
    assert PartitionLoop([a, c, b, d], 40, 1, 3, 1) == Split([a, c, b, d], 3);
    assert Partition([a, c, d, b], 1, 3) == Split([a, c, b, d], 3);
    assert PartitionLoop([a, b, c, d], 30, 1, 2, 1) == Split([a, b, c, d], 2);
    assert Partition([a, c, b, d], 1, 2) == Split([a, b, c, d], 2);
    assert SortRangeSpec([a, c, b, d], 1, 2) == [a, b, c, d];
    assert SortRangeSpec([a, c, d, b], 1, 3) == [a, b, c, d];
  }
}
