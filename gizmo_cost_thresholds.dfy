/**
 * `find_gizmo_cost_thresholds` of `src/gizmo_cost_thresholds.rs`: turns a
 * cost-sorted rank combination into the staircase of gizmos that a budget
 * can reach. It starts from a sentinel of cost -1; each non-zero rank adds
 * its single-perk gizmo and then the pairs with earlier ranks that stay below
 * the next rank's cost. A gizmo with the same cost as the last one replaces
 * it.
 *
 * `Outer` and `Pairs` are the two loops as functions; the method
 * `FindGizmoCostThresholds` is the loop itself, proved to compute them.
 */
module GizmoCostThresholds {
  import opened Wrappers
  import Enums
  import opened Definitions
  import opened DefinitionsPerk
  import opened DefinitionsGizmo

  /** `Gizmo { cost: -1, ..Default::default() }`. */
  const Sentinel := Gizmo((DefaultPerk, DefaultPerk), -1, 0.0)

  function Last(acc: seq<Gizmo>): Gizmo
    requires |acc| > 0
  {
    acc[|acc| - 1]
  }

  /** Pop the last gizmo when it has the new gizmo's cost, then push the new one. */
  function PushReplace(acc: seq<Gizmo>, g: Gizmo): (r: seq<Gizmo>)
    requires |acc| > 0
    ensures |r| > 0 && Last(r) == g
    ensures |r| == (if Last(acc).cost == g.cost then |acc| else |acc| + 1)
    ensures forall k :: 0 <= k < |r| - 1 ==> r[k] == acc[k]
  {
    if Last(acc).cost == g.cost then acc[..|acc| - 1] + [g] else acc + [g]
  }

  /** The gizmo of a pair: `create_from_doubleslot` when either perk is doubleslot, else `create`. */
  function PairGizmo(x: PerkRankValues, y: PerkRankValues): (g: Gizmo)
    ensures g.cost == x.cost + y.cost && EqualsRank(g.perks.0, x)
    ensures x.doubleslot || y.doubleslot ==> IsEmpty(g.perks.1)
    ensures !(x.doubleslot || y.doubleslot) ==> EqualsRank(g.perks.1, y)
  {
    if x.doubleslot || y.doubleslot then CreateFromDoubleslot(x, Some(y)) else Create(x, Some(y))
  }

  /**
   * The inner `for prv_two in ranks.take(i).skip(first_non_zero_rank_index)`
   * from position `j` on: stops at the first sum that reaches `next`.
   */
  function Pairs(ranks: seq<PerkRankValues>, i: nat, j: nat, next: nat, acc: seq<Gizmo>): (r: seq<Gizmo>)
    requires i < |ranks| && |acc| > 0
    ensures |r| > 0
    decreases i - j
  {
    if j >= i then acc
    else if ranks[i].cost + ranks[j].cost >= next then acc
    else Pairs(ranks, i, j + 1, next, PushReplace(acc, PairGizmo(ranks[i], ranks[j])))
  }

  /** The `next_threshold`: the next entry's cost (whatever its rank), or `max_range` after the last. */
  function NextThreshold(ranks: seq<PerkRankValues>, i: nat, maxRange: nat): nat
  {
    if i + 1 < |ranks| then ranks[i + 1].cost else maxRange
  }

  /** The outer `while let` from entry `i` on, `fnz` being `first_non_zero_rank_index`. */
  function Outer(ranks: seq<PerkRankValues>, maxRange: nat, i: nat, fnz: nat, acc: seq<Gizmo>): (r: seq<Gizmo>)
    requires i <= |ranks| && |acc| > 0
    ensures |r| > 0
    decreases |ranks| - i
  {
    if i == |ranks| then acc
    else if ranks[i].rank == 0 then Outer(ranks, maxRange, i + 1, fnz + 1, acc)
    else if ranks[i].cost >= maxRange then acc
    else
      var single := PushReplace(acc, Create(ranks[i], None));
      Outer(ranks, maxRange, i + 1, fnz, Pairs(ranks, i, fnz, NextThreshold(ranks, i, maxRange), single))
  }

  function Thresholds(ranks: seq<PerkRankValues>, maxRange: nat): (r: seq<Gizmo>)
    ensures |r| > 0
  {
    Outer(ranks, maxRange, 0, 0, [Sentinel])
  }

  /** The pop-if-equal-cost-then-push step, as the loops write it on the vector. */
  method PushReplacing(costThresholds: seq<Gizmo>, g: Gizmo) returns (r: seq<Gizmo>)
    requires |costThresholds| > 0
    ensures r == PushReplace(costThresholds, g)
  {
    r := costThresholds;
    if r[|r| - 1].cost == g.cost {
      r := r[..|r| - 1];
    }
    r := r + [g];
  }

  /** The inner loop over `ranks.take(i).skip(first_non_zero_rank_index)`. */
  method AddPairs(ranks: seq<PerkRankValues>, i: nat, firstNonZeroRankIndex: nat, nextThreshold: nat, single: seq<Gizmo>)
    returns (costThresholds: seq<Gizmo>)
    requires i < |ranks| && |single| > 0
    ensures costThresholds == Pairs(ranks, i, firstNonZeroRankIndex, nextThreshold, single)
  {
    var prv := ranks[i];
    costThresholds := single;
    var j := firstNonZeroRankIndex;
    while j < i
      invariant |costThresholds| > 0
      invariant Pairs(ranks, i, j, nextThreshold, costThresholds) == Pairs(ranks, i, firstNonZeroRankIndex, nextThreshold, single)
      decreases i - j
    {
      var prvTwo := ranks[j];
      var costSum := prv.cost + prvTwo.cost;
      if costSum >= nextThreshold {
        break;
      }
      if prv.doubleslot || prvTwo.doubleslot {
        costThresholds := PushReplacing(costThresholds, CreateFromDoubleslot(prv, Some(prvTwo)));
      } else {
        costThresholds := PushReplacing(costThresholds, Create(prv, Some(prvTwo)));
      }
      j := j + 1;
    }
  }

  /** `find_gizmo_cost_thresholds`, with `cost_thresholds` a vector pushed and popped in place. */
  method FindGizmoCostThresholds(combination: RankCombination, maxRange: nat) returns (costThresholds: seq<Gizmo>)
    ensures costThresholds == Thresholds(combination.ranks, maxRange)
  {
    var ranks := combination.ranks;
    costThresholds := [Sentinel];
    var firstNonZeroRankIndex := 0;
    var i := 0;
    while i < |ranks|
      invariant i <= |ranks| && |costThresholds| > 0
      invariant Outer(ranks, maxRange, i, firstNonZeroRankIndex, costThresholds) == Thresholds(ranks, maxRange)
    {
      var prv := ranks[i];
      if prv.rank == 0 {
        firstNonZeroRankIndex := firstNonZeroRankIndex + 1;
        i := i + 1;
        continue;
      }
      if prv.cost >= maxRange {
        break;
      }
      costThresholds := PushReplacing(costThresholds, Create(prv, None));
      var nextThreshold := if i + 1 < |ranks| then ranks[i + 1].cost else maxRange;
      costThresholds := AddPairs(ranks, i, firstNonZeroRankIndex, nextThreshold, costThresholds);
      i := i + 1;
    }
  }

  // ---------------------------------------------------------------------------
  // What every result looks like.

  /** The number of rank-0 entries before position `i`: `first_non_zero_rank_index` on reaching `i`. */
  function ZerosBefore(ranks: seq<PerkRankValues>, i: nat): (r: nat)
    requires i <= |ranks|
    ensures r <= i
  {
    if i == 0 then 0 else ZerosBefore(ranks, i - 1) + (if ranks[i - 1].rank == 0 then 1 else 0)
  }

  /**
   * Gizmo `g` is one that entry `i` adds: its single-perk gizmo, or a pair
   * with an earlier entry past the first `ZerosBefore(ranks, i)` positions.
   */
  ghost predicate MadeAt(ranks: seq<PerkRankValues>, i: nat, g: Gizmo)
    requires i < |ranks|
  {
    ranks[i].rank != 0
    && (g == Create(ranks[i], None)
        || exists j :: ZerosBefore(ranks, i) <= j < i && g == PairGizmo(ranks[i], ranks[j]))
  }

  ghost predicate Produced(ranks: seq<PerkRankValues>, g: Gizmo)
  {
    exists i :: 0 <= i < |ranks| && MadeAt(ranks, i, g)
  }

  /** The sentinel first, then only gizmos made from the entries. */
  ghost predicate Staircase(ranks: seq<PerkRankValues>, acc: seq<Gizmo>)
  {
    |acc| > 0 && acc[0] == Sentinel && forall k :: 1 <= k < |acc| ==> Produced(ranks, acc[k])
  }

  lemma PushReplaceStaircase(ranks: seq<PerkRankValues>, acc: seq<Gizmo>, g: Gizmo)
    requires Staircase(ranks, acc) && Produced(ranks, g) && g.cost >= 0
    ensures Staircase(ranks, PushReplace(acc, g))
  {
    var r := PushReplace(acc, g);
    forall k | 1 <= k < |r| ensures Produced(ranks, r[k]) {
      if k < |r| - 1 {
        assert r[k] == acc[k];
      }
    }
  }

  lemma {:induction false} PairsStaircase(ranks: seq<PerkRankValues>, i: nat, j: nat, next: nat, acc: seq<Gizmo>)
    requires i < |ranks| && ranks[i].rank != 0 && ZerosBefore(ranks, i) <= j && Staircase(ranks, acc)
    ensures Staircase(ranks, Pairs(ranks, i, j, next, acc))
    decreases i - j
  {
    if j < i && ranks[i].cost + ranks[j].cost < next {
      var g := PairGizmo(ranks[i], ranks[j]);
      assert MadeAt(ranks, i, g);
      PushReplaceStaircase(ranks, acc, g);
      PairsStaircase(ranks, i, j + 1, next, PushReplace(acc, g));
    }
  }

  lemma {:induction false} OuterStaircase(ranks: seq<PerkRankValues>, maxRange: nat, i: nat, fnz: nat, acc: seq<Gizmo>)
    requires i <= |ranks| && fnz == ZerosBefore(ranks, i) && Staircase(ranks, acc)
    ensures Staircase(ranks, Outer(ranks, maxRange, i, fnz, acc))
    decreases |ranks| - i
  {
    if i < |ranks| {
      if ranks[i].rank == 0 {
        OuterStaircase(ranks, maxRange, i + 1, fnz + 1, acc);
      } else if ranks[i].cost < maxRange {
        var g := Create(ranks[i], None);
        assert MadeAt(ranks, i, g);
        PushReplaceStaircase(ranks, acc, g);
        var single := PushReplace(acc, g);
        PairsStaircase(ranks, i, fnz, NextThreshold(ranks, i, maxRange), single);
        OuterStaircase(ranks, maxRange, i + 1, fnz, Pairs(ranks, i, fnz, NextThreshold(ranks, i, maxRange), single));
      }
    }
  }

  /**
   * The result starts with the cost -1 sentinel, which is never replaced, and
   * every later gizmo is a single or pair gizmo of a non-zero rank entry.
   */
  lemma ThresholdsShape(ranks: seq<PerkRankValues>, maxRange: nat)
    ensures var r := Thresholds(ranks, maxRange);
      r[0] == Sentinel && forall k :: 1 <= k < |r| ==> Produced(ranks, r[k])
  {
    OuterStaircase(ranks, maxRange, 0, 0, [Sentinel]);
  }

  /** Rank-0 entries come first: none follows an entry of non-zero rank. */
  ghost predicate ZerosLead(ranks: seq<PerkRankValues>)
  {
    forall a, b :: 0 <= a < b < |ranks| && ranks[b].rank == 0 ==> ranks[a].rank == 0
  }

  /** With the rank-0 entries leading, they are exactly the first `ZerosBefore` positions. */
  lemma {:induction false} ZerosBeforeLeading(ranks: seq<PerkRankValues>, i: nat)
    requires ZerosLead(ranks) && i <= |ranks|
    ensures forall k :: 0 <= k < i ==> (ranks[k].rank == 0 <==> k < ZerosBefore(ranks, i))
  {
    if i > 0 {
      ZerosBeforeLeading(ranks, i - 1);
    }
  }

  /**
   * When the rank-0 entries lead the combination, every partner a pair may
   * take (a position past `ZerosBefore`, as `MadeAt` allows) has non-zero rank.
   */
  lemma PairPartnersNonZero(ranks: seq<PerkRankValues>, i: nat, j: nat)
    requires ZerosLead(ranks) && i <= |ranks| && ZerosBefore(ranks, i) <= j < i
    ensures ranks[j].rank != 0
  {
    ZerosBeforeLeading(ranks, i);
  }

  lemma {:induction false} OuterAllRankZero(ranks: seq<PerkRankValues>, maxRange: nat, i: nat, fnz: nat, acc: seq<Gizmo>)
    requires i <= |ranks| && |acc| > 0
    requires forall k :: i <= k < |ranks| ==> ranks[k].rank == 0
    ensures Outer(ranks, maxRange, i, fnz, acc) == acc
    decreases |ranks| - i
  {
    if i < |ranks| {
      OuterAllRankZero(ranks, maxRange, i + 1, fnz + 1, acc);
    }
  }

  /** Rank-0 entries add nothing: a combination of only rank 0 gives just the sentinel. */
  lemma AllRankZeroGivesSentinel(ranks: seq<PerkRankValues>, maxRange: nat)
    requires forall k :: 0 <= k < |ranks| ==> ranks[k].rank == 0
    ensures Thresholds(ranks, maxRange) == [Sentinel]
  {
    OuterAllRankZero(ranks, maxRange, 0, 0, [Sentinel]);
  }

  // ---------------------------------------------------------------------------
  // The first entry at or above `max_range` ends the scan.

  lemma {:induction false} PairsIgnoreTail(s: seq<PerkRankValues>, tail: seq<PerkRankValues>, i: nat, j: nat, next: nat, acc: seq<Gizmo>)
    requires i < |s| && |acc| > 0
    ensures Pairs(s + tail, i, j, next, acc) == Pairs(s, i, j, next, acc)
    decreases i - j
  {
    if j < i {
      assert (s + tail)[i] == s[i] && (s + tail)[j] == s[j];
      if s[i].cost + s[j].cost < next {
        PairsIgnoreTail(s, tail, i, j + 1, next, PushReplace(acc, PairGizmo(s[i], s[j])));
      }
    }
  }

  lemma {:induction false} OuterIgnoresTail(s: seq<PerkRankValues>, tail: seq<PerkRankValues>, maxRange: nat, i: nat, fnz: nat, acc: seq<Gizmo>)
    requires i < |s| && |acc| > 0
    requires s[|s| - 1].rank != 0 && s[|s| - 1].cost >= maxRange
    ensures Outer(s + tail, maxRange, i, fnz, acc) == Outer(s, maxRange, i, fnz, acc)
    decreases |s| - i
  {
    var t := s + tail;
    assert t[i] == s[i];
    if i < |s| - 1 {
      assert t[i + 1] == s[i + 1];
      if s[i].rank == 0 {
        OuterIgnoresTail(s, tail, maxRange, i + 1, fnz + 1, acc);
      } else if s[i].cost < maxRange {
        var single := PushReplace(acc, Create(s[i], None));
        var next := NextThreshold(s, i, maxRange);
        assert NextThreshold(t, i, maxRange) == next;
        PairsIgnoreTail(s, tail, i, fnz, next, single);
        OuterIgnoresTail(s, tail, maxRange, i + 1, fnz, Pairs(s, i, fnz, next, single));
      }
    }
  }

  /** Nothing after the first non-zero entry costing at least `max_range` is looked at. */
  lemma StopsAtCostlyRank(ranks: seq<PerkRankValues>, maxRange: nat, k: nat)
    requires k < |ranks| && ranks[k].rank != 0 && ranks[k].cost >= maxRange
    ensures Thresholds(ranks, maxRange) == Thresholds(ranks[..k + 1], maxRange)
  {
    assert ranks == ranks[..k + 1] + ranks[k + 1..];
    OuterIgnoresTail(ranks[..k + 1], ranks[k + 1..], maxRange, 0, 0, [Sentinel]);
  }

  // ---------------------------------------------------------------------------
  // Cost-sorted input gives strictly increasing thresholds.

  ghost predicate SortedByCost(ranks: seq<PerkRankValues>)
  {
    forall a, b :: 0 <= a < b < |ranks| ==> ranks[a].cost <= ranks[b].cost
  }

  ghost predicate StrictlyIncreasing(acc: seq<Gizmo>)
  {
    forall a, b :: 0 <= a < b < |acc| ==> acc[a].cost < acc[b].cost
  }

  /** Pushing a cost no lower than the last keeps the costs strictly increasing; an equal one replaces. */
  lemma PushReplaceIncreasing(acc: seq<Gizmo>, g: Gizmo)
    requires |acc| > 0 && StrictlyIncreasing(acc) && Last(acc).cost <= g.cost
    ensures StrictlyIncreasing(PushReplace(acc, g))
  {
    var r := PushReplace(acc, g);
    forall a, b | 0 <= a < b < |r| ensures r[a].cost < r[b].cost {
      assert r[a] == acc[a];
      if b < |r| - 1 {
        assert r[b] == acc[b];
      } else if a < |acc| - 1 {
        assert acc[a].cost < Last(acc).cost;
      }
    }
  }

  lemma SortedStep(ranks: seq<PerkRankValues>, a: nat)
    requires SortedByCost(ranks) && a + 1 < |ranks|
    ensures ranks[a].cost <= ranks[a + 1].cost
  {
  }

  /** One pair of the inner loop keeps the costs increasing, below `next` and below the following pair. */
  lemma PairIncreasing(ranks: seq<PerkRankValues>, i: nat, j: nat, next: nat, acc: seq<Gizmo>)
    requires j < i < |ranks| && SortedByCost(ranks) && |acc| > 0 && StrictlyIncreasing(acc)
    requires Last(acc).cost <= ranks[i].cost + ranks[j].cost < next
    ensures var single := PushReplace(acc, PairGizmo(ranks[i], ranks[j]));
      StrictlyIncreasing(single) && Last(single).cost <= next
      && (j + 1 < i ==> Last(single).cost <= ranks[i].cost + ranks[j + 1].cost)
  {
    PushReplaceIncreasing(acc, PairGizmo(ranks[i], ranks[j]));
    if j + 1 < i {
      SortedStep(ranks, j);
    }
  }

  lemma {:induction false} PairsIncreasing(ranks: seq<PerkRankValues>, i: nat, j: nat, next: nat, acc: seq<Gizmo>)
    requires i < |ranks| && SortedByCost(ranks) && StrictlyIncreasing(acc)
    requires |acc| > 0 && Last(acc).cost <= next
    requires j < i ==> Last(acc).cost <= ranks[i].cost + ranks[j].cost
    ensures var r := Pairs(ranks, i, j, next, acc);
      StrictlyIncreasing(r) && Last(r).cost <= next
    decreases i - j
  {
    if j < i && ranks[i].cost + ranks[j].cost < next {
      PairIncreasing(ranks, i, j, next, acc);
      PairsIncreasing(ranks, i, j + 1, next, PushReplace(acc, PairGizmo(ranks[i], ranks[j])));
    }
  }

  /** One entry of the outer loop: its single gizmo and its pairs keep the costs increasing and below the next entry's. */
  lemma EntryIncreasing(ranks: seq<PerkRankValues>, maxRange: nat, i: nat, fnz: nat, acc: seq<Gizmo>)
    requires i < |ranks| && SortedByCost(ranks) && |acc| > 0 && StrictlyIncreasing(acc)
    requires Last(acc).cost <= ranks[i].cost < maxRange
    ensures var after := Pairs(ranks, i, fnz, NextThreshold(ranks, i, maxRange), PushReplace(acc, Create(ranks[i], None)));
      StrictlyIncreasing(after) && (i + 1 < |ranks| ==> Last(after).cost <= ranks[i + 1].cost)
  {
    if i + 1 < |ranks| {
      SortedStep(ranks, i);
    }
    var g := Create(ranks[i], None);
    PushReplaceIncreasing(acc, g);
    PairsIncreasing(ranks, i, fnz, NextThreshold(ranks, i, maxRange), PushReplace(acc, g));
  }

  lemma {:induction false} OuterIncreasing(ranks: seq<PerkRankValues>, maxRange: nat, i: nat, fnz: nat, acc: seq<Gizmo>)
    requires i <= |ranks| && SortedByCost(ranks) && |acc| > 0 && StrictlyIncreasing(acc)
    requires i < |ranks| ==> Last(acc).cost <= ranks[i].cost
    ensures StrictlyIncreasing(Outer(ranks, maxRange, i, fnz, acc))
    decreases |ranks| - i
  {
    if i < |ranks| {
      if ranks[i].rank == 0 {
        if i + 1 < |ranks| {
          SortedStep(ranks, i);
        }
        OuterIncreasing(ranks, maxRange, i + 1, fnz + 1, acc);
      } else if ranks[i].cost < maxRange {
        EntryIncreasing(ranks, maxRange, i, fnz, acc);
        var single := PushReplace(acc, Create(ranks[i], None));
        OuterIncreasing(ranks, maxRange, i + 1, fnz, Pairs(ranks, i, fnz, NextThreshold(ranks, i, maxRange), single));
      }
    }
  }

  /** For a cost-sorted combination every threshold costs strictly more than the one before. */
  lemma SortedGivesIncreasing(ranks: seq<PerkRankValues>, maxRange: nat)
    requires SortedByCost(ranks)
    ensures StrictlyIncreasing(Thresholds(ranks, maxRange))
  {
    OuterIncreasing(ranks, maxRange, 0, 0, [Sentinel]);
  }

  // ---------------------------------------------------------------------------
  // The test vectors of `src/gizmo_cost_thresholds.rs`.

  function Entry(name: string, rank: nat, cost: nat, doubleslot: bool): PerkRankValues
  {
    PerkRankValues(Enums.Named(name), rank, cost, doubleslot)
  }

  function G(first: Perk, second: Perk, cost: int): Gizmo
  {
    Gizmo((first, second), cost, 0.0)
  }

  function P1(name: string): Perk
  {
    Perk(Enums.Named(name), 1)
  }

  lemma ExampleAllRankZero()
    ensures Thresholds([Entry("Precise", 0, 10, false), Entry("Biting", 0, 10, false), Entry("Equilibrium", 0, 10, false)], 100)
      == [Sentinel]
  {
    var ranks := [Entry("Precise", 0, 10, false), Entry("Biting", 0, 10, false), Entry("Equilibrium", 0, 10, false)];
    AllRankZeroGivesSentinel(ranks, 100);
  }

  lemma ExampleSecondaryAboveMaxRange()
    ensures Thresholds([Entry("Precise", 0, 10, false), Entry("Biting", 1, 20, false), Entry("Equilibrium", 1, 30, false), Entry("Aftershock", 1, 80, false)], 100)
      == [Sentinel, G(P1("Biting"), DefaultPerk, 20), G(P1("Equilibrium"), DefaultPerk, 30),
          G(P1("Equilibrium"), P1("Biting"), 50), G(P1("Aftershock"), DefaultPerk, 80)]
  {
  }

  lemma ExamplePrimaryAboveMaxRange()
    ensures Thresholds([Entry("Precise", 0, 10, false), Entry("Biting", 1, 20, false), Entry("Equilibrium", 1, 79, false), Entry("Aftershock", 1, 100, false)], 100)
      == [Sentinel, G(P1("Biting"), DefaultPerk, 20), G(P1("Equilibrium"), DefaultPerk, 79),
          G(P1("Equilibrium"), P1("Biting"), 99)]
  {
  }

  lemma ExampleAllAboveMaxRange()
    ensures Thresholds([Entry("Precise", 0, 10, false), Entry("Biting", 1, 20, false), Entry("Equilibrium", 1, 30, false), Entry("Aftershock", 1, 60, false)], 10)
      == [Sentinel]
  {
  }

  lemma ExampleTwoEqualCosts()
    ensures Thresholds([Entry("Precise", 1, 10, false), Entry("Biting", 1, 20, false), Entry("Equilibrium", 1, 20, false), Entry("Aftershock", 1, 60, false)], 100)
      == [Sentinel, G(P1("Precise"), DefaultPerk, 10), G(P1("Equilibrium"), DefaultPerk, 20),
          G(P1("Equilibrium"), P1("Precise"), 30), G(P1("Equilibrium"), P1("Biting"), 40),
          G(P1("Aftershock"), DefaultPerk, 60), G(P1("Aftershock"), P1("Precise"), 70),
          G(P1("Aftershock"), P1("Equilibrium"), 80)]
  {
  }

  lemma ExampleThreeEqualCostsExcludingFirst()
    ensures Thresholds([Entry("Precise", 1, 10, false), Entry("Biting", 1, 20, false), Entry("Equilibrium", 1, 20, false),
             Entry("Aftershock", 1, 20, false), Entry("Mobile", 1, 60, false)], 100)
      == [Sentinel, G(P1("Precise"), DefaultPerk, 10), G(P1("Aftershock"), DefaultPerk, 20),
          G(P1("Aftershock"), P1("Precise"), 30), G(P1("Aftershock"), P1("Equilibrium"), 40),
          G(P1("Mobile"), DefaultPerk, 60), G(P1("Mobile"), P1("Precise"), 70),
          G(P1("Mobile"), P1("Aftershock"), 80)]
  {
    ThreeEqualCostsSteps([Entry("Precise", 1, 10, false), Entry("Biting", 1, 20, false), Entry("Equilibrium", 1, 20, false),
             Entry("Aftershock", 1, 20, false), Entry("Mobile", 1, 60, false)]);
  }

  // The example entry by entry, on a list the verifier does not evaluate by itself.

  lemma ThreeEqualCostsSteps(ranks: seq<PerkRankValues>)
    requires ranks == [Entry("Precise", 1, 10, false), Entry("Biting", 1, 20, false), Entry("Equilibrium", 1, 20, false),
             Entry("Aftershock", 1, 20, false), Entry("Mobile", 1, 60, false)]
    ensures Outer(ranks, 100, 0, 0, [Sentinel]) == [Sentinel, G(P1("Precise"), DefaultPerk, 10), G(P1("Aftershock"), DefaultPerk, 20),
          G(P1("Aftershock"), P1("Precise"), 30), G(P1("Aftershock"), P1("Equilibrium"), 40),
          G(P1("Mobile"), DefaultPerk, 60), G(P1("Mobile"), P1("Precise"), 70),
          G(P1("Mobile"), P1("Aftershock"), 80)]
  {
    ThreeEqualCostsFirstEntries(ranks);
    ThreeEqualCostsFourthEntry(ranks);
    ThreeEqualCostsLastEntry(ranks);
  }

  lemma ThreeEqualCostsFourthEntry(ranks: seq<PerkRankValues>)
    requires ranks == [Entry("Precise", 1, 10, false), Entry("Biting", 1, 20, false), Entry("Equilibrium", 1, 20, false),
             Entry("Aftershock", 1, 20, false), Entry("Mobile", 1, 60, false)]
    ensures Outer(ranks, 100, 3, 0, [Sentinel, G(P1("Precise"), DefaultPerk, 10), G(P1("Equilibrium"), DefaultPerk, 20)])
      == Outer(ranks, 100, 4, 0, [Sentinel, G(P1("Precise"), DefaultPerk, 10), G(P1("Aftershock"), DefaultPerk, 20),
          G(P1("Aftershock"), P1("Precise"), 30), G(P1("Aftershock"), P1("Equilibrium"), 40)])
  {
    var gP, gE, gA := G(P1("Precise"), DefaultPerk, 10), G(P1("Equilibrium"), DefaultPerk, 20), G(P1("Aftershock"), DefaultPerk, 20);
    assert Create(ranks[3], None) == gA && PushReplace([Sentinel, gP, gE], gA) == [Sentinel, gP, gA];
    assert NextThreshold(ranks, 3, 100) == 60;
    ThreeEqualCostsFourthPairs(ranks);
  }

  lemma ThreeEqualCostsLastEntry(ranks: seq<PerkRankValues>)
    requires ranks == [Entry("Precise", 1, 10, false), Entry("Biting", 1, 20, false), Entry("Equilibrium", 1, 20, false),
             Entry("Aftershock", 1, 20, false), Entry("Mobile", 1, 60, false)]
    ensures Outer(ranks, 100, 4, 0, [Sentinel, G(P1("Precise"), DefaultPerk, 10), G(P1("Aftershock"), DefaultPerk, 20),
          G(P1("Aftershock"), P1("Precise"), 30), G(P1("Aftershock"), P1("Equilibrium"), 40)]) == [Sentinel, G(P1("Precise"), DefaultPerk, 10), G(P1("Aftershock"), DefaultPerk, 20),
          G(P1("Aftershock"), P1("Precise"), 30), G(P1("Aftershock"), P1("Equilibrium"), 40),
          G(P1("Mobile"), DefaultPerk, 60), G(P1("Mobile"), P1("Precise"), 70),
          G(P1("Mobile"), P1("Aftershock"), 80)]
  {
    var gM := G(P1("Mobile"), DefaultPerk, 60);
    var a4 := [Sentinel, G(P1("Precise"), DefaultPerk, 10), G(P1("Aftershock"), DefaultPerk, 20),
          G(P1("Aftershock"), P1("Precise"), 30), G(P1("Aftershock"), P1("Equilibrium"), 40)];
    assert Create(ranks[4], None) == gM && PushReplace(a4, gM) == a4 + [gM];
    assert NextThreshold(ranks, 4, 100) == 100;
    ThreeEqualCostsLastPairs(ranks);
  }

  lemma ThreeEqualCostsFirstEntries(ranks: seq<PerkRankValues>)
    requires ranks == [Entry("Precise", 1, 10, false), Entry("Biting", 1, 20, false), Entry("Equilibrium", 1, 20, false),
             Entry("Aftershock", 1, 20, false), Entry("Mobile", 1, 60, false)]
    ensures Outer(ranks, 100, 0, 0, [Sentinel])
      == Outer(ranks, 100, 3, 0, [Sentinel, G(P1("Precise"), DefaultPerk, 10), G(P1("Equilibrium"), DefaultPerk, 20)])
  {
    var gP, gB, gE := G(P1("Precise"), DefaultPerk, 10), G(P1("Biting"), DefaultPerk, 20), G(P1("Equilibrium"), DefaultPerk, 20);
    var a1 := [Sentinel, gP];
    calc {
      Outer(ranks, 100, 0, 0, [Sentinel]);
      { assert Create(ranks[0], None) == gP && PushReplace([Sentinel], gP) == a1;
        assert NextThreshold(ranks, 0, 100) == 20 && Pairs(ranks, 0, 0, 20, a1) == a1; }
      Outer(ranks, 100, 1, 0, a1);
      { assert Create(ranks[1], None) == gB && PushReplace(a1, gB) == a1 + [gB];
        assert NextThreshold(ranks, 1, 100) == 20 && Pairs(ranks, 1, 0, 20, a1 + [gB]) == a1 + [gB]; }
      Outer(ranks, 100, 2, 0, a1 + [gB]);
      { assert Create(ranks[2], None) == gE && PushReplace(a1 + [gB], gE) == a1 + [gE];
        assert NextThreshold(ranks, 2, 100) == 20 && Pairs(ranks, 2, 0, 20, a1 + [gE]) == a1 + [gE]; }
      Outer(ranks, 100, 3, 0, a1 + [gE]);
      { assert a1 + [gE] == [Sentinel, gP, gE]; }
      Outer(ranks, 100, 3, 0, [Sentinel, gP, gE]);
    }
  }

  lemma ThreeEqualCostsFourthPairs(ranks: seq<PerkRankValues>)
    requires ranks == [Entry("Precise", 1, 10, false), Entry("Biting", 1, 20, false), Entry("Equilibrium", 1, 20, false),
             Entry("Aftershock", 1, 20, false), Entry("Mobile", 1, 60, false)]
    ensures Pairs(ranks, 3, 0, 60, [Sentinel, G(P1("Precise"), DefaultPerk, 10), G(P1("Aftershock"), DefaultPerk, 20)])
      == [Sentinel, G(P1("Precise"), DefaultPerk, 10), G(P1("Aftershock"), DefaultPerk, 20),
          G(P1("Aftershock"), P1("Precise"), 30), G(P1("Aftershock"), P1("Equilibrium"), 40)]
  {
    var b0 := [Sentinel, G(P1("Precise"), DefaultPerk, 10), G(P1("Aftershock"), DefaultPerk, 20)];
    var b1 := b0 + [G(P1("Aftershock"), P1("Precise"), 30)];
    var b2 := b1 + [G(P1("Aftershock"), P1("Biting"), 40)];
    var b3 := b1 + [G(P1("Aftershock"), P1("Equilibrium"), 40)];
    calc {
      Pairs(ranks, 3, 0, 60, b0);
      { assert PairGizmo(ranks[3], ranks[0]) == G(P1("Aftershock"), P1("Precise"), 30); }
      Pairs(ranks, 3, 1, 60, b1);
      { assert PairGizmo(ranks[3], ranks[1]) == G(P1("Aftershock"), P1("Biting"), 40); }
      Pairs(ranks, 3, 2, 60, b2);
      { assert PairGizmo(ranks[3], ranks[2]) == G(P1("Aftershock"), P1("Equilibrium"), 40);
        assert PushReplace(b2, G(P1("Aftershock"), P1("Equilibrium"), 40)) == b3; }
      Pairs(ranks, 3, 3, 60, b3);
      b3;
    }
  }

  lemma ThreeEqualCostsLastPairs(ranks: seq<PerkRankValues>)
    requires ranks == [Entry("Precise", 1, 10, false), Entry("Biting", 1, 20, false), Entry("Equilibrium", 1, 20, false),
             Entry("Aftershock", 1, 20, false), Entry("Mobile", 1, 60, false)]
    ensures Pairs(ranks, 4, 0, 100, [Sentinel, G(P1("Precise"), DefaultPerk, 10), G(P1("Aftershock"), DefaultPerk, 20),
                                     G(P1("Aftershock"), P1("Precise"), 30), G(P1("Aftershock"), P1("Equilibrium"), 40),
                                     G(P1("Mobile"), DefaultPerk, 60)])
      == [Sentinel, G(P1("Precise"), DefaultPerk, 10), G(P1("Aftershock"), DefaultPerk, 20),
          G(P1("Aftershock"), P1("Precise"), 30), G(P1("Aftershock"), P1("Equilibrium"), 40),
          G(P1("Mobile"), DefaultPerk, 60), G(P1("Mobile"), P1("Precise"), 70),
          G(P1("Mobile"), P1("Aftershock"), 80)]
  {
    var c0 := [Sentinel, G(P1("Precise"), DefaultPerk, 10), G(P1("Aftershock"), DefaultPerk, 20),
               G(P1("Aftershock"), P1("Precise"), 30), G(P1("Aftershock"), P1("Equilibrium"), 40),
               G(P1("Mobile"), DefaultPerk, 60)];
    var c1 := c0 + [G(P1("Mobile"), P1("Precise"), 70)];
    calc {
      Pairs(ranks, 4, 0, 100, c0);
      { assert PairGizmo(ranks[4], ranks[0]) == G(P1("Mobile"), P1("Precise"), 70); }
      Pairs(ranks, 4, 1, 100, c1);
      { assert PairGizmo(ranks[4], ranks[1]) == G(P1("Mobile"), P1("Biting"), 80); }
      Pairs(ranks, 4, 2, 100, c1 + [G(P1("Mobile"), P1("Biting"), 80)]);
      { assert PairGizmo(ranks[4], ranks[2]) == G(P1("Mobile"), P1("Equilibrium"), 80);
        assert PushReplace(c1 + [G(P1("Mobile"), P1("Biting"), 80)], G(P1("Mobile"), P1("Equilibrium"), 80))
          == c1 + [G(P1("Mobile"), P1("Equilibrium"), 80)]; }
      Pairs(ranks, 4, 3, 100, c1 + [G(P1("Mobile"), P1("Equilibrium"), 80)]);
      { assert PairGizmo(ranks[4], ranks[3]) == G(P1("Mobile"), P1("Aftershock"), 80);
        assert PushReplace(c1 + [G(P1("Mobile"), P1("Equilibrium"), 80)], G(P1("Mobile"), P1("Aftershock"), 80))
          == c1 + [G(P1("Mobile"), P1("Aftershock"), 80)]; }
      Pairs(ranks, 4, 4, 100, c1 + [G(P1("Mobile"), P1("Aftershock"), 80)]);
    }
  }

  /** A doubleslot partner leaves the second perk empty but still adds its cost. */
  lemma ExamplePerkIsDoubleslot()
    ensures Thresholds([Entry("Precise", 1, 10, false), Entry("Biting", 1, 20, false), Entry("Equilibrium", 1, 35, true), Entry("Aftershock", 1, 60, false)], 100)
      == [Sentinel, G(P1("Precise"), DefaultPerk, 10), G(P1("Biting"), DefaultPerk, 20),
          G(P1("Biting"), P1("Precise"), 30), G(P1("Equilibrium"), DefaultPerk, 35),
          G(P1("Equilibrium"), DefaultPerk, 45), G(P1("Equilibrium"), DefaultPerk, 55),
          G(P1("Aftershock"), DefaultPerk, 60), G(P1("Aftershock"), P1("Precise"), 70),
          G(P1("Aftershock"), P1("Biting"), 80), G(P1("Aftershock"), DefaultPerk, 95)]
  {
  }
}
