/**
 * The search set-up of `src/lib.rs`: which materials can take part
 * (`get_materials`), which of them may tie on cost with a wanted rank
 * (`split_materials`), and how many material combinations the search visits
 * (`calc_combination_count`, with the float `dice::choose` taken as the exact
 * binomial coefficient).
 */
module Solver {
  import opened Wrappers
  import opened Enums
  import opened Strings
  import opened MaterialNames
  import PreludeData
  import opened Definitions

  // ---------------------------------------------------------------------------
  // get_materials

  /** A component whose perk is one of the two wanted perks. */
  predicate GivesWanted(c: PreludeData.ComponentValues, wanted: WantedGizmo)
  {
    c.perk == wanted.first.perk || c.perk == wanted.second.perk
  }

  /** The push test of the nested loop: an allowed material with a wanted component for the gizmo type. */
  ghost predicate Produces(args: Args, data: Data, wanted: WantedGizmo, m: MaterialName)
  {
    (args.ancient || !data.comps(m).ancientOnly)
    && exists c :: c in PreludeData.Components(data.comps(m), args.gizmoType) && GivesWanted(c, wanted)
  }

  /** The exclude filter: some exclude string occurs in the lower-cased name, both sides lower-cased. */
  predicate Excluded(m: MaterialName, exclude: seq<string>)
  {
    exists y :: y in exclude && Contains(ToLower(Name(m)), ToLower(y))
  }

  /** The elements of `s` that pass `p`, order kept (`Iterator::filter`). */
  function Filter(s: seq<MaterialName>, p: MaterialName -> bool): (r: seq<MaterialName>)
    ensures forall m :: m in r <==> m in s && p(m)
    decreases |s|
  {
    if s == [] then []
    else
      var rest := Filter(s[..|s| - 1], p);
      assert s == s[..|s| - 1] + [s[|s| - 1]];
      rest + (if p(s[|s| - 1]) then [s[|s| - 1]] else [])
  }

  /** What `get_materials` keeps: a producing material no exclude string names. */
  ghost predicate Selectable(args: Args, data: Data, wanted: WantedGizmo, m: MaterialName)
  {
    Produces(args, data, wanted, m) && !Excluded(m, args.exclude)
  }

  /** The specification of `get_materials`: the selectable materials in declaration order. */
  ghost function Selected(args: Args, data: Data, wanted: WantedGizmo): seq<MaterialName>
  {
    InOrder(m => Selectable(args, data, wanted, m), MaterialCount)
  }

  lemma {:induction false} FilterInOrderBy(from: int -> MaterialName, a: MaterialName -> bool, p: MaterialName -> bool, b: MaterialName -> bool, n: nat)
    requires forall m :: b(m) == (a(m) && p(m))
    ensures Filter(InOrderBy(from, a, n), p) == InOrderBy(from, b, n)
    decreases n
  {
    if n > 0 {
      FilterInOrderBy(from, a, p, b, n - 1);
      var m := from(n - 1);
      var tail := if a(m) then [m] else [];
      FilterAppend(InOrderBy(from, a, n - 1), tail, p);
    }
  }

  /** Filtering an in-order selection is the in-order selection by both tests. */
  lemma FilterInOrder(a: MaterialName -> bool, p: MaterialName -> bool, b: MaterialName -> bool, n: nat)
    requires forall m :: b(m) == (a(m) && p(m))
    ensures Filter(InOrder(a, n), p) == InOrder(b, n)
  {
    FilterInOrderBy(FromIndex, a, p, b, n);
  }

  /** Filtering a list with one more element at the end. */
  lemma FilterSnoc(s: seq<MaterialName>, x: MaterialName, p: MaterialName -> bool)
    ensures Filter(s + [x], p) == Filter(s, p) + (if p(x) then [x] else [])
  {
    assert (s + [x])[..|s|] == s;
  }

  lemma {:induction false} FilterAppend(a: seq<MaterialName>, b: seq<MaterialName>, p: MaterialName -> bool)
    ensures Filter(a + b, p) == Filter(a, p) + Filter(b, p)
    decreases |b|
  {
    if b == [] {
      assert a + b == a;
    } else {
      var b0, last := b[..|b| - 1], b[|b| - 1];
      var x, y := Filter(a, p), Filter(b0, p);
      var z := if p(last) then [last] else [];
      calc {
        Filter(a + b, p);
        { assert a + b == (a + b0) + [last]; }
        Filter((a + b0) + [last], p);
        { FilterSnoc(a + b0, last, p); }
        Filter(a + b0, p) + z;
        { FilterAppend(a, b0, p); }
        (x + y) + z;
        x + (y + z);
        { assert b == b0 + [last]; FilterSnoc(b0, last, p); }
        x + Filter(b, p);
      }
    }
  }

  const NoMaterialsError := "No materials found that can produce this perk."

  /**
   * `get_materials`: every material with a component for the gizmo type whose
   * perk is wanted, ancient-only ones only on an ancient gizmo, de-duplicated,
   * in declaration order, without the excluded ones. No material at all is the
   * fatal error, returned here as `Err`. The catalogue is walked in declaration
   * order; the source walks a hash map, whose order the sort makes irrelevant.
   */
  method GetMaterials(args: Args, data: Data, wanted: WantedGizmo) returns (r: Result<seq<MaterialName>, string>)
    ensures var sel := Selected(args, data, wanted);
      r == if sel == [] then Err(NoMaterialsError) else Ok(sel)
    ensures r.Ok? ==> IncreasingIndex(r.value)
    ensures r.Ok? ==> forall m :: m in r.value <==> Selectable(args, data, wanted, m)
  {
    var possible: seq<MaterialName> := [];
    var i := 0;
    while i < MaterialCount
      invariant i <= MaterialCount
      invariant forall m :: m in possible <==> Index(m) < i && Produces(args, data, wanted, m)
    {
      var mat := FromIndex(i);
      IndexFromIndex(i);
      possible := AddMaterial(args, data, wanted, mat, possible);
      forall m | Index(m) == i ensures m == mat {
        assert FromIndex(Index(m)) == m;
      }
      i := i + 1;
    }
    // `unique().sorted()`: each collected material once, in declaration order
    var collected := (m: MaterialName) => m in possible;
    var kept := (m: MaterialName) => !Excluded(m, args.exclude);
    var filtered := Filter(InOrder(collected, MaterialCount), kept);
    ghost var selectable := m => Selectable(args, data, wanted, m);
    FilterInOrder(collected, kept, selectable, MaterialCount);
    InOrderIncreasing(selectable, MaterialCount);
    forall m ensures m in filtered <==> Selectable(args, data, wanted, m) {
      InOrderMembers(selectable, MaterialCount, m);
    }
    if |filtered| == 0 {
      return Err(NoMaterialsError);
    }
    return Ok(filtered);
  }

  /** The inner loop for one material: one push per wanted component, when the material is allowed. */
  method AddMaterial(args: Args, data: Data, wanted: WantedGizmo, mat: MaterialName, possible: seq<MaterialName>)
    returns (r: seq<MaterialName>)
    ensures forall m :: m != mat ==> (m in r <==> m in possible)
    ensures mat in r <==> mat in possible || Produces(args, data, wanted, mat)
  {
    r := possible;
    var comps := PreludeData.Components(data.comps(mat), args.gizmoType);
    var j := 0;
    while j < |comps|
      invariant j <= |comps|
      invariant forall m :: m != mat ==> (m in r <==> m in possible)
      invariant mat in r <==> (mat in possible
        || ((args.ancient || !data.comps(mat).ancientOnly) && exists k :: 0 <= k < j && GivesWanted(comps[k], wanted)))
    {
      if GivesWanted(comps[j], wanted) && (args.ancient || !data.comps(mat).ancientOnly) {
        r := r + [mat];
      }
      j := j + 1;
    }
  }

  // ---------------------------------------------------------------------------
  // split_materials

  /** The cost of a wanted rank; the table lookup panics on a rank outside the table. */
  function RankCost(data: Data, p: WantedPerk): (c: nat)
    requires p.rank < |data.perks(p.perk).ranks|
    ensures c == data.perks(p.perk).ranks[p.rank].cost
  {
    data.perks(p.perk).ranks[p.rank].cost
  }

  /** The catalogue lookups `split_materials` makes for the wanted ranks succeed. */
  predicate WantedRanksInTable(data: Data, wanted: WantedGizmo)
  {
    wanted.first.rank < |data.perks(wanted.first.perk).ranks|
    && (wanted.second.perk != Empty ==> wanted.second.rank < |data.perks(wanted.second.perk).ranks|)
  }

  /** The second wanted cost: 0 when the second perk is Empty. */
  function SecondCost(data: Data, wanted: WantedGizmo): (c: nat)
    requires WantedRanksInTable(data, wanted)
    ensures wanted.second.perk == Empty ==> c == 0
    ensures wanted.second.perk != Empty ==> c == RankCost(data, wanted.second)
  {
    if wanted.second.perk != Empty then RankCost(data, wanted.second) else 0
  }

  /** A rank above 0 of a non-wanted perk that costs as much as a wanted rank. */
  predicate TiesOnCost(r: PerkRankValues, c1: nat, c2: nat)
  {
    r.rank > 0 && (r.cost == c1 || r.cost == c2)
  }

  /** A component that is wanted, or none of whose perk's ranks ties on cost. */
  ghost predicate NoTie(data: Data, wanted: WantedGizmo, c1: nat, c2: nat, c: PreludeData.ComponentValues)
  {
    GivesWanted(c, wanted) || forall r :: r in data.perks(c.perk).ranks ==> !TiesOnCost(r, c1, c2)
  }

  /** A material is a conflict material when one of its non-wanted component perks has a tying rank. */
  ghost predicate IsConflict(args: Args, data: Data, wanted: WantedGizmo, c1: nat, c2: nat, mat: MaterialName)
  {
    exists c, r :: c in PreludeData.Components(data.comps(mat), args.gizmoType) && !GivesWanted(c, wanted)
      && r in data.perks(c.perk).ranks && TiesOnCost(r, c1, c2)
  }

  /** The materials of `mats` that are (`conflict`) or are not conflict materials, order kept. */
  ghost function Partition(args: Args, data: Data, wanted: WantedGizmo, c1: nat, c2: nat, mats: seq<MaterialName>, conflict: bool)
    : (r: seq<MaterialName>)
    decreases |mats|
  {
    if mats == [] then []
    else
      var last := mats[|mats| - 1];
      Partition(args, data, wanted, c1, c2, mats[..|mats| - 1], conflict)
        + (if IsConflict(args, data, wanted, c1, c2, last) == conflict then [last] else [])
  }

  /** The labelled `'comp` loop for one material: does some non-wanted component have a tying rank? */
  method MaterialConflicts(args: Args, data: Data, wanted: WantedGizmo, c1: nat, c2: nat, mat: MaterialName)
    returns (isConflict: bool)
    ensures isConflict <==> IsConflict(args, data, wanted, c1, c2, mat)
  {
    var comps := PreludeData.Components(data.comps(mat), args.gizmoType);
    isConflict := false;
    var j := 0;
    label comp:
    while j < |comps|
      invariant j <= |comps| && !isConflict
      invariant forall k :: 0 <= k < j ==> NoTie(data, wanted, c1, c2, comps[k])
    {
      if !GivesWanted(comps[j], wanted) {
        var ranks := data.perks(comps[j].perk).ranks;
        var t := 0;
        while t < |ranks|
          invariant t <= |ranks|
          invariant forall u :: 0 <= u < t ==> !TiesOnCost(ranks[u], c1, c2)
        {
          if TiesOnCost(ranks[t], c1, c2) {
            isConflict := true;
            break comp;
          }
          t := t + 1;
        }
      }
      j := j + 1;
    }
    if !isConflict {
      forall c, r | c in comps && !GivesWanted(c, wanted) && r in data.perks(c.perk).ranks
        ensures !TiesOnCost(r, c1, c2)
      {
        var k :| 0 <= k < |comps| && comps[k] == c;
        assert NoTie(data, wanted, c1, c2, comps[k]);
      }
    }
  }

  /**
   * `split_materials`: every material goes to `conflict` or `noConflict`
   * according to `IsConflict`, in input order. The wanted costs come from the
   * catalogue; the second is 0 when the second perk is Empty.
   */
  method SplitMaterialsOf(args: Args, data: Data, wanted: WantedGizmo, mats: seq<MaterialName>)
    returns (split: PreludeData.SplitMaterials)
    requires WantedRanksInTable(data, wanted)
    ensures var c1, c2 := RankCost(data, wanted.first), SecondCost(data, wanted);
      split.conflict == Partition(args, data, wanted, c1, c2, mats, true)
      && split.noConflict == Partition(args, data, wanted, c1, c2, mats, false)
  {
    var c1 := RankCost(data, wanted.first);
    var c2 := SecondCost(data, wanted);
    var conflict: seq<MaterialName> := [];
    var noConflict: seq<MaterialName> := [];
    var i := 0;
    while i < |mats|
      invariant i <= |mats|
      invariant conflict == Partition(args, data, wanted, c1, c2, mats[..i], true)
      invariant noConflict == Partition(args, data, wanted, c1, c2, mats[..i], false)
    {
      var isConflict := MaterialConflicts(args, data, wanted, c1, c2, mats[i]);
      assert mats[..i + 1][..i] == mats[..i];
      if isConflict {
        conflict := conflict + [mats[i]];
      } else {
        noConflict := noConflict + [mats[i]];
      }
      i := i + 1;
    }
    assert mats[..i] == mats;
    split := PreludeData.SplitMaterials(conflict, noConflict);
  }

  /**
   * The split is a partition that keeps the input order: the two lists
   * together hold every material exactly as often as the input, and each is
   * the input filtered by the conflict test or its negation.
   */
  lemma {:induction false} PartitionCovers(args: Args, data: Data, wanted: WantedGizmo, c1: nat, c2: nat, mats: seq<MaterialName>)
    ensures multiset(Partition(args, data, wanted, c1, c2, mats, true)) + multiset(Partition(args, data, wanted, c1, c2, mats, false))
      == multiset(mats)
    ensures forall m :: m in Partition(args, data, wanted, c1, c2, mats, true) <==> m in mats && IsConflict(args, data, wanted, c1, c2, m)
    ensures forall m :: m in Partition(args, data, wanted, c1, c2, mats, false) <==> m in mats && !IsConflict(args, data, wanted, c1, c2, m)
    decreases |mats|
  {
    if mats != [] {
      var init := mats[..|mats| - 1];
      PartitionCovers(args, data, wanted, c1, c2, init);
      assert mats == init + [mats[|mats| - 1]];
    }
  }

  // ---------------------------------------------------------------------------
  // calc_combination_count

  /** n! */
  function Factorial(n: nat): (r: nat)
    ensures r >= 1
  {
    if n <= 1 then 1 else n * Factorial(n - 1)
  }

  /** The binomial coefficient by Pascal's rule; 0 when k > n, as `dice::choose` returns. */
  function Choose(n: nat, k: nat): (r: nat)
    ensures k > n ==> r == 0
    ensures k == 0 ==> r == 1
    decreases n
  {
    if k == 0 then 1
    else if n == 0 then 0
    else Choose(n - 1, k - 1) + Choose(n - 1, k)
  }

  /** The inner `fac`: the product 2 * 3 * ... * n, accumulated in a loop. */
  method Fac(n: nat) returns (r: nat)
    ensures r == Factorial(n)
  {
    r := 1;
    var i := 2;
    while i <= n
      invariant 2 <= i <= n + 1 || (n < 2 && i == 2)
      invariant r == Factorial(i - 1)
    {
      assert Factorial(i) == i * Factorial(i - 1);
      r := i * r;
      i := i + 1;
    }
  }

  function SlotCount(isAncient: bool): (s: nat)
    ensures s == if isAncient then 9 else 5
  {
    if isAncient then 9 else 5
  }

  /** One term of the k sum: C(noConflict, k) * (j + k)! * C(i - 1, i - j - k). */
  function Term(i: nat, j: nat, noConflict: nat, k: nat): nat
    requires 1 <= j && j + k <= i
  {
    Choose(noConflict, k) * Factorial(j + k) * Choose(i - 1, i - j - k)
  }

  /** The sum of the first `count` terms of the k loop for slot count i and j conflict materials. */
  function SumK(i: nat, j: nat, noConflict: nat, count: nat): nat
    requires 1 <= j && j + count <= i + 1
    decreases count
  {
    if count == 0 then 0
    else SumK(i, j, noConflict, count - 1) + Term(i, j, noConflict, count - 1)
  }

  /** The j loop's contribution for slot count i, first `count` values of j. */
  function SumJ(i: nat, conflict: nat, noConflict: nat, count: nat): nat
    requires count <= i
    decreases count
  {
    if count == 0 then 0
    else SumJ(i, conflict, noConflict, count - 1) + JTerm(i, count, conflict, noConflict)
  }

  /** The j loop's term for `j` conflict materials: the k sum times C(conflict, j). */
  function JTerm(i: nat, j: nat, conflict: nat, noConflict: nat): nat
    requires 1 <= j <= i
  {
    SumK(i, j, noConflict, Min(i - j, noConflict) + 1) * Choose(conflict, j)
  }

  function Min(a: nat, b: nat): nat { if a <= b then a else b }

  /** The count summed over slot counts 1..n. */
  function SumI(conflict: nat, noConflict: nat, n: nat): nat
    decreases n
  {
    if n == 0 then 0
    else (SumI(conflict, noConflict, n - 1)
      + Choose(noConflict + n - 1, n) + SumJ(n, conflict, noConflict, Min(n, conflict)))
  }

  /** The closed form `calc_combination_count` evaluates. */
  function CombinationCount(conflict: nat, noConflict: nat, isAncient: bool): nat
  {
    SumI(conflict, noConflict, SlotCount(isAncient)) + (if noConflict == 0 then SlotCount(isAncient) else 0)
  }

  /** The k loop for one (i, j). */
  method AccumulateK(i: nat, j: nat, noConflict: nat) returns (x: nat)
    requires 1 <= j <= i
    ensures x == SumK(i, j, noConflict, Min(i - j, noConflict) + 1)
  {
    x := 0;
    var k := 0;
    var kMax := Min(i - j, noConflict);
    while k <= kMax
      invariant k <= kMax + 1
      invariant x == SumK(i, j, noConflict, k)
    {
      var f := Fac(j + k);
      var term := Choose(noConflict, k) * f * Choose(i - 1, i - j - k);
      assert term == Term(i, j, noConflict, k);
      x := x + term;
      k := k + 1;
    }
  }

  /** The j loop for one slot count i. */
  method AccumulateJ(i: nat, conflictSize: nat, noConflictSize: nat) returns (sum: nat)
    requires 1 <= i
    ensures sum == SumJ(i, conflictSize, noConflictSize, Min(i, conflictSize))
  {
    sum := 0;
    var j := 1;
    while j <= Min(i, conflictSize)
      invariant 1 <= j <= Min(i, conflictSize) + 1
      invariant sum == SumJ(i, conflictSize, noConflictSize, j - 1)
    {
      var x := AccumulateK(i, j, noConflictSize);
      var add := x * Choose(conflictSize, j);
      assert SumJ(i, conflictSize, noConflictSize, j) == SumJ(i, conflictSize, noConflictSize, j - 1) + add;
      sum := sum + add;
      j := j + 1;
    }
  }

  /** `calc_combination_count`: the three nested loops, then `slot_count` more when there is no non-conflict material. */
  method CalcCombinationCount(conflictSize: nat, noConflictSize: nat, isAncient: bool) returns (count: nat)
    ensures count == CombinationCount(conflictSize, noConflictSize, isAncient)
  {
    var slotCount := SlotCount(isAncient);
    count := 0;
    var i := 1;
    while i <= slotCount
      invariant 1 <= i <= slotCount + 1
      invariant count == SumI(conflictSize, noConflictSize, i - 1)
    {
      var single := Choose(noConflictSize + i - 1, i);
      var sum := AccumulateJ(i, conflictSize, noConflictSize);
      assert SumI(conflictSize, noConflictSize, i) == SumI(conflictSize, noConflictSize, i - 1) + single + sum;
      count := count + single + sum;
      i := i + 1;
    }
    if noConflictSize == 0 {
      count := count + slotCount;
    }
  }

  /** With no conflict material the count is the number of non-empty multisets of at most `slots` materials. */
  lemma {:induction false} NoConflictCount(noConflict: nat, n: nat)
    ensures SumI(0, noConflict, n) == MultisetCount(noConflict, n)
    decreases n
  {
    if n > 0 {
      NoConflictCount(noConflict, n - 1);
      assert SumJ(n, 0, noConflict, Min(n, 0)) == 0;
    }
  }

  /** Σ_{i=1..n} C(kinds + i - 1, i). */
  function MultisetCount(kinds: nat, n: nat): nat
    decreases n
  {
    if n == 0 then 0 else MultisetCount(kinds, n - 1) + Choose(kinds + n - 1, n)
  }

  /** Without any material the loops add nothing and the count is the slot count: 9 on an ancient gizmo, else 5. */
  lemma {:induction false} NoMaterialsCount(isAncient: bool)
    ensures CombinationCount(0, 0, isAncient) == SlotCount(isAncient)
    ensures CombinationCount(0, 0, isAncient) == if isAncient then 9 else 5
  {
    NoConflictCount(0, SlotCount(isAncient));
    ZeroKindsNoMultisets(SlotCount(isAncient));
  }

  lemma {:induction false} ZeroKindsNoMultisets(n: nat)
    ensures MultisetCount(0, n) == 0
    decreases n
  {
    if n > 0 {
      ZeroKindsNoMultisets(n - 1);
    }
  }
}
