/**
 * The integer part of `src/perk_values.rs`: folding the materials of a gizmo
 * into one base value and a list of rolls per perk (`get_perk_values`), the
 * cheap feasibility test for the wanted ranks (`can_generate_wanted_ranks`),
 * the rank combinations over the per-perk windows (`permutate_perk_ranks`,
 * without the probability product) and the equal-cost conflict test
 * (`contains_conflict_ranks`).
 *
 * The catalogue is the abstract `Data` parameter. Each operation is a method
 * shaped like the source's loops, proved equal to a specification function
 * about which the properties are stated as lemmas.
 */
module PerkArithmetic {
  import opened Wrappers
  import opened Enums
  import opened Seqs
  import opened MaterialNames
  import opened PreludeData
  import opened PreludePerk

  // ---------------------------------------------------------------------------
  // get_perk_values

  /** What one component adds to its perk, after the ancient scaling. */
  datatype Contribution = Contribution(perk: PerkName, base: nat, roll: nat)

  /** On an ancient gizmo a non-ancient material counts for 8/10 of its value, rounded down. */
  function Scaled(x: nat, isAncientGizmo: bool, isAncientMat: bool): (r: nat)
    ensures isAncientGizmo && !isAncientMat ==> r * 10 <= x * 8 < r * 10 + 10
    ensures !(isAncientGizmo && !isAncientMat) ==> r == x
  {
    if isAncientGizmo && !isAncientMat then x * 8 / 10 else x
  }

  function Scale(c: ComponentValues, isAncientGizmo: bool, isAncientMat: bool): Contribution
  {
    Contribution(c.perk, Scaled(c.base, isAncientGizmo, isAncientMat), Scaled(c.roll, isAncientGizmo, isAncientMat))
  }

  /**
   * The contributions of one material, in component order; an ancient-only
   * material gives none on a non-ancient gizmo.
   */
  function MaterialContribs(data: Data, mat: MaterialName, gizmoType: GizmoType, isAncientGizmo: bool): (r: seq<Contribution>)
  {
    var comps := data.comps(mat);
    if comps.ancientOnly && !isAncientGizmo then []
    else
      var values := Components(comps, gizmoType);
      seq(|values|, k requires 0 <= k < |values| => Scale(values[k], isAncientGizmo, comps.ancientOnly))
  }

  /** All contributions, material after material. */
  function Contribs(data: Data, mats: seq<MaterialName>, gizmoType: GizmoType, isAncientGizmo: bool): (r: seq<Contribution>)
    decreases |mats|
  {
    if mats == [] then []
    else
      var n := |mats| - 1;
      Contribs(data, mats[..n], gizmoType, isAncientGizmo) + MaterialContribs(data, mats[n], gizmoType, isAncientGizmo)
  }

  /** Position of the first entry named `n`, or `|pv|` when there is none. */
  function NameIndex(pv: seq<PartialPerkValues>, n: PerkName): (k: nat)
    ensures k <= |pv|
    ensures k < |pv| ==> pv[k].name == n
    ensures forall j :: 0 <= j < k ==> pv[j].name != n
  {
    if pv == [] then 0 else if pv[0].name == n then 0 else 1 + NameIndex(pv[1..], n)
  }

  /** One contribution: added to its perk's entry, or a new entry at the end. */
  function AddContrib(pv: seq<PartialPerkValues>, c: Contribution): (r: seq<PartialPerkValues>)
  {
    var k := NameIndex(pv, c.perk);
    if k < |pv| then pv[k := PartialPerkValues(pv[k].name, pv[k].base + c.base, pv[k].rolls + [c.roll])]
    else pv + [PartialPerkValues(c.perk, c.base, [c.roll])]
  }

  /** The entries after adding `cs` in order to `pv`. */
  function GroupOnto(pv: seq<PartialPerkValues>, cs: seq<Contribution>): seq<PartialPerkValues>
    decreases |cs|
  {
    if cs == [] then pv else AddContrib(GroupOnto(pv, cs[..|cs| - 1]), cs[|cs| - 1])
  }

  function Group(cs: seq<Contribution>): seq<PartialPerkValues>
  {
    GroupOnto([], cs)
  }

  /** The specification of `get_perk_values`. */
  function PerkValuesOf(data: Data, mats: seq<MaterialName>, gizmoType: GizmoType, isAncientGizmo: bool): seq<PartialPerkValues>
  {
    Group(Contribs(data, mats, gizmoType, isAncientGizmo))
  }

  /** `name_index_map` mirrors the entries: each present name maps to the entry holding it. */
  ghost predicate IndexMirrors(index: map<PerkName, nat>, pv: seq<PartialPerkValues>)
  {
    (forall n :: n in index ==> index[n] == NameIndex(pv, n) < |pv|)
    && (forall k :: 0 <= k < |pv| ==> pv[k].name in index)
  }

  /** The inner loop over one material's components for the gizmo type. */
  method AddMaterial(data: Data, mat: MaterialName, gizmoType: GizmoType, isAncientGizmo: bool,
                     pv0: seq<PartialPerkValues>, index0: map<PerkName, nat>)
    returns (perkValues: seq<PartialPerkValues>, nameIndexMap: map<PerkName, nat>)
    requires IndexMirrors(index0, pv0)
    requires !(data.comps(mat).ancientOnly && !isAncientGizmo)
    ensures IndexMirrors(nameIndexMap, perkValues)
    ensures perkValues == GroupOnto(pv0, MaterialContribs(data, mat, gizmoType, isAncientGizmo))
  {
    var isAncientMat := data.comps(mat).ancientOnly;
    var matData := Components(data.comps(mat), gizmoType);
    ghost var cs := MaterialContribs(data, mat, gizmoType, isAncientGizmo);
    perkValues, nameIndexMap := pv0, index0;
    var j := 0;
    while j < |matData|
      invariant j <= |matData| == |cs|
      invariant IndexMirrors(nameIndexMap, perkValues)
      invariant perkValues == GroupOnto(pv0, cs[..j])
    {
      var componentValues := matData[j];
      var perkRoll := componentValues.roll;
      var perkBase := componentValues.base;
      if isAncientGizmo && !isAncientMat {
        perkRoll := (perkRoll * 8) / 10;
        perkBase := (perkBase * 8) / 10;
      }
      var contribution := Contribution(componentValues.perk, perkBase, perkRoll);
      assert cs[j] == contribution;
      assert cs[..j + 1][..j] == cs[..j];
      perkValues, nameIndexMap := AddComponent(perkValues, nameIndexMap, contribution);
      j := j + 1;
    }
    assert cs[..j] == cs;
  }

  /**
   * One component: `name_index_map` finds the perk's entry, which gets the base
   * added and the roll pushed, or a new entry is pushed and indexed.
   */
  method AddComponent(pv: seq<PartialPerkValues>, index: map<PerkName, nat>, c: Contribution)
    returns (perkValues: seq<PartialPerkValues>, nameIndexMap: map<PerkName, nat>)
    requires IndexMirrors(index, pv)
    ensures IndexMirrors(nameIndexMap, perkValues)
    ensures perkValues == AddContrib(pv, c)
  {
    perkValues, nameIndexMap := pv, index;
    if c.perk in nameIndexMap {
      var k := nameIndexMap[c.perk];
      var values := perkValues[k];
      var e := PartialPerkValues(values.name, values.base + c.base, values.rolls + [c.roll]);
      MirrorsAfterUpdate(index, pv, k, e);
      perkValues := perkValues[k := e];
    } else {
      assert NameIndex(pv, c.perk) == |pv|;
      var e := PartialPerkValues(c.perk, c.base, [c.roll]);
      perkValues := perkValues + [e];
      nameIndexMap := nameIndexMap[c.perk := |pv|];
      MirrorsAfterPush(index, pv, e);
    }
  }

  lemma MirrorsAfterUpdate(index: map<PerkName, nat>, pv: seq<PartialPerkValues>, k: nat, e: PartialPerkValues)
    requires IndexMirrors(index, pv) && k < |pv| && e.name == pv[k].name
    ensures IndexMirrors(index, pv[k := e])
  {
    var b := pv[k := e];
    forall n | n in index ensures index[n] == NameIndex(b, n) {
      NameIndexSameNames(pv, b, n);
    }
    forall j | 0 <= j < |b| ensures b[j].name in index {
      assert b[j].name == pv[j].name;
    }
  }

  lemma MirrorsAfterPush(index: map<PerkName, nat>, pv: seq<PartialPerkValues>, e: PartialPerkValues)
    requires IndexMirrors(index, pv) && e.name !in index
    ensures IndexMirrors(index[e.name := |pv|], pv + [e])
  {
    var b, m := pv + [e], index[e.name := |pv|];
    forall n | n in m ensures m[n] == NameIndex(b, n) < |b| {
      NameIndexAppend(pv, e, n);
      if n != e.name {
        assert n in index;
      }
    }
    forall j | 0 <= j < |b| ensures b[j].name in m {
      if j < |pv| {
        assert b[j] == pv[j];
      }
    }
  }

  /** The first position of a name depends only on the names. */
  lemma NameIndexSameNames(a: seq<PartialPerkValues>, b: seq<PartialPerkValues>, n: PerkName)
    requires |a| == |b| && forall k :: 0 <= k < |a| ==> a[k].name == b[k].name
    ensures NameIndex(a, n) == NameIndex(b, n)
  {
  }

  lemma NameIndexAppend(a: seq<PartialPerkValues>, e: PartialPerkValues, n: PerkName)
    ensures NameIndex(a + [e], n) == if NameIndex(a, n) < |a| then NameIndex(a, n) else if e.name == n then |a| else |a| + 1
  {
    var b := a + [e];
    assert forall k :: 0 <= k < |a| ==> b[k] == a[k];
    if NameIndex(a, n) < |a| {
      assert b[NameIndex(a, n)].name == n;
    } else if e.name == n {
      assert b[|a|].name == n;
    }
  }

  /** `get_perk_values`, with `name_index_map` a map from perk to entry position. */
  method GetPerkValues(data: Data, inputMaterials: seq<MaterialName>, gizmoType: GizmoType, isAncientGizmo: bool)
    returns (perkValues: seq<PartialPerkValues>)
    ensures perkValues == PerkValuesOf(data, inputMaterials, gizmoType, isAncientGizmo)
  {
    perkValues := [];
    var nameIndexMap: map<PerkName, nat> := map[];
    var i := 0;
    while i < |inputMaterials|
      invariant i <= |inputMaterials|
      invariant IndexMirrors(nameIndexMap, perkValues)
      invariant perkValues == Group(Contribs(data, inputMaterials[..i], gizmoType, isAncientGizmo))
    {
      var mat := inputMaterials[i];
      GroupStep(data, inputMaterials, i, gizmoType, isAncientGizmo);
      var isAncientMat := data.comps(mat).ancientOnly;
      if isAncientMat && !isAncientGizmo {
        assert MaterialContribs(data, mat, gizmoType, isAncientGizmo) == [];
        i := i + 1;
        continue;
      }
      perkValues, nameIndexMap := AddMaterial(data, mat, gizmoType, isAncientGizmo, perkValues, nameIndexMap);
      i := i + 1;
    }
    assert inputMaterials[..i] == inputMaterials;
  }

  /** Grouping one more material's contributions continues from the grouping so far. */
  lemma GroupStep(data: Data, mats: seq<MaterialName>, i: nat, gizmoType: GizmoType, isAncientGizmo: bool)
    requires i < |mats|
    ensures Group(Contribs(data, mats[..i + 1], gizmoType, isAncientGizmo))
      == GroupOnto(Group(Contribs(data, mats[..i], gizmoType, isAncientGizmo)), MaterialContribs(data, mats[i], gizmoType, isAncientGizmo))
  {
    assert mats[..i + 1] == mats[..i] + [mats[i]];
    ContribsSnoc(data, mats[..i], mats[i], gizmoType, isAncientGizmo);
    GroupOntoAppend([], Contribs(data, mats[..i], gizmoType, isAncientGizmo), MaterialContribs(data, mats[i], gizmoType, isAncientGizmo));
  }

  /** Grouping a concatenation is grouping the second part onto the grouped first part. */
  lemma {:induction false} GroupOntoAppend(pv: seq<PartialPerkValues>, a: seq<Contribution>, b: seq<Contribution>)
    ensures GroupOnto(pv, a + b) == GroupOnto(GroupOnto(pv, a), b)
    decreases |b|
  {
    if b != [] {
      var n := |b| - 1;
      assert (a + b)[..|a + b| - 1] == a + b[..n];
      GroupOntoAppend(pv, a, b[..n]);
    } else {
      assert a + b == a;
    }
  }

  /** Contributions of a concatenation of material lists are concatenated. */
  lemma ContribsSnoc(data: Data, mats: seq<MaterialName>, m: MaterialName, gizmoType: GizmoType, isAncientGizmo: bool)
    ensures Contribs(data, mats + [m], gizmoType, isAncientGizmo)
      == Contribs(data, mats, gizmoType, isAncientGizmo) + MaterialContribs(data, m, gizmoType, isAncientGizmo)
  {
    assert (mats + [m])[..|mats|] == mats;
  }

  lemma {:induction false} ContribsAppend(data: Data, a: seq<MaterialName>, b: seq<MaterialName>, gizmoType: GizmoType, isAncientGizmo: bool)
    ensures Contribs(data, a + b, gizmoType, isAncientGizmo)
      == Contribs(data, a, gizmoType, isAncientGizmo) + Contribs(data, b, gizmoType, isAncientGizmo)
    decreases |b|
  {
    if b == [] {
      assert a + b == a;
    } else {
      var b0, last := b[..|b| - 1], b[|b| - 1];
      var x, y := Contribs(data, a, gizmoType, isAncientGizmo), Contribs(data, b0, gizmoType, isAncientGizmo);
      var z := MaterialContribs(data, last, gizmoType, isAncientGizmo);
      calc {
        Contribs(data, a + b, gizmoType, isAncientGizmo);
        { assert a + b == (a + b0) + [last]; }
        Contribs(data, (a + b0) + [last], gizmoType, isAncientGizmo);
        { ContribsSnoc(data, a + b0, last, gizmoType, isAncientGizmo); }
        Contribs(data, a + b0, gizmoType, isAncientGizmo) + z;
        { ContribsAppend(data, a, b0, gizmoType, isAncientGizmo); }
        (x + y) + z;
        x + (y + z);
        { assert b == b0 + [last]; ContribsSnoc(data, b0, last, gizmoType, isAncientGizmo); }
        x + Contribs(data, b, gizmoType, isAncientGizmo);
      }
    }
  }



  /** On a non-ancient gizmo an ancient-only material, wherever it stands, changes nothing. */
  lemma AncientMaterialSkipped(data: Data, a: seq<MaterialName>, m: MaterialName, b: seq<MaterialName>, gizmoType: GizmoType)
    requires data.comps(m).ancientOnly
    ensures PerkValuesOf(data, a + [m] + b, gizmoType, false) == PerkValuesOf(data, a + b, gizmoType, false)
  {
    ContribsAppend(data, a + [m], b, gizmoType, false);
    ContribsAppend(data, a, [m], gizmoType, false);
    ContribsAppend(data, a, b, gizmoType, false);
    assert [m][..0] == [];
    assert Contribs(data, [m], gizmoType, false) == [];
    var x, y := Contribs(data, a, gizmoType, false), Contribs(data, b, gizmoType, false);
    assert Contribs(data, a + [m], gizmoType, false) == x;
    assert Contribs(data, a + [m] + b, gizmoType, false) == x + y;
  }

  /**
   * A used material contributes one entry per component, in order. On an
   * ancient gizmo the base and roll of a non-ancient material are
   * floor(8x/10); in every other case they are the catalogue values.
   */
  lemma MaterialScaling(data: Data, mat: MaterialName, gizmoType: GizmoType, isAncientGizmo: bool)
    requires isAncientGizmo || !data.comps(mat).ancientOnly
    ensures var values, r := Components(data.comps(mat), gizmoType), MaterialContribs(data, mat, gizmoType, isAncientGizmo);
      && |r| == |values|
      && forall k :: 0 <= k < |r| ==>
           && r[k].perk == values[k].perk
           && (isAncientGizmo && !data.comps(mat).ancientOnly ==>
                 r[k].base * 10 <= values[k].base * 8 < r[k].base * 10 + 10
                 && r[k].roll * 10 <= values[k].roll * 8 < r[k].roll * 10 + 10)
           && (!isAncientGizmo || data.comps(mat).ancientOnly ==> r[k].base == values[k].base && r[k].roll == values[k].roll)
  {
  }

  function Perks(cs: seq<Contribution>): (r: seq<PerkName>)
    ensures |r| == |cs| && forall k :: 0 <= k < |cs| ==> r[k] == cs[k].perk
  {
    seq(|cs|, k requires 0 <= k < |cs| => cs[k].perk)
  }

  function Names(pv: seq<PartialPerkValues>): (r: seq<PerkName>)
    ensures |r| == |pv| && forall k :: 0 <= k < |pv| ==> r[k] == pv[k].name
  {
    seq(|pv|, k requires 0 <= k < |pv| => pv[k].name)
  }

  /** The sum of the bases contributed to perk `n`. */
  function BaseSum(cs: seq<Contribution>, n: PerkName): nat
    decreases |cs|
  {
    if cs == [] then 0
    else BaseSum(cs[..|cs| - 1], n) + (if cs[|cs| - 1].perk == n then cs[|cs| - 1].base else 0)
  }

  /** The rolls contributed to perk `n`, in contribution order. */
  function Rolls(cs: seq<Contribution>, n: PerkName): seq<nat>
    decreases |cs|
  {
    if cs == [] then []
    else Rolls(cs[..|cs| - 1], n) + (if cs[|cs| - 1].perk == n then [cs[|cs| - 1].roll] else [])
  }

  /** Adding a contribution keeps the entry names, or appends the contribution's perk when no entry has it. */
  lemma NamesAddContrib(g: seq<PartialPerkValues>, c: Contribution)
    ensures Names(AddContrib(g, c)) == if c.perk in Names(g) then Names(g) else Names(g) + [c.perk]
  {
    var k := NameIndex(g, c.perk);
    if k < |g| {
      assert Names(g)[k] == c.perk;
      assert Names(AddContrib(g, c)) == Names(g);
    } else {
      assert c.perk !in Names(g);
      assert Names(AddContrib(g, c)) == Names(g) + [c.perk];
    }
  }

  lemma DedupSnoc<T(!new)>(s: seq<T>, x: T)
    ensures Dedup(s + [x]) == if x in Dedup(s) then Dedup(s) else Dedup(s) + [x]
  {
    assert (s + [x])[..|s|] == s;
  }

  /** The entries name each contributed perk once, in order of first contribution. */
  lemma {:induction false} GroupNames(cs: seq<Contribution>)
    ensures Names(Group(cs)) == Dedup(Perks(cs))
    decreases |cs|
  {
    if cs != [] {
      var n := |cs| - 1;
      var p, c := cs[..n], cs[n];
      GroupNames(p);
      assert cs == p + [c];
      assert Perks(cs) == Perks(p) + [c.perk];
      assert Group(cs) == AddContrib(Group(p), c);
      NamesAddContrib(Group(p), c);
      DedupSnoc(Perks(p), c.perk);
    }
  }

  /** Every entry of `g` holds the sum of its perk's bases in `cs` and all of its rolls in order. */
  ghost predicate SumsHold(g: seq<PartialPerkValues>, cs: seq<Contribution>)
  {
    forall k :: 0 <= k < |g| ==> g[k].base == BaseSum(cs, g[k].name) && g[k].rolls == Rolls(cs, g[k].name)
  }

  lemma SumsStep(p: seq<Contribution>, c: Contribution, n: PerkName)
    ensures BaseSum(p + [c], n) == BaseSum(p, n) + (if c.perk == n then c.base else 0)
    ensures Rolls(p + [c], n) == Rolls(p, n) + (if c.perk == n then [c.roll] else [])
  {
    assert (p + [c])[..|p|] == p;
  }

  lemma AddContribSums(g: seq<PartialPerkValues>, p: seq<Contribution>, c: Contribution)
    requires SumsHold(g, p) && Distinct(Names(g))
    requires forall x :: x in Perks(p) ==> x in Names(g)
    ensures SumsHold(AddContrib(g, c), p + [c])
  {
    var g2 := AddContrib(g, c);
    var i := NameIndex(g, c.perk);
    forall k | 0 <= k < |g2| ensures g2[k].base == BaseSum(p + [c], g2[k].name) && g2[k].rolls == Rolls(p + [c], g2[k].name) {
      SumsStep(p, c, g2[k].name);
      if k < |g| && k != i {
        assert g2[k] == g[k];
        if i < |g| {
          assert Names(g)[k] != Names(g)[i];
        }
      } else if k == |g| {
        assert c.perk !in Names(g);
        AbsentContributesNothing(p, c.perk);
      }
    }
  }

  lemma {:induction false} GroupSums(cs: seq<Contribution>)
    ensures SumsHold(Group(cs), cs)
    decreases |cs|
  {
    if cs != [] {
      var n := |cs| - 1;
      var p, c := cs[..n], cs[n];
      GroupSums(p);
      GroupNames(p);
      assert cs == p + [c];
      AddContribSums(Group(p), p, c);
    }
  }

  lemma {:induction false} AbsentContributesNothing(cs: seq<Contribution>, n: PerkName)
    requires n !in Perks(cs)
    ensures BaseSum(cs, n) == 0 && Rolls(cs, n) == []
    decreases |cs|
  {
    if cs != [] {
      var m := |cs| - 1;
      assert Perks(cs[..m]) == Perks(cs)[..m];
      AbsentContributesNothing(cs[..m], n);
    }
  }

  /**
   * `get_perk_values`: one entry per distinct perk, in order of first appearance
   * across the materials and their components, holding the sum of the (scaled)
   * bases and the rolls in input order.
   */
  lemma PerkValuesSummary(data: Data, mats: seq<MaterialName>, gizmoType: GizmoType, isAncientGizmo: bool)
    ensures var cs, r := Contribs(data, mats, gizmoType, isAncientGizmo), PerkValuesOf(data, mats, gizmoType, isAncientGizmo);
      && Names(r) == Dedup(Perks(cs))
      && Distinct(Names(r))
      && forall k :: 0 <= k < |r| ==> r[k].base == BaseSum(cs, r[k].name) && r[k].rolls == Rolls(cs, r[k].name)
  {
    var cs := Contribs(data, mats, gizmoType, isAncientGizmo);
    GroupNames(cs);
    GroupSums(cs);
  }

  /**
   * A catalogue in which Armadyl components give Precise (40, 8) and
   * Invigorating (45, 8) on weapons, and ancient-only Historic components
   * give Precise (20, 33).
   */
  ghost predicate ExampleCatalogue(data: Data)
  {
    && data.comps(ArmadylComponents)
       == CompPerksPerGizmoType(false, [ComponentValues(Named("Precise"), 40, 8), ComponentValues(Named("Invigorating"), 45, 8)], [], [])
    && data.comps(HistoricComponents) == CompPerksPerGizmoType(true, [ComponentValues(Named("Precise"), 20, 33)], [], [])
  }

  /** On a normal gizmo the ancient-only Historic components are skipped. */
  lemma ExampleAncientSkipped(data: Data)
    requires ExampleCatalogue(data)
    ensures PerkValuesOf(data, [ArmadylComponents, HistoricComponents], Weapon, false)
      == [PartialPerkValues(Named("Precise"), 40, [8]), PartialPerkValues(Named("Invigorating"), 45, [8])]
  {
    var mats := [ArmadylComponents, HistoricComponents];
    assert mats[..1] == [ArmadylComponents] && mats[..1][..0] == [];
    var a := MaterialContribs(data, ArmadylComponents, Weapon, false);
    assert a == [Contribution(Named("Precise"), 40, 8), Contribution(Named("Invigorating"), 45, 8)];
    assert MaterialContribs(data, HistoricComponents, Weapon, false) == [];
    assert Contribs(data, mats[..1], Weapon, false) == Contribs(data, [], Weapon, false) + a == a;
    var cs := Contribs(data, mats, Weapon, false);
    assert cs == Contribs(data, mats[..1], Weapon, false) + MaterialContribs(data, HistoricComponents, Weapon, false);
    assert cs == a;
    var g1 := [PartialPerkValues(Named("Precise"), 40, [8])];
    assert cs[..1] == [cs[0]] && cs[..1][..0] == [];
    assert GroupOnto([], cs[..1]) == g1;
    assert GroupOnto([], cs) == AddContrib(g1, cs[1]);
  }

  /** On an ancient gizmo the Armadyl values are scaled to 8/10 and the Historic ones kept. */
  lemma ExampleAncientScaled(data: Data)
    requires ExampleCatalogue(data)
    ensures PerkValuesOf(data, [ArmadylComponents, HistoricComponents], Weapon, true)
      == [PartialPerkValues(Named("Precise"), 52, [6, 33]), PartialPerkValues(Named("Invigorating"), 36, [6])]
  {
    ExampleScaledContribs(data);
    ExampleScaledGroups();
  }

  lemma ExampleScaledContribs(data: Data)
    requires ExampleCatalogue(data)
    ensures Contribs(data, [ArmadylComponents, HistoricComponents], Weapon, true)
      == [Contribution(Named("Precise"), 32, 6), Contribution(Named("Invigorating"), 36, 6), Contribution(Named("Precise"), 20, 33)]
  {
    var mats := [ArmadylComponents, HistoricComponents];
    assert mats[..1] == [ArmadylComponents] && mats[..1][..0] == [];
    assert Scaled(40, true, false) == 32 && Scaled(8, true, false) == 6 && Scaled(45, true, false) == 36;
    var a := MaterialContribs(data, ArmadylComponents, Weapon, true);
    assert a == [Contribution(Named("Precise"), 32, 6), Contribution(Named("Invigorating"), 36, 6)];
    var h := MaterialContribs(data, HistoricComponents, Weapon, true);
    assert h == [Contribution(Named("Precise"), 20, 33)];
    assert Contribs(data, mats[..1], Weapon, true) == Contribs(data, [], Weapon, true) + a == a;
    assert Contribs(data, mats, Weapon, true) == Contribs(data, mats[..1], Weapon, true) + h;
  }

  lemma ExampleScaledGroups()
    ensures Group([Contribution(Named("Precise"), 32, 6), Contribution(Named("Invigorating"), 36, 6), Contribution(Named("Precise"), 20, 33)])
      == [PartialPerkValues(Named("Precise"), 52, [6, 33]), PartialPerkValues(Named("Invigorating"), 36, [6])]
  {
    var cs := [Contribution(Named("Precise"), 32, 6), Contribution(Named("Invigorating"), 36, 6), Contribution(Named("Precise"), 20, 33)];
    var g1 := [PartialPerkValues(Named("Precise"), 32, [6])];
    var g2 := g1 + [PartialPerkValues(Named("Invigorating"), 36, [6])];
    assert cs[..1] == [cs[0]] && cs[..1][..0] == [];
    assert cs[..2][..1] == cs[..1];
    assert GroupOnto([], cs[..1]) == g1;
    assert GroupOnto([], cs[..2]) == AddContrib(g1, cs[1]) == g2;
    assert NameIndex(g2, cs[2].perk) == 0;
    assert [6] + [33] == [6, 33];
    assert GroupOnto([], cs) == AddContrib(g2, cs[2]) == g2[0 := PartialPerkValues(Named("Precise"), 52, [6, 33])];
  }

  // ---------------------------------------------------------------------------
  // can_generate_wanted_ranks

  function Sum(s: seq<nat>): nat
  {
    if s == [] then 0 else Sum(s[..|s| - 1]) + s[|s| - 1]
  }

  /** The highest value the rolls can add: each die of size `x` rolls at most `x - 1`. */
  function MaxRoll(pv: PartialPerkValues): int
  {
    Sum(pv.rolls) - |pv.rolls|
  }

  /**
   * An entry can reach rank `r` of its table: base plus the highest roll
   * reaches the rank's threshold, and the base alone stays below the next
   * rank's threshold (no bound when `r` is the last rank).
   */
  predicate Reachable(pv: PartialPerkValues, ranks: seq<PerkRankValues>, r: nat)
    requires r < |ranks|
  {
    pv.base + MaxRoll(pv) >= ranks[r].threshold
    && (r + 1 < |ranks| ==> pv.base < ranks[r + 1].threshold)
  }

  /** The entries the scan has kept for the first and the second wanted perk. */
  datatype Found = Found(first: Option<PartialPerkValues>, second: Option<PartialPerkValues>)

  /** The search loop from entry `i` on: it stops as soon as both perks have an entry. */
  function ScanFrom(pvs: seq<PartialPerkValues>, n1: PerkName, n2: PerkName, i: nat, f: Found): Found
    decreases |pvs| - i
  {
    if i >= |pvs| then f
    else
      var f1 := if pvs[i].name == n1 then Found(Some(pvs[i]), f.second) else f;
      var f2 := if pvs[i].name == n2 then Found(f1.first, Some(pvs[i])) else f1;
      if f2.first.Some? && f2.second.Some? then f2 else ScanFrom(pvs, n1, n2, i + 1, f2)
  }

  /** The catalogue can index both wanted ranks, as the source's unchecked indexing needs. */
  ghost predicate WantedRanksInTable(data: Data, wanted: Gizmo)
  {
    wanted.perks.0.rank < |data.perks(wanted.perks.0.name).ranks|
    && wanted.perks.1.rank < |data.perks(wanted.perks.1.name).ranks|
  }

  /** The specification of `can_generate_wanted_ranks`. */
  function CanGenerate(data: Data, pvs: seq<PartialPerkValues>, wanted: Gizmo): bool
    requires WantedRanksInTable(data, wanted)
  {
    var (p1, p2) := wanted.perks;
    var f := ScanFrom(pvs, p1.name, p2.name, 0, Found(None, None));
    if f.first.None? || (p2.name != Empty && f.second.None?) then false
    else
      (Reachable(f.first.value, data.perks(p1.name).ranks, p1.rank)
       && (p2.name != Empty ==> Reachable(f.second.value, data.perks(p2.name).ranks, p2.rank)))
  }

  /** The search loop: base and highest roll of the entries kept for each wanted perk. */
  method FindWanted(perkValuesArr: seq<PartialPerkValues>, n1: PerkName, n2: PerkName)
    returns (perk1Base: Option<nat>, perk1MaxRoll: Option<int>, perk2Base: Option<nat>, perk2MaxRoll: Option<int>)
    ensures var f := ScanFrom(perkValuesArr, n1, n2, 0, Found(None, None));
      && perk1Base.Some? == perk1MaxRoll.Some? == f.first.Some?
      && (f.first.Some? ==> perk1Base.value == f.first.value.base && perk1MaxRoll.value == MaxRoll(f.first.value))
      && perk2Base.Some? == perk2MaxRoll.Some? == f.second.Some?
      && (f.second.Some? ==> perk2Base.value == f.second.value.base && perk2MaxRoll.value == MaxRoll(f.second.value))
  {
    perk1Base, perk1MaxRoll, perk2Base, perk2MaxRoll := None, None, None, None;
    ghost var found := Found(None, None);
    var i := 0;
    while i < |perkValuesArr|
      invariant i <= |perkValuesArr|
      invariant ScanFrom(perkValuesArr, n1, n2, i, found)
        == ScanFrom(perkValuesArr, n1, n2, 0, Found(None, None))
      invariant perk1Base.Some? == perk1MaxRoll.Some? == found.first.Some?
      invariant found.first.Some? ==> perk1Base.value == found.first.value.base && perk1MaxRoll.value == MaxRoll(found.first.value)
      invariant perk2Base.Some? == perk2MaxRoll.Some? == found.second.Some?
      invariant found.second.Some? ==> perk2Base.value == found.second.value.base && perk2MaxRoll.value == MaxRoll(found.second.value)
      invariant !(found.first.Some? && found.second.Some?)
    {
      var perkValue := perkValuesArr[i];
      if perkValue.name == n1 {
        perk1Base := Some(perkValue.base);
        perk1MaxRoll := Some(Sum(perkValue.rolls) - |perkValue.rolls|);
        found := Found(Some(perkValue), found.second);
      }
      if perkValue.name == n2 {
        perk2Base := Some(perkValue.base);
        perk2MaxRoll := Some(Sum(perkValue.rolls) - |perkValue.rolls|);
        found := Found(found.first, Some(perkValue));
      }
      if perk1Base.Some? && perk2Base.Some? {
        break;
      }
      i := i + 1;
    }
  }

  /** `can_generate_wanted_ranks`, keeping base and highest roll of each found perk as the source does. */
  method CanGenerateWantedRanks(data: Data, perkValuesArr: seq<PartialPerkValues>, wantedGizmo: Gizmo) returns (b: bool)
    requires WantedRanksInTable(data, wantedGizmo)
    ensures b == CanGenerate(data, perkValuesArr, wantedGizmo)
  {
    var wantedRank1 := wantedGizmo.perks.0.rank;
    var wantedRank2 := wantedGizmo.perks.1.rank;
    var perk1Ranks := data.perks(wantedGizmo.perks.0.name).ranks;
    var perk2Ranks := data.perks(wantedGizmo.perks.1.name).ranks;
    var perk1Threshold := perk1Ranks[wantedRank1].threshold;
    var perk1NextThreshold: Option<nat> := if wantedRank1 + 1 < |perk1Ranks| then Some(perk1Ranks[wantedRank1 + 1].threshold) else None;
    var perk2Threshold := perk2Ranks[wantedRank2].threshold;
    var perk2NextThreshold: Option<nat> := if wantedRank2 + 1 < |perk2Ranks| then Some(perk2Ranks[wantedRank2 + 1].threshold) else None;

    var perk1Base, perk1MaxRoll, perk2Base, perk2MaxRoll := FindWanted(perkValuesArr, wantedGizmo.perks.0.name, wantedGizmo.perks.1.name);
    if perk1Base.None? || (wantedGizmo.perks.1.name != Empty && perk2Base.None?) {
      return false;
    }
    if !(perk1Base.value + perk1MaxRoll.value >= perk1Threshold
         && (perk1NextThreshold.None? || perk1Base.value < perk1NextThreshold.value)) {
      return false;
    }
    if wantedGizmo.perks.1.name != Empty
       && !(perk2Base.value + perk2MaxRoll.value >= perk2Threshold
            && (perk2NextThreshold.None? || perk2Base.value < perk2NextThreshold.value)) {
      return false;
    }
    return true;
  }

  /** What the scan has kept for name `n` after `i` entries: an entry of that name, or none when none exists. */
  ghost predicate Tracks(pvs: seq<PartialPerkValues>, n: PerkName, i: nat, o: Option<PartialPerkValues>)
    requires i <= |pvs|
  {
    (o.Some? ==> exists k :: 0 <= k < i && pvs[k].name == n && o.value == pvs[k])
    && (o.None? ==> forall k :: 0 <= k < i ==> pvs[k].name != n)
  }

  lemma {:induction false} ScanTracks(pvs: seq<PartialPerkValues>, n1: PerkName, n2: PerkName, i: nat, f: Found)
    requires i <= |pvs| && Tracks(pvs, n1, i, f.first) && Tracks(pvs, n2, i, f.second)
    ensures var r := ScanFrom(pvs, n1, n2, i, f);
      Tracks(pvs, n1, |pvs|, r.first) && Tracks(pvs, n2, |pvs|, r.second)
    decreases |pvs| - i
  {
    if i < |pvs| {
      var f1 := if pvs[i].name == n1 then Found(Some(pvs[i]), f.second) else f;
      var f2 := if pvs[i].name == n2 then Found(f1.first, Some(pvs[i])) else f1;
      assert Tracks(pvs, n1, i + 1, f2.first);
      assert Tracks(pvs, n2, i + 1, f2.second);
      if !(f2.first.Some? && f2.second.Some?) {
        ScanTracks(pvs, n1, n2, i + 1, f2);
      }
    }
  }

  /**
   * With the perk names distinct, as `get_perk_values` makes them, the test
   * holds exactly when the first wanted perk has an entry that can reach its
   * rank and, unless the second is Empty, so does the second.
   */
  lemma CanGenerateIff(data: Data, pvs: seq<PartialPerkValues>, wanted: Gizmo)
    requires WantedRanksInTable(data, wanted) && Distinct(Names(pvs))
    ensures var (p1, p2) := wanted.perks;
      CanGenerate(data, pvs, wanted) <==>
        (exists k :: 0 <= k < |pvs| && pvs[k].name == p1.name && Reachable(pvs[k], data.perks(p1.name).ranks, p1.rank))
        && (p2.name == Empty
            || exists k :: 0 <= k < |pvs| && pvs[k].name == p2.name && Reachable(pvs[k], data.perks(p2.name).ranks, p2.rank))
  {
    var (p1, p2) := wanted.perks;
    var f := ScanFrom(pvs, p1.name, p2.name, 0, Found(None, None));
    ScanTracks(pvs, p1.name, p2.name, 0, Found(None, None));
    forall k | 0 <= k < |pvs| && pvs[k].name == p1.name ensures f.first == Some(pvs[k]) {
      var j :| 0 <= j < |pvs| && pvs[j].name == p1.name && f.first.value == pvs[j];
      assert Names(pvs)[j] == Names(pvs)[k];
    }
    forall k | 0 <= k < |pvs| && pvs[k].name == p2.name ensures f.second == Some(pvs[k]) {
      var j :| 0 <= j < |pvs| && pvs[j].name == p2.name && f.second.value == pvs[j];
      assert Names(pvs)[j] == Names(pvs)[k];
    }
  }

  function Threshold(rank: nat, threshold: nat): PerkRankValues
  {
    DefaultPerkRankValues.(rank := rank, threshold := threshold)
  }

  /** The rank tables of the feasibility tests: Empty, Precise, Biting and Equilibrium. */
  ghost predicate ThresholdCatalogue(data: Data)
  {
    && data.perks(Empty).ranks == [Threshold(0, 0)]
    && data.perks(Named("Precise")).ranks == [Threshold(0, 0), Threshold(1, 10), Threshold(2, 100), Threshold(3, 150)]
    && data.perks(Named("Biting")).ranks == [Threshold(0, 0), Threshold(1, 50), Threshold(2, 80), Threshold(3, 200), Threshold(4, 250)]
    && data.perks(Named("Equilibrium")).ranks == [Threshold(0, 0), Threshold(1, 50), Threshold(2, 80), Threshold(3, 200), Threshold(4, 250)]
  }

  function Wanted(n1: string, r1: nat, n2: PerkName, r2: nat): Gizmo
  {
    PreludePerk.Gizmo((Perk(Named(n1), r1), Perk(n2, r2)))
  }

  function Entry(name: string, base: nat, rolls: seq<nat>): PartialPerkValues
  {
    PartialPerkValues(Named(name), base, rolls)
  }

  /** A wanted perk without an entry makes the gizmo impossible. */
  lemma ExampleWantedMissing(data: Data)
    requires ThresholdCatalogue(data)
    ensures var pvs := [Entry("Precise", 50, [20, 20]), Entry("Biting", 50, [20, 20])];
      && !CanGenerate(data, pvs, Wanted("Equilibrium", 2, Empty, 0))
      && !CanGenerate(data, pvs, Wanted("Equilibrium", 2, Named("Precise"), 2))
      && !CanGenerate(data, pvs, Wanted("Precise", 2, Named("Equilibrium"), 2))
  {
  }

  /** Base plus the highest roll below the wanted threshold. */
  lemma ExampleBelowThreshold(data: Data)
    requires ThresholdCatalogue(data)
    ensures var pvs := [Entry("Precise", 10, [20, 71]), Entry("Biting", 50, [20, 20])];
      && !CanGenerate(data, pvs, Wanted("Precise", 2, Empty, 0))
      && !CanGenerate(data, pvs, Wanted("Precise", 2, Named("Biting"), 1))
    ensures !CanGenerate(data, [Entry("Precise", 10, [20, 20]), Entry("Biting", 50, [20, 20])], Wanted("Biting", 1, Named("Precise"), 2))
  {
    assert Sum([20, 71]) == 91 by { assert [20, 71][..1] == [20]; assert [20][..0] == []; }
    assert Sum([20, 20]) == 40 by { assert [20, 20][..1] == [20]; assert [20][..0] == []; }
  }

  /** Reachable ranks on one and on both perks. */
  lemma ExampleAboveThreshold(data: Data)
    requires ThresholdCatalogue(data)
    ensures CanGenerate(data, [Entry("Precise", 50, [20, 20]), Entry("Biting", 12, [20, 20])], Wanted("Biting", 1, Empty, 0))
    ensures CanGenerate(data, [Entry("Precise", 50, [20, 40]), Entry("Biting", 50, [20, 20])], Wanted("Biting", 1, Named("Precise"), 2))
  {
    assert Sum([20, 40]) == 60 by { assert [20, 40][..1] == [20]; assert [20][..0] == []; }
    assert Sum([20, 20]) == 40 by { assert [20, 20][..1] == [20]; assert [20][..0] == []; }
  }

  /** A base already at the next rank's threshold overshoots the wanted rank. */
  lemma ExampleBaseTooHigh(data: Data)
    requires ThresholdCatalogue(data)
    ensures !CanGenerate(data, [Entry("Precise", 80, [20, 20]), Entry("Biting", 100, [20, 20])], Wanted("Biting", 1, Named("Precise"), 2))
    ensures !CanGenerate(data, [Entry("Precise", 160, [20, 20]), Entry("Biting", 50, [20, 20])], Wanted("Biting", 1, Named("Precise"), 2))
  {
    assert Sum([20, 20]) == 40 by { assert [20, 20][..1] == [20]; assert [20][..0] == []; }
  }

  // ---------------------------------------------------------------------------
  // permutate_perk_ranks (rank selection; the probability product is not modelled)

  datatype Bounds = Bounds(first: nat, last: nat)

  /** The `func` closure's window bounds: a wanted perk is pinned to its wanted rank. */
  function WindowBounds(pv: PerkValues, wanted: Option<Gizmo>): (b: Bounds)
    ensures wanted.Some? && wanted.value.perks.0.name == pv.name ==> b == Bounds(wanted.value.perks.0.rank, wanted.value.perks.0.rank)
    ensures wanted.Some? && wanted.value.perks.0.name != pv.name && wanted.value.perks.1.name == pv.name
      ==> b == Bounds(wanted.value.perks.1.rank, wanted.value.perks.1.rank)
    ensures (wanted.None? || (wanted.value.perks.0.name != pv.name && wanted.value.perks.1.name != pv.name))
      ==> b == Bounds(pv.iFirst, pv.iLast)
  {
    match wanted
    case Some(g) =>
      if g.perks.0.name == pv.name then Bounds(g.perks.0.rank, g.perks.0.rank)
      else if g.perks.1.name == pv.name then Bounds(g.perks.1.rank, g.perks.1.rank)
      else Bounds(pv.iFirst, pv.iLast)
    case None => Bounds(pv.iFirst, pv.iLast)
  }

  /** `ranks.iter().take(i_last + 1).skip(i_first)`. */
  function Window(pv: PerkValues, wanted: Option<Gizmo>): (r: seq<Prvpc>)
    ensures var b := WindowBounds(pv, wanted);
      r == pv.ranks[Min(b.first, Min(b.last + 1, |pv.ranks|))..Min(b.last + 1, |pv.ranks|)]
  {
    var b := WindowBounds(pv, wanted);
    Skip(Take(pv.ranks, b.last + 1), b.first)
  }

  function Windows(perkList: seq<PerkValues>, wanted: Option<Gizmo>): (r: seq<seq<Prvpc>>)
    ensures |r| == |perkList| && forall k :: 0 <= k < |r| ==> r[k] == Window(perkList[k], wanted)
  {
    seq(|perkList|, k requires 0 <= k < |perkList| => Window(perkList[k], wanted))
  }

  /** `x` put in front of each of `rests`. */
  function PrependEach<T>(x: T, rests: seq<seq<T>>): (r: seq<seq<T>>)
    ensures |r| == |rests| && forall k :: 0 <= k < |r| ==> r[k] == [x] + rests[k]
  {
    seq(|rests|, k requires 0 <= k < |rests| => [x] + rests[k])
  }

  /** Each of `xs` in order, each followed by every one of `rests`. */
  function PrependAll<T>(xs: seq<T>, rests: seq<seq<T>>): seq<seq<T>>
    decreases |xs|
  {
    if xs == [] then [] else PrependEach(xs[0], rests) + PrependAll(xs[1..], rests)
  }

  /** The Cartesian product in lexicographic order, the last position varying fastest. */
  function Product<T>(ws: seq<seq<T>>): seq<seq<T>>
    decreases |ws|
  {
    if ws == [] then [[]] else PrependAll(ws[0], Product(ws[1..]))
  }

  /** `multi_cartesian_product`: nothing at all for an empty list of iterators. */
  function CartesianProduct<T>(ws: seq<seq<T>>): seq<seq<T>>
  {
    if ws == [] then [] else Product(ws)
  }

  function Values(c: seq<Prvpc>): (r: seq<PerkRankValues>)
    ensures |r| == |c| && forall k :: 0 <= k < |c| ==> r[k] == c[k].values
  {
    seq(|c|, k requires 0 <= k < |c| => c[k].values)
  }

  /** The specification of `permutate_perk_ranks`: the ranks of each combination, in the product's order. */
  function Selections(perkList: seq<PerkValues>, wanted: Option<Gizmo>): seq<seq<PerkRankValues>>
  {
    var product := CartesianProduct(Windows(perkList, wanted));
    seq(|product|, i requires 0 <= i < |product| => Values(product[i]))
  }

  /** `permutate_perk_ranks`: walks the product and pushes the values of each combination's ranks. */
  method PermutatePerkRanks(perkList: seq<PerkValues>, wantedGizmo: Option<Gizmo>) returns (combinations: seq<seq<PerkRankValues>>)
    ensures combinations == Selections(perkList, wantedGizmo)
  {
    var product := CartesianProduct(Windows(perkList, wantedGizmo));
    combinations := [];
    var i := 0;
    while i < |product|
      invariant i <= |product| && |combinations| == i
      invariant forall j :: 0 <= j < i ==> combinations[j] == Values(product[j])
    {
      var pvCombination := product[i];
      var ranks: seq<PerkRankValues> := [];
      var j := 0;
      while j < |pvCombination|
        invariant j <= |pvCombination| && |ranks| == j
        invariant forall k :: 0 <= k < j ==> ranks[k] == pvCombination[k].values
      {
        ranks := ranks + [pvCombination[j].values];
        j := j + 1;
      }
      assert ranks == Values(pvCombination);
      combinations := combinations + [ranks];
      i := i + 1;
    }
  }

  function SizeProduct<T>(ws: seq<seq<T>>): nat
    decreases |ws|
  {
    if ws == [] then 1 else |ws[0]| * SizeProduct(ws[1..])
  }

  lemma {:induction false} PrependAllSize<T>(xs: seq<T>, rests: seq<seq<T>>)
    ensures |PrependAll(xs, rests)| == |xs| * |rests|
    decreases |xs|
  {
    if xs != [] {
      PrependAllSize(xs[1..], rests);
      calc {
        |PrependAll(xs, rests)|;
        |rests| + |xs[1..]| * |rests|;
        (1 + |xs[1..]|) * |rests|;
      }
    }
  }

  /** The product has one combination per choice of one element in every window. */
  lemma {:induction false} ProductSize<T>(ws: seq<seq<T>>)
    ensures |Product(ws)| == SizeProduct(ws)
    decreases |ws|
  {
    if ws != [] {
      ProductSize(ws[1..]);
      PrependAllSize(ws[0], Product(ws[1..]));
    }
  }

  lemma {:induction false} PrependAllMembers<T>(xs: seq<T>, rests: seq<seq<T>>, c: seq<T>)
    ensures c in PrependAll(xs, rests) <==> |c| > 0 && c[0] in xs && c[1..] in rests
    decreases |xs|
  {
    if xs != [] {
      PrependAllMembers(xs[1..], rests, c);
      if c in PrependEach(xs[0], rests) {
        var k :| 0 <= k < |rests| && PrependEach(xs[0], rests)[k] == c;
        assert c[1..] == rests[k];
      }
      if |c| > 0 && c[0] == xs[0] && c[1..] in rests {
        var k :| 0 <= k < |rests| && rests[k] == c[1..];
        assert PrependEach(xs[0], rests)[k] == c;
      }
      if |c| > 0 && c[0] in xs && c[0] != xs[0] {
        assert c[0] in xs[1..];
      }
    }
  }

  /** A sequence is in the product exactly when it picks one element of each window, in window order. */
  lemma {:induction false} ProductMembers<T>(ws: seq<seq<T>>, c: seq<T>)
    ensures c in Product(ws) <==> |c| == |ws| && forall k :: 0 <= k < |ws| ==> c[k] in ws[k]
    decreases |ws|
  {
    if ws == [] {
      assert c in Product(ws) <==> c == [];
    } else {
      PrependAllMembers(ws[0], Product(ws[1..]), c);
      if |c| > 0 {
        ProductMembers(ws[1..], c[1..]);
        if |c| == |ws| && forall k :: 0 <= k < |ws| ==> c[k] in ws[k] {
          forall k | 0 <= k < |ws[1..]| ensures c[1..][k] in ws[1..][k] {
            assert c[k + 1] in ws[k + 1];
          }
        }
        if c in Product(ws) {
          forall k | 0 <= k < |ws| ensures c[k] in ws[k] {
            if k > 0 {
              assert c[1..][k - 1] in ws[1..][k - 1];
            }
          }
        }
      }
    }
  }

  /**
   * `permutate_perk_ranks` yields one combination per choice of a rank from
   * every perk's window (none when the perk list is empty), and each
   * combination takes, in perk order, one rank from the window of its perk.
   */
  lemma SelectionsCountAndShape(perkList: seq<PerkValues>, wanted: Option<Gizmo>)
    ensures var ws := Windows(perkList, wanted);
      |Selections(perkList, wanted)| == if perkList == [] then 0 else SizeProduct(ws)
    ensures forall c :: c in CartesianProduct(Windows(perkList, wanted)) ==>
      |c| == |perkList| && forall k :: 0 <= k < |perkList| ==> c[k] in Window(perkList[k], wanted)
  {
    var ws := Windows(perkList, wanted);
    ProductSize(ws);
    forall c | c in CartesianProduct(ws)
      ensures |c| == |perkList| && forall k :: 0 <= k < |perkList| ==> c[k] in Window(perkList[k], wanted)
    {
      ProductMembers(ws, c);
    }
  }

  /** A perk wanted at rank `r` in its table has exactly the rank `r` in its window. */
  lemma WantedPerkPinned(pv: PerkValues, g: Gizmo)
    requires g.perks.0.name == pv.name && g.perks.0.rank < |pv.ranks|
    ensures Window(pv, Some(g)) == [pv.ranks[g.perks.0.rank]]
  {
  }

  lemma SecondWantedPerkPinned(pv: PerkValues, g: Gizmo)
    requires g.perks.0.name != pv.name && g.perks.1.name == pv.name && g.perks.1.rank < |pv.ranks|
    ensures Window(pv, Some(g)) == [pv.ranks[g.perks.1.rank]]
  {
  }

  /** A perk the wanted gizmo does not name keeps its whole window from `i_first` to `i_last`. */
  lemma UnwantedPerkWholeWindow(pv: PerkValues, wanted: Option<Gizmo>)
    requires wanted.None? || (wanted.value.perks.0.name != pv.name && wanted.value.perks.1.name != pv.name)
    requires pv.iFirst <= pv.iLast < |pv.ranks|
    ensures Window(pv, wanted) == pv.ranks[pv.iFirst..pv.iLast + 1]
    ensures |Window(pv, wanted)| == pv.iLast - pv.iFirst + 1
  {
  }

  // ---------------------------------------------------------------------------
  // contains_conflict_ranks

  /** The cost of rank `rank` in the catalogue's table for `name`. */
  function WantedCost(data: Data, p: Perk): (c: nat)
    requires p.rank < |data.perks(p.name).ranks|
    ensures c == data.perks(p.name).ranks[p.rank].cost
  {
    data.perks(p.name).ranks[p.rank].cost
  }

  /** The inner `for rank in` loop: true at the first rank costing `c1` or `c2`. */
  function RankHits(ranks: seq<Prvpc>, c1: nat, c2: nat): (b: bool)
    ensures b <==> exists r :: r in ranks && (r.values.cost == c1 || r.values.cost == c2)
    decreases |ranks|
  {
    if ranks == [] then false
    else if ranks[0].values.cost == c1 || ranks[0].values.cost == c2 then true
    else (assert forall r :: r in ranks ==> r == ranks[0] || r in ranks[1..];
          RankHits(ranks[1..], c1, c2))
  }

  /** A perk the search looks at: neither of the two wanted perks. */
  predicate Unwanted(pv: PerkValues, g: Gizmo)
  {
    pv.name != g.perks.0.name && pv.name != g.perks.1.name
  }

  /** The outer loop over the perks, skipping the wanted ones. */
  function PerksHit(pvs: seq<PerkValues>, g: Gizmo, c1: nat, c2: nat): bool
    decreases |pvs|
  {
    if pvs == [] then false
    else if !Unwanted(pvs[0], g) then PerksHit(pvs[1..], g, c1, c2)
    else if RankHits(Window(pvs[0], None), c1, c2) then true
    else PerksHit(pvs[1..], g, c1, c2)
  }

  /** An unwanted perk with a rank in its window costing `c1` or `c2`. */
  ghost predicate PerkHit(pv: PerkValues, g: Gizmo, c1: nat, c2: nat)
  {
    Unwanted(pv, g) && exists r :: r in Window(pv, None) && (r.values.cost == c1 || r.values.cost == c2)
  }

  /** Some unwanted perk has a rank in its window costing `c1` or `c2`. */
  ghost predicate SomeUnwantedHit(pvs: seq<PerkValues>, g: Gizmo, c1: nat, c2: nat)
  {
    exists k :: 0 <= k < |pvs| && PerkHit(pvs[k], g, c1, c2)
  }

  lemma {:induction false} PerksHitIff(pvs: seq<PerkValues>, g: Gizmo, c1: nat, c2: nat)
    ensures PerksHit(pvs, g, c1, c2) <==> SomeUnwantedHit(pvs, g, c1, c2)
    decreases |pvs|
  {
    if pvs != [] {
      PerksHitIff(pvs[1..], g, c1, c2);
      assert PerkHit(pvs[0], g, c1, c2) <==> Unwanted(pvs[0], g) && RankHits(Window(pvs[0], None), c1, c2);
      if SomeUnwantedHit(pvs[1..], g, c1, c2) {
        var k :| 0 <= k < |pvs[1..]| && PerkHit(pvs[1..][k], g, c1, c2);
        assert pvs[k + 1] == pvs[1..][k];
      }
      if SomeUnwantedHit(pvs, g, c1, c2) {
        var k :| 0 <= k < |pvs| && PerkHit(pvs[k], g, c1, c2);
        if k > 0 {
          assert pvs[1..][k - 1] == pvs[k];
        }
      }
    }
  }

  /**
   * `contains_conflict_ranks`: true exactly when the two wanted ranks cost the
   * same, or some perk other than the wanted two has a rank in its window with
   * either wanted cost. The catalogue lookups panic on a rank outside the table.
   */
  function ContainsConflictRanks(data: Data, pvs: seq<PerkValues>, g: Gizmo): (b: bool)
    requires g.perks.0.rank < |data.perks(g.perks.0.name).ranks|
    requires g.perks.1.rank < |data.perks(g.perks.1.name).ranks|
    ensures var c1, c2 := WantedCost(data, g.perks.0), WantedCost(data, g.perks.1);
      b <==> c1 == c2 || SomeUnwantedHit(pvs, g, c1, c2)
  {
    var c1 := WantedCost(data, g.perks.0);
    var c2 := WantedCost(data, g.perks.1);
    PerksHitIff(pvs, g, c1, c2);
    if c1 == c2 then true else PerksHit(pvs, g, c1, c2)
  }

  /** A rank entry whose values carry only its perk and rank. */
  function RankOf(name: string, rank: nat, probability: real): Prvpc
  {
    Prvpc(PerkRankValues(Named(name), rank, 0, 0, false, false), probability)
  }

  /** Precise ranks 1..3 and Biting ranks 2..3 (`permutate_ranks`). */
  function TwoPerkList(): seq<PerkValues>
  {
    [ PerkValues(Named("Precise"), 0, [], false,
        [RankOf("Precise", 0, 0.0), RankOf("Precise", 1, 0.125), RankOf("Precise", 2, 0.25), RankOf("Precise", 3, 0.5)], 1, 3),
      PerkValues(Named("Biting"), 0, [], false,
        [RankOf("Biting", 0, 0.0), RankOf("Biting", 1, 0.125), RankOf("Biting", 2, 0.25), RankOf("Biting", 3, 0.5)], 2, 3) ]
  }

  /** The two-perk list with Equilibrium ranks 1..2 added (`PERK_LIST`). */
  function ThreePerkList(): seq<PerkValues>
  {
    TwoPerkList() + [PerkValues(Named("Equilibrium"), 0, [], false,
      [RankOf("Equilibrium", 0, 0.0), RankOf("Equilibrium", 1, 0.25), RankOf("Equilibrium", 2, 0.5)], 1, 2)]
  }

  lemma PrependAllCons<T>(x: T, xs: seq<T>, rests: seq<seq<T>>)
    ensures PrependAll([x] + xs, rests) == PrependEach(x, rests) + PrependAll(xs, rests)
  {
    assert ([x] + xs)[1..] == xs;
  }

  lemma PrependAllSingle<T>(x: T, rests: seq<seq<T>>)
    ensures PrependAll([x], rests) == PrependEach(x, rests)
  {
    PrependAllCons(x, [], rests);
    assert [x] + [] == [x];
  }

  lemma ProductCons<T>(w: seq<T>, ws: seq<seq<T>>)
    ensures Product([w] + ws) == PrependAll(w, Product(ws))
  {
    assert ([w] + ws)[1..] == ws;
  }

  lemma PrependEachOne<T>(x: T, r: seq<T>)
    ensures PrependEach(x, [r]) == [[x] + r]
  {
  }

  lemma PrependEachTwo<T>(x: T, r1: seq<T>, r2: seq<T>)
    ensures PrependEach(x, [r1, r2]) == [[x] + r1, [x] + r2]
  {
  }

  /** A product of one window of two. */
  lemma ProductOfTwo<T>(x1: T, x2: T)
    ensures Product([[x1, x2]]) == [[x1], [x2]]
  {
    ProductCons([x1, x2], []);
    assert [[x1, x2]] + [] == [[x1, x2]];
    assert Product<T>([]) == [[]];
    PrependAllCons(x1, [x2], [[]]);
    PrependAllSingle(x2, [[]]);
    PrependEachOne(x1, []);
    PrependEachOne(x2, []);
    assert [x1] + [] == [x1] && [x2] + [] == [x2];
  }

  /** A product of a window of three and a window of two, the second varying fastest. */
  lemma ProductThreeByTwo<T>(x1: T, x2: T, x3: T, y1: T, y2: T)
    ensures Product([[x1, x2, x3], [y1, y2]]) == [[x1, y1], [x1, y2], [x2, y1], [x2, y2], [x3, y1], [x3, y2]]
  {
    ProductCons([x1, x2, x3], [[y1, y2]]);
    assert [[x1, x2, x3]] + [[y1, y2]] == [[x1, x2, x3], [y1, y2]];
    ProductOfTwo(y1, y2);
    var rests := [[y1], [y2]];
    PrependAllCons(x1, [x2, x3], rests);
    PrependAllCons(x2, [x3], rests);
    PrependAllSingle(x3, rests);
    PrependEachTwo(x1, [y1], [y2]);
    PrependEachTwo(x2, [y1], [y2]);
    PrependEachTwo(x3, [y1], [y2]);
    assert [x1] + [y1] == [x1, y1] && [x1] + [y2] == [x1, y2];
    assert [x2] + [y1] == [x2, y1] && [x2] + [y2] == [x2, y2];
    assert [x3] + [y1] == [x3, y1] && [x3] + [y2] == [x3, y2];
  }

  /** A product of windows of one, two and two elements. */
  lemma ProductOneByTwoByTwo<T>(x: T, y1: T, y2: T, z1: T, z2: T)
    ensures Product([[x], [y1, y2], [z1, z2]]) == [[x, y1, z1], [x, y1, z2], [x, y2, z1], [x, y2, z2]]
  {
    ProductCons([y1, y2], [[z1, z2]]);
    assert [[y1, y2]] + [[z1, z2]] == [[y1, y2], [z1, z2]];
    ProductOfTwo(z1, z2);
    var last := [[z1], [z2]];
    PrependAllCons(y1, [y2], last);
    PrependAllSingle(y2, last);
    PrependEachTwo(y1, [z1], [z2]);
    PrependEachTwo(y2, [z1], [z2]);
    assert [y1] + [z1] == [y1, z1] && [y1] + [z2] == [y1, z2];
    assert [y2] + [z1] == [y2, z1] && [y2] + [z2] == [y2, z2];
    var middle := [[y1, z1], [y1, z2], [y2, z1], [y2, z2]];
    assert Product([[y1, y2], [z1, z2]]) == middle;
    ProductCons([x], [[y1, y2], [z1, z2]]);
    assert [[x]] + [[y1, y2], [z1, z2]] == [[x], [y1, y2], [z1, z2]];
    PrependAllSingle(x, middle);
    assert [x] + [y1, z1] == [x, y1, z1] && [x] + [y1, z2] == [x, y1, z2];
    assert [x] + [y2, z1] == [x, y2, z1] && [x] + [y2, z2] == [x, y2, z2];
  }

  /** The selections of windows one, two and three wide. */
  lemma SelectionsThreeByTwo(pl: seq<PerkValues>, wanted: Option<Gizmo>, x1: Prvpc, x2: Prvpc, x3: Prvpc, y1: Prvpc, y2: Prvpc)
    requires Windows(pl, wanted) == [[x1, x2, x3], [y1, y2]]
    ensures Selections(pl, wanted)
      == [ [x1.values, y1.values], [x1.values, y2.values], [x2.values, y1.values],
           [x2.values, y2.values], [x3.values, y1.values], [x3.values, y2.values] ]
  {
    ProductThreeByTwo(x1, x2, x3, y1, y2);
    var product := [[x1, y1], [x1, y2], [x2, y1], [x2, y2], [x3, y1], [x3, y2]];
    assert CartesianProduct(Windows(pl, wanted)) == product;
    var expected := [ [x1.values, y1.values], [x1.values, y2.values], [x2.values, y1.values],
                      [x2.values, y2.values], [x3.values, y1.values], [x3.values, y2.values] ];
    forall i | 0 <= i < 6 ensures Values(product[i]) == expected[i] {
      assert |Values(product[i])| == 2;
    }
  }

  lemma SelectionsOneByTwoByTwo(pl: seq<PerkValues>, wanted: Option<Gizmo>, x: Prvpc, y1: Prvpc, y2: Prvpc, z1: Prvpc, z2: Prvpc)
    requires Windows(pl, wanted) == [[x], [y1, y2], [z1, z2]]
    ensures Selections(pl, wanted)
      == [ [x.values, y1.values, z1.values], [x.values, y1.values, z2.values],
           [x.values, y2.values, z1.values], [x.values, y2.values, z2.values] ]
  {
    ProductOneByTwoByTwo(x, y1, y2, z1, z2);
    var product := [[x, y1, z1], [x, y1, z2], [x, y2, z1], [x, y2, z2]];
    assert CartesianProduct(Windows(pl, wanted)) == product;
    var expected := [ [x.values, y1.values, z1.values], [x.values, y1.values, z2.values],
                      [x.values, y2.values, z1.values], [x.values, y2.values, z2.values] ];
    forall i | 0 <= i < 4 ensures Values(product[i]) == expected[i] {
      assert |Values(product[i])| == 3;
    }
  }

  /** With nothing wanted, every rank above 0 within the slot budget is in its window. */
  lemma NoWantedWindows()
    ensures var pl := TwoPerkList();
      Windows(pl, None) == [[pl[0].ranks[1], pl[0].ranks[2], pl[0].ranks[3]], [pl[1].ranks[2], pl[1].ranks[3]]]
  {
    var pl := TwoPerkList();
    var ws := Windows(pl, None);
    assert ws[0] == pl[0].ranks[1..4] == [pl[0].ranks[1], pl[0].ranks[2], pl[0].ranks[3]];
    assert ws[1] == pl[1].ranks[2..4] == [pl[1].ranks[2], pl[1].ranks[3]];
  }

  lemma ExamplePermutateNoWanted()
    ensures var pl := TwoPerkList();
      Selections(pl, None) ==
        [ [pl[0].ranks[1].values, pl[1].ranks[2].values], [pl[0].ranks[1].values, pl[1].ranks[3].values],
          [pl[0].ranks[2].values, pl[1].ranks[2].values], [pl[0].ranks[2].values, pl[1].ranks[3].values],
          [pl[0].ranks[3].values, pl[1].ranks[2].values], [pl[0].ranks[3].values, pl[1].ranks[3].values] ]
  {
    var pl := TwoPerkList();
    NoWantedWindows();
    SelectionsThreeByTwo(pl, None, pl[0].ranks[1], pl[0].ranks[2], pl[0].ranks[3], pl[1].ranks[2], pl[1].ranks[3]);
  }

  /** With Precise 2 wanted, its window is that rank alone; the others keep their ranks above 0 within the slot budget. */
  lemma OneWantedWindows()
    ensures var pl := ThreePerkList();
      Windows(pl, Some(PreludePerk.Gizmo((Perk(Named("Precise"), 2), Perk(Empty, 0)))))
        == [[pl[0].ranks[2]], [pl[1].ranks[2], pl[1].ranks[3]], [pl[2].ranks[1], pl[2].ranks[2]]]
  {
    var pl := ThreePerkList();
    var ws := Windows(pl, Some(PreludePerk.Gizmo((Perk(Named("Precise"), 2), Perk(Empty, 0)))));
    assert ws[0] == [pl[0].ranks[2]];
    assert ws[1] == pl[1].ranks[2..4] == [pl[1].ranks[2], pl[1].ranks[3]];
    assert ws[2] == pl[2].ranks[1..3] == [pl[2].ranks[1], pl[2].ranks[2]];
  }

  lemma ExamplePermutateOneWanted()
    ensures var pl := ThreePerkList();
      Selections(pl, Some(PreludePerk.Gizmo((Perk(Named("Precise"), 2), Perk(Empty, 0))))) ==
        [ [pl[0].ranks[2].values, pl[1].ranks[2].values, pl[2].ranks[1].values],
          [pl[0].ranks[2].values, pl[1].ranks[2].values, pl[2].ranks[2].values],
          [pl[0].ranks[2].values, pl[1].ranks[3].values, pl[2].ranks[1].values],
          [pl[0].ranks[2].values, pl[1].ranks[3].values, pl[2].ranks[2].values] ]
  {
    var pl := ThreePerkList();
    OneWantedWindows();
    SelectionsOneByTwoByTwo(pl, Some(PreludePerk.Gizmo((Perk(Named("Precise"), 2), Perk(Empty, 0)))),
                            pl[0].ranks[2], pl[1].ranks[2], pl[1].ranks[3], pl[2].ranks[1], pl[2].ranks[2]);
  }
}
