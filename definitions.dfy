/**
 * The older record generation of `src/definitions.rs`, used by the
 * command-line solver (`src/lib.rs`, `src/main.rs`) and by
 * `src/gizmo_cost_thresholds.rs`. Here a rank row names its perk in a field
 * called `perk`. The catalogue module `src/definitions/data.rs` is not part of
 * this model: its rank row, rank table, catalogue and wanted-gizmo records are
 * declared below with the fields the core reads, and the component lists are
 * the newer generation's, which have the same shape.
 */
module Definitions {
  import opened Wrappers
  import opened Enums
  import opened Seqs
  import opened MaterialNames
  import PreludeData

  datatype PerkRankValues = PerkRankValues(perk: PerkName, rank: nat, cost: nat, doubleslot: bool)

  datatype PerkRanksData = PerkRanksData(doubleslot: bool, ranks: seq<PerkRankValues>)

  /** The catalogue: component values per material, rank tables per perk. */
  datatype Data = Data(comps: MaterialName -> PreludeData.CompPerksPerGizmoType, perks: PerkName -> PerkRanksData)

  ghost predicate WellFormed(data: Data)
  {
    forall p :: 1 <= |data.perks(p).ranks| <= 7 && data.perks(p).ranks[0].rank == 0
  }

  /** One requested perk: its name, rank and whether it uses both slots. */
  datatype WantedPerk = WantedPerk(perk: PerkName, rank: nat, doubleslot: bool)

  datatype WantedGizmo = WantedGizmo(first: WantedPerk, second: WantedPerk)

  /** `Args` of `src/definitions/args.rs`, as the command line gives it. */
  datatype Args = Args(
    inventionLevel: seq<nat>,
    gizmoType: GizmoType,
    ancient: bool,
    perk: string,
    rank: nat,
    perkTwo: Option<string>,
    rankTwo: nat,
    fuzzy: bool,
    exclude: seq<string>,
    sortType: SortType)

  /** `PerkRankValuesProbabilityContainer`. */
  datatype Prvpc = Prvpc(values: PerkRankValues, probability: real)

  datatype RankCombination = RankCombination(ranks: seq<PerkRankValues>, probability: real)

  datatype PerkValues = PerkValues(
    name: PerkName,
    base: nat,
    rolls: seq<nat>,
    doubleslot: bool,
    ranks: seq<Prvpc>,
    iFirst: nat,
    iLast: nat)

  /** `Default for PerkValues`. */
  const DefaultPerkValues := PerkValues(Empty, 0, [], false, [], 0, 0)

  /**
   * `PerkValues::iter_ranks`: `skip(i_first).take(i_last - i_first + 1)`. The
   * `usize` subtraction underflows unless `i_first <= i_last`.
   */
  function IterRanks(pv: PerkValues): (r: seq<Prvpc>)
    requires pv.iFirst <= pv.iLast
    ensures r == pv.ranks[Min(pv.iFirst, |pv.ranks|)..Min(pv.iLast + 1, |pv.ranks|)]
  {
    TakeSkip(pv.ranks, pv.iFirst, pv.iLast + 1);
    Take(Skip(pv.ranks, pv.iFirst), pv.iLast - pv.iFirst + 1)
  }

  /** `PerkValues::iter_ranks_no_zero`: the same window started at 1 at the earliest. */
  function IterRanksNoZero(pv: PerkValues): (r: seq<Prvpc>)
    requires (if pv.iFirst < 1 then 1 else pv.iFirst) <= pv.iLast
    ensures var start := if pv.iFirst < 1 then 1 else pv.iFirst;
            r == pv.ranks[Min(start, |pv.ranks|)..Min(pv.iLast + 1, |pv.ranks|)]
  {
    var start := if pv.iFirst < 1 then 1 else pv.iFirst;
    TakeSkip(pv.ranks, start, pv.iLast + 1);
    Take(Skip(pv.ranks, start), pv.iLast - start + 1)
  }

  /** The no-zero window never yields the rank at index 0, and is the plain window without it. */
  lemma NoZeroSkipsRankZero(pv: PerkValues)
    requires 1 <= pv.iLast && pv.iFirst <= pv.iLast
    ensures |pv.ranks| > 0 ==> forall k :: 0 <= k < |IterRanksNoZero(pv)| ==> IterRanksNoZero(pv)[k] == pv.ranks[k + Max(1, pv.iFirst)]
    ensures pv.iFirst == 0 && |pv.ranks| > 0 ==> IterRanks(pv) == [pv.ranks[0]] + IterRanksNoZero(pv)
    ensures pv.iFirst >= 1 ==> IterRanks(pv) == IterRanksNoZero(pv)
  {
  }

  /** The default has the Empty name, no rolls or ranks, and a window at 0 that yields nothing. */
  lemma DefaultPerkValuesEmpty()
    ensures DefaultPerkValues.name == Empty && IterRanks(DefaultPerkValues) == []
  {
  }
}
