/**
 * The catalogue record types of `src/prelude/data/prelude.rs` and the solver
 * records of `src/prelude.rs` (the newer generation, whose perk field is
 * `name`). The fixed-capacity `StackVec` fields are sequences here; the
 * capacities are stated by `WellFormed`. Probabilities are carried as `real`
 * values and never computed with.
 */
module PreludeData {
  import opened Enums
  import opened MaterialNames

  datatype PerkRankValues = PerkRankValues(
    name: PerkName,
    rank: nat,
    cost: nat,
    threshold: nat,
    ancientOnly: bool,
    doubleslot: bool)

  /** `Default for PerkRankValues`: the Empty name, every number 0, every flag false. */
  const DefaultPerkRankValues := PerkRankValues(Empty, 0, 0, 0, false, false)

  datatype ComponentValues = ComponentValues(perk: PerkName, base: nat, roll: nat)

  /** `Default for ComponentValues`. */
  const DefaultComponentValues := ComponentValues(Empty, 0, 0)

  datatype CompPerksPerGizmoType = CompPerksPerGizmoType(
    ancientOnly: bool,
    weapon: seq<ComponentValues>,
    armour: seq<ComponentValues>,
    tool: seq<ComponentValues>)

  /** `Default for CompPerksPerGizmoType`: not ancient-only, three empty lists. */
  const DefaultCompPerks := CompPerksPerGizmoType(false, [], [], [])

  /** `Index<GizmoType> for CompPerksPerGizmoType`. */
  function Components(c: CompPerksPerGizmoType, t: GizmoType): (r: seq<ComponentValues>)
    ensures t == Weapon ==> r == c.weapon
    ensures t == Armour ==> r == c.armour
    ensures t == Tool ==> r == c.tool
  {
    match t
    case Armour => c.armour
    case Tool => c.tool
    case Weapon => c.weapon
  }

  /**
   * Each gizmo type reads its own list and nothing else: replacing one type's
   * list shows up at that type only, the ancient-only flag never matters, and
   * a value holding three different lists gives three different answers.
   */
  lemma ComponentsOwnList(c: CompPerksPerGizmoType, t: GizmoType, l: seq<ComponentValues>, b: bool)
    ensures Components(c.(weapon := l), t) == if t == Weapon then l else Components(c, t)
    ensures Components(c.(armour := l), t) == if t == Armour then l else Components(c, t)
    ensures Components(c.(tool := l), t) == if t == Tool then l else Components(c, t)
    ensures Components(c.(ancientOnly := b), t) == Components(c, t)
    ensures c.weapon != c.armour && c.armour != c.tool && c.weapon != c.tool
      ==> forall u :: Components(c, u) == Components(c, t) ==> u == t
  {
  }

  datatype PerkRanksData = PerkRanksData(doubleslot: bool, ranks: seq<PerkRankValues>)

  /** `Default for PerkRanksData`: no ranks, not doubleslot. */
  const DefaultPerkRanksData := PerkRanksData(false, [])

  /** The catalogue: component values per material, rank tables per perk. */
  datatype Data = Data(comps: MaterialName -> CompPerksPerGizmoType, perks: PerkName -> PerkRanksData)

  /** A rank table as the catalogue holds it: rank 0 first and at most 6 further ranks. */
  ghost predicate WellFormedRanks(d: PerkRanksData)
  {
    1 <= |d.ranks| <= 7 && d.ranks[0].rank == 0
  }

  ghost predicate WellFormedComps(c: CompPerksPerGizmoType)
  {
    |c.weapon| <= 7 && |c.armour| <= 7 && |c.tool| <= 7
  }

  ghost predicate WellFormed(data: Data)
  {
    (forall p :: WellFormedRanks(data.perks(p)))
    && (forall m :: WellFormedComps(data.comps(m)))
  }

  /** `PerkRankValuesProbabilityContainer`. */
  datatype Prvpc = Prvpc(values: PerkRankValues, probability: real)

  datatype RankCombination = RankCombination(ranks: seq<PerkRankValues>, probability: real)

  datatype PerkValues = PerkValues(
    name: PerkName,
    base: nat,
    rolls: seq<nat>,
    doubleslot: bool,
    ranks: seq<Prvpc>,
    iFirst: nat,
    iLast: nat)

  datatype PartialPerkValues = PartialPerkValues(name: PerkName, base: nat, rolls: seq<nat>)

  datatype SplitMaterials = SplitMaterials(conflict: seq<MaterialName>, noConflict: seq<MaterialName>)
}
