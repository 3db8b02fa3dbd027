/** `Perk` of `src/definitions/perk.rs`: the older generation, whose name field is `perk`. */
module DefinitionsPerk {
  import opened Enums
  import opened Definitions

  datatype Perk = Perk(perk: PerkName, rank: nat)

  /** `Default for Perk`. */
  const DefaultPerk := Perk(Empty, 0)

  /** `PartialEq<PerkRankValues> for Perk`: perk and rank both match. */
  predicate EqualsRank(p: Perk, x: PerkRankValues)
  {
    p.perk == x.perk && p.rank == x.rank
  }

  /** `PartialEq<Perk> for PerkRankValues`: delegates with the operands swapped. */
  predicate RankEquals(x: PerkRankValues, p: Perk)
  {
    EqualsRank(p, x)
  }

  /** `From<&PerkRankValues> for Perk`. */
  function FromRank(x: PerkRankValues): (p: Perk)
    ensures EqualsRank(p, x)
  {
    Perk(x.perk, x.rank)
  }

  predicate IsEmpty(p: Perk)
  {
    p.perk == Empty
  }

  /** A perk equals a rank row exactly when it is the perk converted from that row. */
  lemma EqualsRankIsFrom(p: Perk, x: PerkRankValues)
    ensures EqualsRank(p, x) <==> p == FromRank(x)
  {
  }

  /** The cross-type equality is symmetric. */
  lemma CrossEqualitySymmetric(p: Perk, x: PerkRankValues)
    ensures EqualsRank(p, x) <==> RankEquals(x, p)
  {
  }

  /** The default perk is empty, and a perk is empty exactly when its name is. */
  lemma DefaultIsEmpty()
    ensures IsEmpty(DefaultPerk)
    ensures forall p :: IsEmpty(p) <==> p.perk == Empty
  {
  }
}
