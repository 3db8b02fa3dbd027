/**
 * `Perk` of `src/prelude/perk.rs`: a perk name and a rank, comparable with a
 * catalogue `PerkRankValues` row. The wanted gizmo of the solver is the pair
 * of such perks (`src/prelude/gizmo.rs` is not part of this model; only
 * its perk pair is used).
 */
module PreludePerk {
  import opened Enums
  import opened PreludeData

  datatype Perk = Perk(name: PerkName, rank: nat)

  /** `Default for Perk`. */
  const DefaultPerk := Perk(Empty, 0)

  datatype Gizmo = Gizmo(perks: (Perk, Perk))

  /** `PartialEq<PerkRankValues> for Perk`: name and rank both match. */
  predicate EqualsRank(p: Perk, x: PerkRankValues)
  {
    p.name == x.name && p.rank == x.rank
  }

  /** `PartialEq<Perk> for PerkRankValues`: delegates with the operands swapped. */
  predicate RankEquals(x: PerkRankValues, p: Perk)
  {
    EqualsRank(p, x)
  }

  /** `From<&PerkRankValues> for Perk`. */
  function FromRank(x: PerkRankValues): (p: Perk)
    ensures EqualsRank(p, x)
  {
    Perk(x.name, x.rank)
  }

  predicate IsEmpty(p: Perk)
  {
    p.name == Empty
  }

  /** A perk equals a rank row exactly when it is the perk converted from that row. */
  lemma EqualsRankIsFrom(p: Perk, x: PerkRankValues)
    ensures EqualsRank(p, x) <==> p == FromRank(x)
  {
  }

  /** The cross-type equality is symmetric. */
  lemma CrossEqualitySymmetric(p: Perk, x: PerkRankValues)
    ensures EqualsRank(p, x) <==> RankEquals(x, p)
  {
  }

  /** Changing either the name or the rank of the row breaks the equality. */
  lemma EqualsRankNeedsBoth(p: Perk, x: PerkRankValues)
    requires EqualsRank(p, x)
    ensures forall n :: n != x.name ==> !EqualsRank(p, x.(name := n))
    ensures forall r :: r != x.rank ==> !EqualsRank(p, x.(rank := r))
  {
  }

  /** The default perk is empty, and a perk is empty exactly when its name is. */
  lemma DefaultIsEmpty()
    ensures IsEmpty(DefaultPerk)
    ensures forall p :: IsEmpty(p) <==> p.name == Empty
  {
  }
}
