/**
 * `Gizmo` of `src/definitions/gizmo.rs`: a perk pair with a total cost. The
 * probability field is a float the core only ever sets to 0.
 */
module DefinitionsGizmo {
  import opened Wrappers
  import Enums
  import opened Definitions
  import opened DefinitionsPerk

  datatype Gizmo = Gizmo(perks: (Perk, Perk), cost: int, probability: real)

  /** `Default for Gizmo`: empty perks, cost 0, probability 0. */
  const DefaultGizmo := Gizmo((DefaultPerk, DefaultPerk), 0, 0.0)

  /** `Gizmo::eq`: the same perk pair in the same or in swapped order; cost does not matter. */
  predicate Eq(a: Gizmo, b: Gizmo)
  {
    (a.perks.0 == b.perks.0 && a.perks.1 == b.perks.1)
    || (a.perks.1 == b.perks.0 && a.perks.0 == b.perks.1)
  }

  /** `Gizmo::fuzzy_eq`: the other gizmo's first perk is one of this gizmo's perks. */
  predicate FuzzyEq(a: Gizmo, b: Gizmo)
  {
    a.perks.0 == b.perks.0 || a.perks.1 == b.perks.0
  }

  /** `Gizmo::create`: the first perk from `x`, the second from `y` or empty, the summed cost. */
  function Create(x: PerkRankValues, y: Option<PerkRankValues>): (g: Gizmo)
    ensures EqualsRank(g.perks.0, x)
    ensures y.Some? ==> EqualsRank(g.perks.1, y.value)
    ensures y.None? ==> g.perks.1 == DefaultPerk
    ensures g.cost == x.cost + (if y.Some? then y.value.cost else 0)
    ensures g.probability == 0.0
  {
    Gizmo(
      (Perk(x.perk, x.rank), match y case Some(v) => Perk(v.perk, v.rank) case None => DefaultPerk),
      x.cost + (match y case Some(v) => v.cost case None => 0),
      0.0)
  }

  /** `Gizmo::create_from_doubleslot`: the second perk stays empty, yet `y`'s cost is still added. */
  function CreateFromDoubleslot(x: PerkRankValues, y: Option<PerkRankValues>): (g: Gizmo)
    ensures EqualsRank(g.perks.0, x) && IsEmpty(g.perks.1)
    ensures g.cost == x.cost + (if y.Some? then y.value.cost else 0)
    ensures g.probability == 0.0
  {
    Gizmo((FromRank(x), DefaultPerk), x.cost + (match y case Some(v) => v.cost case None => 0), 0.0)
  }

  /** `Gizmo::eq` holds exactly when the perk pairs are equal as unordered pairs. */
  lemma EqIsUnorderedPairEquality(a: Gizmo, b: Gizmo)
    ensures Eq(a, b) <==> multiset{a.perks.0, a.perks.1} == multiset{b.perks.0, b.perks.1}
  {
    var ma, mb := multiset{a.perks.0, a.perks.1}, multiset{b.perks.0, b.perks.1};
    if ma == mb {
      assert a.perks.0 in mb;
      if a.perks.0 == b.perks.0 {
        assert ma - multiset{a.perks.0} == mb - multiset{b.perks.0};
        assert a.perks.1 == b.perks.1 by {
          assert multiset{a.perks.1} == multiset{b.perks.1};
          assert a.perks.1 in multiset{b.perks.1};
        }
      } else {
        assert a.perks.0 == b.perks.1;
        assert ma - multiset{a.perks.0} == mb - multiset{b.perks.1};
        assert a.perks.1 in multiset{b.perks.0};
      }
    }
  }

  lemma EqSymmetric(a: Gizmo, b: Gizmo)
    ensures Eq(a, b) <==> Eq(b, a)
  {
  }

  /**
   * Equal names are not enough: when the names match slot by slot, or crosswise,
   * `eq` holds exactly when the ranks match the same way, so a different rank in
   * either slot breaks it, whatever the order.
   */
  lemma EqNeedsRanks(a: Gizmo, b: Gizmo)
    ensures a.perks.0.perk != a.perks.1.perk && a.perks.0.perk == b.perks.0.perk && a.perks.1.perk == b.perks.1.perk
      ==> (Eq(a, b) <==> a.perks.0.rank == b.perks.0.rank && a.perks.1.rank == b.perks.1.rank)
    ensures a.perks.0.perk != a.perks.1.perk && a.perks.0.perk == b.perks.1.perk && a.perks.1.perk == b.perks.0.perk
      ==> (Eq(a, b) <==> a.perks.0.rank == b.perks.1.rank && a.perks.1.rank == b.perks.0.rank)
  {
  }

  /** A gizmo is fuzzily equal to any gizmo it is equal to. */
  lemma EqImpliesFuzzy(a: Gizmo, b: Gizmo)
    requires Eq(a, b)
    ensures FuzzyEq(a, b)
  {
  }

  /** `create` and `create_from_doubleslot` agree on everything but the second perk. */
  lemma CreateVariantsAgree(x: PerkRankValues, y: Option<PerkRankValues>)
    ensures Create(x, y).perks.0 == CreateFromDoubleslot(x, y).perks.0
    ensures Create(x, y).cost == CreateFromDoubleslot(x, y).cost
    ensures y.None? ==> Create(x, y) == CreateFromDoubleslot(x, y)
  {
  }

  /** The gizmo of the tests: the two perks, everything else `Default::default()`. */
  function TwoPerks(a: Perk, b: Perk): Gizmo
  {
    DefaultGizmo.(perks := (a, b))
  }

  /** The ten test vectors of `src/definitions/gizmo.rs`, one clause per test in source order. */
  lemma Examples()
    ensures var precise1, precise2 := Perk(Enums.Named("Precise"), 1), Perk(Enums.Named("Precise"), 2);
      var biting1, biting2, biting3 := Perk(Enums.Named("Biting"), 1), Perk(Enums.Named("Biting"), 2), Perk(Enums.Named("Biting"), 3);
      var equilibrium1 := Perk(Enums.Named("Equilibrium"), 1);
      && Eq(TwoPerks(precise1, DefaultPerk), TwoPerks(precise1, DefaultPerk))
      && !Eq(TwoPerks(precise1, DefaultPerk), TwoPerks(biting1, DefaultPerk))
      && !Eq(TwoPerks(precise1, DefaultPerk), TwoPerks(precise2, DefaultPerk))
      && Eq(TwoPerks(precise1, biting2), TwoPerks(precise1, biting2))
      && Eq(TwoPerks(precise1, biting2), TwoPerks(biting2, precise1))
      && !Eq(TwoPerks(precise1, biting2), TwoPerks(precise1, biting3))
      && !Eq(TwoPerks(precise1, biting2), TwoPerks(equilibrium1, biting2))
      && FuzzyEq(TwoPerks(precise1, biting2), TwoPerks(precise1, DefaultPerk))
      && FuzzyEq(TwoPerks(biting2, precise1), TwoPerks(precise1, DefaultPerk))
      && !FuzzyEq(TwoPerks(biting2, precise1), TwoPerks(precise2, DefaultPerk))
  {
  }
}
