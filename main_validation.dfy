/**
 * The command-line front end of `src/main.rs`: turning the parsed arguments
 * into the wanted gizmo, and validating it against the catalogue and the
 * invention level bounds. Every `print_error` (which ends the process) is an
 * `Err` carrying the message. Perk-name parsing and display are derived code
 * outside this model and come in as the parameters `parse` and `show`.
 */
module CliValidation {
  import opened Wrappers
  import opened Enums
  import opened Strings
  import opened Definitions

  function UnknownPerk(name: string): string
  {
    "Perk '" + name + "' does not exist."
  }

  function UsesBothSlots(name: string): string
  {
    "Perk '" + name + "' can't be combined with another perk as it uses both slots."
  }

  function RankTooHigh(name: string, maxRank: nat): string
  {
    "Perk '" + name + "' only goes up to rank " + Decimal(maxRank) + "."
  }

  const LevelBounds := "Invention level must be between 1 and 137."
  const LevelOrder := "First value of the invention level range must be lower or equal to the second value."

  const MinLevel := 1
  const MaxLevel := 137

  /**
   * `process_wanted_gizmo`: both perk names must parse; an absent second perk
   * is Empty with rank 0; each perk's doubleslot flag comes from the catalogue,
   * except that Empty is never doubleslot.
   */
  function ProcessWantedGizmo(args: Args, data: Data, parse: string -> Option<PerkName>): (r: Result<WantedGizmo, string>)
    ensures parse(args.perk).None? ==> r == Err(UnknownPerk(args.perk))
    ensures parse(args.perk).Some? && args.perkTwo.Some? && parse(args.perkTwo.value).None?
      ==> r == Err(UnknownPerk(args.perkTwo.value))
    ensures r.Ok? <==> parse(args.perk).Some? && (args.perkTwo.Some? ==> parse(args.perkTwo.value).Some?)
    ensures r.Ok? ==> var p1 := parse(args.perk).value;
      r.value.first == WantedPerk(p1, args.rank, data.perks(p1).doubleslot)
    ensures r.Ok? && args.perkTwo.None? ==> r.value.second == WantedPerk(Empty, 0, false)
    ensures r.Ok? && args.perkTwo.Some? ==> var p2 := parse(args.perkTwo.value).value;
      r.value.second == WantedPerk(p2, args.rankTwo, p2 != Empty && data.perks(p2).doubleslot)
  {
    match parse(args.perk)
    case None => Err(UnknownPerk(args.perk))
    case Some(perkOne) =>
      var second :=
        match args.perkTwo
        case None => Ok(Empty)
        case Some(name) =>
          (match parse(name)
           case None => Err(UnknownPerk(name))
           case Some(p) => Ok(p));
      match second
      case Err(e) => Err(e)
      case Ok(perkTwo) =>
        Ok(WantedGizmo(
          WantedPerk(perkOne, args.rank, data.perks(perkOne).doubleslot),
          WantedPerk(perkTwo,
                     if args.perkTwo.Some? then args.rankTwo else 0,
                     if perkTwo != Empty then data.perks(perkTwo).doubleslot else false)))
  }

  /** The level check: a single level within 1..=137, or an ordered pair both within it. */
  predicate LevelsValid(levels: seq<nat>)
    requires |levels| >= 1
  {
    if |levels| == 1 then MinLevel <= levels[0] <= MaxLevel
    else levels[0] <= levels[1] && MinLevel <= levels[0] <= MaxLevel && MinLevel <= levels[1] <= MaxLevel
  }

  /**
   * The `match` on the invention levels. The argument parser guarantees at
   * least one level. For a range only the first two values are looked at, and
   * a reversed pair is reported before the bounds.
   */
  function ValidateLevels(levels: seq<nat>): (r: Result<(), string>)
    requires |levels| >= 1
    ensures r.Ok? <==> LevelsValid(levels)
    ensures r.Err? && |levels| >= 2 && levels[0] > levels[1] ==> r.error == LevelOrder
    ensures r.Err? && (|levels| == 1 || levels[0] <= levels[1]) ==> r.error == LevelBounds
  {
    if |levels| == 1 then
      if MinLevel <= levels[0] <= MaxLevel then Ok(()) else Err(LevelBounds)
    else if levels[0] > levels[1] then Err(LevelOrder)
    else if MinLevel <= levels[0] <= MaxLevel && MinLevel <= levels[1] <= MaxLevel then Ok(())
    else Err(LevelBounds)
  }

  /** A wanted gizmo the search accepts: no doubleslot pairing, and each non-Empty rank in its table. */
  ghost predicate GizmoValid(wanted: WantedGizmo, data: Data)
  {
    !(wanted.first.doubleslot && wanted.second.perk != Empty)
    && !wanted.second.doubleslot
    && wanted.first.rank < |data.perks(wanted.first.perk).ranks|
    && (wanted.second.perk != Empty ==> wanted.second.rank < |data.perks(wanted.second.perk).ranks|)
  }

  /**
   * `validate_input`: the checks in source order, the first failing one
   * deciding the message. The "only goes up to rank" message names the last
   * rank of the table, which the well-formed catalogue never leaves empty.
   */
  function ValidateInput(args: Args, wanted: WantedGizmo, data: Data, show: PerkName -> string): (r: Result<(), string>)
    requires |args.inventionLevel| >= 1
    requires WellFormed(data)
    ensures r.Ok? <==> GizmoValid(wanted, data) && LevelsValid(args.inventionLevel)
    ensures wanted.first.doubleslot && wanted.second.perk != Empty ==> r == Err(UsesBothSlots(show(wanted.first.perk)))
    ensures !(wanted.first.doubleslot && wanted.second.perk != Empty) && wanted.second.doubleslot
      ==> r == Err(UsesBothSlots(show(wanted.second.perk)))
    ensures !(wanted.first.doubleslot && wanted.second.perk != Empty) && !wanted.second.doubleslot
      && wanted.first.rank >= |data.perks(wanted.first.perk).ranks|
      ==> r == Err(RankTooHigh(show(wanted.first.perk), |data.perks(wanted.first.perk).ranks| - 1))
    ensures !(wanted.first.doubleslot && wanted.second.perk != Empty) && !wanted.second.doubleslot
      && wanted.first.rank < |data.perks(wanted.first.perk).ranks|
      && wanted.second.perk != Empty && wanted.second.rank >= |data.perks(wanted.second.perk).ranks|
      ==> r == Err(RankTooHigh(show(wanted.second.perk), |data.perks(wanted.second.perk).ranks| - 1))
    ensures GizmoValid(wanted, data) ==> r == ValidateLevels(args.inventionLevel)
  {
    var ranksOne := |data.perks(wanted.first.perk).ranks|;
    var ranksTwo := |data.perks(wanted.second.perk).ranks|;
    if wanted.first.doubleslot && wanted.second.perk != Empty then Err(UsesBothSlots(show(wanted.first.perk)))
    else if wanted.second.doubleslot then Err(UsesBothSlots(show(wanted.second.perk)))
    else if wanted.first.rank >= ranksOne then Err(RankTooHigh(show(wanted.first.perk), ranksOne - 1))
    else if wanted.second.perk != Empty && wanted.second.rank >= ranksTwo then
      Err(RankTooHigh(show(wanted.second.perk), ranksTwo - 1))
    else ValidateLevels(args.inventionLevel)
  }

  /** A validated range is ordered, so the search can walk it from the first value to the second. */
  lemma ValidRangeOrdered(levels: seq<nat>)
    requires |levels| >= 2 && ValidateLevels(levels).Ok?
    ensures MinLevel <= levels[0] <= levels[1] <= MaxLevel
  {
  }

  /** Values after the first two never matter. */
  lemma LevelsBeyondSecondIgnored(levels: seq<nat>, extra: seq<nat>)
    requires |levels| >= 2
    ensures ValidateLevels(levels + extra) == ValidateLevels(levels)
  {
    assert (levels + extra)[0] == levels[0] && (levels + extra)[1] == levels[1];
  }
}
