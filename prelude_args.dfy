/**
 * `Args::create` and `Args::default` of `src/prelude/args.rs`: normalising the
 * parsed command line into the solver's settings. Perk-name parsing is
 * derived code outside this model and comes in as the parameter `parse`.
 */
module PreludeArgs {
  import opened Wrappers
  import opened Enums
  import opened Strings
  import opened MaterialNames

  /** The `Commands` sub-commands; `Gizmo` is called `GizmoCommand` here to keep it apart from the sort type. */
  datatype Commands =
    | GizmoCommand(
        perk: string,
        rank: nat,
        perkTwo: Option<string>,
        rankTwo: nat,
        fuzzy: bool,
        exclude: seq<string>,
        sortType: SortType,
        outFile: string,
        priceFile: string,
        altCount: nat,
        limitCpu: bool)
    | MaterialInput(mats: seq<string>)

  datatype Cli = Cli(gizmoType: GizmoType, inventionLevel: seq<nat>, ancient: bool, command: Commands)

  datatype InventionLevel = Single(level: nat) | Range(low: nat, high: nat)

  datatype Args = Args(
    inventionLevel: InventionLevel,
    gizmoType: GizmoType,
    ancient: bool,
    perk: PerkName,
    rank: nat,
    perkTwo: PerkName,
    rankTwo: nat,
    fuzzy: bool,
    exclude: seq<MaterialName>,
    sortType: SortType,
    outFile: Option<string>,
    priceFile: Option<string>,
    resultDepth: nat,
    limitCpu: bool)

  /** `Default for Args`. */
  const DefaultArgs := Args(Single(1), Weapon, false, Empty, 0, Empty, 0, false, [], Price,
                            Some("out.csv"), Some("prices.txt"), 1, false)

  function UnknownPerk(name: string): string
  {
    "Perk '" + name + "' does not exist."
  }

  /** One or two levels: a single level, or the range of the first two values. */
  function Levels(levels: seq<nat>): (r: Result<InventionLevel, string>)
    ensures |levels| == 0 <==> r == Err("Missing invention level")
    ensures |levels| == 1 ==> r == Ok(Single(levels[0]))
    ensures |levels| >= 2 ==> r == Ok(Range(levels[0], levels[1]))
  {
    if |levels| == 0 then Err("Missing invention level")
    else if |levels| == 1 then Ok(Single(levels[0]))
    else Ok(Range(levels[0], levels[1]))
  }

  /**
   * Read back from the result: a single level is the only value given, a range
   * is the first two values given, and an error means none was given; values
   * after the second never matter.
   */
  lemma LevelsFromInput(levels: seq<nat>, extra: seq<nat>)
    ensures Levels(levels).Err? ==> levels == []
    ensures Levels(levels).Ok? && Levels(levels).value.Single? ==> levels == [Levels(levels).value.level]
    ensures Levels(levels).Ok? && Levels(levels).value.Range?
      ==> |levels| >= 2 && levels[..2] == [Levels(levels).value.low, Levels(levels).value.high]
    ensures |levels| >= 2 ==> Levels(levels + extra) == Levels(levels)
  {
    if |levels| >= 2 {
      assert (levels + extra)[0] == levels[0] && (levels + extra)[1] == levels[1];
    }
  }

  /** The second perk: absent is Empty, "any" in any case is Empty (and fuzzy), anything else must parse. */
  function PerkTwo(perkTwo: Option<string>, parse: string -> Option<PerkName>): (r: Result<PerkName, string>)
    ensures r.Ok? <==> perkTwo.None? || IsAny(perkTwo) || parse(perkTwo.value).Some?
    ensures r.Err? ==> r == Err(UnknownPerk(perkTwo.value))
    ensures r.Ok? && perkTwo.Some? && !IsAny(perkTwo) ==> Some(r.value) == parse(perkTwo.value)
  {
    match perkTwo
    case None => Ok(Empty)
    case Some(name) =>
      if ToLower(name) == "any" then Ok(Empty)
      else match parse(name)
        case None => Err(UnknownPerk(name))
        case Some(p) => Ok(p)
  }

  predicate IsAny(perkTwo: Option<string>)
  {
    perkTwo.Some? && ToLower(perkTwo.value) == "any"
  }

  /** The lower-cased name of `m` contains `x` as given. */
  predicate NameContains(m: MaterialName, x: string)
  {
    Contains(ToLower(Name(m)), x)
  }

  /** The materials an exclude entry names, in declaration order. */
  function Matching(x: string): seq<MaterialName>
  {
    InOrder(m => NameContains(m, x), MaterialCount)
  }

  /** The expansions `expand(x)` of the non-empty entries `x`, concatenated in entry order. */
  function ExpandWith(exclude: seq<string>, expand: string -> seq<MaterialName>): seq<MaterialName>
    decreases |exclude|
  {
    if exclude == [] then []
    else
      var x := exclude[|exclude| - 1];
      ExpandWith(exclude[..|exclude| - 1], expand) + (if x == "" then [] else expand(x))
  }

  /**
   * The exclude expansion: empty entries are dropped, every other entry
   * expands to its matching materials in declaration order (an entry matching
   * nothing only warns and adds nothing), and the expansions are concatenated.
   */
  function ExpandExclude(exclude: seq<string>): seq<MaterialName>
  {
    ExpandWith(exclude, Matching)
  }

  /** A file name of "false" switches the file off. */
  function FileOption(name: string): (r: Option<string>)
    ensures name == "false" <==> r.None?
    ensures r.Some? ==> r.value == name
  {
    if name == "false" then None else Some(name)
  }

  /**
   * Writing a switched-off file back as "false" gives the name that was read:
   * the setting loses nothing, and every setting other than a file literally
   * named "false" arises from exactly one name.
   */
  lemma FileOptionRoundTrip(name: string, o: Option<string>)
    ensures (if FileOption(name).Some? then FileOption(name).value else "false") == name
    ensures o != Some("false") ==> FileOption(if o.Some? then o.value else "false") == o
  {
  }

  /**
   * `Args::create`: the checks in source order (levels, then perk one, then
   * perk two), each failure an `Err`; on success the normalised settings.
   */
  function ArgsCreate(cli: Cli, parse: string -> Option<PerkName>): (r: Result<Args, string>)
    ensures !cli.command.GizmoCommand? ==> r == Err("Bad command")
    ensures cli.command.GizmoCommand? && |cli.inventionLevel| == 0 ==> r == Err("Missing invention level")
    ensures cli.command.GizmoCommand? && |cli.inventionLevel| > 0 && parse(cli.command.perk).None?
      ==> r == Err(UnknownPerk(cli.command.perk))
    ensures cli.command.GizmoCommand? && |cli.inventionLevel| > 0 && parse(cli.command.perk).Some?
      && cli.command.perkTwo.Some? && !IsAny(cli.command.perkTwo) && parse(cli.command.perkTwo.value).None?
      ==> r == Err(UnknownPerk(cli.command.perkTwo.value))
    ensures r.Ok? <==> (cli.command.GizmoCommand? && |cli.inventionLevel| > 0 && parse(cli.command.perk).Some?
      && (cli.command.perkTwo.None? || IsAny(cli.command.perkTwo) || parse(cli.command.perkTwo.value).Some?))
    ensures r.Ok? ==> cli.command.GizmoCommand? && Levels(cli.inventionLevel) == Ok(r.value.inventionLevel)
    ensures r.Ok? ==> Some(r.value.perk) == parse(cli.command.perk) && r.value.rank == cli.command.rank
    ensures r.Ok? ==> Ok(r.value.perkTwo) == PerkTwo(cli.command.perkTwo, parse)
    ensures r.Ok? && IsAny(cli.command.perkTwo) ==> r.value.perkTwo == Empty && r.value.fuzzy
    ensures r.Ok? && !IsAny(cli.command.perkTwo) ==> r.value.fuzzy == cli.command.fuzzy
    ensures r.Ok? ==> r.value.rankTwo == if r.value.perkTwo == Empty then 0 else cli.command.rankTwo
    ensures r.Ok? ==> r.value.exclude == ExpandExclude(cli.command.exclude)
    ensures r.Ok? ==> (r.value.outFile == FileOption(cli.command.outFile)
      && r.value.priceFile == FileOption(cli.command.priceFile))
    ensures r.Ok? ==> r.value.resultDepth == cli.command.altCount + 1
    ensures r.Ok? ==> (r.value.gizmoType == cli.gizmoType && r.value.ancient == cli.ancient
      && r.value.sortType == cli.command.sortType && r.value.limitCpu == cli.command.limitCpu)
  {
    match cli.command
    case MaterialInput(_) => Err("Bad command")
    case GizmoCommand(perk, rank, perkTwo, rankTwo, fuzzy, exclude, sortType, outFile, priceFile, altCount, limitCpu) =>
      match Levels(cli.inventionLevel)
      case Err(e) => Err(e)
      case Ok(inventionLevel) =>
        match parse(perk)
        case None => Err(UnknownPerk(perk))
        case Some(perkOne) =>
          match PerkTwo(perkTwo, parse)
          case Err(e) => Err(e)
          case Ok(second) =>
            Ok(Args(
              inventionLevel, cli.gizmoType, cli.ancient, perkOne, rank, second,
              if second == Empty then 0 else rankTwo,
              fuzzy || IsAny(perkTwo),
              ExpandExclude(exclude), sortType, FileOption(outFile), FileOption(priceFile),
              altCount + 1, limitCpu))
  }

  lemma MatchingMembers(x: string, m: MaterialName)
    ensures m in Matching(x) <==> NameContains(m, x)
  {
    InOrderAllMembers(m => NameContains(m, x), m);
  }

  lemma {:induction false} ExpandWithMembers(exclude: seq<string>, expand: string -> seq<MaterialName>, m: MaterialName)
    ensures m in ExpandWith(exclude, expand) <==> exists x :: x in exclude && x != "" && m in expand(x)
    decreases |exclude|
  {
    if exclude != [] {
      var init := exclude[..|exclude| - 1];
      var x := exclude[|exclude| - 1];
      ExpandWithMembers(init, expand, m);
      assert exclude == init + [x];
      if exists y :: y in exclude && y != "" && m in expand(y) {
        var y :| y in exclude && y != "" && m in expand(y);
        assert y in init || y == x;
      }
    }
  }

  /** A material is excluded exactly when some non-empty entry occurs in its lower-cased name. */
  lemma ExpandExcludeMembers(exclude: seq<string>, m: MaterialName)
    ensures m in ExpandExclude(exclude) <==> exists x :: x in exclude && x != "" && NameContains(m, x)
  {
    ExpandWithMembers(exclude, Matching, m);
    forall x ensures m in Matching(x) <==> NameContains(m, x) {
      MatchingMembers(x, m);
    }
  }

  /** Each entry's expansion lists its matches once each, in declaration order. */
  lemma MatchingIncreasing(x: string)
    ensures IncreasingIndex(Matching(x))
  {
    InOrderIncreasing(m => NameContains(m, x), MaterialCount);
  }
}
