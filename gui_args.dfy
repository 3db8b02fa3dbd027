/**
 * The argument form of the GUI, `src/gui/args.rs`: the `AppArgs` state the
 * form edits, its `update` on each `ArgsMessage`, the clamping the form's
 * callbacks apply to what the number fields emit, and `to_cli`, which turns
 * the state into a command line for the solver. The form's layout (`view`)
 * is not modelled beyond those callbacks.
 */
module GuiArgs {
  import opened Wrappers
  import opened Enums
  import opened Strings
  import opened NumericInput
  import PreludeArgs

  /** The two invention level fields, `[Option<u32>; 2]`. */
  datatype LevelPair = LevelPair(low: Option<U32>, high: Option<U32>)

  datatype ArgsMessage =
    | PerkChanged(perk: string)
    | RankChanged(rank: Option<U32>)
    | PerkTwoChanged(perkTwo: string)
    | RankTwoChanged(rankTwo: Option<U32>)
    | InventionLevelChanged(levels: LevelPair)
    | AncientChanged(ancient: bool)
    | ExcludeChanged(exclude: string)
    | AltsChanged(alts: Option<U32>)
    | GizmoTypeChanged(gizmoType: GizmoType)
    | SortTypeChanged(sortType: SortType)

  /** A snapshot of the `AppArgs` fields. */
  datatype Settings = Settings(
    perk: Option<string>,
    rank: Option<U32>,
    perkTwo: Option<string>,
    rankTwo: Option<U32>,
    inventionLevel: LevelPair,
    fuzzy: bool,
    ancient: bool,
    exclude: string,
    alts: Option<U32>,
    gizmoType: GizmoType,
    sortType: SortType)

  /** The derived `Default`: levels 1 to 137, an ancient weapon gizmo, five alternatives, sorted by price. */
  const DefaultSettings := Settings(None, None, None, None, LevelPair(Some(1), Some(137)), false, true, "",
                                    Some(5), Weapon, Price)

  /** `Option::or`: the new value where there is one, else the old. */
  function Or(x: Option<U32>, y: Option<U32>): (r: Option<U32>)
    ensures x.Some? ==> r == x
    ensures x.None? ==> r == y
  {
    if x.Some? then x else y
  }

  /** The state after one message. */
  function Apply(s: Settings, m: ArgsMessage): Settings
  {
    match m
    case PerkChanged(x) => s.(perk := Some(x))
    case RankChanged(x) => s.(rank := x)
    case PerkTwoChanged(x) => s.(perkTwo := Some(x), fuzzy := x == "Any")
    case RankTwoChanged(x) => s.(rankTwo := x)
    case InventionLevelChanged(x) =>
      s.(inventionLevel := LevelPair(Or(x.low, s.inventionLevel.low), Or(x.high, s.inventionLevel.high)))
    case AltsChanged(x) => s.(alts := x)
    case AncientChanged(x) => s.(ancient := x)
    case ExcludeChanged(x) => s.(exclude := x)
    case GizmoTypeChanged(x) => s.(gizmoType := x)
    case SortTypeChanged(x) => s.(sortType := x)
  }

  class AppArgs {
    var perk: Option<string>
    var rank: Option<U32>
    var perkTwo: Option<string>
    var rankTwo: Option<U32>
    var inventionLevel: LevelPair
    var fuzzy: bool
    var ancient: bool
    var exclude: string
    var alts: Option<U32>
    var gizmoType: GizmoType
    var sortType: SortType

    function State(): Settings
      reads this
    {
      Settings(perk, rank, perkTwo, rankTwo, inventionLevel, fuzzy, ancient, exclude, alts, gizmoType, sortType)
    }

    /** `AppArgs::default`. */
    constructor ()
      ensures State() == DefaultSettings
    {
      perk, rank, perkTwo, rankTwo := None, None, None, None;
      inventionLevel := LevelPair(Some(1), Some(137));
      fuzzy, ancient, exclude, alts := false, true, "", Some(5);
      gizmoType, sortType := Weapon, Price;
    }

    /** `AppArgs::update`: each message assigns its own field; a second perk also sets `fuzzy`. */
    method Update(message: ArgsMessage)
      modifies this
      ensures State() == Apply(old(State()), message)
    {
      match message
      case PerkChanged(x) => perk := Some(x);
      case RankChanged(x) => rank := x;
      case PerkTwoChanged(x) =>
        perkTwo := Some(x);
        fuzzy := x == "Any";
      case RankTwoChanged(x) => rankTwo := x;
      case InventionLevelChanged(x) =>
        inventionLevel := LevelPair(Or(x.low, inventionLevel.low), Or(x.high, inventionLevel.high));
      case AltsChanged(x) => alts := x;
      case AncientChanged(x) => ancient := x;
      case ExcludeChanged(x) => exclude := x;
      case GizmoTypeChanged(x) => gizmoType := x;
      case SortTypeChanged(x) => sortType := x;
    }
  }

  /** The fields of the state, to say which ones a message writes. */
  datatype Field = PerkField | RankField | PerkTwoField | RankTwoField | LevelField | FuzzyField
                 | AncientField | ExcludeField | AltsField | GizmoTypeField | SortTypeField

  predicate Writes(m: ArgsMessage, f: Field)
  {
    match m
    case PerkChanged(_) => f == PerkField
    case RankChanged(_) => f == RankField
    case PerkTwoChanged(_) => f == PerkTwoField || f == FuzzyField
    case RankTwoChanged(_) => f == RankTwoField
    case InventionLevelChanged(_) => f == LevelField
    case AltsChanged(_) => f == AltsField
    case AncientChanged(_) => f == AncientField
    case ExcludeChanged(_) => f == ExcludeField
    case GizmoTypeChanged(_) => f == GizmoTypeField
    case SortTypeChanged(_) => f == SortTypeField
  }

  predicate Agree(s: Settings, t: Settings, f: Field)
  {
    match f
    case PerkField => s.perk == t.perk
    case RankField => s.rank == t.rank
    case PerkTwoField => s.perkTwo == t.perkTwo
    case RankTwoField => s.rankTwo == t.rankTwo
    case LevelField => s.inventionLevel == t.inventionLevel
    case FuzzyField => s.fuzzy == t.fuzzy
    case AncientField => s.ancient == t.ancient
    case ExcludeField => s.exclude == t.exclude
    case AltsField => s.alts == t.alts
    case GizmoTypeField => s.gizmoType == t.gizmoType
    case SortTypeField => s.sortType == t.sortType
  }

  /** A message leaves every field it does not write as it was. */
  lemma ApplyFrame(s: Settings, m: ArgsMessage, f: Field)
    requires !Writes(m, f)
    ensures Agree(s, Apply(s, m), f)
  {
  }

  /** Choosing a second perk records it and turns the fuzzy search on exactly for "Any". */
  lemma PerkTwoSetsFuzzy(s: Settings, x: string)
    ensures Apply(s, PerkTwoChanged(x)).perkTwo == Some(x)
    ensures Apply(s, PerkTwoChanged(x)).fuzzy <==> x == "Any"
  {
  }

  /** A level message replaces each bound only where it carries a value; one carrying neither changes nothing. */
  lemma LevelsMerge(s: Settings, x: LevelPair)
    ensures var t := Apply(s, InventionLevelChanged(x)).inventionLevel;
      (x.low.Some? ==> t.low == x.low) && (x.low.None? ==> t.low == s.inventionLevel.low)
      && (x.high.Some? ==> t.high == x.high) && (x.high.None? ==> t.high == s.inventionLevel.high)
    ensures Apply(s, InventionLevelChanged(LevelPair(None, None))) == s
  {
  }

  /** The same message twice has the effect of once. */
  lemma ApplyIdempotent(s: Settings, m: ArgsMessage)
    ensures Apply(Apply(s, m), m) == Apply(s, m)
  {
  }

  /** `y.min(6).max(1)` on a rank. */
  function ClampRank(y: U32): (r: U32)
    ensures 1 <= r <= 6
    ensures 1 <= y <= 6 ==> r == y
  {
    if y > 6 then 6 else if y < 1 then 1 else y
  }

  /** `y.min(137).max(1)` on a level. */
  function ClampLevel(y: U32): (r: U32)
    ensures 1 <= r <= 137
    ensures 1 <= y <= 137 ==> r == y
  {
    if y > 137 then 137 else if y < 1 then 1 else y
  }

  /** `y.min(254)` on the alternative count. */
  function ClampAlts(y: U32): (r: U32)
    ensures r <= 254
    ensures y <= 254 ==> r == y
  {
    if y > 254 then 254 else y
  }

  function MapOption(x: Option<U32>, f: U32 -> U32): Option<U32>
  {
    if x.Some? then Some(f(x.value)) else None
  }

  /** The messages the form's number fields emit, after their callbacks clamp the value. */
  function RankInput(x: Option<U32>): ArgsMessage { RankChanged(MapOption(x, ClampRank)) }
  function RankTwoInput(x: Option<U32>): ArgsMessage { RankTwoChanged(MapOption(x, ClampRank)) }
  function LevelLowInput(x: Option<U32>): ArgsMessage { InventionLevelChanged(LevelPair(MapOption(x, ClampLevel), None)) }
  function LevelHighInput(x: Option<U32>): ArgsMessage { InventionLevelChanged(LevelPair(None, MapOption(x, ClampLevel))) }
  function AltsInput(x: Option<U32>): ArgsMessage { AltsChanged(MapOption(x, ClampAlts)) }

  predicate RankInRange(x: Option<U32>) { x.Some? ==> 1 <= x.value <= 6 }
  predicate LevelInRange(x: Option<U32>) { x.Some? ==> 1 <= x.value <= 137 }
  predicate AltsInRange(x: Option<U32>) { x.Some? ==> x.value <= 254 }

  /** The numeric fields within the ranges the form's callbacks enforce. */
  predicate Bounded(s: Settings)
  {
    RankInRange(s.rank) && RankInRange(s.rankTwo) && LevelInRange(s.inventionLevel.low)
    && LevelInRange(s.inventionLevel.high) && AltsInRange(s.alts)
  }

  /** A message whose numeric payload lies in those ranges. */
  predicate InRange(m: ArgsMessage)
  {
    match m
    case RankChanged(x) => RankInRange(x)
    case RankTwoChanged(x) => RankInRange(x)
    case InventionLevelChanged(x) => LevelInRange(x.low) && LevelInRange(x.high)
    case AltsChanged(x) => AltsInRange(x)
    case _ => true
  }

  /** Whatever a number field emits, its callback's message is in range. */
  lemma CallbacksInRange(x: Option<U32>)
    ensures InRange(RankInput(x)) && InRange(RankTwoInput(x)) && InRange(AltsInput(x))
    ensures InRange(LevelLowInput(x)) && InRange(LevelHighInput(x))
  {
  }

  /** The defaults are in range, and in-range messages keep the state in range. */
  lemma BoundedInvariant(s: Settings, m: ArgsMessage)
    ensures Bounded(DefaultSettings)
    ensures Bounded(s) && InRange(m) ==> Bounded(Apply(s, m))
  {
  }

  /** `as u8`: keeps the low eight bits. */
  function U8(x: U32): (r: nat)
    ensures r < 256
    ensures x < 256 ==> r == x
  {
    x % 256
  }

  function UnwrapOr(x: Option<U32>, d: U32): (r: U32)
    ensures x.Some? ==> r == x.value
    ensures x.None? ==> r == d
  {
    if x.Some? then x.value else d
  }

  /** The command line the GUI builds; its `Gizmo` command carries the file names as options and no CPU limit. */
  datatype GuiCommand = GuiCommand(
    perk: string,
    rank: nat,
    perkTwo: Option<string>,
    rankTwo: nat,
    fuzzy: bool,
    exclude: seq<string>,
    sortType: SortType,
    outFile: Option<string>,
    priceFile: Option<string>,
    altCount: nat)

  datatype GuiCli = GuiCli(gizmoType: GizmoType, ancient: bool, inventionLevel: seq<nat>, command: GuiCommand)

  /** The exclude text: each ", " becomes ",", then the text is split on ','. */
  function ExcludeEntries(exclude: string): (r: seq<string>)
    ensures |r| >= 1
    ensures Join(r, ",") == Replace(exclude, ", ", ",")
    ensures forall k :: 0 <= k < |r| ==> ',' !in r[k]
  {
    SplitJoin(Replace(exclude, ", ", ","), ',');
    Split(Replace(exclude, ", ", ","), ',')
  }

  /**
   * `to_cli`: missing levels become 0, a missing first perk "Empty", missing
   * ranks 1 and missing alternatives 0, each number cast to `u8`; the file
   * names are the solver's defaults.
   */
  function ToCli(s: Settings): (c: GuiCli)
    ensures |c.inventionLevel| == 2
    ensures c.inventionLevel[0] == U8(UnwrapOr(s.inventionLevel.low, 0))
    ensures c.inventionLevel[1] == U8(UnwrapOr(s.inventionLevel.high, 0))
    ensures c.command.perk == if s.perk.Some? then s.perk.value else "Empty"
    ensures c.command.rank == U8(UnwrapOr(s.rank, 1)) && c.command.rankTwo == U8(UnwrapOr(s.rankTwo, 1))
    ensures c.command.perkTwo == s.perkTwo && c.command.fuzzy == s.fuzzy
    ensures c.command.exclude == ExcludeEntries(s.exclude)
    ensures c.command.altCount == U8(UnwrapOr(s.alts, 0))
    ensures c.command.outFile == Some("out.csv") && c.command.priceFile == Some("prices.txt")
    ensures c.gizmoType == s.gizmoType && c.ancient == s.ancient && c.command.sortType == s.sortType
  {
    GuiCli(
      s.gizmoType, s.ancient,
      [U8(UnwrapOr(s.inventionLevel.low, 0)), U8(UnwrapOr(s.inventionLevel.high, 0))],
      GuiCommand(
        if s.perk.Some? then s.perk.value else "Empty",
        U8(UnwrapOr(s.rank, 1)),
        s.perkTwo,
        U8(UnwrapOr(s.rankTwo, 1)),
        s.fuzzy,
        ExcludeEntries(s.exclude),
        s.sortType,
        PreludeArgs.DefaultArgs.outFile,
        PreludeArgs.DefaultArgs.priceFile,
        U8(UnwrapOr(s.alts, 0))))
  }

  /** On a state the form keeps in range, no `u8` cast loses anything. */
  lemma ToCliLossless(s: Settings)
    requires Bounded(s)
    ensures var c := ToCli(s);
      (s.inventionLevel.low.Some? ==> c.inventionLevel[0] == s.inventionLevel.low.value)
      && (s.inventionLevel.high.Some? ==> c.inventionLevel[1] == s.inventionLevel.high.value)
      && (s.rank.Some? ==> c.command.rank == s.rank.value)
      && (s.rankTwo.Some? ==> c.command.rankTwo == s.rankTwo.value)
      && (s.alts.Some? ==> c.command.altCount == s.alts.value)
  {
  }

  /** An empty exclude text becomes the one empty entry, which the solver's argument check drops. */
  lemma EmptyExcludeExcludesNothing(s: Settings)
    requires s.exclude == ""
    ensures ToCli(s).command.exclude == [""]
    ensures PreludeArgs.ExpandExclude(ToCli(s).command.exclude) == []
  {
    assert Replace("", ", ", ",") == "";
    assert Split("", ',') == [""];
    assert [""][..0] == [];
  }

  /** The default form asks for a single-perk search over levels 1 to 137 with 5 alternatives. */
  lemma DefaultCli()
    ensures ToCli(DefaultSettings).inventionLevel == [1, 137]
    ensures ToCli(DefaultSettings).command.perk == "Empty" && ToCli(DefaultSettings).command.altCount == 5
  {
  }
}
