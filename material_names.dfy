/**
 * The material enum of `src/prelude/material_name.rs`: its variants in
 * declaration order, their display names, the ordinal conversion, the
 * substring lookup `from_str` and the count-grouped rendering `vec_to_string`.
 */
module MaterialNames {
  import opened Wrappers
  import opened Strings
  import opened Seqs

  datatype MaterialName =
    ArmadylComponents
    | AscendedComponents
    | AvernicComponents
    | BandosComponents
    | BaseParts
    | BladeParts
    | BrassicanComponents
    | ClassicComponents
    | ClearParts
    | ClockworkComponents
    | ConnectorParts
    | CorporealComponents
    | CoverParts
    | CraftedParts
    | CrystalParts
    | CulinaryComponents
    | CywirComponents
    | DeflectingParts
    | DelicateParts
    | DextrousComponents
    | DirectComponents
    | DragonfireComponents
    | EnhancingComponents
    | EtherealComponents
    | EvasiveComponents
    | ExplosiveComponents
    | FacetedComponents
    | FlexibleParts
    | FortunateComponents
    | FungalComponents
    | HarnessedComponents
    | HeadParts
    | HealthyComponents
    | HeavyComponents
    | HistoricComponents
    | IlujankanComponents
    | ImbuedComponents
    | Junk
    | KnightlyComponents
    | LightComponents
    | LivingComponents
    | MagicParts
    | ManufacturedComponents
    | MetallicParts
    | NoxiousComponents
    | OceanicComponents
    | OffcutComponents
    | OrganicParts
    | PaddedParts
    | PestiferousComponents
    | PiousComponents
    | PlatedParts
    | PowerfulComponents
    | PreciousComponents
    | PreciseComponents
    | ProtectiveComponents
    | RefinedComponents
    | ResilientComponents
    | RumblingComponents
    | SaradominComponents
    | SerenComponents
    | ShadowComponents
    | SharpComponents
    | ShiftingComponents
    | SilentComponents
    | SimpleParts
    | SmoothParts
    | SpikedParts
    | SpiritualParts
    | StaveParts
    | StrongComponents
    | StunningComponents
    | SubtleComponents
    | SwiftComponents
    | TensileParts
    | ThirdAgeComponents
    | TimewornComponents
    | UndeadComponents
    | VariableComponents
    | VintageComponents
    | ZamorakComponents
    | ZarosComponents

  /** The variant with declaration index `i` (the last one for every larger index). */
  function FromIndex(i: int): MaterialName
  {
    match i
    case 0 => ArmadylComponents
    case 1 => AscendedComponents
    case 2 => AvernicComponents
    case 3 => BandosComponents
    case 4 => BaseParts
    case 5 => BladeParts
    case 6 => BrassicanComponents
    case 7 => ClassicComponents
    case 8 => ClearParts
    case 9 => ClockworkComponents
    case 10 => ConnectorParts
    case 11 => CorporealComponents
    case 12 => CoverParts
    case 13 => CraftedParts
    case 14 => CrystalParts
    case 15 => CulinaryComponents
    case 16 => CywirComponents
    case 17 => DeflectingParts
    case 18 => DelicateParts
    case 19 => DextrousComponents
    case 20 => DirectComponents
    case 21 => DragonfireComponents
    case 22 => EnhancingComponents
    case 23 => EtherealComponents
    case 24 => EvasiveComponents
    case 25 => ExplosiveComponents
    case 26 => FacetedComponents
    case 27 => FlexibleParts
    case 28 => FortunateComponents
    case 29 => FungalComponents
    case 30 => HarnessedComponents
    case 31 => HeadParts
    case 32 => HealthyComponents
    case 33 => HeavyComponents
    case 34 => HistoricComponents
    case 35 => IlujankanComponents
    case 36 => ImbuedComponents
    case 37 => Junk
    case 38 => KnightlyComponents
    case 39 => LightComponents
    case 40 => LivingComponents
    case 41 => MagicParts
    case 42 => ManufacturedComponents
    case 43 => MetallicParts
    case 44 => NoxiousComponents
    case 45 => OceanicComponents
    case 46 => OffcutComponents
    case 47 => OrganicParts
    case 48 => PaddedParts
    case 49 => PestiferousComponents
    case 50 => PiousComponents
    case 51 => PlatedParts
    case 52 => PowerfulComponents
    case 53 => PreciousComponents
    case 54 => PreciseComponents
    case 55 => ProtectiveComponents
    case 56 => RefinedComponents
    case 57 => ResilientComponents
    case 58 => RumblingComponents
    case 59 => SaradominComponents
    case 60 => SerenComponents
    case 61 => ShadowComponents
    case 62 => SharpComponents
    case 63 => ShiftingComponents
    case 64 => SilentComponents
    case 65 => SimpleParts
    case 66 => SmoothParts
    case 67 => SpikedParts
    case 68 => SpiritualParts
    case 69 => StaveParts
    case 70 => StrongComponents
    case 71 => StunningComponents
    case 72 => SubtleComponents
    case 73 => SwiftComponents
    case 74 => TensileParts
    case 75 => ThirdAgeComponents
    case 76 => TimewornComponents
    case 77 => UndeadComponents
    case 78 => VariableComponents
    case 79 => VintageComponents
    case 80 => ZamorakComponents
    case _ => ZarosComponents
  }

  const MaterialCount: nat := 82

  /** The display name (the strum serialisation; `Junk` has none, so its variant name is used). */
  function Name(m: MaterialName): string
  {
    match m
    case ArmadylComponents => "Armadyl components"
    case AscendedComponents => "Ascended components"
    case AvernicComponents => "Avernic components"
    case BandosComponents => "Bandos components"
    case BaseParts => "Base parts"
    case BladeParts => "Blade parts"
    case BrassicanComponents => "Brassican components"
    case ClassicComponents => "Classic components"
    case ClearParts => "Clear parts"
    case ClockworkComponents => "Clockwork components"
    case ConnectorParts => "Connector parts"
    case CorporealComponents => "Corporeal components"
    case CoverParts => "Cover parts"
    case CraftedParts => "Crafted parts"
    case CrystalParts => "Crystal parts"
    case CulinaryComponents => "Culinary components"
    case CywirComponents => "Cywir components"
    case DeflectingParts => "Deflecting parts"
    case DelicateParts => "Delicate parts"
    case DextrousComponents => "Dextrous components"
    case DirectComponents => "Direct components"
    case DragonfireComponents => "Dragonfire components"
    case EnhancingComponents => "Enhancing components"
    case EtherealComponents => "Ethereal components"
    case EvasiveComponents => "Evasive components"
    case ExplosiveComponents => "Explosive components"
    case FacetedComponents => "Faceted components"
    case FlexibleParts => "Flexible parts"
    case FortunateComponents => "Fortunate components"
    case FungalComponents => "Fungal components"
    case HarnessedComponents => "Harnessed components"
    case HeadParts => "Head parts"
    case HealthyComponents => "Healthy components"
    case HeavyComponents => "Heavy components"
    case HistoricComponents => "Historic components"
    case IlujankanComponents => "Ilujankan components"
    case ImbuedComponents => "Imbued components"
    case Junk => "Junk"
    case KnightlyComponents => "Knightly components"
    case LightComponents => "Light components"
    case LivingComponents => "Living components"
    case MagicParts => "Magic parts"
    case ManufacturedComponents => "Manufactured components"
    case MetallicParts => "Metallic parts"
    case NoxiousComponents => "Noxious components"
    case OceanicComponents => "Oceanic components"
    case OffcutComponents => "Offcut components"
    case OrganicParts => "Organic parts"
    case PaddedParts => "Padded parts"
    case PestiferousComponents => "Pestiferous components"
    case PiousComponents => "Pious components"
    case PlatedParts => "Plated parts"
    case PowerfulComponents => "Powerful components"
    case PreciousComponents => "Precious components"
    case PreciseComponents => "Precise components"
    case ProtectiveComponents => "Protective components"
    case RefinedComponents => "Refined components"
    case ResilientComponents => "Resilient components"
    case RumblingComponents => "Rumbling components"
    case SaradominComponents => "Saradomin components"
    case SerenComponents => "Seren components"
    case ShadowComponents => "Shadow components"
    case SharpComponents => "Sharp components"
    case ShiftingComponents => "Shifting components"
    case SilentComponents => "Silent components"
    case SimpleParts => "Simple parts"
    case SmoothParts => "Smooth parts"
    case SpikedParts => "Spiked parts"
    case SpiritualParts => "Spiritual parts"
    case StaveParts => "Stave parts"
    case StrongComponents => "Strong components"
    case StunningComponents => "Stunning components"
    case SubtleComponents => "Subtle components"
    case SwiftComponents => "Swift components"
    case TensileParts => "Tensile parts"
    case ThirdAgeComponents => "Third-age components"
    case TimewornComponents => "Timeworn components"
    case UndeadComponents => "Undead components"
    case VariableComponents => "Variable components"
    case VintageComponents => "Vintage components"
    case ZamorakComponents => "Zamorak components"
    case ZarosComponents => "Zaros components"
  }

  /** `From<MaterialName> for usize`: the declaration index. */
  function Index(m: MaterialName): (i: nat)
    ensures i < MaterialCount && FromIndex(i) == m
  {
    match m
    case ArmadylComponents => 0
    case AscendedComponents => 1
    case AvernicComponents => 2
    case BandosComponents => 3
    case BaseParts => 4
    case BladeParts => 5
    case BrassicanComponents => 6
    case ClassicComponents => 7
    case ClearParts => 8
    case ClockworkComponents => 9
    case ConnectorParts => 10
    case CorporealComponents => 11
    case CoverParts => 12
    case CraftedParts => 13
    case CrystalParts => 14
    case CulinaryComponents => 15
    case CywirComponents => 16
    case DeflectingParts => 17
    case DelicateParts => 18
    case DextrousComponents => 19
    case DirectComponents => 20
    case DragonfireComponents => 21
    case EnhancingComponents => 22
    case EtherealComponents => 23
    case EvasiveComponents => 24
    case ExplosiveComponents => 25
    case FacetedComponents => 26
    case FlexibleParts => 27
    case FortunateComponents => 28
    case FungalComponents => 29
    case HarnessedComponents => 30
    case HeadParts => 31
    case HealthyComponents => 32
    case HeavyComponents => 33
    case HistoricComponents => 34
    case IlujankanComponents => 35
    case ImbuedComponents => 36
    case Junk => 37
    case KnightlyComponents => 38
    case LightComponents => 39
    case LivingComponents => 40
    case MagicParts => 41
    case ManufacturedComponents => 42
    case MetallicParts => 43
    case NoxiousComponents => 44
    case OceanicComponents => 45
    case OffcutComponents => 46
    case OrganicParts => 47
    case PaddedParts => 48
    case PestiferousComponents => 49
    case PiousComponents => 50
    case PlatedParts => 51
    case PowerfulComponents => 52
    case PreciousComponents => 53
    case PreciseComponents => 54
    case ProtectiveComponents => 55
    case RefinedComponents => 56
    case ResilientComponents => 57
    case RumblingComponents => 58
    case SaradominComponents => 59
    case SerenComponents => 60
    case ShadowComponents => 61
    case SharpComponents => 62
    case ShiftingComponents => 63
    case SilentComponents => 64
    case SimpleParts => 65
    case SmoothParts => 66
    case SpikedParts => 67
    case SpiritualParts => 68
    case StaveParts => 69
    case StrongComponents => 70
    case StunningComponents => 71
    case SubtleComponents => 72
    case SwiftComponents => 73
    case TensileParts => 74
    case ThirdAgeComponents => 75
    case TimewornComponents => 76
    case UndeadComponents => 77
    case VariableComponents => 78
    case VintageComponents => 79
    case ZamorakComponents => 80
    case ZarosComponents => 81
  }

  /** The materials a gizmo needs five of per slot. */
  const CommonMaterials: seq<MaterialName> := [
    BaseParts,
    BladeParts,
    ClearParts,
    ConnectorParts,
    CoverParts,
    CraftedParts,
    CrystalParts,
    DeflectingParts,
    DelicateParts,
    FlexibleParts,
    HeadParts,
    MagicParts,
    MetallicParts,
    OrganicParts,
    PaddedParts,
    PlatedParts,
    SimpleParts,
    SmoothParts,
    SpikedParts,
    SpiritualParts,
    StaveParts,
    TensileParts
  ]

  /**
   * `Index` undoes `FromIndex` at each declaration index. One lemma per index
   * keeps each proof to a single case of the 82-way `Index` and `FromIndex`;
   * a single quantified proof has to unfold every case at once.
   */
  lemma IndexAt0() ensures Index(FromIndex(0)) == 0 { assert FromIndex(0) == ArmadylComponents; }
  lemma IndexAt1() ensures Index(FromIndex(1)) == 1 { assert FromIndex(1) == AscendedComponents; }
  lemma IndexAt2() ensures Index(FromIndex(2)) == 2 { assert FromIndex(2) == AvernicComponents; }
  lemma IndexAt3() ensures Index(FromIndex(3)) == 3 { assert FromIndex(3) == BandosComponents; }
  lemma IndexAt4() ensures Index(FromIndex(4)) == 4 { assert FromIndex(4) == BaseParts; }
  lemma IndexAt5() ensures Index(FromIndex(5)) == 5 { assert FromIndex(5) == BladeParts; }
  lemma IndexAt6() ensures Index(FromIndex(6)) == 6 { assert FromIndex(6) == BrassicanComponents; }
  lemma IndexAt7() ensures Index(FromIndex(7)) == 7 { assert FromIndex(7) == ClassicComponents; }
  lemma IndexAt8() ensures Index(FromIndex(8)) == 8 { assert FromIndex(8) == ClearParts; }
  lemma IndexAt9() ensures Index(FromIndex(9)) == 9 { assert FromIndex(9) == ClockworkComponents; }
  lemma IndexAt10() ensures Index(FromIndex(10)) == 10 { assert FromIndex(10) == ConnectorParts; }
  lemma IndexAt11() ensures Index(FromIndex(11)) == 11 { assert FromIndex(11) == CorporealComponents; }
  lemma IndexAt12() ensures Index(FromIndex(12)) == 12 { assert FromIndex(12) == CoverParts; }
  lemma IndexAt13() ensures Index(FromIndex(13)) == 13 { assert FromIndex(13) == CraftedParts; }
  lemma IndexAt14() ensures Index(FromIndex(14)) == 14 { assert FromIndex(14) == CrystalParts; }
  lemma IndexAt15() ensures Index(FromIndex(15)) == 15 { assert FromIndex(15) == CulinaryComponents; }
  lemma IndexAt16() ensures Index(FromIndex(16)) == 16 { assert FromIndex(16) == CywirComponents; }
  lemma IndexAt17() ensures Index(FromIndex(17)) == 17 { assert FromIndex(17) == DeflectingParts; }
  lemma IndexAt18() ensures Index(FromIndex(18)) == 18 { assert FromIndex(18) == DelicateParts; }
  lemma IndexAt19() ensures Index(FromIndex(19)) == 19 { assert FromIndex(19) == DextrousComponents; }
  lemma IndexAt20() ensures Index(FromIndex(20)) == 20 { assert FromIndex(20) == DirectComponents; }
  lemma IndexAt21() ensures Index(FromIndex(21)) == 21 { assert FromIndex(21) == DragonfireComponents; }
  lemma IndexAt22() ensures Index(FromIndex(22)) == 22 { assert FromIndex(22) == EnhancingComponents; }
  lemma IndexAt23() ensures Index(FromIndex(23)) == 23 { assert FromIndex(23) == EtherealComponents; }
  lemma IndexAt24() ensures Index(FromIndex(24)) == 24 { assert FromIndex(24) == EvasiveComponents; }
  lemma IndexAt25() ensures Index(FromIndex(25)) == 25 { assert FromIndex(25) == ExplosiveComponents; }
  lemma IndexAt26() ensures Index(FromIndex(26)) == 26 { assert FromIndex(26) == FacetedComponents; }
  lemma IndexAt27() ensures Index(FromIndex(27)) == 27 { assert FromIndex(27) == FlexibleParts; }
  lemma IndexAt28() ensures Index(FromIndex(28)) == 28 { assert FromIndex(28) == FortunateComponents; }
  lemma IndexAt29() ensures Index(FromIndex(29)) == 29 { assert FromIndex(29) == FungalComponents; }
  lemma IndexAt30() ensures Index(FromIndex(30)) == 30 { assert FromIndex(30) == HarnessedComponents; }
  lemma IndexAt31() ensures Index(FromIndex(31)) == 31 { assert FromIndex(31) == HeadParts; }
  lemma IndexAt32() ensures Index(FromIndex(32)) == 32 { assert FromIndex(32) == HealthyComponents; }
  lemma IndexAt33() ensures Index(FromIndex(33)) == 33 { assert FromIndex(33) == HeavyComponents; }
  lemma IndexAt34() ensures Index(FromIndex(34)) == 34 { assert FromIndex(34) == HistoricComponents; }
  lemma IndexAt35() ensures Index(FromIndex(35)) == 35 { assert FromIndex(35) == IlujankanComponents; }
  lemma IndexAt36() ensures Index(FromIndex(36)) == 36 { assert FromIndex(36) == ImbuedComponents; }
  lemma IndexAt37() ensures Index(FromIndex(37)) == 37 { assert FromIndex(37) == Junk; }
  lemma IndexAt38() ensures Index(FromIndex(38)) == 38 { assert FromIndex(38) == KnightlyComponents; }
  lemma IndexAt39() ensures Index(FromIndex(39)) == 39 { assert FromIndex(39) == LightComponents; }
  lemma IndexAt40() ensures Index(FromIndex(40)) == 40 { assert FromIndex(40) == LivingComponents; }
  lemma IndexAt41() ensures Index(FromIndex(41)) == 41 { assert FromIndex(41) == MagicParts; }
  lemma IndexAt42() ensures Index(FromIndex(42)) == 42 { assert FromIndex(42) == ManufacturedComponents; }
  lemma IndexAt43() ensures Index(FromIndex(43)) == 43 { assert FromIndex(43) == MetallicParts; }
  lemma IndexAt44() ensures Index(FromIndex(44)) == 44 { assert FromIndex(44) == NoxiousComponents; }
  lemma IndexAt45() ensures Index(FromIndex(45)) == 45 { assert FromIndex(45) == OceanicComponents; }
  lemma IndexAt46() ensures Index(FromIndex(46)) == 46 { assert FromIndex(46) == OffcutComponents; }
  lemma IndexAt47() ensures Index(FromIndex(47)) == 47 { assert FromIndex(47) == OrganicParts; }
  lemma IndexAt48() ensures Index(FromIndex(48)) == 48 { assert FromIndex(48) == PaddedParts; }
  lemma IndexAt49() ensures Index(FromIndex(49)) == 49 { assert FromIndex(49) == PestiferousComponents; }
  lemma IndexAt50() ensures Index(FromIndex(50)) == 50 { assert FromIndex(50) == PiousComponents; }
  lemma IndexAt51() ensures Index(FromIndex(51)) == 51 { assert FromIndex(51) == PlatedParts; }
  lemma IndexAt52() ensures Index(FromIndex(52)) == 52 { assert FromIndex(52) == PowerfulComponents; }
  lemma IndexAt53() ensures Index(FromIndex(53)) == 53 { assert FromIndex(53) == PreciousComponents; }
  lemma IndexAt54() ensures Index(FromIndex(54)) == 54 { assert FromIndex(54) == PreciseComponents; }
  lemma IndexAt55() ensures Index(FromIndex(55)) == 55 { assert FromIndex(55) == ProtectiveComponents; }
  lemma IndexAt56() ensures Index(FromIndex(56)) == 56 { assert FromIndex(56) == RefinedComponents; }
  lemma IndexAt57() ensures Index(FromIndex(57)) == 57 { assert FromIndex(57) == ResilientComponents; }
  lemma IndexAt58() ensures Index(FromIndex(58)) == 58 { assert FromIndex(58) == RumblingComponents; }
  lemma IndexAt59() ensures Index(FromIndex(59)) == 59 { assert FromIndex(59) == SaradominComponents; }
  lemma IndexAt60() ensures Index(FromIndex(60)) == 60 { assert FromIndex(60) == SerenComponents; }
  lemma IndexAt61() ensures Index(FromIndex(61)) == 61 { assert FromIndex(61) == ShadowComponents; }
  lemma IndexAt62() ensures Index(FromIndex(62)) == 62 { assert FromIndex(62) == SharpComponents; }
  lemma IndexAt63() ensures Index(FromIndex(63)) == 63 { assert FromIndex(63) == ShiftingComponents; }
  lemma IndexAt64() ensures Index(FromIndex(64)) == 64 { assert FromIndex(64) == SilentComponents; }
  lemma IndexAt65() ensures Index(FromIndex(65)) == 65 { assert FromIndex(65) == SimpleParts; }
  lemma IndexAt66() ensures Index(FromIndex(66)) == 66 { assert FromIndex(66) == SmoothParts; }
  lemma IndexAt67() ensures Index(FromIndex(67)) == 67 { assert FromIndex(67) == SpikedParts; }
  lemma IndexAt68() ensures Index(FromIndex(68)) == 68 { assert FromIndex(68) == SpiritualParts; }
  lemma IndexAt69() ensures Index(FromIndex(69)) == 69 { assert FromIndex(69) == StaveParts; }
  lemma IndexAt70() ensures Index(FromIndex(70)) == 70 { assert FromIndex(70) == StrongComponents; }
  lemma IndexAt71() ensures Index(FromIndex(71)) == 71 { assert FromIndex(71) == StunningComponents; }
  lemma IndexAt72() ensures Index(FromIndex(72)) == 72 { assert FromIndex(72) == SubtleComponents; }
  lemma IndexAt73() ensures Index(FromIndex(73)) == 73 { assert FromIndex(73) == SwiftComponents; }
  lemma IndexAt74() ensures Index(FromIndex(74)) == 74 { assert FromIndex(74) == TensileParts; }
  lemma IndexAt75() ensures Index(FromIndex(75)) == 75 { assert FromIndex(75) == ThirdAgeComponents; }
  lemma IndexAt76() ensures Index(FromIndex(76)) == 76 { assert FromIndex(76) == TimewornComponents; }
  lemma IndexAt77() ensures Index(FromIndex(77)) == 77 { assert FromIndex(77) == UndeadComponents; }
  lemma IndexAt78() ensures Index(FromIndex(78)) == 78 { assert FromIndex(78) == VariableComponents; }
  lemma IndexAt79() ensures Index(FromIndex(79)) == 79 { assert FromIndex(79) == VintageComponents; }
  lemma IndexAt80() ensures Index(FromIndex(80)) == 80 { assert FromIndex(80) == ZamorakComponents; }
  lemma IndexAt81() ensures Index(FromIndex(81)) == 81 { assert FromIndex(81) == ZarosComponents; }

  lemma IndexFromIndex0(i: nat)
    requires 0 <= i < 10
    ensures Index(FromIndex(i)) == i
  {
    if i == 0 { IndexAt0(); } else if i == 1 { IndexAt1(); } else if i == 2 { IndexAt2(); } else if i == 3 { IndexAt3(); } else if i == 4 { IndexAt4(); } else if i == 5 { IndexAt5(); } else if i == 6 { IndexAt6(); } else if i == 7 { IndexAt7(); } else if i == 8 { IndexAt8(); } else { assert i == 9; IndexAt9(); }
  }

  lemma IndexFromIndex10(i: nat)
    requires 10 <= i < 20
    ensures Index(FromIndex(i)) == i
  {
    if i == 10 { IndexAt10(); } else if i == 11 { IndexAt11(); } else if i == 12 { IndexAt12(); } else if i == 13 { IndexAt13(); } else if i == 14 { IndexAt14(); } else if i == 15 { IndexAt15(); } else if i == 16 { IndexAt16(); } else if i == 17 { IndexAt17(); } else if i == 18 { IndexAt18(); } else { assert i == 19; IndexAt19(); }
  }

  lemma IndexFromIndex20(i: nat)
    requires 20 <= i < 30
    ensures Index(FromIndex(i)) == i
  {
    if i == 20 { IndexAt20(); } else if i == 21 { IndexAt21(); } else if i == 22 { IndexAt22(); } else if i == 23 { IndexAt23(); } else if i == 24 { IndexAt24(); } else if i == 25 { IndexAt25(); } else if i == 26 { IndexAt26(); } else if i == 27 { IndexAt27(); } else if i == 28 { IndexAt28(); } else { assert i == 29; IndexAt29(); }
  }

  lemma IndexFromIndex30(i: nat)
    requires 30 <= i < 40
    ensures Index(FromIndex(i)) == i
  {
    if i == 30 { IndexAt30(); } else if i == 31 { IndexAt31(); } else if i == 32 { IndexAt32(); } else if i == 33 { IndexAt33(); } else if i == 34 { IndexAt34(); } else if i == 35 { IndexAt35(); } else if i == 36 { IndexAt36(); } else if i == 37 { IndexAt37(); } else if i == 38 { IndexAt38(); } else { assert i == 39; IndexAt39(); }
  }

  lemma IndexFromIndex40(i: nat)
    requires 40 <= i < 50
    ensures Index(FromIndex(i)) == i
  {
    if i == 40 { IndexAt40(); } else if i == 41 { IndexAt41(); } else if i == 42 { IndexAt42(); } else if i == 43 { IndexAt43(); } else if i == 44 { IndexAt44(); } else if i == 45 { IndexAt45(); } else if i == 46 { IndexAt46(); } else if i == 47 { IndexAt47(); } else if i == 48 { IndexAt48(); } else { assert i == 49; IndexAt49(); }
  }

  lemma IndexFromIndex50(i: nat)
    requires 50 <= i < 60
    ensures Index(FromIndex(i)) == i
  {
    if i == 50 { IndexAt50(); } else if i == 51 { IndexAt51(); } else if i == 52 { IndexAt52(); } else if i == 53 { IndexAt53(); } else if i == 54 { IndexAt54(); } else if i == 55 { IndexAt55(); } else if i == 56 { IndexAt56(); } else if i == 57 { IndexAt57(); } else if i == 58 { IndexAt58(); } else { assert i == 59; IndexAt59(); }
  }

  lemma IndexFromIndex60(i: nat)
    requires 60 <= i < 70
    ensures Index(FromIndex(i)) == i
  {
    if i == 60 { IndexAt60(); } else if i == 61 { IndexAt61(); } else if i == 62 { IndexAt62(); } else if i == 63 { IndexAt63(); } else if i == 64 { IndexAt64(); } else if i == 65 { IndexAt65(); } else if i == 66 { IndexAt66(); } else if i == 67 { IndexAt67(); } else if i == 68 { IndexAt68(); } else { assert i == 69; IndexAt69(); }
  }

  lemma IndexFromIndex70(i: nat)
    requires 70 <= i < 80
    ensures Index(FromIndex(i)) == i
  {
    if i == 70 { IndexAt70(); } else if i == 71 { IndexAt71(); } else if i == 72 { IndexAt72(); } else if i == 73 { IndexAt73(); } else if i == 74 { IndexAt74(); } else if i == 75 { IndexAt75(); } else if i == 76 { IndexAt76(); } else if i == 77 { IndexAt77(); } else if i == 78 { IndexAt78(); } else { assert i == 79; IndexAt79(); }
  }

  lemma IndexFromIndex80(i: nat)
    requires 80 <= i < 82
    ensures Index(FromIndex(i)) == i
  {
    if i == 80 { IndexAt80(); } else { assert i == 81; IndexAt81(); }
  }

  /** `FromIndex` and `Index` are inverse on the declaration indices, so distinct materials have distinct indices. */
  lemma IndexFromIndex(i: nat)
    requires i < MaterialCount
    ensures Index(FromIndex(i)) == i
  {
    if i < 10 {
      IndexFromIndex0(i);
    } else if i < 20 {
      IndexFromIndex10(i);
    } else if i < 30 {
      IndexFromIndex20(i);
    } else if i < 40 {
      IndexFromIndex30(i);
    } else if i < 50 {
      IndexFromIndex40(i);
    } else if i < 60 {
      IndexFromIndex50(i);
    } else if i < 70 {
      IndexFromIndex60(i);
    } else if i < 80 {
      IndexFromIndex70(i);
    } else if i < 82 {
      IndexFromIndex80(i);
    }
  }

  /** A material sits at declaration index `i` exactly when it is the `i`-th variant. */
  lemma AtIndex(m: MaterialName, i: nat)
    requires i < MaterialCount
    ensures m == FromIndex(i) <==> Index(m) == i
  {
    IndexFromIndex(i);
    assert FromIndex(Index(m)) == m;
  }

  /** The materials with declaration index below `n` that satisfy `keep`, in declaration order. */
  function InOrder(keep: MaterialName -> bool, n: nat): seq<MaterialName>
  {
    InOrderBy(FromIndex, keep, n)
  }

  /** The materials `from(0)`, ..., `from(n - 1)` that satisfy `keep`, in that order. */
  function InOrderBy(from: int -> MaterialName, keep: MaterialName -> bool, n: nat): seq<MaterialName>
    decreases n
  {
    if n == 0 then []
    else InOrderBy(from, keep, n - 1) + (if keep(from(n - 1)) then [from(n - 1)] else [])
  }


  /** Declaration indices strictly increase along `s`: no duplicates, declaration order. */
  predicate IncreasingIndex(s: seq<MaterialName>)
  {
    forall i, j :: 0 <= i < j < |s| ==> Index(s[i]) < Index(s[j])
  }

  /** Membership in an in-order selection: exactly the kept materials below the bound. */
  lemma {:induction false} InOrderByMembers(from: int -> MaterialName, keep: MaterialName -> bool, n: nat, m: MaterialName)
    requires forall i :: 0 <= i < n ==> Index(from(i)) == i
    requires Index(m) < n ==> from(Index(m)) == m
    ensures m in InOrderBy(from, keep, n) <==> Index(m) < n && keep(m)
    decreases n
  {
    if n > 0 {
      InOrderByMembers(from, keep, n - 1, m);
    }
  }

  lemma {:induction false} InOrderMembers(keep: MaterialName -> bool, n: nat, m: MaterialName)
    requires n <= MaterialCount
    ensures m in InOrder(keep, n) <==> Index(m) < n && keep(m)
  {
    forall i | 0 <= i < n ensures Index(FromIndex(i)) == i {
      IndexFromIndex(i);
    }
    InOrderByMembers(FromIndex, keep, n, m);
  }

  /** Over all materials, the kept ones are exactly those `keep` accepts. */
  lemma InOrderAllMembers(keep: MaterialName -> bool, m: MaterialName)
    ensures m in InOrder(keep, MaterialCount) <==> keep(m)
  {
    InOrderMembers(keep, MaterialCount, m);
  }

  /** Appending a material whose index is above every index in `p` keeps the indices increasing. */
  lemma IncreasingSnoc(p: seq<MaterialName>, x: MaterialName, bound: nat)
    requires IncreasingIndex(p) && forall m :: m in p ==> Index(m) < bound
    requires Index(x) == bound
    ensures IncreasingIndex(p + [x])
    ensures forall m :: m in p + [x] ==> Index(m) <= bound
  {
    var s := p + [x];
    forall i, j | 0 <= i < j < |s| ensures Index(s[i]) < Index(s[j]) {
      assert s[i] == p[i];
      if j < |p| {
        assert s[j] == p[j];
      } else {
        assert s[j] == x && p[i] in p;
      }
    }
  }

  lemma {:induction false} InOrderByIncreasing(from: int -> MaterialName, keep: MaterialName -> bool, n: nat)
    requires forall i :: 0 <= i < n ==> Index(from(i)) == i
    ensures IncreasingIndex(InOrderBy(from, keep, n))
    ensures forall m :: m in InOrderBy(from, keep, n) ==> Index(m) < n
    decreases n
  {
    if n > 0 {
      InOrderByIncreasing(from, keep, n - 1);
      var p, x := InOrderBy(from, keep, n - 1), from(n - 1);
      if keep(x) {
        assert InOrderBy(from, keep, n) == p + [x];
        IncreasingSnoc(p, x, n - 1);
      } else {
        assert InOrderBy(from, keep, n) == p + [] == p;
      }
    }
  }

  /** An in-order selection is in strictly increasing declaration order, hence duplicate-free. */
  lemma {:induction false} InOrderIncreasing(keep: MaterialName -> bool, n: nat)
    requires n <= MaterialCount
    ensures IncreasingIndex(InOrder(keep, n))
  {
    forall i | 0 <= i < n ensures Index(FromIndex(i)) == i {
      IndexFromIndex(i);
    }
    InOrderByIncreasing(FromIndex, keep, n);
  }


  predicate IsCommon(m: MaterialName) { m in CommonMaterials }

  /** `from_str`'s test: the lower-cased display name contains the lower-cased query. */
  predicate Matches(m: MaterialName, query: string)
  {
    Contains(ToLower(Name(m)), ToLower(query))
  }

  /**
   * `MaterialName::from_str`: the first material in declaration order whose
   * lower-cased name contains the lower-cased query, or an error when none does.
   */
  method FromStr(query: string) returns (r: Result<MaterialName, string>)
    ensures r.Ok? ==> Matches(r.value, query)
    ensures r.Ok? ==> forall m :: Index(m) < Index(r.value) ==> !Matches(m, query)
    ensures r.Err? <==> forall m :: !Matches(m, query)
    ensures r.Err? ==> r.error == "Unknown material name"
  {
    var matches := m => Matches(m, query);
    var found := FirstWhere(matches);
    assert forall m :: matches(m) == Matches(m, query);
    if found.Some? {
      return Ok(found.value);
    }
    return Err("Unknown material name");
  }

  /** The search `from_str` runs: the first material in declaration order passing `p`, if any. */
  method FirstWhere(p: MaterialName -> bool) returns (r: Option<MaterialName>)
    ensures r.Some? ==> p(r.value)
    ensures r.Some? ==> forall m :: Index(m) < Index(r.value) ==> !p(m)
    ensures r.None? <==> forall m :: !p(m)
  {
    var i := 0;
    while i < MaterialCount
      invariant i <= MaterialCount
      invariant NoneBelow(p, i)
    {
      var m := FromIndex(i);
      if p(m) {
        IndexFromIndex(i);
        NoneBefore(p, i);
        return Some(m);
      }
      i := i + 1;
    }
    NoneBefore(p, MaterialCount);
    return None;
  }

  /** No material with declaration index below `k` passes `p`. */
  predicate NoneBelow(p: MaterialName -> bool, k: nat)
  {
    NoneBelowBy(FromIndex, p, k)
  }

  /** No `from(i)` with `i` below `k` passes `p`. */
  predicate NoneBelowBy(from: int -> MaterialName, p: MaterialName -> bool, k: nat)
    decreases k
  {
    k == 0 || (NoneBelowBy(from, p, k - 1) && !p(from(k - 1)))
  }

  /** Two materials with the same declaration index are the same. */
  lemma IndexInjective(a: MaterialName, b: MaterialName)
    ensures Index(a) == Index(b) ==> a == b
  {
  }

  lemma {:induction false} NoneBeforeBy(from: int -> MaterialName, p: MaterialName -> bool, k: nat)
    requires forall i :: 0 <= i < k ==> Index(from(i)) == i
    requires NoneBelowBy(from, p, k)
    ensures forall m :: Index(m) < k ==> !p(m)
    decreases k
  {
    if k > 0 {
      NoneBeforeBy(from, p, k - 1);
      forall m | Index(m) == k - 1 ensures !p(m) {
        IndexInjective(m, from(k - 1));
      }
    }
  }

  lemma NoneBefore(p: MaterialName -> bool, k: nat)
    requires k <= MaterialCount && NoneBelow(p, k)
    ensures forall m :: Index(m) < k ==> !p(m)
  {
    forall i | 0 <= i < k ensures Index(FromIndex(i)) == i {
      IndexFromIndex(i);
    }
    NoneBeforeBy(FromIndex, p, k);
  }

  /**
   * The (material, count) groups `vec_to_string` renders: each distinct material
   * once, in order of first occurrence, with its number of occurrences.
   */
  function Groups(v: seq<MaterialName>): (g: seq<(MaterialName, nat)>)
    ensures |g| == |Dedup(v)|
    ensures forall i :: 0 <= i < |g| ==> g[i].0 == Dedup(v)[i] && g[i].1 == multiset(v)[g[i].0] && g[i].1 > 0
  {
    var d := Dedup(v);
    assert forall i :: 0 <= i < |d| ==> d[i] in v;
    seq(|d|, i requires 0 <= i < |d| => (d[i], multiset(v)[d[i]]))
  }

  /** One group: "count × 5 name" for a common material, "count × name" otherwise. */
  function Render(m: MaterialName, count: nat): string
  {
    Decimal(count) + " \U{00D7} " + (if IsCommon(m) then "5 " else "") + Name(m)
  }

  function RenderAll(g: seq<(MaterialName, nat)>): (r: seq<string>)
    ensures |r| == |g| && forall i :: 0 <= i < |g| ==> r[i] == Render(g[i].0, g[i].1)
  {
    if g == [] then [] else [Render(g[0].0, g[0].1)] + RenderAll(g[1..])
  }

  /** `MaterialName::vec_to_string`, without the terminal colouring of the names. */
  function VecToString(v: seq<MaterialName>): string
  {
    Join(RenderAll(Groups(v)), ", ")
  }

  /** The groups list every material of the input exactly once, in order of first occurrence, with its count. */
  lemma GroupsAreCounts(v: seq<MaterialName>)
    ensures forall m :: m in v <==> exists i :: 0 <= i < |Groups(v)| && Groups(v)[i].0 == m
    ensures forall i, j :: 0 <= i < j < |Groups(v)| ==> Groups(v)[i].0 != Groups(v)[j].0
    ensures forall i, j :: 0 <= i < j < |Groups(v)| ==> FirstIndex(v, Groups(v)[i].0) < FirstIndex(v, Groups(v)[j].0)
    ensures forall i :: 0 <= i < |Groups(v)| ==> Groups(v)[i].1 == multiset(v)[Groups(v)[i].0]
  {
    var g, d := Groups(v), Dedup(v);
    forall m | m in v ensures exists i :: 0 <= i < |g| && g[i].0 == m {
      var i :| 0 <= i < |d| && d[i] == m;
      assert g[i].0 == m;
    }
  }

  lemma DedupRepeated(a: MaterialName, b: MaterialName)
    requires a != b
    ensures Dedup([a, b, a]) == [a, b]
  {
    assert [a, b, a][..2] == [a, b];
    assert [a, b][..1] == [a];
    assert Dedup([a]) == [a];
    assert Dedup([a, b]) == [a, b];
  }

  lemma GroupsRepeated(a: MaterialName, b: MaterialName)
    requires a != b
    ensures Groups([a, b, a]) == [(a, 2), (b, 1)]
  {
    DedupRepeated(a, b);
    assert multiset([a, b, a])[a] == 2;
    assert multiset([a, b, a])[b] == 1;
  }

  /** A material met again after another is rendered once, first, with count 2, and the other after it with count 1. */
  lemma VecToStringRepeated(a: MaterialName, b: MaterialName)
    requires a != b
    ensures VecToString([a, b, a]) == Render(a, 2) + ", " + Render(b, 1)
  {
    GroupsRepeated(a, b);
    var parts := [Render(a, 2), Render(b, 1)];
    assert RenderAll([(a, 2), (b, 1)]) == parts;
    assert parts[1..] == [Render(b, 1)];
    assert Join(parts[1..], ", ") == Render(b, 1);
    assert Join(parts, ", ") == Render(a, 2) + ", " + Render(b, 1);
  }
}
