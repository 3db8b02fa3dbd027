/**
 * Links of the GUI's result view to the RuneScape Wiki, `src/gui/wiki.rs`:
 * the image of a material, and the wiki's perk calculator preloaded with a
 * gizmo's nine material slots. The order in which the result view lists a
 * combination (`gizmo_combination_sort` of the result module) is code outside
 * this model and comes in as the parameter `sort`.
 */
module Wiki {
  import opened Wrappers
  import opened Enums
  import opened Strings
  import opened MaterialNames

  const ImagePrefix := "https://runescape.wiki/images/"
  const ImageSuffix := ".png?00000"

  /** `wiki_image_link`: the name, each space made an underscore, inside the wiki's image address. */
  function WikiImageLink(name: string): string
  {
    ImagePrefix + Replace(name, " ", "_") + ImageSuffix
  }

  /** The image address keeps the name's length and every character but the spaces, which become underscores. */
  lemma WikiImageLinkChars(name: string)
    ensures var link := WikiImageLink(name);
      |link| == |ImagePrefix| + |name| + |ImageSuffix|
      && link[..|ImagePrefix|] == ImagePrefix && link[|ImagePrefix| + |name|..] == ImageSuffix
      && (forall k :: 0 <= k < |name| ==> link[|ImagePrefix| + k] == if name[k] == ' ' then '_' else name[k])
  {
    ReplaceCharIsReplace(name, ' ', '_');
    var mid := ReplaceChar(name, ' ', '_');
    var link := ImagePrefix + mid + ImageSuffix;
    assert forall k :: 0 <= k < |name| ==> link[|ImagePrefix| + k] == mid[k];
  }

  /** The calculator's number for each material, as `mat_link_id` lists them; Junk, which the calculator does not list, is 0. */
  function LinkNumber(m: MaterialName): (k: nat)
    ensures k <= 81
    ensures k == 0 <==> m == Junk
  {
    match m
    case BaseParts => 1
    case BladeParts => 2
    case ClearParts => 3
    case ConnectorParts => 4
    case CoverParts => 5
    case CraftedParts => 6
    case CrystalParts => 7
    case DeflectingParts => 8
    case DelicateParts => 9
    case FlexibleParts => 10
    case HeadParts => 11
    case MagicParts => 12
    case MetallicParts => 13
    case OrganicParts => 14
    case PaddedParts => 15
    case PlatedParts => 16
    case SimpleParts => 17
    case SmoothParts => 18
    case SpikedParts => 19
    case SpiritualParts => 20
    case StaveParts => 21
    case TensileParts => 22
    case DextrousComponents => 23
    case DirectComponents => 24
    case EnhancingComponents => 25
    case EtherealComponents => 26
    case EvasiveComponents => 27
    case HealthyComponents => 28
    case HeavyComponents => 29
    case ImbuedComponents => 30
    case LightComponents => 31
    case LivingComponents => 32
    case PiousComponents => 33
    case PowerfulComponents => 34
    case PreciousComponents => 35
    case PreciseComponents => 36
    case ProtectiveComponents => 37
    case RefinedComponents => 38
    case SharpComponents => 39
    case StrongComponents => 40
    case StunningComponents => 41
    case SubtleComponents => 42
    case SwiftComponents => 43
    case VariableComponents => 44
    case ArmadylComponents => 45
    case AscendedComponents => 46
    case AvernicComponents => 47
    case BandosComponents => 48
    case BrassicanComponents => 49
    case ClockworkComponents => 50
    case CorporealComponents => 51
    case CulinaryComponents => 52
    case CywirComponents => 53
    case DragonfireComponents => 54
    case ExplosiveComponents => 55
    case FacetedComponents => 56
    case FortunateComponents => 57
    case FungalComponents => 58
    case HarnessedComponents => 59
    case IlujankanComponents => 60
    case KnightlyComponents => 61
    case NoxiousComponents => 62
    case OceanicComponents => 63
    case PestiferousComponents => 64
    case ResilientComponents => 65
    case RumblingComponents => 66
    case SaradominComponents => 67
    case SerenComponents => 68
    case ShadowComponents => 69
    case ShiftingComponents => 70
    case SilentComponents => 71
    case ThirdAgeComponents => 72
    case UndeadComponents => 73
    case ZamorakComponents => 74
    case ZarosComponents => 75
    case ClassicComponents => 76
    case HistoricComponents => 77
    case TimewornComponents => 78
    case VintageComponents => 79
    case OffcutComponents => 80
    case ManufacturedComponents => 81
    case Junk => 0
  }

  /** The material listed under a calculator number, the inverse of `LinkNumber`. */
  function FromLinkNumber(k: nat): Option<MaterialName>
  {
    if k <= 22 then FromPartNumber(k) else if k <= 44 then FromComponentNumber(k) else FromRareNumber(k)
  }

  /** Numbers 1 to 22: the parts. */
  function FromPartNumber(k: nat): Option<MaterialName>
  {
    match k
    case 1 => Some(BaseParts)
    case 2 => Some(BladeParts)
    case 3 => Some(ClearParts)
    case 4 => Some(ConnectorParts)
    case 5 => Some(CoverParts)
    case 6 => Some(CraftedParts)
    case 7 => Some(CrystalParts)
    case 8 => Some(DeflectingParts)
    case 9 => Some(DelicateParts)
    case 10 => Some(FlexibleParts)
    case 11 => Some(HeadParts)
    case 12 => Some(MagicParts)
    case 13 => Some(MetallicParts)
    case 14 => Some(OrganicParts)
    case 15 => Some(PaddedParts)
    case 16 => Some(PlatedParts)
    case 17 => Some(SimpleParts)
    case 18 => Some(SmoothParts)
    case 19 => Some(SpikedParts)
    case 20 => Some(SpiritualParts)
    case 21 => Some(StaveParts)
    case 22 => Some(TensileParts)
    case _ => None
  }

  /** Numbers 23 to 44: the common components. */
  function FromComponentNumber(k: nat): Option<MaterialName>
  {
    match k
    case 23 => Some(DextrousComponents)
    case 24 => Some(DirectComponents)
    case 25 => Some(EnhancingComponents)
    case 26 => Some(EtherealComponents)
    case 27 => Some(EvasiveComponents)
    case 28 => Some(HealthyComponents)
    case 29 => Some(HeavyComponents)
    case 30 => Some(ImbuedComponents)
    case 31 => Some(LightComponents)
    case 32 => Some(LivingComponents)
    case 33 => Some(PiousComponents)
    case 34 => Some(PowerfulComponents)
    case 35 => Some(PreciousComponents)
    case 36 => Some(PreciseComponents)
    case 37 => Some(ProtectiveComponents)
    case 38 => Some(RefinedComponents)
    case 39 => Some(SharpComponents)
    case 40 => Some(StrongComponents)
    case 41 => Some(StunningComponents)
    case 42 => Some(SubtleComponents)
    case 43 => Some(SwiftComponents)
    case 44 => Some(VariableComponents)
    case _ => None
  }

  /** Numbers 45 to 81: the rare components. */
  function FromRareNumber(k: nat): Option<MaterialName>
  {
    match k
    case 45 => Some(ArmadylComponents)
    case 46 => Some(AscendedComponents)
    case 47 => Some(AvernicComponents)
    case 48 => Some(BandosComponents)
    case 49 => Some(BrassicanComponents)
    case 50 => Some(ClockworkComponents)
    case 51 => Some(CorporealComponents)
    case 52 => Some(CulinaryComponents)
    case 53 => Some(CywirComponents)
    case 54 => Some(DragonfireComponents)
    case 55 => Some(ExplosiveComponents)
    case 56 => Some(FacetedComponents)
    case 57 => Some(FortunateComponents)
    case 58 => Some(FungalComponents)
    case 59 => Some(HarnessedComponents)
    case 60 => Some(IlujankanComponents)
    case 61 => Some(KnightlyComponents)
    case 62 => Some(NoxiousComponents)
    case 63 => Some(OceanicComponents)
    case 64 => Some(PestiferousComponents)
    case 65 => Some(ResilientComponents)
    case 66 => Some(RumblingComponents)
    case 67 => Some(SaradominComponents)
    case 68 => Some(SerenComponents)
    case 69 => Some(ShadowComponents)
    case 70 => Some(ShiftingComponents)
    case 71 => Some(SilentComponents)
    case 72 => Some(ThirdAgeComponents)
    case 73 => Some(UndeadComponents)
    case 74 => Some(ZamorakComponents)
    case 75 => Some(ZarosComponents)
    case 76 => Some(ClassicComponents)
    case 77 => Some(HistoricComponents)
    case 78 => Some(TimewornComponents)
    case 79 => Some(VintageComponents)
    case 80 => Some(OffcutComponents)
    case 81 => Some(ManufacturedComponents)
    case _ => None
  }

  /**
   * Each material's number leads back to it. One lemma per material keeps
   * each proof to a single case of `LinkNumber` and `FromLinkNumber`; a
   * single quantified proof has to unfold every case at once.
   */
  lemma LinkAtBaseParts() ensures FromLinkNumber(LinkNumber(BaseParts)) == Some(BaseParts) { }
  lemma LinkAtBladeParts() ensures FromLinkNumber(LinkNumber(BladeParts)) == Some(BladeParts) { }
  lemma LinkAtClearParts() ensures FromLinkNumber(LinkNumber(ClearParts)) == Some(ClearParts) { }
  lemma LinkAtConnectorParts() ensures FromLinkNumber(LinkNumber(ConnectorParts)) == Some(ConnectorParts) { }
  lemma LinkAtCoverParts() ensures FromLinkNumber(LinkNumber(CoverParts)) == Some(CoverParts) { }
  lemma LinkAtCraftedParts() ensures FromLinkNumber(LinkNumber(CraftedParts)) == Some(CraftedParts) { }
  lemma LinkAtCrystalParts() ensures FromLinkNumber(LinkNumber(CrystalParts)) == Some(CrystalParts) { }
  lemma LinkAtDeflectingParts() ensures FromLinkNumber(LinkNumber(DeflectingParts)) == Some(DeflectingParts) { }
  lemma LinkAtDelicateParts() ensures FromLinkNumber(LinkNumber(DelicateParts)) == Some(DelicateParts) { }
  lemma LinkAtFlexibleParts() ensures FromLinkNumber(LinkNumber(FlexibleParts)) == Some(FlexibleParts) { }
  lemma LinkAtHeadParts() ensures FromLinkNumber(LinkNumber(HeadParts)) == Some(HeadParts) { }
  lemma LinkAtMagicParts() ensures FromLinkNumber(LinkNumber(MagicParts)) == Some(MagicParts) { }
  lemma LinkAtMetallicParts() ensures FromLinkNumber(LinkNumber(MetallicParts)) == Some(MetallicParts) { }
  lemma LinkAtOrganicParts() ensures FromLinkNumber(LinkNumber(OrganicParts)) == Some(OrganicParts) { }
  lemma LinkAtPaddedParts() ensures FromLinkNumber(LinkNumber(PaddedParts)) == Some(PaddedParts) { }
  lemma LinkAtPlatedParts() ensures FromLinkNumber(LinkNumber(PlatedParts)) == Some(PlatedParts) { }
  lemma LinkAtSimpleParts() ensures FromLinkNumber(LinkNumber(SimpleParts)) == Some(SimpleParts) { }
  lemma LinkAtSmoothParts() ensures FromLinkNumber(LinkNumber(SmoothParts)) == Some(SmoothParts) { }
  lemma LinkAtSpikedParts() ensures FromLinkNumber(LinkNumber(SpikedParts)) == Some(SpikedParts) { }
  lemma LinkAtSpiritualParts() ensures FromLinkNumber(LinkNumber(SpiritualParts)) == Some(SpiritualParts) { }
  lemma LinkAtStaveParts() ensures FromLinkNumber(LinkNumber(StaveParts)) == Some(StaveParts) { }
  lemma LinkAtTensileParts() ensures FromLinkNumber(LinkNumber(TensileParts)) == Some(TensileParts) { }
  lemma LinkAtDextrousComponents() ensures FromLinkNumber(LinkNumber(DextrousComponents)) == Some(DextrousComponents) { }
  lemma LinkAtDirectComponents() ensures FromLinkNumber(LinkNumber(DirectComponents)) == Some(DirectComponents) { }
  lemma LinkAtEnhancingComponents() ensures FromLinkNumber(LinkNumber(EnhancingComponents)) == Some(EnhancingComponents) { }
  lemma LinkAtEtherealComponents() ensures FromLinkNumber(LinkNumber(EtherealComponents)) == Some(EtherealComponents) { }
  lemma LinkAtEvasiveComponents() ensures FromLinkNumber(LinkNumber(EvasiveComponents)) == Some(EvasiveComponents) { }
  lemma LinkAtHealthyComponents() ensures FromLinkNumber(LinkNumber(HealthyComponents)) == Some(HealthyComponents) { }
  lemma LinkAtHeavyComponents() ensures FromLinkNumber(LinkNumber(HeavyComponents)) == Some(HeavyComponents) { }
  lemma LinkAtImbuedComponents() ensures FromLinkNumber(LinkNumber(ImbuedComponents)) == Some(ImbuedComponents) { }
  lemma LinkAtLightComponents() ensures FromLinkNumber(LinkNumber(LightComponents)) == Some(LightComponents) { }
  lemma LinkAtLivingComponents() ensures FromLinkNumber(LinkNumber(LivingComponents)) == Some(LivingComponents) { }
  lemma LinkAtPiousComponents() ensures FromLinkNumber(LinkNumber(PiousComponents)) == Some(PiousComponents) { }
  lemma LinkAtPowerfulComponents() ensures FromLinkNumber(LinkNumber(PowerfulComponents)) == Some(PowerfulComponents) { }
  lemma LinkAtPreciousComponents() ensures FromLinkNumber(LinkNumber(PreciousComponents)) == Some(PreciousComponents) { }
  lemma LinkAtPreciseComponents() ensures FromLinkNumber(LinkNumber(PreciseComponents)) == Some(PreciseComponents) { }
  lemma LinkAtProtectiveComponents() ensures FromLinkNumber(LinkNumber(ProtectiveComponents)) == Some(ProtectiveComponents) { }
  lemma LinkAtRefinedComponents() ensures FromLinkNumber(LinkNumber(RefinedComponents)) == Some(RefinedComponents) { }
  lemma LinkAtSharpComponents() ensures FromLinkNumber(LinkNumber(SharpComponents)) == Some(SharpComponents) { }
  lemma LinkAtStrongComponents() ensures FromLinkNumber(LinkNumber(StrongComponents)) == Some(StrongComponents) { }
  lemma LinkAtStunningComponents() ensures FromLinkNumber(LinkNumber(StunningComponents)) == Some(StunningComponents) { }
  lemma LinkAtSubtleComponents() ensures FromLinkNumber(LinkNumber(SubtleComponents)) == Some(SubtleComponents) { }
  lemma LinkAtSwiftComponents() ensures FromLinkNumber(LinkNumber(SwiftComponents)) == Some(SwiftComponents) { }
  lemma LinkAtVariableComponents() ensures FromLinkNumber(LinkNumber(VariableComponents)) == Some(VariableComponents) { }
  lemma LinkAtArmadylComponents() ensures FromLinkNumber(LinkNumber(ArmadylComponents)) == Some(ArmadylComponents) { }
  lemma LinkAtAscendedComponents() ensures FromLinkNumber(LinkNumber(AscendedComponents)) == Some(AscendedComponents) { }
  lemma LinkAtAvernicComponents() ensures FromLinkNumber(LinkNumber(AvernicComponents)) == Some(AvernicComponents) { }
  lemma LinkAtBandosComponents() ensures FromLinkNumber(LinkNumber(BandosComponents)) == Some(BandosComponents) { }
  lemma LinkAtBrassicanComponents() ensures FromLinkNumber(LinkNumber(BrassicanComponents)) == Some(BrassicanComponents) { }
  lemma LinkAtClockworkComponents() ensures FromLinkNumber(LinkNumber(ClockworkComponents)) == Some(ClockworkComponents) { }
  lemma LinkAtCorporealComponents() ensures FromLinkNumber(LinkNumber(CorporealComponents)) == Some(CorporealComponents) { }
  lemma LinkAtCulinaryComponents() ensures FromLinkNumber(LinkNumber(CulinaryComponents)) == Some(CulinaryComponents) { }
  lemma LinkAtCywirComponents() ensures FromLinkNumber(LinkNumber(CywirComponents)) == Some(CywirComponents) { }
  lemma LinkAtDragonfireComponents() ensures FromLinkNumber(LinkNumber(DragonfireComponents)) == Some(DragonfireComponents) { }
  lemma LinkAtExplosiveComponents() ensures FromLinkNumber(LinkNumber(ExplosiveComponents)) == Some(ExplosiveComponents) { }
  lemma LinkAtFacetedComponents() ensures FromLinkNumber(LinkNumber(FacetedComponents)) == Some(FacetedComponents) { }
  lemma LinkAtFortunateComponents() ensures FromLinkNumber(LinkNumber(FortunateComponents)) == Some(FortunateComponents) { }
  lemma LinkAtFungalComponents() ensures FromLinkNumber(LinkNumber(FungalComponents)) == Some(FungalComponents) { }
  lemma LinkAtHarnessedComponents() ensures FromLinkNumber(LinkNumber(HarnessedComponents)) == Some(HarnessedComponents) { }
  lemma LinkAtIlujankanComponents() ensures FromLinkNumber(LinkNumber(IlujankanComponents)) == Some(IlujankanComponents) { }
  lemma LinkAtKnightlyComponents() ensures FromLinkNumber(LinkNumber(KnightlyComponents)) == Some(KnightlyComponents) { }
  lemma LinkAtNoxiousComponents() ensures FromLinkNumber(LinkNumber(NoxiousComponents)) == Some(NoxiousComponents) { }
  lemma LinkAtOceanicComponents() ensures FromLinkNumber(LinkNumber(OceanicComponents)) == Some(OceanicComponents) { }
  lemma LinkAtPestiferousComponents() ensures FromLinkNumber(LinkNumber(PestiferousComponents)) == Some(PestiferousComponents) { }
  lemma LinkAtResilientComponents() ensures FromLinkNumber(LinkNumber(ResilientComponents)) == Some(ResilientComponents) { }
  lemma LinkAtRumblingComponents() ensures FromLinkNumber(LinkNumber(RumblingComponents)) == Some(RumblingComponents) { }
  lemma LinkAtSaradominComponents() ensures FromLinkNumber(LinkNumber(SaradominComponents)) == Some(SaradominComponents) { }
  lemma LinkAtSerenComponents() ensures FromLinkNumber(LinkNumber(SerenComponents)) == Some(SerenComponents) { }
  lemma LinkAtShadowComponents() ensures FromLinkNumber(LinkNumber(ShadowComponents)) == Some(ShadowComponents) { }
  lemma LinkAtShiftingComponents() ensures FromLinkNumber(LinkNumber(ShiftingComponents)) == Some(ShiftingComponents) { }
  lemma LinkAtSilentComponents() ensures FromLinkNumber(LinkNumber(SilentComponents)) == Some(SilentComponents) { }
  lemma LinkAtThirdAgeComponents() ensures FromLinkNumber(LinkNumber(ThirdAgeComponents)) == Some(ThirdAgeComponents) { }
  lemma LinkAtUndeadComponents() ensures FromLinkNumber(LinkNumber(UndeadComponents)) == Some(UndeadComponents) { }
  lemma LinkAtZamorakComponents() ensures FromLinkNumber(LinkNumber(ZamorakComponents)) == Some(ZamorakComponents) { }
  lemma LinkAtZarosComponents() ensures FromLinkNumber(LinkNumber(ZarosComponents)) == Some(ZarosComponents) { }
  lemma LinkAtClassicComponents() ensures FromLinkNumber(LinkNumber(ClassicComponents)) == Some(ClassicComponents) { }
  lemma LinkAtHistoricComponents() ensures FromLinkNumber(LinkNumber(HistoricComponents)) == Some(HistoricComponents) { }
  lemma LinkAtTimewornComponents() ensures FromLinkNumber(LinkNumber(TimewornComponents)) == Some(TimewornComponents) { }
  lemma LinkAtVintageComponents() ensures FromLinkNumber(LinkNumber(VintageComponents)) == Some(VintageComponents) { }
  lemma LinkAtOffcutComponents() ensures FromLinkNumber(LinkNumber(OffcutComponents)) == Some(OffcutComponents) { }
  lemma LinkAtManufacturedComponents() ensures FromLinkNumber(LinkNumber(ManufacturedComponents)) == Some(ManufacturedComponents) { }

  /** Every listed material is found again under its number, so no two share one. */
  lemma LinkNumberInverse(m: MaterialName)
    requires m != Junk
    ensures FromLinkNumber(LinkNumber(m)) == Some(m)
  {
    match m
    case BaseParts => LinkAtBaseParts();
    case BladeParts => LinkAtBladeParts();
    case ClearParts => LinkAtClearParts();
    case ConnectorParts => LinkAtConnectorParts();
    case CoverParts => LinkAtCoverParts();
    case CraftedParts => LinkAtCraftedParts();
    case CrystalParts => LinkAtCrystalParts();
    case DeflectingParts => LinkAtDeflectingParts();
    case DelicateParts => LinkAtDelicateParts();
    case FlexibleParts => LinkAtFlexibleParts();
    case HeadParts => LinkAtHeadParts();
    case MagicParts => LinkAtMagicParts();
    case MetallicParts => LinkAtMetallicParts();
    case OrganicParts => LinkAtOrganicParts();
    case PaddedParts => LinkAtPaddedParts();
    case PlatedParts => LinkAtPlatedParts();
    case SimpleParts => LinkAtSimpleParts();
    case SmoothParts => LinkAtSmoothParts();
    case SpikedParts => LinkAtSpikedParts();
    case SpiritualParts => LinkAtSpiritualParts();
    case StaveParts => LinkAtStaveParts();
    case TensileParts => LinkAtTensileParts();
    case DextrousComponents => LinkAtDextrousComponents();
    case DirectComponents => LinkAtDirectComponents();
    case EnhancingComponents => LinkAtEnhancingComponents();
    case EtherealComponents => LinkAtEtherealComponents();
    case EvasiveComponents => LinkAtEvasiveComponents();
    case HealthyComponents => LinkAtHealthyComponents();
    case HeavyComponents => LinkAtHeavyComponents();
    case ImbuedComponents => LinkAtImbuedComponents();
    case LightComponents => LinkAtLightComponents();
    case LivingComponents => LinkAtLivingComponents();
    case PiousComponents => LinkAtPiousComponents();
    case PowerfulComponents => LinkAtPowerfulComponents();
    case PreciousComponents => LinkAtPreciousComponents();
    case PreciseComponents => LinkAtPreciseComponents();
    case ProtectiveComponents => LinkAtProtectiveComponents();
    case RefinedComponents => LinkAtRefinedComponents();
    case SharpComponents => LinkAtSharpComponents();
    case StrongComponents => LinkAtStrongComponents();
    case StunningComponents => LinkAtStunningComponents();
    case SubtleComponents => LinkAtSubtleComponents();
    case SwiftComponents => LinkAtSwiftComponents();
    case VariableComponents => LinkAtVariableComponents();
    case ArmadylComponents => LinkAtArmadylComponents();
    case AscendedComponents => LinkAtAscendedComponents();
    case AvernicComponents => LinkAtAvernicComponents();
    case BandosComponents => LinkAtBandosComponents();
    case BrassicanComponents => LinkAtBrassicanComponents();
    case ClockworkComponents => LinkAtClockworkComponents();
    case CorporealComponents => LinkAtCorporealComponents();
    case CulinaryComponents => LinkAtCulinaryComponents();
    case CywirComponents => LinkAtCywirComponents();
    case DragonfireComponents => LinkAtDragonfireComponents();
    case ExplosiveComponents => LinkAtExplosiveComponents();
    case FacetedComponents => LinkAtFacetedComponents();
    case FortunateComponents => LinkAtFortunateComponents();
    case FungalComponents => LinkAtFungalComponents();
    case HarnessedComponents => LinkAtHarnessedComponents();
    case IlujankanComponents => LinkAtIlujankanComponents();
    case KnightlyComponents => LinkAtKnightlyComponents();
    case NoxiousComponents => LinkAtNoxiousComponents();
    case OceanicComponents => LinkAtOceanicComponents();
    case PestiferousComponents => LinkAtPestiferousComponents();
    case ResilientComponents => LinkAtResilientComponents();
    case RumblingComponents => LinkAtRumblingComponents();
    case SaradominComponents => LinkAtSaradominComponents();
    case SerenComponents => LinkAtSerenComponents();
    case ShadowComponents => LinkAtShadowComponents();
    case ShiftingComponents => LinkAtShiftingComponents();
    case SilentComponents => LinkAtSilentComponents();
    case ThirdAgeComponents => LinkAtThirdAgeComponents();
    case UndeadComponents => LinkAtUndeadComponents();
    case ZamorakComponents => LinkAtZamorakComponents();
    case ZarosComponents => LinkAtZarosComponents();
    case ClassicComponents => LinkAtClassicComponents();
    case HistoricComponents => LinkAtHistoricComponents();
    case TimewornComponents => LinkAtTimewornComponents();
    case VintageComponents => LinkAtVintageComponents();
    case OffcutComponents => LinkAtOffcutComponents();
    case ManufacturedComponents => LinkAtManufacturedComponents();
    case Junk => assert false;
  }



  lemma DecimalInjective(k1: nat, k2: nat)
    ensures Decimal(k1) == Decimal(k2) ==> k1 == k2
  {
    DecimalValue(k1);
    DecimalValue(k2);
  }

  /** `mat_link_id`: the calculator number as text. */
  function MatLinkId(m: MaterialName): string
  {
    Decimal(LinkNumber(m))
  }

  /** Distinct listed materials have distinct numbers. */
  lemma LinkNumberInjective(m1: MaterialName, m2: MaterialName)
    requires m1 != Junk && m2 != Junk && m1 != m2
    ensures LinkNumber(m1) != LinkNumber(m2)
  {
    LinkNumberInverse(m1);
    LinkNumberInverse(m2);
  }

  /** Junk, and only Junk, is "0"; every other material has its own id. */
  lemma MatLinkIdDistinct(m1: MaterialName, m2: MaterialName)
    ensures MatLinkId(m1) == "0" <==> m1 == Junk
    ensures m1 != m2 && m1 != Junk && m2 != Junk ==> MatLinkId(m1) != MatLinkId(m2)
  {
    DecimalInjective(LinkNumber(m1), 0);
    DecimalInjective(LinkNumber(m1), LinkNumber(m2));
    if m1 != Junk && m2 != Junk && m1 != m2 {
      LinkNumberInjective(m1, m2);
    }
  }

  /** The ids of a combination, in its order. */
  function Ids(comb: seq<MaterialName>): (r: seq<string>)
    ensures |r| == |comb|
    ensures forall i :: 0 <= i < |comb| ==> r[i] == MatLinkId(comb[i])
  {
    if comb == [] then [] else [MatLinkId(comb[0])] + Ids(comb[1..])
  }

  /** `Vec::resize`: cut to `n` entries, or filled up to `n` with `pad`. */
  function Resized(s: seq<string>, n: nat, pad: string): (r: seq<string>)
    ensures |r| == n
    ensures forall i :: 0 <= i < n ==> r[i] == if i < |s| then s[i] else pad
  {
    if n <= |s| then s[..n] else s + seq(n - |s|, _ => pad)
  }

  /** The wiki's slot order: the first three slots rotated one place to the left, the other six kept. */
  function WikiOrder(p: seq<string>): (r: seq<string>)
    requires |p| == 9
    ensures |r| == 9 && multiset(r) == multiset(p)
    ensures r[0] == p[1] && r[1] == p[2] && r[2] == p[0] && r[3..] == p[3..]
  {
    assert p == [p[0], p[1], p[2]] + p[3..];
    assert multiset([p[1], p[2], p[0]]) == multiset([p[0], p[1], p[2]]);
    [p[1], p[2], p[0]] + p[3..]
  }

  function GizmoParam(g: GizmoType): string
  {
    match g
    case Weapon => "g=1"
    case Armour => "g=2"
    case Tool => "g=3"
  }

  function AncientParam(ancient: bool): string
  {
    if ancient then "&a=1" else ""
  }

  /** The calculator address for a gizmo type, a level, the ancient flag and the nine slot ids. */
  function CalcLink(g: GizmoType, level: nat, ancient: bool, slots: seq<string>): string
  {
    "https://runescape.wiki/w/Calculator:Perks#" + GizmoParam(g) + "&l=" + Decimal(level) + AncientParam(ancient)
      + "&m=" + Join(slots, ",")
  }

  /** The two swaps of `make_wiki_calc_link` on the nine slots: slot 0 with 1, then slot 1 with 2. */
  method SwapIntoWikiOrder(ids: seq<string>) returns (order: seq<string>)
    requires |ids| == 9
    ensures order == WikiOrder(ids)
  {
    var slots := new string[9](i requires 0 <= i < 9 => ids[i]);
    slots[0], slots[1] := slots[1], slots[0];
    slots[1], slots[2] := slots[2], slots[1];
    order := slots[..];
    assert order[..3] == [ids[1], ids[2], ids[0]];
    assert order[3..] == ids[3..];
    assert order == order[..3] + order[3..];
  }

  /**
   * `make_wiki_calc_link`: the combination in its display order as ids,
   * resized to the nine slots with "0", then two swaps into the wiki's order.
   */
  method MakeWikiCalcLink(comb: seq<MaterialName>, ancient: bool, gizmoType: GizmoType, level: nat,
                          sort: seq<MaterialName> -> seq<MaterialName>) returns (link: string)
    requires level < 256
    ensures link == CalcLink(gizmoType, level, ancient, WikiOrder(Resized(Ids(sort(comb)), 9, "0")))
  {
    var ids := Resized(Ids(sort(comb)), 9, "0");
    var order := SwapIntoWikiOrder(ids);
    link := CalcLink(gizmoType, level, ancient, order);
  }

  /** The nine slots: the first three displayed materials rotated, then the next six, then "0" for each empty slot. */
  lemma SlotsShape(sorted: seq<MaterialName>)
    ensures var slots := WikiOrder(Resized(Ids(sorted), 9, "0"));
      |slots| == 9
      && (forall i :: 3 <= i < 9 ==> slots[i] == if i < |sorted| then MatLinkId(sorted[i]) else "0")
      && slots[0] == (if 1 < |sorted| then MatLinkId(sorted[1]) else "0")
      && slots[1] == (if 2 < |sorted| then MatLinkId(sorted[2]) else "0")
      && slots[2] == (if 0 < |sorted| then MatLinkId(sorted[0]) else "0")
  {
  }

  /** The gizmo types get distinct parameters, and the ancient parameter is present exactly for an ancient gizmo. */
  lemma ParamsDistinct(g1: GizmoType, g2: GizmoType, ancient: bool)
    ensures GizmoParam(g1) == GizmoParam(g2) <==> g1 == g2
    ensures AncientParam(ancient) == "&a=1" <==> ancient
    ensures !ancient ==> AncientParam(ancient) == ""
  {
  }
}
