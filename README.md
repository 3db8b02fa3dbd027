# Runescape perk solver: the integer core in Dafny

The perk solver looks for the Invention material combinations most likely to
produce a wanted gizmo (one or two perks at given ranks). This project models
the part of the solver that works on integers and lists, and proves its
properties:

- **Data model.** Material names and their index order, perk and gizmo values,
  and the two fixed-capacity containers (`StackVec`, `StackMap`) as classes
  over arrays. The perk and gizmo values live both in `src/prelude` and in
  `src/definitions`.
- **Command-line set-up.** `Args::create` normalises the parsed command line.
  `process_wanted_gizmo` and `validate_input` turn the arguments into the
  wanted gizmo or an error message.
- **The search set-up in `src/lib.rs`.** It picks the materials that can give
  a wanted perk, splits them by whether they may tie on cost with a wanted
  rank, and counts the combinations the search will visit.
- **The integer half of `src/perk_values.rs`.** Folding materials into a base
  value and dice per perk. The cheap test that the wanted ranks can be
  rolled. The rank combinations over each perk's window. The equal-cost
  conflict test.
- **Ordering and thresholds.** The Jagex quicksort on rank costs, in place on
  an array. The gizmo cost thresholds.
- **GUI logic.** The settings object and its message handler, the numeric
  input field, the conversion of GUI settings to a command line, and the
  wiki-calculator link.
- **Thousands separators.** The `format_int` helpers used by both front ends.

The catalogue of materials and perks is one abstract parameter `Data` (total
functions from names to component and rank tables) with a `WellFormed`
predicate, so every property holds for any catalogue. Perk-name parsing and
display, the material sort used by the wiki link, and the GUI's `on_change`
callbacks are function parameters.

Imperative source is modelled as methods: the quicksort, the threshold
search, the perk-value fold, the scans, the combination count, `format_int`,
the GUI settings and the containers. Each method is proved equal to a
specification function. The properties the source promises are lemmas about
those functions. Pure source (equality of perks and gizmos, argument
normalisation, validation, link building) is modelled as functions and lemmas.

## Model

| member | source | states |
|---|---|---|
| DefinitionsPerk.FromRank | src/definitions/perk.rs:27-34 | the perk built from a rank entry compares equal to that entry |
| DefinitionsPerk.EqualsRankIsFrom | src/definitions/perk.rs:15-19 | a perk equals a rank entry exactly when it is the perk built from it |
| DefinitionsPerk.CrossEqualitySymmetric | src/definitions/perk.rs:21-25 | the perk/rank-entry comparison gives the same answer in both directions |
| DefinitionsPerk.DefaultIsEmpty | src/definitions/perk.rs:9-13 | the default perk is empty, and a perk is empty exactly when its name is Empty |
| PreludePerk.FromRank | src/prelude/perk.rs:30-37 | the perk built from a rank entry compares equal to that entry |
| PreludePerk.EqualsRankIsFrom | src/prelude/perk.rs:18-22 | a perk equals a rank entry exactly when it is the perk built from it |
| PreludePerk.CrossEqualitySymmetric | src/prelude/perk.rs:24-28 | the comparison is symmetric between the two types |
| PreludePerk.EqualsRankNeedsBoth | src/prelude/perk.rs:18-22 | changing either the name or the rank of the entry breaks equality |
| PreludePerk.DefaultIsEmpty | src/prelude/perk.rs:9-16 | the default perk is empty, and a perk is empty exactly when its name is Empty |
| PreludeData.ComponentsOwnList | src/prelude/data/prelude.rs:50-60 | each gizmo type reads its own component list and only that: replacing one type's list is seen at that type alone, the ancient-only flag never matters, and three different lists give three different answers |
| Definitions.IterRanks | src/definitions.rs:71-75 | the ranks from i_first to i_last inclusive, cut off at the table's end |
| Definitions.IterRanksNoZero | src/definitions.rs:77-81 | the same window, starting at rank 1 at the earliest |
| Definitions.NoZeroSkipsRankZero | src/definitions.rs:71-81 | the no-zero window equals the full window without rank 0, and the two windows are equal when i_first is at least 1 |
| Definitions.DefaultPerkValuesEmpty | src/definitions.rs:56-68 | default perk values have the Empty name and an empty rank window |
| DefinitionsGizmo.Create | src/definitions/gizmo.rs:30-49 | the first perk matches x; the second matches y, or is the default perk when y is absent; the cost is the sum of the two costs; the probability starts at 0 |
| DefinitionsGizmo.CreateFromDoubleslot | src/definitions/gizmo.rs:51-63 | the first perk matches x and the second is empty, while the cost still adds both costs |
| DefinitionsGizmo.EqIsUnorderedPairEquality | src/definitions/gizmo.rs:21-24 | gizmo equality holds exactly when the two gizmos have the same pair of perks in either order |
| DefinitionsGizmo.EqSymmetric | src/definitions/gizmo.rs:21-24 | gizmo equality is symmetric |
| DefinitionsGizmo.EqNeedsRanks | src/definitions/gizmo.rs:21-24 | for two distinct perks whose names match slot by slot or crosswise, `eq` holds exactly when the ranks match the same way, so a different rank in either slot and either order is not the same gizmo |
| DefinitionsGizmo.EqImpliesFuzzy | src/definitions/gizmo.rs:21-28 | equal gizmos are also fuzzy-equal |
| DefinitionsGizmo.CreateVariantsAgree | src/definitions/gizmo.rs:30-63 | both constructors agree on the first perk and the cost, and agree fully when there is no second entry |
| DefinitionsGizmo.Examples | src/definitions/gizmo.rs:71-259 | the ten unit tests, with their perks and ranks: the seven `eq` cases and the three `fuzzy_eq` cases |
| StackVecs.StackVec.New | src/prelude/data/prelude/stack_vec.rs:11-23 | the vector has the given capacity and holds the slice |
| StackVecs.StackVec.Default | src/prelude/data/prelude/stack_vec.rs:136-140 | an empty vector of the given capacity |
| StackVecs.StackVec.Len | src/prelude/data/prelude/stack_vec.rs:25-27 | the number of elements held, never more than the capacity |
| StackVecs.StackVec.IsEmpty | src/prelude/data/prelude/stack_vec.rs:29-31 | true exactly when nothing is held |
| StackVecs.StackVec.At | src/prelude/data/prelude/stack_vec.rs:51-56 | the i-th element held, for indices below the length |
| StackVecs.StackVec.Push | src/prelude/data/prelude/stack_vec.rs:39-45 | appends one element below capacity, leaving the earlier elements as they were |
| StackVecs.StackVec.Equals | src/prelude/data/prelude/stack_vec.rs:94-106 | true exactly when both vectors hold the same elements, whatever their capacities |
| StackVecs.StackVec.EqualsSeq | src/prelude/data/prelude/stack_vec.rs:108-120 | true exactly when the vector holds the given sequence |
| StackVecs.SeqEquals | src/prelude/data/prelude/stack_vec.rs:122-134 | the same comparison with the sequence on the left |
| StackVecs.Examples | src/prelude/data/prelude/stack_vec.rs:146-158 | the unit test: the vector built from a slice equals that slice |
| StackMaps.StackMap.Entries | src/prelude/data/stack_map.rs:43-45 | one (key, value) pair per slot |
| StackMaps.StackMap.New | src/prelude/data/stack_map.rs:21-27 | every slot holds the default key and value |
| StackMaps.StackMap.Get | src/prelude/data/stack_map.rs:35-41 | the value in the key's ordinal slot |
| StackMaps.StackMap.Insert | src/prelude/data/stack_map.rs:29-33 | writes the pair into the key's slot; the key then maps to the new value and every other slot is unchanged |
| StackMaps.InsertedLast | src/prelude/data/stack_map.rs:78-87 | after a list of inserts, a slot holds the value of the last insert into it |
| StackMaps.InsertedUntouched | src/prelude/data/stack_map.rs:78-87 | a slot that no insert touches keeps its default value |
| StackMaps.FromEntries | src/prelude/data/stack_map.rs:78-87 | the map-literal macro builds the map whose key slots and value slots the inserts determine, in order |
| StackMaps.InsertedKeysOrdinal | src/prelude/data/stack_map.rs:78-87 | after the inserts, every key slot holds its default key or a key whose ordinal is that slot |
| MaterialNames.Index | src/prelude/material_name.rs:238-242 | the declaration index of a material, which maps back to that material |
| MaterialNames.IndexFromIndex | src/prelude/material_name.rs:238-242 | index lookup inverts the material-at-index lookup |
| MaterialNames.AtIndex | src/prelude/material_name.rs:238-242 | a material sits at an index exactly when that is its index |
| MaterialNames.FromStr | src/prelude/material_name.rs:224-235 | finds the first material in declaration order whose name matches the query; fails with "Unknown material name" exactly when none matches |
| MaterialNames.FirstWhere | src/prelude/material_name.rs:225-233 | the search loop behind name lookup: the returned material passes the test and no material declared before it does; nothing is returned exactly when no material passes |
| MaterialNames.Groups | src/prelude/material_name.rs:192-205 | one group per distinct material, in order of first occurrence, counting how often it occurs |
| MaterialNames.GroupsAreCounts | src/prelude/material_name.rs:192-205 | the groups cover exactly the materials present, each once, in first-occurrence order, with their multiplicities |
| MaterialNames.RenderAll | src/prelude/material_name.rs:192-205 | every group is rendered as its count and name |
| MaterialNames.DedupRepeated | src/prelude/material_name.rs:192-205 | repeats of an earlier material add no new entry |
| MaterialNames.GroupsRepeated | src/prelude/material_name.rs:192-205 | a repeated material is counted twice and keeps its first position |
| MaterialNames.VecToStringRepeated | src/prelude/material_name.rs:192-205 | the rendering joins the groups with ", " in first-occurrence order |
| Seqs.Dedup | src/prelude/material_name.rs:192-205 | distinct elements, the same set of elements, kept in order of first occurrence |
| Seqs.TakeSkip | src/definitions.rs:71-75 | skipping then taking equals the clamped slice of the ranks |
| PreludeArgs.LevelsFromInput | src/prelude/args.rs:163-167 | read back from the result: an error means no level was given, a single level is the only value given, a range is the first two values given, and values after the second never matter |
| PreludeArgs.FileOptionRoundTrip | src/prelude/args.rs:221-231 | writing a switched-off file back as "false" gives the name that was read, and every setting other than a file literally named "false" comes from exactly one name |
| PreludeArgs.PerkTwo | src/prelude/args.rs:181-198 | the second perk is accepted exactly when it is absent, "any" in any case, or a name that parses; a parsed name is kept and any other name fails with its own message |
| PreludeArgs.ArgsCreate | src/prelude/args.rs:148-252 | checks the levels, then the first perk, then the second, each failure its own message ("Bad command" for other sub-commands). The result is Ok exactly when every check passes: a Gizmo command, a level, a first perk that parses, and a second perk that is absent, "any" or parses. On success: "any" makes the second perk Empty and turns fuzzy on; an Empty second perk has rank 0; excludes are expanded; "false" file names become None; the result depth is the alternative count plus 1 |
| PreludeArgs.MatchingMembers | src/prelude/args.rs:206-219 | an exclude entry matches exactly the materials whose lower-cased name contains it |
| PreludeArgs.ExpandExcludeMembers | src/prelude/args.rs:206-219 | a material is excluded exactly when some non-empty entry occurs in its lower-cased name |
| PreludeArgs.MatchingIncreasing | src/prelude/args.rs:206-219 | an entry's matches come in declaration order, each once |
| CliValidation.ProcessWantedGizmo | src/main.rs:19-44 | fails on an unknown first or second perk with its message, and succeeds otherwise. On success the wanted perks carry the parsed names, the ranks and the catalogue's doubleslot flags; an absent second perk is Empty at rank 0 |
| CliValidation.ValidateLevels | src/main.rs:66-80 | accepts exactly levels within 1..137 that are in order; a reversed range and an out-of-bounds level have distinct messages |
| CliValidation.ValidateInput | src/main.rs:46-80 | accepts exactly a gizmo that is consistent with the catalogue at valid levels. Checks run in source order: a doubleslot perk with a second perk, then a rank beyond the first perk's table, then a rank beyond the second perk's table (each with its own message), then the levels |
| CliValidation.ValidRangeOrdered | src/main.rs:66-80 | an accepted range satisfies 1 <= low <= high <= 137 |
| CliValidation.LevelsBeyondSecondIgnored | src/main.rs:66-80 | values after the second level do not change the verdict |
| Solver.Filter | src/lib.rs:48-50 | keeps exactly the elements that pass the test |
| Solver.FilterInOrder | src/lib.rs:36-57 | filtering the declaration-order list is the declaration-order list of the combined test |
| Solver.AddMaterial | src/lib.rs:39-46 | the loop body adds the material exactly when it is allowed and has a component of a wanted perk for the gizmo type |
| Solver.GetMaterials | src/lib.rs:36-57 | returns, in declaration order, exactly the allowed, non-excluded materials that give a wanted perk; an empty selection is an error |
| Solver.MaterialConflicts | src/lib.rs:75-92 | a material conflicts exactly when some rank of one of its perks ties on cost with a wanted rank |
| Solver.SplitMaterialsOf | src/lib.rs:64-95 | the conflict and no-conflict lists are the two halves of the material list, each in input order |
| Solver.PartitionCovers | src/lib.rs:64-95 | the two lists together are a permutation of the input, split exactly by the conflict test |
| Solver.Factorial | src/lib.rs:128-134 | the factorial is at least 1 |
| Solver.Choose | src/lib.rs:136-147 | the binomial coefficient is 0 when k exceeds n and 1 when k is 0 |
| Solver.Fac | src/lib.rs:128-134 | the loop computes the factorial |
| Solver.AccumulateK | src/lib.rs:140-143 | the inner loop computes its sum of terms |
| Solver.AccumulateJ | src/lib.rs:139-145 | the middle loop computes its sum over conflict counts |
| Solver.CalcCombinationCount | src/lib.rs:124-154 | the nested loops compute the combination count, with the slot count added at the end |
| Solver.NoConflictCount | src/lib.rs:136-147 | with no conflict materials, the sum counts the multisets of non-conflict materials of every size up to the slot count |
| Solver.NoMaterialsCount | src/lib.rs:124-151 | with no materials the count is just the slot count: 9 on an ancient gizmo, otherwise 5 |
| Solver.ZeroKindsNoMultisets | src/lib.rs:136-147 | no material kinds give no non-empty multisets |
| PerkArithmetic.Scaled | src/perk_values.rs:26-29 | an ancient gizmo scales a non-ancient material's values by 0.8, rounded down; otherwise values are unchanged |
| PerkArithmetic.NameIndex | src/perk_values.rs:31-42 | the position of the first entry with the perk, or the length when none has it |
| PerkArithmetic.AddComponent | src/perk_values.rs:31-42 | adds the component to its perk's entry, or appends a new entry, keeping the name index in step |
| PerkArithmetic.AddMaterial | src/perk_values.rs:18-42 | folds one material's components into the entries |
| PerkArithmetic.GetPerkValues | src/perk_values.rs:8-47 | the loop computes the grouped perk values of the material list |
| PerkArithmetic.AncientMaterialSkipped | src/perk_values.rs:18-20 | for a non-ancient gizmo an ancient-only material changes nothing |
| PerkArithmetic.MaterialScaling | src/perk_values.rs:26-29 | one material contributes its gizmo-type components with base and roll scaled |
| PerkArithmetic.GroupNames | src/perk_values.rs:31-42 | the entry names are the contributing perks, once each, in first-occurrence order |
| PerkArithmetic.GroupSums | src/perk_values.rs:31-42 | each entry's base is the sum of its perk's bases, and its rolls are its perk's rolls in order |
| PerkArithmetic.PerkValuesSummary | src/perk_values.rs:8-47 | the result has one entry per distinct perk, holding the summed base and the rolls of that perk |
| PerkArithmetic.ExampleAncientSkipped | src/perk_values.rs:435-455 | the behaviour `ancient_mats_non_ancient_weapon_gizmo` checks, on a two-material stand-in catalogue (not the test's data): the ancient-only material adds nothing to a normal gizmo |
| PerkArithmetic.ExampleAncientScaled | src/perk_values.rs:496-520 | the behaviour `ancient_mats_ancient_weapon_gizmo` checks, on the same stand-in catalogue (not the test's data): on an ancient gizmo the non-ancient material's values are scaled by 8/10, floored, and the ancient one's are kept |
| PerkArithmetic.FindWanted | src/perk_values.rs:140-152 | the search loop finds the entries of the two wanted perks and stops once both are found |
| PerkArithmetic.ScanTracks | src/perk_values.rs:140-152 | the scan keeps an entry of that name for each wanted perk, or none when the perk is absent |
| PerkArithmetic.CanGenerateWantedRanks | src/perk_values.rs:122-168 | the method computes the feasibility test |
| PerkArithmetic.CanGenerateIff | src/perk_values.rs:122-168 | feasible exactly when the first wanted perk has an entry that can reach its rank (base plus highest roll at least the threshold, base below the next threshold), and so does the second unless it is Empty |
| PerkArithmetic.ExampleWantedMissing | src/perk_values.rs:975-1132 | the test: a missing wanted perk is infeasible |
| PerkArithmetic.ExampleBelowThreshold | src/perk_values.rs:975-1132 | the test: a maximum below the threshold is infeasible |
| PerkArithmetic.ExampleAboveThreshold | src/perk_values.rs:975-1132 | the test: reaching the threshold is feasible |
| PerkArithmetic.ExampleBaseTooHigh | src/perk_values.rs:975-1132 | the test: a base already at the next rank is infeasible |
| PerkArithmetic.UnwantedPerkWholeWindow | src/perk_values.rs:173-188 | a perk the wanted gizmo does not name keeps its whole window i_first..=i_last |
| PerkArithmetic.Window | src/perk_values.rs:173-188 | the ranks within the bounds, clamped to the table |
| PerkArithmetic.Windows | src/perk_values.rs:173-188 | one window per perk, in perk order |
| PerkArithmetic.PermutatePerkRanks | src/perk_values.rs:170-200 | the method builds exactly the rank selections |
| PerkArithmetic.ProductSize | src/perk_values.rs:190-199 | the cartesian product has the product of the window sizes as its length |
| PerkArithmetic.ProductMembers | src/perk_values.rs:190-199 | a combination is in the product exactly when it takes one element from each window, in order |
| PerkArithmetic.SelectionsCountAndShape | src/perk_values.rs:170-200 | one combination per choice of a rank from each window, and none for an empty perk list; each combination takes its ranks from the windows in perk order |
| PerkArithmetic.WantedPerkPinned | src/perk_values.rs:173-188 | the first wanted perk's window is its single wanted rank |
| PerkArithmetic.SecondWantedPerkPinned | src/perk_values.rs:173-188 | the second wanted perk's window is its single wanted rank |
| PerkArithmetic.ExamplePermutateNoWanted | src/perk_values.rs:1148-1221 | the test's combinations without a wanted gizmo |
| PerkArithmetic.ExamplePermutateOneWanted | src/perk_values.rs:1264-1310 | the test's combinations with a wanted perk pinned |
| PerkArithmetic.RankHits | src/perk_values.rs:303-324 | true exactly when some rank in the window costs the same as a wanted rank |
| PerkArithmetic.PerksHitIff | src/perk_values.rs:303-324 | the scan over perks finds a hit exactly when some unwanted perk has a rank with a wanted cost |
| PerkArithmetic.ContainsConflictRanks | src/perk_values.rs:303-324 | a conflict exactly when the two wanted costs are equal, or some unwanted perk has a rank of a wanted cost |
| JagexSort.Swap | src/jagex_sort.rs:11-16 | the two positions exchange their elements |
| JagexSort.PartitionLoop | src/jagex_sort.rs:11-16 | the partition loop keeps the length and leaves the counter in range |
| JagexSort.Partition | src/jagex_sort.rs:4-19 | the partition keeps the length and leaves the pivot position within the range |
| JagexSort.PartitionSplits | src/jagex_sort.rs:4-19 | permutes the range; costs left of the pivot are at most the pivot's, and costs right of it are at least the pivot's |
| JagexSort.SortRangeSorts | src/jagex_sort.rs:4-26 | sorting a range leaves it sorted by cost, permuted within the range, with other positions untouched |
| JagexSort.QuicksortSortsAndPermutes | src/jagex_sort.rs:3-29 | the whole list comes out sorted by cost, as a permutation of the input |
| JagexSort.PartitionInPlace | src/jagex_sort.rs:4-19 | the in-place partition computes the partition specification |
| JagexSort.SortRange | src/jagex_sort.rs:4-26 | the in-place recursion computes the range-sort specification |
| JagexSort.JagexQuicksort | src/jagex_sort.rs:3-29 | the array comes out sorted by cost, as a permutation of its old contents |
| JagexSort.EvenEqualCosts5 | src/jagex_sort.rs:164-186 | the test's order for equal costs |
| JagexSort.EvenEqualCosts1 | src/jagex_sort.rs:68-90 | the test's order for equal costs in another starting order |
| JagexSort.EvenNoEqualCosts | src/jagex_sort.rs:44-66 | the test's order for distinct costs |
| GizmoCostThresholds.PushReplace | src/gizmo_cost_thresholds.rs:18-22 | a gizmo with the same cost as the last replaces it; any other is appended; earlier entries stay |
| GizmoCostThresholds.PairGizmo | src/gizmo_cost_thresholds.rs:25-39 | a pair costs the sum; with a doubleslot partner the second perk is empty |
| GizmoCostThresholds.PushReplacing | src/gizmo_cost_thresholds.rs:18-22 | the method computes the push-or-replace step |
| GizmoCostThresholds.AddPairs | src/gizmo_cost_thresholds.rs:25-39 | the pair loop computes the pair specification |
| GizmoCostThresholds.FindGizmoCostThresholds | src/gizmo_cost_thresholds.rs:3-44 | the method computes the threshold list |
| GizmoCostThresholds.ThresholdsShape | src/gizmo_cost_thresholds.rs:3-44 | the list starts with the cost -1 sentinel, and then holds only gizmos made at an entry of non-zero rank: its single gizmo, or its pair with an entry past the first ZerosBefore(i) positions (ZerosBefore counts the rank-0 entries, as the source's skip does; the partner is of non-zero rank when the rank-0 entries lead, see PairPartnersNonZero) |
| GizmoCostThresholds.PairPartnersNonZero | src/gizmo_cost_thresholds.rs:25-39 | with rank-0 entries first, every pair partner has a non-zero rank |
| GizmoCostThresholds.AllRankZeroGivesSentinel | src/gizmo_cost_thresholds.rs:9-12 | all ranks 0 leave only the sentinel |
| GizmoCostThresholds.StopsAtCostlyRank | src/gizmo_cost_thresholds.rs:14-16 | nothing after the first non-zero rank costing at least max_range matters |
| GizmoCostThresholds.PushReplaceIncreasing | src/gizmo_cost_thresholds.rs:18-22 | pushing a cost no lower than the last keeps the costs strictly increasing |
| GizmoCostThresholds.SortedGivesIncreasing | src/gizmo_cost_thresholds.rs:3-44 | ranks sorted by cost give strictly increasing threshold costs |
| GizmoCostThresholds.ExampleAllRankZero | src/gizmo_cost_thresholds.rs:66-81 | the test: all ranks 0 |
| GizmoCostThresholds.ExampleSecondaryAboveMaxRange | src/gizmo_cost_thresholds.rs:83-104 | the test: a secondary rank above max_range |
| GizmoCostThresholds.ExamplePrimaryAboveMaxRange | src/gizmo_cost_thresholds.rs:105-125 | the test: a primary rank above max_range |
| GizmoCostThresholds.ExampleAllAboveMaxRange | src/gizmo_cost_thresholds.rs:126-143 | the test: everything above max_range |
| GizmoCostThresholds.ExampleTwoEqualCosts | src/gizmo_cost_thresholds.rs:144-168 | the test: two equal costs collapse into one entry |
| GizmoCostThresholds.ExampleThreeEqualCostsExcludingFirst | src/gizmo_cost_thresholds.rs:169-194 | the test: three equal costs collapse into one entry |
| GizmoCostThresholds.ExamplePerkIsDoubleslot | src/gizmo_cost_thresholds.rs:195-221 | the test: a doubleslot perk makes single and pair gizmos without a second perk |
| Strings.ToLower | src/prelude/args.rs:181-198 | lower-cases letter by letter, keeping the length |
| Strings.DecimalValue | src/gui/wiki.rs:43-46 | reading back the decimal rendering gives the number |
| Strings.SplitJoin | src/gui/args.rs:173 | joining the split parts with the separator gives back the text, and no part contains the separator |
| Strings.ReplaceCharIsReplace | src/gui/args.rs:173 | replacing a one-character pattern changes exactly that character |
| Strings.ReverseReverse | src/utils.rs:16-33 | reversing twice gives back the text |
| Formatting.FormatInt | src/utils.rs:16-33 | the loop computes the formatted number |
| Formatting.GroupDigitsRemove | src/utils.rs:16-33 | removing the commas gives back the digits |
| Formatting.GroupDigitsShape | src/utils.rs:16-33 | the first group has 1 to 3 digits, every later group exactly 3 |
| Formatting.FormattedDigits | src/utils.rs:16-33 | without the sign and commas the result is the decimal rendering of the absolute value |
| Formatting.FormattedEnds | src/utils.rs:26-31 | never starts or ends with a comma; a negative number is "-" before the formatted absolute value |
| Formatting.FormattedThousand | src/utils.rs:20-25 | multiplying by 1000 appends ",000" |
| Formatting.ExampleZero | src/utils.rs:137-151 | the test value 0 |
| Formatting.ExampleTen | src/utils.rs:137-151 | the test value 10 |
| Formatting.ExampleHundred | src/utils.rs:137-151 | the test value 100 |
| Formatting.ExampleThousand | src/utils.rs:137-151 | the test value 1,000 |
| Formatting.ExampleTenThousand | src/utils.rs:137-151 | the test value 10,000 |
| Formatting.ExampleHundredThousand | src/utils.rs:137-151 | the test value 100,000 |
| Formatting.ExampleMillion | src/utils.rs:137-151 | the test value 1,000,000 |
| Formatting.ExampleTenMillion | src/utils.rs:137-151 | the test value 10,000,000 |
| Formatting.ExampleHundredMillion | src/utils.rs:137-151 | the test value 100,000,000 |
| Formatting.ExampleBillion | src/utils.rs:137-151 | the test value 1,000,000,000 |
| Formatting.ExampleTenBillion | src/utils.rs:137-151 | the test value 10,000,000,000 |
| Formatting.ExampleNegative | src/utils.rs:148-151 | the test values -10, -100, -1,000 and -10,000: the digits of the positive value with the sign in front |
| GuiFormatting.FormatInt | src/gui/utils.rs:3-20 | the GUI copy of the loop computes the same formatted number |
| NumericInput.SaturatingInc | src/gui/args/numeric_input.rs:62-64 | the result is at most one above the input, and equals it exactly at the top of the u32 range |
| NumericInput.SaturatingDec | src/gui/args/numeric_input.rs:65-67 | the result is at most one below the input, and equals it exactly at 0 |
| NumericInput.ParseU32 | src/gui/args/numeric_input.rs:72-77 | a parsed value comes from non-empty text |
| NumericInput.ButtonsStep | src/gui/args/numeric_input.rs:62-67 | the buttons always emit a value one step from the current one (a missing value counts as 0), saturating at both ends |
| NumericInput.StepsUndo | src/gui/args/numeric_input.rs:62-67 | minus undoes plus below the top, and plus undoes minus above 0 |
| NumericInput.EmptyTextClears | src/gui/args/numeric_input.rs:69-70 | empty text emits "no value" |
| NumericInput.TextParses | src/gui/args/numeric_input.rs:69-77 | non-empty text emits exactly when it parses, with the parsed value |
| NumericInput.TypedDecimal | src/gui/args/numeric_input.rs:72-77 | typing any u32 in decimal sets exactly that value |
| NumericInput.NonDigitIgnored | src/gui/args/numeric_input.rs:72-77 | text with a non-digit emits nothing |
| NumericInput.OverflowIgnored | src/gui/args/numeric_input.rs:72-77 | digits beyond the u32 range emit nothing |
| GuiArgs.AppArgs.constructor | src/gui/args.rs:23-42 | the settings start at their declared defaults |
| GuiArgs.AppArgs.Update | src/gui/args.rs:59-76 | the new settings are the old ones with the message applied |
| GuiArgs.ApplyFrame | src/gui/args.rs:59-76 | a message leaves every field it does not write unchanged |
| GuiArgs.PerkTwoSetsFuzzy | src/gui/args.rs:63-66 | choosing a second perk sets it and turns fuzzy on exactly for "Any" |
| GuiArgs.LevelsMerge | src/gui/args.rs:68-69 | each level end takes the new value if given and keeps the old one otherwise; no values change nothing |
| GuiArgs.ApplyIdempotent | src/gui/args.rs:59-76 | applying the same message twice is the same as once |
| GuiArgs.ClampRank | src/gui/args.rs:89 | a rank is clamped into 1..6, and values already in range are kept |
| GuiArgs.ClampLevel | src/gui/args.rs:141-143 | a level is clamped into 1..137, and values already in range are kept |
| GuiArgs.ClampAlts | src/gui/args.rs:148 | the alternative count is capped at 254, and values already in range are kept |
| GuiArgs.CallbacksInRange | src/gui/args.rs:89-148 | every input callback emits only in-range values |
| GuiArgs.BoundedInvariant | src/gui/args.rs:59-148 | the defaults are in range, and in-range messages keep the settings in range |
| GuiArgs.U8 | src/gui/args.rs:166 | the u8 cast keeps values below 256 and always fits in a byte |
| GuiArgs.ExcludeEntries | src/gui/args.rs:173 | the exclude text with ", " made "," is split at commas into comma-free entries |
| GuiArgs.ToCli | src/gui/args.rs:162-180 | the command line repeats the settings: levels and ranks cast to u8 with their defaults, exclude entries split, the alternative count cast, and the fixed file names |
| GuiArgs.ToCliLossless | src/gui/args.rs:162-180 | for in-range settings the casts lose nothing |
| GuiArgs.EmptyExcludeExcludesNothing | src/gui/args.rs:173 | an empty exclude text gives one empty entry, which excludes no material |
| GuiArgs.DefaultCli | src/gui/args.rs:23-42 | the default settings give the level range 1..137, the perk "Empty" and 5 alternatives |
| Wiki.WikiImageLinkChars | src/gui/wiki.rs:5-10 | the image address is the wiki prefix, then the name with every space turned into an underscore and every other character kept, then the suffix |
| Wiki.LinkNumber | src/gui/wiki.rs:49-134 | every material has a calculator number of at most 81, and 0 only for Junk |
| Wiki.LinkNumberInverse | src/gui/wiki.rs:49-134 | the number of every material other than Junk identifies that material |
| Wiki.LinkNumberInjective | src/gui/wiki.rs:49-134 | distinct materials other than Junk have distinct numbers |
| Wiki.MatLinkIdDistinct | src/gui/wiki.rs:49-134 | the id is "0" exactly for Junk, and distinct other materials have distinct ids |
| Wiki.Ids | src/gui/wiki.rs:35-38 | the ids of the sorted materials, one per material |
| Wiki.Resized | src/gui/wiki.rs:39 | the list padded with "0" or cut to nine slots |
| Wiki.WikiOrder | src/gui/wiki.rs:40-41 | the two swaps rotate the first three slots and leave the rest; the slots are a permutation |
| Wiki.SwapIntoWikiOrder | src/gui/wiki.rs:40-41 | the in-place swaps on a nine-slot array compute the wiki order |
| Wiki.MakeWikiCalcLink | src/gui/wiki.rs:22-47 | the link is built from the gizmo type, level, ancient flag and the nine reordered slot ids |
| Wiki.SlotsShape | src/gui/wiki.rs:35-41 | there are always nine slots, filled with the materials' ids and then "0" |
| Wiki.ParamsDistinct | src/gui/wiki.rs:28-33 | the gizmo-type parameter tells the types apart, and the ancient parameter is present exactly for ancient gizmos |

Lookups and small helpers have no row of their own; the rows of the members that use them state what they mean. These are `PreludeData.Components` (see `PreludeData.ComponentsOwnList`), `PreludeArgs.Levels` (`PreludeArgs.LevelsFromInput`), `PreludeArgs.FileOption` (`PreludeArgs.FileOptionRoundTrip`), `Solver.RankCost` and `Solver.SecondCost` (`Solver.MaterialConflicts`), `Solver.SlotCount` (`Solver.NoMaterialsCount`), `PerkArithmetic.WantedCost` (`PerkArithmetic.ContainsConflictRanks`), `PerkArithmetic.WindowBounds` (`PerkArithmetic.WantedPerkPinned`, `PerkArithmetic.SecondWantedPerkPinned`, `PerkArithmetic.UnwantedPerkWholeWindow`), `GuiArgs.Or` (`GuiArgs.LevelsMerge`), `GuiArgs.UnwrapOr` (`GuiArgs.ToCli`) and `Formatting.ExampleOne`, which states that a single digit is printed as it is, a step toward `Formatting.ExampleThousand`, with `Formatting.AppendThousand` and the `Formatting.ThousandStep` to `Formatting.TenBillionStep` lemmas: each example from 1,000 up states its value and is proved by the stage lemma of the same name.

## Left out

- Floating point: every probability is left out. That covers `calc_perk_rank_probabilities`, `get_empty_gizmo_chance` and `calc_gizmo_probabilities` (with the dice and budget code they use), and the probability product in `permutate_perk_ranks`. Gizmo probabilities are only initialised to 0.0.
- `convolve`, `generate_budgets`, `perk_solver`, `load_data` and the result writing are left out. They are float arithmetic, threads or file I/O.
- The catalogue is the abstract parameter `Data`, not the tables loaded from JSON. `src/definitions/data.rs` is not part of this model.
- `HashMap` iteration order is not modelled. The name index in `get_perk_values` is a Dafny `map`, used only for lookup.
- Perk-name parsing (`PerkName::from_str`) and display are derived code. They are parameters `parse` and `show`, and `PerkName` is the opaque `Empty | Named(id)`.
- The material sort `gizmo_combination_sort` used by the wiki link is the parameter `sort`.
- Terminal colouring is not modelled: the yellow warning and error text, and the cyan counts in `vec_to_string`. `print_warning` produces no output in the model. `print_error`, which ends the process, is an `Err` carrying its message.
- Integer widths are unbounded. The `u8`, `u16`, `i16` and `usize` fields never wrap in the model. The exceptions are the GUI's `u32` saturation and the `as u8` casts in `to_cli`, which are modelled explicitly.
- `Args::create` computes `alt_count + 1` on a `u8`, and the model does not wrap it at 255.
- The maximum roll in `can_generate_wanted_ranks` subtracts the number of dice as a `usize`, and the model does not wrap it.
- `Formatting.FormatInt`: `num` must be above `i64::MIN`, because `abs` of `i64::MIN` overflows in the source.
- `GuiFormatting.FormatInt`: the same restriction to values above `i64::MIN`.
- `Wiki.MakeWikiCalcLink`: the level must be below 256, because it is a `u8` in the source.
- `dice::choose` is the exact binomial coefficient. The source computes it in floating point.
- Four index panics of the source become preconditions, which every caller in the source meets. `JagexSort.Quicksort` and `JagexSort.JagexQuicksort` require a non-empty list, because the source computes `len() - 1` on an unsigned length. `Solver.SplitMaterialsOf`, `PerkArithmetic.CanGenerateWantedRanks` and `PerkArithmetic.ContainsConflictRanks` require the wanted ranks to lie in the perk's rank table, which the source indexes without a check. `CliValidation.ValidateInput` and `CliValidation.ValidateLevels` require at least one invention level, because with no level the source falls into its `[0..=1]` slice, which panics.
- `StackVec` and `StackMap` keep only the behaviour the solver uses. Three panics of the source become preconditions: `StackVecs.StackVec.New` requires the slice to fit the capacity (the source's `assert!` in `StackVec::new`); `StackVecs.StackVec.Push` requires room for one more element; `StackMaps.StackMap.Insert` and `StackMaps.FromEntries` require every key's ordinal to be a slot of the map (the source's out-of-range array index). `StackMap` keys index slots through an `ordinal` function. The `Deref` to a slice is the `Contents()` sequence.
- `itertools::multi_cartesian_product` over no iterators yields nothing in the model. itertools releases differ on this edge case, and the crate version is not part of this model.
- The GUI's `to_cli` builds a command with optional `out_file` and `price_file` and no `limit_cpu`. That is an older shape than the `Commands::Gizmo` of `src/prelude/args.rs`. The model keeps the GUI shape as its own `GuiCli` type and does not connect the two.
- `Args::default` is the constant `PreludeArgs.DefaultArgs`. It has no contract, so it has no row.
- The GUI views, the async wiki image element and the iced event loop are left out. Only their number clamps and the messages they send are modelled.
- `str::parse::<u32>` is modelled directly as `NumericInput.ParseU32`.
- PerkArithmetic.GetPerkValues: the per-perk roll lists are unbounded sequences. In the source they are `StackVec<u8, 9>`, so a tenth contribution to one perk panics; the model keeps appending instead. `AddComponent` and `AddMaterial` build those lists the same way.
- Strings.ToLower: lower-cases only ASCII letters. Rust's `to_lowercase`, applied to the user's material query and exclude entries, maps all of Unicode (the Kelvin sign U+212A becomes `k`, for one). Text whose match depends on a non-ASCII case mapping behaves differently in the model.
