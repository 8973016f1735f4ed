# Bluetask core, modelled in Dafny

Bluetask is a Windows system monitor: a process table, a performance page with live charts, and a background update service, over a settings store. This project models the logic behind those screens. Reads from the operating system and hardware libraries become method parameters. These are process records, sensor tuples, performance-counter readings, WMI properties, interface counters, and the HTTP response of the release query. The clock is passed in as integer milliseconds.

The parts modelled:

- **The process table** (`dashboard_tree.dfy`, `dashboard.dfy`, `process_models.dfy`):
  - the dashboard view model's tree reconciler, i.e. the parent/child partition of the sampled records;
  - the Steam and launcher merging;
  - the aggregation of CPU, memory and GPU over subtrees;
  - grouping top-level rows by name;
  - the pinned-first stable sort with exponential smoothing and a 900 ms throttle;
  - the search filter and the top-five list;
  - the reconciliation of observable collections by in-place moves, inserts and removals.
- **The samplers** (`process_monitor.dfy`, `system_monitor.dfy`, `sensors.dfy`, `inventory.dfy`, `adapters.dfy`):
  - per-process CPU deltas, parent maps and GPU usage per PID;
  - network rates from interface counters and from trace tables;
  - temperature sensor selection;
  - brand resolution for storage and memory;
  - graphics-adapter matching.
- **The performance page** (`performance.dfy`, `core_tiles.dfy`, `numerics.dfy`):
  - bounded histories and card alignment;
  - axis scaling, uptime text and the tile layout;
  - selection restore.
- **The update service** (`update_service.dfy`): version parsing and comparison, release and asset choice, and the checking-state events.
- **Settings and converters** (`settings.dfy`, `converters.dfy`): change events of the settings service and view model, and the value converters.
- **Shared layers** (`collections.dfy`, `text.dfy`, `wrappers.dfy`): the collection class, string helpers and result types.

The culture-dependent string order of process names is an abstract ranking parameter `nameRank`. Source line references below are relative to the repository root.

## Model

| member | source | states |
|---|---|---|
| Adapters.RemoveOccurrences | Services/SystemMonitorService.cs:1967-1968 | string.Replace(pat, "") never lengthens the text |
| Adapters.RemoveAbsent | Services/SystemMonitorService.cs:1967-1968 | removing a pattern that does not occur leaves the text unchanged |
| Adapters.CollapseWhiteSpace | Services/SystemMonitorService.cs:1970 | Regex.Replace(t, "\\s+", " "): no white space but single spaces remains, nothing grows, and a leading run becomes one space |
| Adapters.CollapseOfCollapsed | Services/SystemMonitorService.cs:1970 | collapsing text that has only single spaces changes nothing |
| Adapters.TrimCollapsed | Services/SystemMonitorService.cs:1970 | collapsing then trimming leaves single inner spaces and no space at either end |
| Adapters.NormalizeAdapterName | Services/SystemMonitorService.cs:1962-1974 | the name after upper-casing, one Replace pass for each trademark mark and each of GRAPHICS, GPU and VIDEO, white-space collapse and trim has single inner spaces and none at either end, and is no longer than the input |
| Adapters.NormalizeOfNormal | Services/SystemMonitorService.cs:1962-1974 | a name already in normal form is its own normalisation |
| Adapters.Tokens | Services/SystemMonitorService.cs:1980-1981 | the token set of a name: non-empty pieces without spaces |
| Adapters.TokenOverlapScore | Services/SystemMonitorService.cs:1976-1988 | the count of shared tokens, plus one when both names have at least three tokens: at least the overlap, at most either token count plus one, and 0 for disjoint short names |
| Adapters.TokenOverlapSymmetric | Services/SystemMonitorService.cs:1976-1988 | the overlap score does not depend on the order of the names |
| Adapters.NormalizedNamesMatch | Services/SystemMonitorService.cs:1996-2004 | false for a blank name; true for equal names, a score of 2 or more, or a shared vendor cue (NVIDIA; RADEON or AMD; INTEL); never true otherwise |
| Adapters.NamesRoughlyMatch | Services/SystemMonitorService.cs:1990-2007 | true exactly when both normalised names are not blank and they are equal ignoring case, share two points of overlap, or share a vendor cue |
| Adapters.NamesRoughlyMatchSymmetric | Services/SystemMonitorService.cs:1990-2007 | the rough match is symmetric |
| Adapters.NamesRoughlyMatchReflexive | Services/SystemMonitorService.cs:1990-2007 | a name that is not blank once normalised matches itself |
| Adapters.VendorBonus | Services/SystemMonitorService.cs:1939-1943 | the tie-breaking bonus is at most 7 |
| Adapters.DriverScore | Services/SystemMonitorService.cs:1937-1943 | a controller's score is at least its token overlap with the adapter |
| Adapters.ScoresBy | Services/SystemMonitorService.cs:1935-1943 | one score per controller, in order |
| Adapters.FirstMaxUnique | Services/SystemMonitorService.cs:1944-1948 | the strict comparison picks the first of the best-scoring controllers, and only one index is that |
| Adapters.FirstBestController | Services/SystemMonitorService.cs:1933-1949 | the loop keeps a controller only for a strictly higher score, so it ends at the first controller of the highest score |
| Adapters.BestDriver | Services/SystemMonitorService.cs:1951-1953 | the version and date of that first best controller |
| Adapters.TryMatchDriverForAdapter | Services/SystemMonitorService.cs:1920-1960 | no controllers give empty strings; a blank adapter name takes the first controller; otherwise the first controller of the highest score |
| Collections.Collection.constructor | ViewModels/PerformanceViewModel.cs:558-587 | a new observable collection is empty and has raised no change |
| Collections.Collection.RemoveAt | ViewModels/PerformanceViewModel.cs:566-569 | ObservableCollection.RemoveAt drops exactly the item at the index and raises one change |
| Collections.Collection.Insert | ViewModels/PerformanceViewModel.cs:577-580 | ObservableCollection.Insert puts the item at the index, the rest shifted, and raises one change |
| Collections.Collection.Move | ViewModels/PerformanceViewModel.cs:581-584 | ObservableCollection.Move takes the item out at one index and places it at the other, raising one change |
| Collections.Collection.Clear | ViewModels/DashboardViewModel.cs:1025 | Clear empties the collection with one change |
| Collections.Collection.Add | ViewModels/DashboardViewModel.cs:1026-1029 | Add appends one item with one change |
| Collections.MoveSeqMultiset | ViewModels/PerformanceViewModel.cs:581-584 | a Move is a permutation of the items |
| Collections.IndexOf | ViewModels/PerformanceViewModel.cs:575 | IndexOf under Equals: the first equal position, or -1 exactly when none is equal |
| Collections.KeepMatched | ViewModels/PerformanceViewModel.cs:563-570 | the removal pass keeps exactly the items that have an equal in the desired list, in their order |
| Collections.RemoveUnmatched | ViewModels/PerformanceViewModel.cs:563-570 | the backward RemoveAt loop leaves KeepMatched of the old items, one change per removed item, and keeps a one-to-one matching |
| Collections.KeepMatchedOneToOne | ViewModels/PerformanceViewModel.cs:563-570 | removing the unmatched items keeps a one-to-one matching with the desired list |
| Collections.PlaceNextFacts | ViewModels/PerformanceViewModel.cs:572-584 | one step of the insert/move pass grows the items by at most the desired item and extends the aligned prefix by one; an item already in place is left alone |
| Collections.PlaceAt | ViewModels/PerformanceViewModel.cs:572-584 | the step on the collection: Insert when the desired item is absent, Move when misplaced, nothing when in place; the aligned prefix grows by one |
| Collections.PlaceInOrder | ViewModels/PerformanceViewModel.cs:571-584 | the insert/move pass ends with the items aligned element-wise with the desired list, and changes nothing when they already were |
| Collections.Reconcile | ViewModels/PerformanceViewModel.cs:558-587 | UpdateCollection: matched items are kept, every item comes from the old items or the desired list, and under a one-to-one matching the result is aligned with the desired list; an aligned collection raises no change |
| Collections.AlignedKeepsAll | ViewModels/PerformanceViewModel.cs:563-570 | when the items are already aligned, the removal pass removes nothing |
| Collections.KeepAllMatched | ViewModels/PerformanceViewModel.cs:563-570 | when every item has an equal in the desired list, the removal pass removes nothing |
| Collections.IdentityOneToOne | ViewModels/DashboardViewModel.cs:809-835 | under reference equality, distinct lists are matched one to one |
| Collections.IdentityAligned | ViewModels/DashboardViewModel.cs:809-835 | alignment under reference equality is equality of the lists |
| Collections.ReconcileRefs | ViewModels/DashboardViewModel.cs:809-835 | ReconcileCollection of model references: kept items survive, nothing foreign appears, distinct lists end equal to the desired list, and an equal list raises no change |
| Collections.DistinctCounts | ViewModels/DashboardViewModel.cs:809-835 | a list is duplicate-free exactly when every element occurs at most once in its multiset |
| Collections.PermutationDistinct | ViewModels/DashboardViewModel.cs:922-931 | a permutation of a duplicate-free list is duplicate-free |
| Collections.MoveIfMisplaced | ViewModels/DashboardViewModel.cs:924-930 | one step of the root move loop: Move only when the sorted item is elsewhere, keeping the multiset and growing the in-order prefix |
| Collections.MoveInOrder | ViewModels/DashboardViewModel.cs:922-931 | the Move-only loop rearranges Processes into the sorted permutation, with no change when it is already in order |
| Collections.Filter | ViewModels/DashboardViewModel.cs:623 | Where: exactly the elements satisfying the test, in order |
| Collections.FirstWhereIsFirst | ViewModels/DashboardViewModel.cs:571-572 | FirstOrDefault: none exactly when no element satisfies the test, otherwise the first that does |
| Collections.FirstWhereAt | ViewModels/DashboardViewModel.cs:571-572 | the first satisfying index is the one FirstOrDefault returns |
| Collections.SortDescending | ViewModels/DashboardViewModel.cs:897-917 | OrderByDescending: a permutation sorted by descending key |
| Collections.InsertDescendingSorted | ViewModels/DashboardViewModel.cs:897-917 | inserting into a descending list keeps it descending |
| Collections.SortDescendingStable | ViewModels/DashboardViewModel.cs:897-917 | the sort is stable: the elements of any one key keep their relative order (ThenBy the prior index) |
| Collections.SortDescendingOfSorted | ViewModels/DashboardViewModel.cs:897-917 | sorting an already descending list leaves it unchanged |
| Converters.ToDouble | Services/Converters/PercentToScaleConverter.cs:13-15 | Convert.ToDouble of a boxed value: a number is itself, a bool is 1 or 0, a list or other object has no value (throws) |
| Converters.ToInt32 | Services/Converters/FormatConverter.cs:73-74 | Convert.ToInt32: null is 0, a finite double rounds half to even and must fit 32 bits, NaN and the infinities throw |
| Converters.TextOrEmpty | Services/Converters/FormatConverter.cs:38 | value?.ToString() ?? "": empty for null, the value's text otherwise |
| Converters.FormatConvert | Services/Converters/FormatConverter.cs:9-39 | a composite pattern over a null or blank value gives ""; a composite pattern formats the text; a standard format applies to a formattable value; a missing parameter or any failure falls back to the value's text |
| Converters.CompositeOverBlankIsEmpty | Services/Converters/FormatConverter.cs:16-24 | a pattern with braces never renders a stray separator around an empty or blank value |
| Converters.BoolToYesNo | Services/Converters/FormatConverter.cs:49-58 | true gives "Yes", false gives "No", anything that is not a bool gives "" (each an if-and-only-if) |
| Converters.IntGreaterThan | Services/Converters/FormatConverter.cs:69-78 | true exactly when both convert to int and the value exceeds the threshold; a failed conversion gives false |
| Converters.IntLessThanOrEqual | Services/Converters/FormatConverter.cs:89-98 | true exactly when both convert to int and the value is at most the threshold; a failed conversion gives false |
| Converters.ThresholdsComplement | Services/Converters/FormatConverter.cs:66-98 | when both sides convert, exactly one of the two threshold converters is true; when either fails, both are false |
| Converters.NullThresholdIsZero | Services/Converters/FormatConverter.cs:74 | a null threshold acts as 0 |
| Converters.StripParentheses | Services/Converters/FormatConverter.cs:113-116 | text before the first '(' (when it is not at position 0) with trailing white space trimmed; otherwise the text unchanged |
| Converters.StripParenthesesConvert | Services/Converters/FormatConverter.cs:109-119 | the converter never lengthens the value's text |
| Converters.StripParenthesesIdempotent | Services/Converters/FormatConverter.cs:106-119 | stripping twice is stripping once |
| Converters.StripParenthesesDriveName | Services/Converters/FormatConverter.cs:106 | "Disk 0 (C:)" becomes "Disk 0", the example the converter documents |
| Converters.ReadDouble | Services/Converters/PercentToScaleConverter.cs:12-15 | null reads as 0, any other value as Convert.ToDouble |
| Converters.PercentToScale | Services/Converters/PercentToScaleConverter.cs:8-22 | a scale in [0, 1]: NaN, infinities, null and failures give 0, a finite percent is clamped to [0, 100] and divided by 100 |
| Converters.ScaleToPercent | Services/Converters/PercentToScaleConverter.cs:24-35 | ConvertBack multiplies by 100; a failed conversion gives 0 |
| Converters.PercentScaleRoundTrip | Services/Converters/PercentToScaleConverter.cs:8-35 | converting a percent in [0, 100] to a scale and back gives the percent |
| Converters.OpacityConvert | Services/Converters/BoolToOpacityConverter.cs:11-23 | a parsable parameter is the opacity for true (0 for anything else); otherwise TrueValue for true and FalseValue for anything else |
| Converters.OpacityConvertBack | Services/Converters/BoolToOpacityConverter.cs:25-36 | a double above the midpoint of the two opacities converts back to true; everything else to false |
| Converters.OpacityRoundTrip | Services/Converters/BoolToOpacityConverter.cs:11-36 | with TrueValue above FalseValue and no parsable parameter, converting and converting back recovers whether the value was true |
| Converters.DefaultOpacityRoundTrip | Services/Converters/BoolToOpacityConverter.cs:8-36 | with the default opacities 0.55 and 0, a bool survives the round trip |
| Converters.BoolToChevron | Services/Converters/BoolToChevronConverter.cs:8-16 | the chevron is down (E70D) exactly for true and right (E76C) otherwise |
| Converters.MemoryMetricToString | Services/Converters/MemoryMetricToStringConverter.cs:9-22 | the working-set label exactly for WorkingSet, the private label exactly for Private, "" exactly for anything else |
| Converters.SamplePointBounds | Services/Converters/CpuHistoryToPointsConverter.cs:22-50 | every point lies inside the padded 600 x 300 chart; the first is at x 10, the last at x 590; a non-finite or non-positive sample sits on the bottom edge, one of 100 or more on the top |
| Converters.SamplePointIncreasing | Services/Converters/CpuHistoryToPointsConverter.cs:34-48 | later samples are further right |
| Converters.CpuHistoryToPoints | Services/Converters/CpuHistoryToPointsConverter.cs:12-72 | no list or fewer than two samples gives no points; otherwise one point per sample, each the sample's scaled position |
| Converters.HistoryPointsOrdered | Services/Converters/CpuHistoryToPointsConverter.cs:31-63 | the points span the chart width from edge to edge, stay inside its height and are strictly ordered by x |
| Dashboard.SequenceEqual | ViewModels/DashboardViewModel.cs:306 | SequenceEqual holds exactly when both have the same length and each item Equals the one at its position |
| Dashboard.UpdateCollection | ViewModels/DashboardViewModel.cs:304-332 | an equal target is left without a change event; otherwise kept items are those some source item equals, nothing foreign appears, and for a one-to-one Equals the target ends aligned with the source |
| Dashboard.SplitColumns | ViewModels/DashboardViewModel.cs:351-358 | the column loop puts the even positions in the left list and the odd ones in the right |
| Dashboard.CopiesUpToCovers | ViewModels/DashboardViewModel.cs:469-485 | every pid among the first n records has been written by the copy loop |
| Dashboard.CopiesUpToLatest | ViewModels/DashboardViewModel.cs:469-485 | what the loop holds for a pid after n records is the copy of that pid's last record among them |
| Dashboard.CopiesAreLatest | ViewModels/DashboardViewModel.cs:469-485 | after the sample the loop has written exactly the live pids, each with the name and clamped values of its last record |
| Dashboard.KeepPids | ViewModels/DashboardViewModel.cs:487-492 | the pid map keeps exactly its pids that are live, each with its model |
| Dashboard.ParentOrder | ViewModels/DashboardViewModel.cs:652-656 | the parents the children reconcile visits are desired-children keys or pids of the map |
| Dashboard.GroupNamesAfter | ViewModels/DashboardViewModel.cs:711-744 | the names held after grouping: every name with several roots, plus every earlier name that still has a root |
| Dashboard.UpperKeysMembers | ViewModels/DashboardViewModel.cs:692-697 | the seen names are exactly the upper-cased keys of the groups |
| Dashboard.GroupedKeysMembers | ViewModels/DashboardViewModel.cs:711-716 | the names given group rows are exactly the upper-cased keys of groups of more than one root |
| Dashboard.GroupedKeysUpper | ViewModels/DashboardViewModel.cs:692-716 | every name given a group row is a seen name, so the final prune keeps it |
| Dashboard.ThrottleGates | ViewModels/DashboardViewModel.cs:855-861 | a forced sort runs and leaves the clock; an unforced one is skipped during interaction, else runs exactly when no sort was recorded or 900 ms have passed, and then records now |
| Dashboard.ThrottleSpacing | ViewModels/DashboardViewModel.cs:855-861 | two unforced sorts that both run are at least 900 ms apart, whatever forced sorts come between |
| Dashboard.Throttle | ViewModels/DashboardViewModel.cs:855-861 | no contract of its own: ThrottleGates and ThrottleSpacing state when a sort runs |
| Dashboard.Refill | ViewModels/DashboardViewModel.cs:1024-1031 | Clear then one Add per row: the collection ends equal to the rows, with 1 + n change events |
| Dashboard.RowMatches | ViewModels/DashboardViewModel.cs:781-800 | the loop over a row's name and its children's names answers exactly the query test of that row |
| Dashboard.MatchingRows | ViewModels/DashboardViewModel.cs:778-802 | the foreach over the top-level rows builds exactly the filtered list |
| Dashboard.DashboardViewModel.constructor | ViewModels/DashboardViewModel.cs:152-172 | a new view model: empty lists and maps, no selection, no sort recorded, CPU descending, every collection its own |
| Dashboard.DashboardViewModel.InitialIsValid | ViewModels/DashboardViewModel.cs:152-172 | the initial state satisfies the invariant every operation keeps |
| Dashboard.DashboardViewModel.SetSelectedProcess | ViewModels/DashboardViewModel.cs:90-102 | on a change the previous row is deselected and the new one selected; setting the current value changes nothing |
| Dashboard.DashboardViewModel.ToggleProcessSelection | ViewModels/DashboardViewModel.cs:104-115 | null is ignored; the selected row becomes unselected and the selection cleared; any other row becomes the selection |
| Dashboard.DashboardViewModel.UpdateDriveLayout | ViewModels/DashboardViewModel.cs:334-364 | the layout flags and the system drive are those of Layout, and the two column collections end equal to its left and right lists |
| Dashboard.DashboardViewModel.AddModel | ViewModels/DashboardViewModel.cs:473-476 | a fresh model with an empty Children collection is stored under a pid that had none |
| Dashboard.DashboardViewModel.CopyRecord | ViewModels/DashboardViewModel.cs:471-484 | one pass: the record's pid maps to its old model or a fresh one, which takes the record's pid and name and its values clamped; no other pid changes |
| Dashboard.DashboardViewModel.UpsertRecords | ViewModels/DashboardViewModel.cs:469-485 | after the loop every pid of the sample has a model holding its last record's copy, earlier models are kept and new ones are fresh |
| Dashboard.DashboardViewModel.PruneModels | ViewModels/DashboardViewModel.cs:487-497 | the pid map keeps exactly its live pids; a selection among the removed pids is cleared and deselected, any other selection stays |
| Dashboard.DashboardViewModel.ResetRoots | ViewModels/DashboardViewModel.cs:559-563 | every root row is back to one instance and not a group |
| Dashboard.DashboardViewModel.AddRow | ViewModels/DashboardViewModel.cs:473-476 | a new row is known, fresh, with its own empty Children collection |
| Dashboard.DashboardViewModel.AddSteamRow | ViewModels/DashboardViewModel.cs:624-641 | the synthetic group: a fresh row named steam.exe, a group of the helpers' count, with the given own values and no children yet |
| Dashboard.DashboardViewModel.ReconcileRow | ViewModels/DashboardViewModel.cs:657-663 | one parent's Children collection ends equal to the models of its desired list |
| Dashboard.DashboardViewModel.VisitParent | ViewModels/DashboardViewModel.cs:657-663 | a visited key, or a model with children, ends with exactly the models of its desired list, none when it has no list |
| Dashboard.DashboardViewModel.VisitParents | ViewModels/DashboardViewModel.cs:652-664 | after the passes every visited parent holds exactly the models of its desired list |
| Dashboard.DashboardViewModel.ReconcileParents | ViewModels/DashboardViewModel.cs:652-664 | every parent the reconcile visits, a desired-children key or a model of the pid map, ends with exactly its desired children |
| Dashboard.DashboardViewModel.WriteAggregates | ViewModels/DashboardViewModel.cs:667-670 | every row reached from the roots shows its aggregated subtree values |
| Dashboard.DashboardViewModel.GroupRowFor | ViewModels/DashboardViewModel.cs:713-718 | the group row held for the name ignoring case, or a fresh one with no children that the map then holds |
| Dashboard.DashboardViewModel.SumRows | ViewModels/DashboardViewModel.cs:721-726 | the sum loop yields the sum of the roots' aggregated values |
| Dashboard.DashboardViewModel.ReconcileGroup | ViewModels/DashboardViewModel.cs:732 | a group row's Children end equal to the models of its roots |
| Dashboard.DashboardViewModel.WriteGroup | ViewModels/DashboardViewModel.cs:719-733 | a group row takes the name, the group flag, the instance count, the clamped sums of its roots and its roots as children |
| Dashboard.DashboardViewModel.PlaceGroup | ViewModels/DashboardViewModel.cs:711-735 | a name with several roots gets its group row, found or fresh, written; only that row and its map entry change |
| Dashboard.DashboardViewModel.RowOf | ViewModels/DashboardViewModel.cs:702-735 | a group of one root is that root; a larger group is a group row of its key and roots |
| Dashboard.DashboardViewModel.PlaceSingle | ViewModels/DashboardViewModel.cs:702-708 | the root of a name alone is back to one instance and not a group; nothing else changes |
| Dashboard.DashboardViewModel.PlaceRow | ViewModels/DashboardViewModel.cs:700-736 | one turn of the grouping loop: the group's top-level row written; only that row and, for a group, its map entry change |
| Dashboard.DashboardViewModel.TurnKeeps | ViewModels/DashboardViewModel.cs:700-736 | a turn keeps every earlier top-level row written and every root's aggregated values |
| Dashboard.DashboardViewModel.PruneGroupNames | ViewModels/DashboardViewModel.cs:740-744 | the group map keeps exactly its names seen this time, each with its row |
| Dashboard.DashboardViewModel.GetSmoothed | ViewModels/DashboardViewModel.cs:936-947 | the row's new moving average, written back into that metric's map; the other maps are untouched |
| Dashboard.DashboardViewModel.SmoothRows | ViewModels/DashboardViewModel.cs:863-882 | GetSmoothed once per row: the keys are the new averages, all written back into the active metric's map |
| Dashboard.DashboardViewModel.PinnedBelowDeeper | ViewModels/DashboardViewModel.cs:884-892 | looking further down never loses a pin |
| Dashboard.DashboardViewModel.IsPinnedRecursive | ViewModels/DashboardViewModel.cs:884-892 | true exactly when the row is pinned or a child's subtree holds a pin within the depth |
| Dashboard.DashboardViewModel.PinnedRows | ViewModels/DashboardViewModel.cs:913-916 | the Where(IsPinnedRecursive) test is evaluated per row and changes nothing |
| Dashboard.DashboardViewModel.ApplySortOnly | ViewModels/DashboardViewModel.cs:850-934 | past the throttle the top-level rows are moved into the pinned-first stable order of the smoothed keys, and the new averages stored; a skipped sort changes nothing; the rows stay the same multiset |
| Dashboard.DashboardViewModel.SortRoots | ViewModels/DashboardViewModel.cs:863-931 | the keys, the pin test, the order and the Move pass: the rows end in the pinned-first order; an ordered list gets no change event |
| Dashboard.DashboardViewModel.RootKeys | ViewModels/DashboardViewModel.cs:863-916 | the pinned rows and the smoothed keys of the top-level rows, the averages written back |
| Dashboard.DashboardViewModel.MoveRoots | ViewModels/DashboardViewModel.cs:922-931 | the Move pass brings the rows into a given rearrangement; an ordered list gets no change event |
| Dashboard.DashboardViewModel.ReconcileTopLevelOrder | ViewModels/DashboardViewModel.cs:977-1005 | the top-level list ends equal to the desired rows; an equal list gets no change event |
| Dashboard.DashboardViewModel.RefreshTopProcesses | ViewModels/DashboardViewModel.cs:1007-1032 | TopProcesses is cleared and refilled with the first five rows by the active column's raw figure, or its name |
| Dashboard.DashboardViewModel.TopRows | ViewModels/DashboardViewModel.cs:1009-1023 | Take(5) of the ordered rows: known rows, each once |
| Dashboard.DashboardViewModel.UpdateVisibleProcesses | ViewModels/DashboardViewModel.cs:767-807 | VisibleProcesses ends equal to every top-level row for a blank query, else to the matching ones; an equal list gets no change event |
| Dashboard.DashboardViewModel.VisibleNow | ViewModels/DashboardViewModel.cs:769-802 | the desired list is the filtered table, of known rows |
| Dashboard.DashboardViewModel.VisibleListed | ViewModels/DashboardViewModel.cs:767-807 | the filtered list holds known rows, each once |
| Dashboard.DashboardViewModel.ResortAll | ViewModels/DashboardViewModel.cs:190-210 | a forced sort that leaves the clock, then both derived lists up to date; the rows stay the same multiset |
| Dashboard.DashboardViewModel.RefreshDerived | ViewModels/DashboardViewModel.cs:684-687 | VisibleProcesses and TopProcesses end equal to the filtered table and the top five |
| Dashboard.DashboardViewModel.FinishRefresh | ViewModels/DashboardViewModel.cs:681-687 | the top level reconciled, an unforced sort through the throttle, then both derived lists up to date |
| Dashboard.DashboardViewModel.SetSort | ViewModels/DashboardViewModel.cs:837-848 | column and direction become NextSort's; the table is re-sorted by force and both lists refreshed, the clock untouched |
| Dashboard.DashboardViewModel.SetSortColumn | ViewModels/DashboardViewModel.cs:190-199 | a new column is stored and re-sorts by force; the current column changes nothing |
| Dashboard.DashboardViewModel.SetSortDescending | ViewModels/DashboardViewModel.cs:201-210 | a new direction is stored and re-sorts by force; the current one changes nothing |
| Dashboard.DashboardViewModel.TogglePin | ViewModels/DashboardViewModel.cs:139-150 | null is ignored; otherwise the pin flips, the table is re-sorted by force and both lists refreshed |
| Dashboard.DashboardViewModel.SetSearchQuery | ViewModels/DashboardViewModel.cs:215-219 | a new query clears the selection and refilters; the current one changes nothing; the top five stay |
| Dashboard.DashboardViewModel.Refilter | ViewModels/DashboardViewModel.cs:215-219 | the query stored, the selection cleared, VisibleProcesses the filtered table, the top five untouched |
| DashboardTree.LatestIndex | ViewModels/DashboardViewModel.cs:470-485 | the position of a pid's last record, -1 exactly when no record has it |
| DashboardTree.Live | ViewModels/DashboardViewModel.cs:487-492 | the pids kept after the prune: every record's pid, and only pids that have a record |
| DashboardTree.OwnOfRecord | ViewModels/DashboardViewModel.cs:477-481 | a model takes the memory as is and CPU and GPU clamped into [0,100], unchanged when already in range |
| DashboardTree.NameOfPid | ViewModels/DashboardViewModel.cs:478 | a live pid's model carries the name of its last record |
| DashboardTree.AddChild | ViewModels/DashboardViewModel.cs:536-541 | the parent's list, new or existing, gains the child at its end; every other list stays |
| DashboardTree.ChildrenUpToLists | ViewModels/DashboardViewModel.cs:529-544 | a parent has a list exactly when some record is placed under it, and the list is those records in sample order |
| DashboardTree.ChildrenUpToKeys | ViewModels/DashboardViewModel.cs:529-544 | only process rows are keys of the desired-children dictionary before the Steam merge |
| DashboardTree.RootsUpToMembers | ViewModels/DashboardViewModel.cs:546-565 | a row is a root exactly when some record of its pid has no parent, a missing parent or a launcher parent |
| DashboardTree.ChildRecordsMembers | ViewModels/DashboardViewModel.cs:529-544 | a row is in a parent's list exactly when some record of its pid names that live, non-launcher parent |
| DashboardTree.PartitionIsExact | ViewModels/DashboardViewModel.cs:529-565 | with unique pids every record lands in exactly one place: under its parent when it is a child record, else among the roots |
| DashboardTree.IsLauncherParentName | ViewModels/DashboardViewModel.cs:502-528 | a non-blank name that is a curated launcher or ends in Host.exe or Broker.exe, ignoring case; no contract of its own: LauncherNameIgnoresCase and HelperNameIsNoLauncher state its properties |
| DashboardTree.LauncherNameIgnoresCase | ViewModels/DashboardViewModel.cs:502-528 | whether a parent is a launcher depends only on its name ignoring case |
| DashboardTree.IsChildRecord | ViewModels/DashboardViewModel.cs:546-557 | a record with a positive parent id whose parent is live and not a launcher; no contract of its own: PartitionIsExact places every record by it |
| DashboardTree.Roots | ViewModels/DashboardViewModel.cs:546-565 | the roots loop; no contract of its own: RootsUpToMembers and PartitionIsExact state its members |
| DashboardTree.HelperIsNotSteam | ViewModels/DashboardViewModel.cs:571-576 | no name is both steam.exe and steamwebhelper.exe ignoring case |
| DashboardTree.NodeName | ViewModels/DashboardViewModel.cs:571-576 | a process row's name is its model's name |
| DashboardTree.PidNodes | ViewModels/DashboardViewModel.cs:570 | _modelsByPid.Values as rows, in the dictionary's enumeration order |
| DashboardTree.Anchor | ViewModels/DashboardViewModel.cs:570-572 | an anchor exists exactly when some root or some model is named steam.exe ignoring case; it is the first such root when there is one, else the first such model in _modelsByPid order |
| DashboardTree.Descends | ViewModels/DashboardViewModel.cs:579-590 | ContainsRecursive followed at most `fuel` levels deep; no contract of its own: MergeHelper and CycleHidesHelper state what it answers (see "## Left out") |
| DashboardTree.RemoveFirst | ViewModels/DashboardViewModel.cs:605 | List.Remove: the first occurrence goes, nothing changes without one, the rest stay as a multiset |
| DashboardTree.ListingParent | ViewModels/DashboardViewModel.cs:598-602 | the parent found is a key whose list holds the helper |
| DashboardTree.Unlist | ViewModels/DashboardViewModel.cs:603-606 | the helper leaves the list that holds it; every other list and the key order stay |
| DashboardTree.MergeHelper | ViewModels/DashboardViewModel.cs:594-615 | a helper not already below the anchor ends in the anchor's list; the lists stay well keyed |
| DashboardTree.MergeHelperKeepsAnchorList | ViewModels/DashboardViewModel.cs:613-614 | the anchor's own list only grows in the helper loop |
| DashboardTree.MergeHelpersGathers | ViewModels/DashboardViewModel.cs:592-617 | after the loop every helper is below the anchor: either already there when reached, or moved into its list |
| DashboardTree.SteamAnchorGathers | ViewModels/DashboardViewModel.cs:573-617 | with an anchor, the merge is the helper loop over every other steamwebhelper.exe model |
| DashboardTree.MergeSteam | ViewModels/DashboardViewModel.cs:567-650 | no contract of its own: SteamAnchorGathers states the anchored merge and SyntheticGroupGathers the merge without steam.exe |
| DashboardTree.MergeSteamAsWritten | ViewModels/DashboardViewModel.cs:567-650 | the merge as written; no contract of its own: AsWrittenDiffersOnlyInOwn and SyntheticGroupCountsTwiceAsWritten state how it differs from MergeSteam |
| DashboardTree.BuildPlan | ViewModels/DashboardViewModel.cs:499-650 | the partition followed by the corrected Steam merge; no contract of its own: PlanSound and LoneHelperCountedOnce state its properties |
| DashboardTree.BuildPlanAsWritten | ViewModels/DashboardViewModel.cs:499-650 | the partition followed by the merge as written; no contract of its own: LoneHelperDoubleCounted states how it goes wrong |
| DashboardTree.FirstCallChain | ViewModels/DashboardViewModel.cs:579-590 | ContainsRecursive as written, followed along its first calls: at depth 0 the call itself; a frame whose list is missing, empty or holds the helper makes no call |
| DashboardTree.CycleNeverEnds | ViewModels/DashboardViewModel.cs:579-590 | on two rows listing each other and not the helper, the chain of first calls of ContainsRecursive reaches every depth |
| DashboardTree.CycleHidesHelper | ViewModels/DashboardViewModel.cs:579-590 | on the same cycle the bounded search answers false at every bound |
| DashboardTree.MergeHelperClosesCycle | ViewModels/DashboardViewModel.cs:592-615 | a helper that is a root and whose list is just the anchor is not below the anchor, is moved into its list, and the search for any other helper then never ends |
| DashboardTree.CycleSampleNames | ViewModels/DashboardViewModel.cs:546-576 | in the cycle sample pids 5 and 6 are helpers and roots and steam.exe (10) is a child record of helper 5 |
| DashboardTree.HelperNameIsNoLauncher | ViewModels/DashboardViewModel.cs:502-528 | steamwebhelper.exe is not a launcher parent |
| DashboardTree.CycleSamplePlan | ViewModels/DashboardViewModel.cs:529-565 | the cycle sample partitions into roots 5 and 6 and a single list, steam.exe under helper 5 |
| DashboardTree.CycleSampleAnchor | ViewModels/DashboardViewModel.cs:570-572 | the anchor of the cycle sample is steam.exe, found among the models since no root has the name |
| DashboardTree.CycleSampleHelpers | ViewModels/DashboardViewModel.cs:575-576 | the helpers of the cycle sample are 5 and 6, in model order |
| DashboardTree.SteamMergeCycleSample | ViewModels/DashboardViewModel.cs:567-617 | on the cycle sample, moving helper 5 under steam.exe makes the search for helper 6 endless as written, while the bounded merge places helper 6 in steam.exe's list |
| DashboardTree.GroupHelperRoots | ViewModels/DashboardViewModel.cs:622-647 | the helper roots leave the roots and become, in order, the list of a synthetic group appended to the roots |
| DashboardTree.SyntheticGroupGathers | ViewModels/DashboardViewModel.cs:620-647 | without an anchor and with helper roots, they are gathered under one synthetic group of their count; without helper roots nothing changes |
| DashboardTree.SyntheticOwnAsWritten | ViewModels/DashboardViewModel.cs:630-638 | the synthetic group's own values as written: clamped helper sums, CPU and GPU in [0,100] |
| DashboardTree.AsWrittenDiffersOnlyInOwn | ViewModels/DashboardViewModel.cs:620-647 | the program as written and the corrected merge build the same roots and lists; only the group's own values differ |
| DashboardTree.ReachListed | ViewModels/DashboardViewModel.cs:749-765 | every row the aggregation reaches is a root or in some desired list |
| DashboardTree.ClampAbsorbs | ViewModels/DashboardViewModel.cs:756-763 | min(100, x + min(100, y)) = min(100, x + y) for non-negative x and y |
| DashboardTree.Agg | ViewModels/DashboardViewModel.cs:749-765 | a row's aggregated values, `fuel` levels deep; no contract of its own: AggIsClampedTotal states them as the clamped subtree totals |
| DashboardTree.SumAgg | ViewModels/DashboardViewModel.cs:756-763 | the sums of a node's children's aggregated values; no contract of its own: AggIsClampedTotal covers it |
| DashboardTree.AggIsClampedTotal | ViewModels/DashboardViewModel.cs:749-765 | every aggregated row shows the clamped CPU and GPU totals of its subtree and its exact memory total |
| DashboardTree.SyntheticGroupCountsOnce | ViewModels/DashboardViewModel.cs:622-647 | with zero own values the synthetic group shows exactly the aggregated sum of its helpers |
| DashboardTree.SyntheticGroupCountsTwiceAsWritten | ViewModels/DashboardViewModel.cs:630-638 | as written, the group adds its helpers' values on top of their aggregated values |
| DashboardTree.LoneHelperDoubleCounted | ViewModels/DashboardViewModel.cs:630-638 | one helper of m bytes and no steam.exe: as written the synthetic group shows 2m bytes |
| DashboardTree.LoneHelperCountedOnce | ViewModels/DashboardViewModel.cs:622-647 | corrected, the same sample shows m bytes |
| DashboardTree.ParentCycleHidden | ViewModels/DashboardViewModel.cs:529-565 | two processes naming each other as parent leave no root, and the second is the only child listed under the first: the pair vanishes from the tree |
| DashboardTree.RemoveFirstDistinct | ViewModels/DashboardViewModel.cs:605-610 | List.Remove keeps a list duplicate-free and adds nothing |
| DashboardTree.ChildParentLive | ViewModels/DashboardViewModel.cs:531 | the parent of a child record is live |
| DashboardTree.PlanSound | ViewModels/DashboardViewModel.cs:499-650 | with unique pids every row of the desired tree is a live model or the synthetic group, and no list names a row twice |
| DashboardTree.GroupIndex | ViewModels/DashboardViewModel.cs:692-694 | the first group whose key equals the name ignoring case, -1 exactly when there is none |
| DashboardTree.MatchingMembers | ViewModels/DashboardViewModel.cs:692-694 | an element belongs to a name's group exactly when its name equals the key ignoring case |
| DashboardTree.MatchingDistinct | ViewModels/DashboardViewModel.cs:692-694 | the roots of one name are distinct when the roots are |
| DashboardTree.GroupByGroups | ViewModels/DashboardViewModel.cs:692-694 | GroupBy partitions the roots: one group per name ignoring case, in order of first appearance, each with exactly that name's roots in order |
| DashboardTree.GroupBy | ViewModels/DashboardViewModel.cs:692-694 | no contract of its own: GroupByGroups states that it partitions the roots by name |
| DashboardTree.TopRows | ViewModels/DashboardViewModel.cs:698-735 | one row per group, in group order: the root itself for a group of one, a group row otherwise (TopRowsPartition states what the rows cover) |
| DashboardTree.TopRowsMembers | ViewModels/DashboardViewModel.cs:698-735 | each row stands for its group's members, the roots of that name |
| DashboardTree.TopRowsCover | ViewModels/DashboardViewModel.cs:698-735 | over a grouping of the roots, every root is under some row and every row's roots are roots |
| DashboardTree.TopRowsPartition | ViewModels/DashboardViewModel.cs:698-735 | the rows cover the roots exactly; a single row's root is the only root of its name; a group row holds at least two roots, all of its key's name ignoring case |
| DashboardTree.GroupMetrics | ViewModels/DashboardViewModel.cs:719-731 | a group row's CPU and GPU lie in [0,100] |
| DashboardTree.NextSort | ViewModels/DashboardViewModel.cs:837-848 | the clicked column becomes the active one |
| DashboardTree.NextSortTwice | ViewModels/DashboardViewModel.cs:837-848 | the active column flips direction; a new one is descending unless it is Name; clicking twice restores the active column's direction |
| DashboardTree.StableSort | ViewModels/DashboardViewModel.cs:913-918 | OrderBy(Descending).ThenBy(index) only rearranges, and orders by the key in either direction |
| DashboardTree.StableSortStable | ViewModels/DashboardViewModel.cs:913-918 | rows of equal key keep their prior order: ThenBy the prior index decides every tie |
| DashboardTree.PinnedFirstPermutes | ViewModels/DashboardViewModel.cs:913-919 | the pin-aware sort only rearranges the rows |
| DashboardTree.PinnedFirstOrders | ViewModels/DashboardViewModel.cs:913-919 | a permutation in which every pinned row precedes every other row, each part ordered by the key in the chosen direction |
| DashboardTree.PinnedFirst | ViewModels/DashboardViewModel.cs:913-919 | no contract of its own: PinnedFirstPermutes and PinnedFirstOrders state that it is a permutation with pinned rows first, each part ordered |
| DashboardTree.NameKeyKeepsOrder | ViewModels/DashboardViewModel.cs:875-878 | under the Name column's constant key each part keeps its prior order |
| DashboardTree.SmoothedBetween | ViewModels/DashboardViewModel.cs:936-947 | the first value starts the average; then it is 0.65 old + 0.35 new, between the two; NaN and infinities count as 0; a steady value stays |
| DashboardTree.Smoothed | ViewModels/DashboardViewModel.cs:936-947 | no contract of its own: SmoothedBetween states the average |
| DashboardTree.KeepRowsMembers | ViewModels/DashboardViewModel.cs:780-801 | a row is kept exactly when its view passes the test |
| DashboardTree.VisibleRowsAre | ViewModels/DashboardViewModel.cs:771-801 | a blank query shows every row; otherwise a row is shown exactly when its name or a direct child's name contains the query ignoring case |
| DashboardTree.VisibleRows | ViewModels/DashboardViewModel.cs:771-801 | the filtered rows are no more than the rows; VisibleRowsAre states which are shown |
| DashboardTree.TopFive | ViewModels/DashboardViewModel.cs:1021-1023 | Take(5): min(n, 5) rows |
| DashboardTree.TopFiveAreTop | ViewModels/DashboardViewModel.cs:1021-1023 | the five are rows of the table, a prefix of the stable order, and no row left out ranks above one kept |
| DashboardTree.TopFiveDistinct | ViewModels/DashboardViewModel.cs:1021-1023 | the five are distinct when the rows are |
| DashboardTree.SystemDriveIndex | ViewModels/DashboardViewModel.cs:344-345 | the first drive flagged IsSystemDisk, else the first drive, none exactly for no drives |
| DashboardTree.LeftColumn | ViewModels/DashboardViewModel.cs:355-358 | the left column takes the even positions, ceil(n/2) of them |
| DashboardTree.LayoutColumns | ViewModels/DashboardViewModel.cs:334-364 | each column drive lands in exactly one column, alternating from the left; from five drives on the system drive is in neither and every other drive in one |
| DashboardTree.Layout | ViewModels/DashboardViewModel.cs:334-364 | no contract of its own: LayoutColumns states the columns and the system drive |
| DashboardTree.DesiredChildren | ViewModels/DashboardViewModel.cs:529-544 | the desired-children dictionary lists each parent once, and only parents that have a list |
| DashboardTree.OwnOfPid | ViewModels/DashboardViewModel.cs:477-481 | a pid's own CPU and GPU lie in [0,100] |
| DashboardTree.MergeHelpers | ViewModels/DashboardViewModel.cs:592-617 | the helper loop keeps the anchor and keeps the lists well keyed |
| DashboardTree.GatheredStays | ViewModels/DashboardViewModel.cs:592-617 | a helper gathered below the anchor stays there while the loop goes on |
| DashboardTree.GatheredLast | ViewModels/DashboardViewModel.cs:594-615 | the helper a pass handles ends below the anchor |
| DashboardTree.MergeHelpersSound | ViewModels/DashboardViewModel.cs:592-617 | the helper loop keeps every row of the tree live and every list duplicate-free |
| DashboardTree.AnchorLive | ViewModels/DashboardViewModel.cs:571-572 | the anchor, when found, is a live process row |
| DashboardTree.RootsDistinct | ViewModels/DashboardViewModel.cs:546-565 | with unique pids the roots name each process once |
| DashboardTree.InitialSound | ViewModels/DashboardViewModel.cs:529-565 | with unique pids the tree before the Steam merge has only live rows and duplicate-free lists |
| DashboardTree.LoneHelperPlan | ViewModels/DashboardViewModel.cs:529-565 | one steamwebhelper.exe record with no parent is the only root and has no children |
| DashboardTree.Reach | ViewModels/DashboardViewModel.cs:749-765 | the rows the aggregation visits include every row it starts from |
| DashboardTree.SumAggIsClampedTotal | ViewModels/DashboardViewModel.cs:749-765 | over any list of children the clamped sum of the aggregated CPU equals the clamped sum of the subtree totals, and memory adds up exactly |
| DashboardTree.MatchingNone | ViewModels/DashboardViewModel.cs:692-694 | no group forms for a name no root has |
| DashboardTree.KeepRows | ViewModels/DashboardViewModel.cs:778-802 | the filtered list is no longer than the table |
| DashboardTree.RightColumn | ViewModels/DashboardViewModel.cs:355-358 | the right column takes the odd positions, floor(n/2) of them |
| Inventory.MapMemoryFormFactor | Services/SystemMonitorService.cs:1787-1803 | a name exactly for the SMBIOS form-factor codes 8, 9, 12, 16, 17 and 18, "" for every other code |
| Inventory.FormFactorCode | Services/SystemMonitorService.cs:1787-1803 | the inverse table: a code found for a name maps back to that name, and none of the six names lacks one |
| Inventory.FormFactorRoundTrip | Services/SystemMonitorService.cs:1787-1803 | every named form-factor code is recovered from its name |
| Inventory.MapSmbiosMemoryType | Services/SystemMonitorService.cs:1806-1821 | a DDR generation exactly for the codes 20, 21, 24, 26 and 34, with "DDR5" exactly for 34 |
| Inventory.SmbiosMemoryTypeCode | Services/SystemMonitorService.cs:1806-1821 | the inverse table: a code found for a generation maps back to it, and none of the five generations lacks one |
| Inventory.SmbiosMemoryTypeRoundTrip | Services/SystemMonitorService.cs:1806-1821 | every named memory-type code is recovered from its generation |
| Inventory.RoundedSizes | Services/SystemMonitorService.cs:1830-1834 | the positive finite sizes rounded to whole GB; empty exactly when no size is usable |
| Inventory.MajorityThreshold | Services/SystemMonitorService.cs:1849 | Math.Max(2, Ceiling(n * 0.5)): at least 2 and at least half of the modules, and no more than needed |
| Inventory.Summarize | Services/SystemMonitorService.cs:1836-1854 | no modules; all sizes equal (count and size); a most common size, larger size first on ties, held by at least the threshold; or mixed, where no size reaches the threshold |
| Inventory.RenderSummary | Services/SystemMonitorService.cs:1840-1854 | "" only for no modules; "NxSGB" for a uniform or majority size; "N modules" otherwise |
| Inventory.SummarizeModuleConfiguration | Services/SystemMonitorService.cs:1824-1857 | the summary is empty exactly when no module has a usable size |
| Inventory.SummarizeUniform | Services/SystemMonitorService.cs:1836-1841 | two 16 GB modules read as 2x16GB |
| Inventory.SummarizeMajority | Services/SystemMonitorService.cs:1843-1852 | 32, 16, 16 reads as the majority 2x16GB |
| Inventory.SummarizeTieToLarger | Services/SystemMonitorService.cs:1844-1848 | equally common sizes resolve to the larger (ThenByDescending on the key) |
| Inventory.SummarizeMixed | Services/SystemMonitorService.cs:1849-1854 | two different sizes fall below the threshold of 2 and read as "2 modules" |
| Inventory.SummarizeAllDifferent | Services/SystemMonitorService.cs:1849-1854 | three different sizes read as "3 modules" |
| Inventory.FirstNonBlank | Services/SystemMonitorService.cs:1746-1756 | the first non-blank CPU vendor; "" exactly when every vendor is blank |
| Inventory.MaxClockSpeed | Services/SystemMonitorService.cs:1758-1767 | the greatest configured clock speed of the modules (0 for none), attained by a module |
| Inventory.MaxMemoryType | Services/SystemMonitorService.cs:1759-1767 | the greatest SMBIOS memory type of the modules (0 for none), attained by a module |
| Inventory.OverclockProfile | Services/SystemMonitorService.cs:1771-1783 | a profile exactly when the clock exceeds the DDR5 or DDR4 baseline by more than 150 MHz; it is EXPO exactly for an AMD CPU vendor, XMP otherwise |
| Inventory.OverclockProfileMonotone | Services/SystemMonitorService.cs:1771-1780 | a faster configured clock keeps any profile a slower one had |
| Inventory.GetMemoryXmpOrExpo | Services/SystemMonitorService.cs:1742-1784 | the two WMI loops pick the first vendor and the maxima, and the result is OverclockProfile of them |
| Inventory.FirstBrand | Services/SystemMonitorService.cs:1405-1417 | the brand of some rule of the table, when one matches |
| Inventory.FirstBrandAt | Services/SystemMonitorService.cs:1405-1417 | the if-chain returns the brand of the first matching test |
| Inventory.FirstBrandNotAfter | Services/SystemMonitorService.cs:1405-1417 | a brand that no test up to a matching one names can never be returned |
| Inventory.FirstBrandNone | Services/SystemMonitorService.cs:1405-1417 | with no matching test, no brand comes from the table |
| Inventory.ResolveStorageBrandWith | Services/SystemMonitorService.cs:1399-1421 | the brand of a table rule, or the manufacturer, or the model when the manufacturer is blank |
| Inventory.ResolveStorageBrandAsWritten | Services/SystemMonitorService.cs:1399-1421 | the storage resolution with the tests in the order written |
| Inventory.ResolveStorageBrand | Services/SystemMonitorService.cs:1399-1421 | the storage resolution with SanDisk models kept out of the Kingston "SA" prefix test |
| Inventory.StorageBrandFallback | Services/SystemMonitorService.cs:1420 | with no test passing, the manufacturer, or the model when the manufacturer is blank |
| Inventory.KingstonBeforeSanDisk | Services/SystemMonitorService.cs:1410-1415 | the Kingston "SA" prefix test comes before any SanDisk test |
| Inventory.StorageSanDiskShadowed | Services/SystemMonitorService.cs:1410 | as written, a model starting "SANDISK" is never resolved as SanDisk |
| Inventory.StorageSanDiskAsKingston | Services/SystemMonitorService.cs:1410 | as written, such a model with no earlier brand name resolves as Kingston |
| Inventory.StorageSanDiskResolved | Services/SystemMonitorService.cs:1415 | corrected, such a model resolves as SanDisk |
| Inventory.TrimmedManufacturer | Services/SystemMonitorService.cs:2935 | trimming a non-placeholder manufacturer keeps it a non-placeholder |
| Inventory.ValidManufacturers | Services/SystemMonitorService.cs:2923-2935 | the trimmed manufacturers that are not placeholders; empty exactly when every one is |
| Inventory.Join | Services/SystemMonitorService.cs:2943 | string.Join: one part is itself, and the result starts with the first part |
| Inventory.RamRulesNameBrands | Services/SystemMonitorService.cs:2944-2954 | every rule of both RAM tables names a non-empty brand |
| Inventory.ResolveRamBrandWith | Services/SystemMonitorService.cs:2919-2958 | never empty; with a valid manufacturer, the longest valid one |
| Inventory.ResolveRamBrandAsWritten | Services/SystemMonitorService.cs:2919-2958 | the RAM resolution with the part-number tests in the order written; never empty |
| Inventory.ResolveRamBrand | Services/SystemMonitorService.cs:2919-2958 | the RAM resolution with Micron "MT" part numbers kept out of the Samsung "M" prefix test; never empty |
| Inventory.RamBrandFromManufacturer | Services/SystemMonitorService.cs:2935-2940 | a reported manufacturer wins over the part numbers and is not a placeholder |
| Inventory.RamMicronShadowed | Services/SystemMonitorService.cs:2952 | as written, part numbers starting "MT" are never resolved as Micron |
| Inventory.RamMicronResolved | Services/SystemMonitorService.cs:2954 | corrected, such part numbers with no earlier brand name resolve as Micron |
| Performance.Newest | ViewModels/PerformanceViewModel.cs:397-398 | the newest min(n, length) samples, a suffix of the history |
| Performance.PushSample | ViewModels/PerformanceViewModel.cs:397-398 | Add then RemoveAt(0) past 60: the new sample is last, and a history of at most 60 becomes the newest 60 of it plus the sample |
| Performance.NewestOfNewest | ViewModels/PerformanceViewModel.cs:397-398 | trimming before more samples arrive gives the same window as trimming once at the end |
| Performance.HistoryIsNewestWindow | ViewModels/PerformanceViewModel.cs:397-399 | a history fed sample by sample holds exactly the newest 60 of everything it has seen |
| Performance.PushKeyed | ViewModels/PerformanceViewModel.cs:435-438 | the history under the name, new or existing, gets the sample; every other name's history is unchanged |
| Performance.PushKeyedAllSnoc | ViewModels/PerformanceViewModel.cs:433-446 | the foreach over one more sample is the foreach so far followed by that sample |
| Performance.RecordSample | ViewModels/PerformanceViewModel.cs:435-438 | one pass of the foreach is PushKeyed |
| Performance.RecordSamples | ViewModels/PerformanceViewModel.cs:433-446 | the foreach over a tick's samples is PushKeyed over them in order, and keeps every history within 60 |
| Performance.KeysOfSnoc | ViewModels/PerformanceViewModel.cs:433-446 | the names seen grow by the name of the last sample |
| Performance.KeyedHistoriesBounded | ViewModels/PerformanceViewModel.cs:433-446 | keyed histories stay within 60; the names are the old ones plus those seen; a name not seen keeps its history |
| Performance.KeyedHistoriesNewest | ViewModels/PerformanceViewModel.cs:433-446 | a name's history ends with the value of its last sample in the tick |
| Performance.DriveSamples | ViewModels/PerformanceViewModel.cs:433-439 | one sample per drive, its name and usage, in order |
| Performance.GpuSamples | ViewModels/PerformanceViewModel.cs:440-446 | one sample per GPU, its name and usage, in order |
| Performance.ThreadsPerCore | ViewModels/PerformanceViewModel.cs:527-531 | logical / physical threads per core when that divides evenly, else 1; always at least 1 |
| Performance.Reading | ViewModels/PerformanceViewModel.cs:539-542 | a reading exists at an index exactly when the list has a finite value there |
| Performance.ReadingCount | ViewModels/PerformanceViewModel.cs:535-544 | the number of finite readings among a core's threads is at most its thread count |
| Performance.Aggregated | ViewModels/PerformanceViewModel.cs:512-551 | the list itself for an unknown physical count or a matching length; otherwise one finite value in [0,100] per physical core |
| Performance.ReadingsWithin | ViewModels/PerformanceViewModel.cs:535-544 | the sum of a core's finite readings lies between their count times the least and times the greatest |
| Performance.ReadingsAtLeast | ViewModels/PerformanceViewModel.cs:535-544 | the sum of a core's finite readings is at least their count times any lower bound |
| Performance.ReadingsAtMost | ViewModels/PerformanceViewModel.cs:535-544 | the sum of a core's finite readings is at most their count times any upper bound |
| Performance.QuotientWithin | ViewModels/PerformanceViewModel.cs:545 | a sum divided by a positive count lies within the per-item bounds |
| Performance.AverageWithinReadings | ViewModels/PerformanceViewModel.cs:545-546 | a core's value lies between the least and the greatest of its finite readings |
| Performance.ReadingsOfOwnThreads | ViewModels/PerformanceViewModel.cs:536-544 | readings outside a core's threads do not change its value |
| Performance.OneThreadPerCore | ViewModels/PerformanceViewModel.cs:527-546 | with one thread per core a core whose reading is a finite percentage keeps it |
| Performance.SumThreadReadings | ViewModels/PerformanceViewModel.cs:535-544 | the inner loop yields the sum and the count of the core's finite readings |
| Performance.AggregateLogicalToPhysical | ViewModels/PerformanceViewModel.cs:512-551 | the loops over cores and threads compute Aggregated |
| Performance.PhysicalOf | ViewModels/PerformanceViewModel.cs:405 | the physical count is at least 1, and is the reported count when that is positive |
| Performance.LogicalOf | ViewModels/PerformanceViewModel.cs:406 | the logical count is at least 1 |
| Performance.TargetCount | ViewModels/PerformanceViewModel.cs:408 | the tile count is at least the aggregated list's length |
| Performance.TileUsage | ViewModels/PerformanceViewModel.cs:414 | a tile shows list[i] when there is one |
| Performance.TileCountIsPhysical | ViewModels/PerformanceViewModel.cs:404-425 | the aggregated list and the tile count are always the physical count, 1 when it is unknown |
| Performance.ColumnSplit | ViewModels/PerformanceViewModel.cs:224-240 | with the odd-five flag and more than one drive the columns are the drives after the first, the left taking the first half rounded down of the rest; otherwise both are empty |
| Performance.OddColumnsBalanced | ViewModels/PerformanceViewModel.cs:224-240 | for an odd count of at least five the drives under the top one split into equal columns |
| Performance.ShowDefaultDriveList | ViewModels/PerformanceViewModel.cs:208-210 | the default list shows exactly when there are neither four drives nor an odd count of at least five |
| Performance.DriveCardTitle | ViewModels/PerformanceViewModel.cs:454-457 | a drive card's title starts with "Disk i" |
| Performance.DriveCardTitleOfLetter | ViewModels/PerformanceViewModel.cs:454-457 | a drive named "C: label" is titled "Disk i (C:)" |
| Performance.GpuCardTitle | ViewModels/PerformanceViewModel.cs:466 | a GPU card's title starts with "GPU " |
| Performance.SplitOnce | ViewModels/PerformanceViewModel.cs:936 | Split(c, 2, RemoveEmptyEntries): at most two pieces, none empty |
| Performance.DiscreteGpus | ViewModels/PerformanceViewModel.cs:898 | exactly the GPUs whose names mark them discrete |
| Performance.BusiestGpu | ViewModels/PerformanceViewModel.cs:910 | the GPU with the highest usage, none exactly for no GPUs |
| Performance.ChoosePreferredGpuIsPreferred | ViewModels/PerformanceViewModel.cs:892-961 | none exactly for no GPUs; a discrete GPU with no discrete rival of more memory, or equal memory and more usage, when there is one; else the busiest GPU |
| Performance.ChoosePreferredGpu | ViewModels/PerformanceViewModel.cs:892-961 | no contract of its own: ChoosePreferredGpuIsPreferred states the choice |
| Performance.ByName | ViewModels/PerformanceViewModel.cs:851 | a match is a position of the names |
| Performance.ByNameIsFirst | ViewModels/PerformanceViewModel.cs:851 | no match exactly when the key is blank or no name equals it ignoring case; otherwise the first name that does |
| Performance.DriveNames | ViewModels/PerformanceViewModel.cs:863-866 | the drives' names in order |
| Performance.GpuNames | ViewModels/PerformanceViewModel.cs:967-970 | the GPUs' names in order |
| Performance.DriveChoiceIsNamed | ViewModels/PerformanceViewModel.cs:846-857 | no drive exactly for no drives; a drive named by the saved name ignoring case when there is one, else the first drive |
| Performance.GpuChoiceIsNamed | ViewModels/PerformanceViewModel.cs:872-890 | no GPU exactly for no GPUs; a GPU named by the saved name ignoring case when there is one, else the preferred GPU |
| Performance.SelectionFlags | ViewModels/PerformanceViewModel.cs:859-870 | a card is flagged selected exactly when its name equals the selected one's ignoring case |
| Performance.IsSelectedDrive | ViewModels/PerformanceViewModel.cs:835-844 | no card is selected for a missing drive; the selected drive's own card is |
| Performance.NetworkSeriesOf | ViewModels/PerformanceViewModel.cs:760-770 | the network series is as long as the longer history |
| Performance.NetworkSeries | ViewModels/PerformanceViewModel.cs:756-770 | the network loop computes NetworkSeriesOf |
| Performance.NetworkSeriesCombines | ViewModels/PerformanceViewModel.cs:760-770 | equal histories give that history; an upload history alone gives half of it; each point lies between its two samples |
| Performance.PeakOf | ViewModels/PerformanceViewModel.cs:270-275 | the largest finite sample, 0 when none is positive; no finite sample exceeds it |
| Performance.NetworkAxisTop | ViewModels/PerformanceViewModel.cs:266-276 | 1.1 times the peak, 1 when the peak is not positive; strictly above every finite sample |
| Performance.FormatAxisRate | ViewModels/PerformanceViewModel.cs:291-302 | the amount times its unit is the rate in bits per second; Gbps exactly from 1e9, bps exactly below 1000 |
| Performance.Pad2 | ViewModels/PerformanceViewModel.cs:662-664 | D2: two digits that read back as the number |
| Performance.Clock | ViewModels/PerformanceViewModel.cs:664 | HH:MM:SS is eight characters |
| Performance.ClockRoundTrip | ViewModels/PerformanceViewModel.cs:664 | the clock text has colons at 2 and 5, digits elsewhere, and reads back as the seconds |
| Performance.UptimeRoundTrip | ViewModels/PerformanceViewModel.cs:657-667 | below a day the uptime text reads back as its whole seconds; from a day on, the day count, a colon and the time of day |
| Performance.FormatUptime | ViewModels/PerformanceViewModel.cs:657-667 | no contract of its own: UptimeRoundTrip states that the text reads back as the uptime |
| Performance.EqualsSymmetric | ViewModels/PerformanceViewModel.cs:558-587 | GpuInfo.Equals and StorageInfo.Equals are symmetric, so the diff needs only a one-to-one match |
| Performance.PerformanceViewModel.constructor | ViewModels/PerformanceViewModel.cs:185-222 | empty collections and histories, the CPU entry selected, no drive or GPU selected, the layout of no drives |
| Performance.PerformanceViewModel.RefreshLayoutFlags | ViewModels/PerformanceViewModel.cs:202-213 | the layout flags, the top drive and the columns follow the drive and GPU counts |
| Performance.PerformanceViewModel.UpdateDriveColumns | ViewModels/PerformanceViewModel.cs:224-240 | both columns cleared, then the drives after the first dealt into them as ColumnSplit says |
| Performance.PerformanceViewModel.UpdateGpus | ViewModels/PerformanceViewModel.cs:367 | GPUs a new reading still equals keep their card, nothing foreign appears, a one-to-one match leaves the cards aligned and an aligned list untouched; the layout follows |
| Performance.PerformanceViewModel.UpdateDrives | ViewModels/PerformanceViewModel.cs:370 | the same for the drive cards |
| Performance.PerformanceViewModel.RecordCpuUsage | ViewModels/PerformanceViewModel.cs:397-399 | the CPU history is PushSample of the usage |
| Performance.PerformanceViewModel.UpdateRamHistory | ViewModels/PerformanceViewModel.cs:805-810 | the RAM history is PushSample of the usage |
| Performance.PerformanceViewModel.RecordDriveUsages | ViewModels/PerformanceViewModel.cs:433-439 | every drive's usage pushed under its name; every history within 60 |
| Performance.PerformanceViewModel.RecordGpuUsages | ViewModels/PerformanceViewModel.cs:440-446 | every GPU's usage pushed under its name; every history within 60 |
| Performance.PerformanceViewModel.UpdateCoreTiles | ViewModels/PerformanceViewModel.cs:401-428 | one tile per target core showing the aggregated value; tiles recreated, indexed from 0, only when the count changes, else updated in place |
| Performance.PerformanceViewModel.UpdateCores | ViewModels/PerformanceViewModel.cs:401-428 | the tick's tiles, with every other part of the state unchanged |
| Performance.PerformanceViewModel.UpdateDriveSelectionFlags | ViewModels/PerformanceViewModel.cs:859-870 | each drive card's flag is SelectionFlags of the selected drive's name |
| Performance.PerformanceViewModel.UpdateGpuSelectionFlags | ViewModels/PerformanceViewModel.cs:963-974 | each GPU card's flag is SelectionFlags of the selected GPU's name |
| Performance.PerformanceViewModel.SetSelectedDrive | ViewModels/PerformanceViewModel.cs:777-787 | a value the old one Equals is not stored; a new one is stored, its name saved and the flags updated |
| Performance.PerformanceViewModel.SetSelectedGpu | ViewModels/PerformanceViewModel.cs:789-803 | the same for the selected GPU |
| Performance.PerformanceViewModel.RestoreSelectedDrive | ViewModels/PerformanceViewModel.cs:846-857 | the drive the saved name picks, else the first drive, kept when equal to the old one; none exactly for no drives; the flags follow |
| Performance.PerformanceViewModel.RestoreSelectedGpu | ViewModels/PerformanceViewModel.cs:872-890 | the GPU the saved name picks, else the preferred GPU; none exactly for no GPUs; the flags follow |
| Performance.PerformanceViewModel.SelectedHistoryBounded | ViewModels/PerformanceViewModel.cs:742-775 | every chart but the network one holds at most 60 points |
| Performance.PerformanceViewModel.GetSelectedHistory | ViewModels/PerformanceViewModel.cs:742-775 | the series of the selected entry |
| Performance.PerformanceViewModel.UpdateCards | ViewModels/PerformanceViewModel.cs:367-370 | the GPU cards, and on an expensive tick the drive cards, brought to the tick's lists |
| Performance.PerformanceViewModel.RecordHistories | ViewModels/PerformanceViewModel.cs:397-446 | the CPU, RAM, per-drive and per-GPU histories each extended by the tick |
| Performance.PerformanceViewModel.RecordTick | ViewModels/PerformanceViewModel.cs:397-446 | the histories extended and the tiles updated, the cards and layout unchanged |
| Performance.PerformanceViewModel.RestoreSelections | ViewModels/PerformanceViewModel.cs:469-497 | a drive and a GPU are selected exactly when there are some, and the chart is the selected series |
| Performance.PerformanceViewModel.RestoreDriveAndGpu | ViewModels/PerformanceViewModel.cs:469-470 | a drive and a GPU are selected exactly when there are some |
| Performance.PerformanceViewModel.ApplyUpdate | ViewModels/PerformanceViewModel.cs:362-498 | one tick: the cards, the histories and tiles, a tile per physical core, the selections present exactly for non-empty lists, and the chart of the selected entry |
| Performance.PerformanceViewModel.RecordAndRestore | ViewModels/PerformanceViewModel.cs:397-498 | the histories and tiles, then the selections and the chart, the cards unchanged |
| ProcessModels.ProcessModel.constructor | Models/ProcessModels.cs:7-72 | a new row has pid 0, an empty name, zero metrics, no selection, pin or expansion, pin sequence 0, is no group, has one instance and an empty, fresh Children collection |
| ProcessModels.ProcessModel.DisplayName | Models/ProcessModels.cs:78 | the name alone for at most one instance; otherwise the name, the " × " separator and the count, which parses back to the count |
| ProcessModels.ProcessModel.GpuPercentDisplayOrDash | Models/ProcessModels.cs:77 | a dash exactly when the GPU share is not positive, otherwise the share itself |
| ProcessModels.ProcessModel.SetProcessId | Models/ProcessModels.cs:10 | SetProperty: the new value, and one ProcessId notification only when it changed |
| ProcessModels.ProcessModel.SetName | Models/ProcessModels.cs:13 | the new name; Name and DisplayName notified only when it changed |
| ProcessModels.ProcessModel.SetCpuPercent | Models/ProcessModels.cs:16 | the new share; CpuPercent and CpuPercentDisplay notified only when it changed |
| ProcessModels.ProcessModel.SetMemoryBytes | Models/ProcessModels.cs:19 | the new size; MemoryBytes and MemoryDisplay notified only when it changed |
| ProcessModels.ProcessModel.SetGpuPercent | Models/ProcessModels.cs:22 | the new share; GpuPercent and both GPU displays notified only when it changed |
| ProcessModels.ProcessModel.SetIsSelected | Models/ProcessModels.cs:25 | the new flag; IsSelected and IsHighlighted notified only when it changed |
| ProcessModels.ProcessModel.SetIsPinned | Models/ProcessModels.cs:28-38 | the new flag; IsPinned and IsHighlighted notified only when it changed |
| ProcessModels.ProcessModel.SetPinSequence | Models/ProcessModels.cs:41-45 | the new sequence; one notification only when it changed |
| ProcessModels.ProcessModel.SetIsExpanded | Models/ProcessModels.cs:54-58 | the new flag; one notification only when it changed |
| ProcessModels.ProcessModel.SetIsGroup | Models/ProcessModels.cs:61-65 | the new flag; one notification only when it changed |
| ProcessModels.ProcessModel.SetInstanceCount | Models/ProcessModels.cs:68-72 | the new count; InstanceCount and DisplayName notified only when it changed |
| ProcessModels.ProcessModel.SetRecord | Models/ProcessModels.cs:10-22 | pid, name and the three metrics take the record's values; earlier notifications are kept as a prefix |
| ProcessModels.ProcessModel.SetMetrics | Models/ProcessModels.cs:16-22 | the three metrics take the new values; earlier notifications are kept as a prefix |
| ProcessModels.ProcessModel.SetGroupRow | Models/ProcessModels.cs:13-72 | a group row takes its name, the group flag, the instance count and the summed metrics; earlier notifications are kept |
| ProcessModels.FormatBytes | Models/ProcessModels.cs:80-89 | the largest of GB, MB and KB the size reaches, as a ratio of at least 1 (below 1024 short of GB); below 1 KB the byte count and " B", whose digits parse back to the count |
| ProcessModels.DisplayNameAsWritten | Models/ProcessModels.cs:78 | the display name as the file's bytes spell it: name, " Ã— " and the count |
| ProcessModels.DisplayNameAsWrittenMisencoded | Models/ProcessModels.cs:78 | for every grouped row the text as written never starts with the name and " × ", and holds no "×" the name does not hold |
| ProcessMonitor.EffectiveElapsed | Services/ProcessMonitorService.cs:28-31 | the sampling interval is always positive: the elapsed time, or 1 ms when the clock did not advance |
| ProcessMonitor.CpuPercent | Services/ProcessMonitorService.cs:88-93 | the share is never negative, 0 for no processor time, and otherwise 100 times the processor time over elapsed time times processor count |
| ProcessMonitor.CpuPercentAtMostFull | Services/ProcessMonitorService.cs:88-93 | a process that used no more processor time than the interval offered shows at most 100 % |
| ProcessMonitor.MemoryBytes | Services/ProcessMonitorService.cs:95-101 | working set: the batch reading, else WorkingSet64, else 0; private working set: the batch reading, else 0 |
| ProcessMonitor.ParentOf | Services/ProcessMonitorService.cs:103-106 | the parent id from the map, 0 for a process the map lacks |
| ProcessMonitor.Row | Services/ProcessMonitorService.cs:80-115 | a row keeps the process's id and name; a process not seen before shows 0 % CPU, a known one the share of its processor-time growth; memory and parent as above; no GPU figure yet |
| ProcessMonitor.TimesAfterRemembers | Services/ProcessMonitorService.cs:76-86 | after a sample the service remembers the processor time of every process it read, the last reading winning, and keeps what it knew of the rest |
| ProcessMonitor.RowsFacts | Services/ProcessMonitorService.cs:76-129 | every readable process gives exactly one row, in snapshot order, with a non-negative share; a process whose time cannot be read gives none |
| ProcessMonitor.NormalizeExe | Services/ProcessMonitorService.cs:157-163 | an empty name stays empty; a name already ending in ".exe" in any case is kept; any other name gets ".exe" appended |
| ProcessMonitor.NormalizeExeIdempotent | Services/ProcessMonitorService.cs:157-163 | normalising twice is normalising once |
| ProcessMonitor.TopByCpuFacts | Services/ProcessMonitorService.cs:165-168 | the result holds min(n, 200) input rows in descending CPU order, and no row left out is busier than a row kept |
| ProcessMonitor.TopByCpuKept | Services/ProcessMonitorService.cs:165-168 | the cut is a prefix of the descending sort: at most 200 input rows, in order |
| ProcessMonitor.TopByCpuBusiest | Services/ProcessMonitorService.cs:165-168 | no row the cut leaves out is busier than a row it keeps |
| ProcessMonitor.TopByCpuMembers | Services/ProcessMonitorService.cs:165-168 | every row the cut keeps is one of its input rows |
| ProcessMonitor.TopByCpu | Services/ProcessMonitorService.cs:165-168 | no contract of its own: TopByCpuFacts states the cut |
| ProcessMonitor.PidOfPartsNamesProcess | Services/ProcessMonitorService.cs:373-381 | a non-zero id read from the '_' parts is the number after the first "pid" part |
| ProcessMonitor.PidOfPartsAt | Services/ProcessMonitorService.cs:374-380 | the first "pid" part before the last part decides the id, parsed or 0 |
| ProcessMonitor.PidOfPartsNone | Services/ProcessMonitorService.cs:374-381 | without a "pid" part before the last part the id is 0 |
| ProcessMonitor.InstancePidNamesProcess | Services/ProcessMonitorService.cs:363-381 | a non-zero id comes from a name containing "pid_", as the number after its first "pid" part |
| ProcessMonitor.InstancePidOfTag | Services/ProcessMonitorService.cs:363-381 | a name with "pid_" whose first "pid" part is followed by a number is given that number |
| ProcessMonitor.InstancePid | Services/ProcessMonitorService.cs:363-381 | no contract of its own: InstancePidNamesProcess and InstancePidOfTag state the id |
| ProcessMonitor.ParsePid | Services/ProcessMonitorService.cs:363-383 | the parsing loop computes the instance's id as InstancePid states it |
| ProcessMonitor.ParsePidParts | Services/ProcessMonitorService.cs:374-381 | the loop over the parts stops at the first "pid" part and computes the id of PidOfParts |
| ProcessMonitor.AdapterKeyFacts | Services/ProcessMonitorService.cs:264-277 | without "luid_" in any case the key is "unknown"; otherwise it is the slice from the first "luid_" to the first "_eng" after it, or to the end |
| ProcessMonitor.AdapterKeyStopsAtEng | Services/ProcessMonitorService.cs:269-274 | the key ends at the first "_eng" after "luid_", or at the end of the name when there is none |
| ProcessMonitor.AdapterKeySpan | Services/ProcessMonitorService.cs:269-274 | the key is the name's slice from "luid_" to that end |
| ProcessMonitor.AdapterKeyFound | Services/ProcessMonitorService.cs:269-275 | a key taken from a name containing "luid_" is never the fallback "unknown" |
| ProcessMonitor.AdapterKey | Services/ProcessMonitorService.cs:264-277 | no contract of its own: AdapterKeyFacts and AdapterKeyStopsAtEng state the key |
| ProcessMonitor.AddShare | Services/ProcessMonitorService.cs:279-285 | adding a reading grows the shares' total by exactly that reading; an adapter not yet present, ignoring case, gets a new share at the end |
| ProcessMonitor.Scale | Services/ProcessMonitorService.cs:307-312 | every share's percentage is multiplied by the factor; adapters and order stay |
| ProcessMonitor.Rescaled | Services/ProcessMonitorService.cs:301-314 | shares summing to something positive are rescaled to sum to the clamped total; others are left as they are; adapters and order stay |
| ProcessMonitor.RescaleShares | Services/ProcessMonitorService.cs:301-314 | the sum loop and the scaling loop compute Rescaled |
| ProcessMonitor.TallyOfTotal | Services/ProcessMonitorService.cs:250-291 | the tally has a process exactly when one of its finite, targeted counters is counted, and its total is the sum of those readings |
| ProcessMonitor.PidReadingsTargeted | Services/ProcessMonitorService.cs:257 | with a non-empty target set only target processes are tallied |
| ProcessMonitor.ClampedTotals | Services/ProcessMonitorService.cs:294-299 | every tallied process's total clamped into [0,100], for exactly the tallied processes |
| ProcessMonitor.RescaledSharesSum | Services/ProcessMonitorService.cs:294-315 | after clamping, a process with positive adapter shares has them add up to its clamped GPU figure |
| ProcessMonitor.SeenAll | Services/ProcessMonitorService.cs:294 | the clamp loop visits exactly the tallied processes |
| ProcessMonitor.ClampTally | Services/ProcessMonitorService.cs:293-315 | the clamp loop computes ClampedTotals and the rescaled shares |
| ProcessMonitor.TallyCounters | Services/ProcessMonitorService.cs:250-291 | the counter loop computes TallyOf |
| ProcessMonitor.FindKey | Services/ProcessMonitorService.cs:356-357 | a case-insensitive dictionary lookup finds the counter of that upper-cased name, and finds none exactly when no counter has it |
| ProcessMonitor.Upsert | Services/ProcessMonitorService.cs:394-400 | assigning under a name already present replaces that entry and keeps the name's first spelling; otherwise the entry goes last |
| ProcessMonitor.UpsertHas | Services/ProcessMonitorService.cs:394-400 | after an assignment the dictionary holds the assigned name and every name it had |
| ProcessMonitor.Born | Services/ProcessMonitorService.cs:389-399 | a surviving counter keeps its creation time; a new one is created now |
| ProcessMonitor.RebuiltWellFormed | Services/ProcessMonitorService.cs:359-406 | a rebuilt set has distinct names, positive process ids, and reuses the old counter of every instance that had one |
| ProcessMonitor.RebuiltHas | Services/ProcessMonitorService.cs:359-406 | every instance with a positive process id whose counter survives or can be created is in the rebuilt set |
| ProcessMonitor.RebuildCounters | Services/ProcessMonitorService.cs:359-406 | the rebuild loop computes Rebuilt |
| ProcessMonitor.DisposeRetired | Services/ProcessMonitorService.cs:409-415 | the dispose loop disposes exactly the old counters the new set does not hold |
| ProcessMonitor.Refreshed | Services/ProcessMonitorService.cs:330-420 | nothing changes unless the set is empty or more than 3 s old; a refresh stamps now, and leaves no counters when the category cannot be read |
| ProcessMonitor.Restrict | Services/ProcessMonitorService.cs:235-238 | the cached figures of exactly the target processes that have one, unchanged |
| ProcessMonitor.ParentMapOfFacts | Services/ProcessMonitorService.cs:201-210 | the queried map has exactly the listed processes, each with the parent of its last row |
| ProcessMonitor.QueryParents | Services/ProcessMonitorService.cs:205-210 | the query loop computes ParentMapOf |
| ProcessMonitor.ParentProcessMapCache.GetParentMap | Services/ProcessMonitorService.cs:192-217 | a non-empty map younger than 5 s is returned as is; otherwise a successful query replaces the map and stamps now, a failed one keeps both; the result is the stored map |
| ProcessMonitor.WithGpuRow | Services/ProcessMonitorService.cs:138-148 | a row takes its process's GPU figure and adapter shares when there are any, and keeps everything else |
| ProcessMonitor.AttachGpu | Services/ProcessMonitorService.cs:138-148 | the attach loop computes WithGpu |
| ProcessMonitor.NormalizeNames | Services/ProcessMonitorService.cs:157-163 | the name loop computes Named, NormalizeExe of every row |
| ProcessMonitor.ReadRows | Services/ProcessMonitorService.cs:76-129 | the process loop computes Rows and the remembered processor times |
| ProcessMonitor.RescaledSharesAgree | Services/ProcessMonitorService.cs:293-319 | after a fresh sample every tallied process has adapter shares, and shares adding up to something positive add up to its clamped figure |
| ProcessMonitor.WithGpuAgree | Services/ProcessMonitorService.cs:137-148 | GPU figures that agree on the rows' processes attach the same way |
| ProcessMonitor.RowsOfSnapshot | Services/ProcessMonitorService.cs:76-129 | every row belongs to a process of the snapshot |
| ProcessMonitor.NamedRowsSampled | Services/ProcessMonitorService.cs:131-163 | rows read fresh, with clamped GPU figures and normalised names, satisfy the sampled-row invariant |
| ProcessMonitor.SampleFacts | Services/ProcessMonitorService.cs:131-168 | a sample returns at most 200 rows, none with a negative CPU share, every GPU figure in [0,100], every name normalised |
| ProcessMonitor.ProcessMonitorService.constructor | Services/ProcessMonitorService.cs:13-24 | nothing remembered, the sample clock started now, the GPU counters and caches empty and never stamped |
| ProcessMonitor.ProcessMonitorService.EnsureGpuCounters | Services/ProcessMonitorService.cs:330-420 | the counter set becomes Refreshed of the old one; a rebuild disposes exactly the retired counters, and nothing is disposed otherwise |
| ProcessMonitor.ProcessMonitorService.CachedResults | Services/ProcessMonitorService.cs:235-238 | the cache-hit loop over the target set computes Restrict of the cached figures |
| ProcessMonitor.ProcessMonitorService.SampleGpuUsageByPid | Services/ProcessMonitorService.cs:222-328 | counters refreshed first; within 1 s of a non-empty sample the cached figures of the targets are returned and the caches stay; otherwise the clamped tally is returned and becomes the cache with the rescaled shares, stamped now; the result agrees with the cache on every target |
| ProcessMonitor.ProcessMonitorService.ReadCounters | Services/ProcessMonitorService.cs:242-320 | the readings summed per process, clamped and rescaled, are returned and become the new caches |
| ProcessMonitor.ProcessMonitorService.AttachSampledGpu | Services/ProcessMonitorService.cs:131-153 | the snapshot's processes are sampled, and every row takes its process's new cached GPU figure and shares |
| ProcessMonitor.ProcessMonitorService.SampleProcesses | Services/ProcessMonitorService.cs:26-169 | the result is the top 200 by CPU of the normalised rows of the readable processes with their parents and GPU figures; afterwards the service remembers the new processor times and the sample time |
| Sensors.SanitizePercent | Services/SystemMonitorService.cs:1302-1312 | NaN, the infinities and negative readings give 0, readings above 100 give 100, others pass unchanged; the result is in [0,100] |
| Sensors.SanitizePercentIdempotent | Services/SystemMonitorService.cs:1302-1312 | sanitising an already sanitised percentage changes nothing |
| Sensors.NormalizeGpuMemoryValues | Services/SystemMonitorService.cs:1695-1707 | values that read as megabytes come back divided by 1024 (result times 1024 is the input), other values come back unchanged |
| Sensors.NormalizeGpuMemoryStable | Services/SystemMonitorService.cs:1695-1707 | a megabyte total up to 512 GiB no longer reads as megabytes once converted, so normalising twice is normalising once |
| Sensors.NormalizeGpuMemoryExamples | Services/SystemMonitorService.cs:1695-1707 | (2048, 8192) MB becomes (2, 8) GB and (2, 8) stays as it is |
| Sensors.Plausible | Services/SystemMonitorService.cs:462-468 | a sensor is kept exactly when it is of the asked type and its finite reading lies strictly inside the range |
| Sensors.Best | Services/SystemMonitorService.cs:470-484 | OrderByDescending(score).ThenByDescending(value).FirstOrDefault(): none exactly for no candidates, otherwise a candidate that no other candidate outranks on (score, value) |
| Sensors.RoundedWithin | Services/SystemMonitorService.cs:476-484 | a chosen reading strictly inside (lo, hi) rounds to a whole number in [lo, hi] |
| Sensors.PrimaryTemperature | Services/SystemMonitorService.cs:462-484 | the CPU-sensor stage gives a temperature in [0,150] |
| Sensors.PrimaryTemperatureChosen | Services/SystemMonitorService.cs:462-484 | a positive stage result is the rounded reading of a CPU temperature sensor inside (0,150); with no such sensor the stage gives 0 |
| Sensors.BoardTemperature | Services/SystemMonitorService.cs:487-525 | the motherboard stage gives a temperature in [0,150], and 0 when there is no motherboard |
| Sensors.BoardTemperatureChosen | Services/SystemMonitorService.cs:497-520 | a positive board temperature is the rounded reading of a board temperature sensor inside (0,150) whose upper-cased name has none of VRM/PCH/CHIPSET/GPU/SYSTEM/AMBIENT and one of CPU/SOCKET/TDIE/TCTL/PACKAGE/CORE; with no such sensor the stage gives 0 |
| Sensors.FirstKelvinTenths | Services/SystemMonitorService.cs:933-949 | nothing exactly when no reading is positive and above 0 °C; otherwise the first such reading, converted from tenths of a kelvin and rounded half to even, which is never negative (and may be 0) |
| Sensors.AcpiTemperature | Services/SystemMonitorService.cs:927-983 | the first usable thermal zone decides, rounded half to even, even when that is 0; only when no zone is usable does the first usable temperature probe decide; 0 when neither has one; never negative |
| Sensors.AcpiZoneRoundingToZeroWins | Services/SystemMonitorService.cs:942-947 | a first zone of 2734 tenths of a kelvin (0.25 °C) gives 0 even though a probe reads 3000 (26.85 °C) |
| Sensors.HardwareTemperature | Services/SystemMonitorService.cs:995-1033 | one hardware node, over its temperatures inside (15,150): when a CPU-like name is among them, the answer is the rounded reading of the hottest CPU-like one; otherwise there is an answer exactly when some reading is at least 25, and it is the rounded hottest reading; any answer lies in [15,150] |
| Sensors.FirstAnswer | Services/SystemMonitorService.cs:991-1038 | the foreach with an early return: the answer of the first node that has one; the fallback only when no node has one |
| Sensors.ThermalZoneTemperature | Services/SystemMonitorService.cs:1041-1058 | the thermal-zone counter as degrees Celsius: a finite value inside (15,150) is rounded half to even, anything else gives 0; the Kelvin conversion above 200 never applies |
| Sensors.AnyReasonableTemperature | Services/SystemMonitorService.cs:986-1062 | the first hardware node with an answer decides; the thermal-zone counter is used only when no node has one; the result is 0 or in [15,150] |
| Sensors.CpuTemperature | Services/SystemMonitorService.cs:439-536 | the chain is never negative; a positive CPU-sensor stage wins; otherwise a positive board stage wins; otherwise a positive ACPI stage wins; otherwise the any-reasonable stage decides; the result is 0 exactly when all four stages give 0 |
| Sensors.ReadingOf | Services/SystemMonitorService.cs:632-640 | no chosen sensor reads as 0 W |
| Sensors.PowerTerms | Services/SystemMonitorService.cs:643-658 | every term of the summed estimate is floored at 0 |
| Sensors.SummedPower | Services/SystemMonitorService.cs:643-658 | the summed estimate is 0 or strictly inside (1,500) W; it is accepted exactly when the sum of the terms lies inside that range, and then it is that sum |
| Sensors.PackagePower | Services/SystemMonitorService.cs:624-640 | 0 exactly when no CPU power sensor reads inside (0.5,400) W; otherwise the reading of a plausible one that no plausible sensor outranks on (ScorePowerSensor, reading) |
| Sensors.CpuOwnPower | Services/SystemMonitorService.cs:624-658 | the CPU's own power is always the package stage's: the summed estimate of :643-658 can never be used, since a plausible sensor is always chosen by :632-640 |
| Sensors.CpuVoltage | Services/SystemMonitorService.cs:664-702 | 0 exactly when no CPU voltage reads inside (0.2,2.5) V; otherwise the reading of a plausible one that no plausible voltage outranks on (ScoreVoltageSensor, reading) |
| Sensors.BroadPowers | Services/SystemMonitorService.cs:733-749 | exactly the power sensors of all hardware inside (0.5,500) W whose upper-cased name has no GPU and one of the CPU names |
| Sensors.BroadPower | Services/SystemMonitorService.cs:719-781 | with such a sensor, the reading of one that none of them outranks on (ScoreAnyCpuPower, reading); without one, the summed estimate over the CPU-related plausible readings; always 0 or inside (0.5,500) W |
| Sensors.BroadVoltages | Services/SystemMonitorService.cs:798-811 | exactly the voltages of all hardware inside (0.2,2.5) V whose upper-cased name has no GPU and one of the voltage names |
| Sensors.BroadVoltage | Services/SystemMonitorService.cs:784-819 | 0 exactly when there is no such voltage; otherwise the reading of one that none of them outranks on (ScoreAnyCpuVoltage, reading) |
| Sensors.Watts | Services/SystemMonitorService.cs:835-838 | Math.Clamp(volts * amps, 0, 500) lies in [0,500] W |
| Sensors.CurrentPower | Services/SystemMonitorService.cs:822-843 | the clamped product of the volts and the first current, in collection order, that reads inside (1,200) A with a CPU name and no GPU; 0 without such a current |
| Sensors.CpuPowerAndVoltage | Services/SystemMonitorService.cs:605-846 | power in [0,500] W and voltage 0 or inside (0.2,2.5) V; the CPU's own power and voltage win when positive; without an own voltage the broad voltage stage decides; without an own power a positive broad power stage wins; with neither, the volts-times-amps stage applies exactly when the voltage is above 0.2 V, else the power is 0 |
| Sensors.ClockGhz | Services/SystemMonitorService.cs:541-562 | with clock readings, the highest of them in GHz; without any, the counter estimate when positive, else 0 |
| Sensors.InferCores | Services/SystemMonitorService.cs:591-601 | the logical count is kept; a reported core count is kept; otherwise the cores divide the logical count with at most two threads per core, exactly two when the logical count is even |
| Sensors.CoreCounts | Services/SystemMonitorService.cs:565-602 | with at least one logical processor the reported physical core count is at least 1 |
| Sensors.LeadingDigits | Services/SystemMonitorService.cs:369-387 | the longest prefix made of digits |
| Sensors.LeadingDigitsOfDigits | Services/SystemMonitorService.cs:369-387 | a digit string is its own leading digit run |
| Sensors.TrailingDigits | Services/SystemMonitorService.cs:369-387 | the longest suffix made of digits |
| Sensors.ParseDigitRun | Services/SystemMonitorService.cs:369-387 | int.TryParse of a digit run succeeds exactly when it is non-empty and fits in 32 bits, with the run's decimal value |
| Sensors.CoreIndex | Services/SystemMonitorService.cs:369-387 | a core index is in [0, int.MaxValue] |
| Sensors.CoreIndexOfNumbered | Services/SystemMonitorService.cs:369-387 | a name "<prefix>#<k>" with no '#' in the prefix has core index k |
| Sensors.PerCoreUsages | Services/SystemMonitorService.cs:359-396 | one sanitised reading in [0,100] per core load sensor |
| Sensors.PerCoreOrder | Services/SystemMonitorService.cs:388-396 | the ordered sensors are a permutation of the core load sensors, in ascending core index |
| Sensors.PerCoreOrderKeepsSorted | Services/SystemMonitorService.cs:388-396 | sensors already in core-index order keep their order (the sort is stable) |
| Sensors.AuthoritativeCpuUsage | Services/SystemMonitorService.cs:867-894 | the result is in [0,100]; a non-negative counter reading wins (sanitised); otherwise a sanitised sensor value above 0.1 wins |
| Sensors.AuthoritativeFromCores | Services/SystemMonitorService.cs:880-893 | with no usable counter and a sensor at or below 0.1, the result is the per-core mean, which is already in range |
| Sensors.SumBounds | Services/SystemMonitorService.cs:884-888 | n readings in [0,100] sum to a value in [0, 100n] |
| Settings.GetBool | Services/SettingsServiceHelper.cs:44-69 | a stored bool under the key is returned; an absent key or a value of another kind gives the default |
| Settings.GetInt | Services/SettingsServiceHelper.cs:44-69 | a stored int under the key is returned; an absent key or a value of another kind gives the default |
| Settings.GetString | Services/SettingsServiceHelper.cs:44-69 | a stored string under the key is returned; an absent key or a value of another kind gives the default |
| Settings.EnvOverride | Services/SettingsService.cs:32-43 | an environment variable that int.TryParse accepts replaces the count; an absent or unparsable one leaves it |
| Settings.StartupEnvOverridesStored | Services/SettingsService.cs:29-44 | whatever is stored, a variable holding the text of an int makes that int the debug GPU count at start-up |
| Settings.SettingsService.constructor | Services/SettingsService.cs:13-44 | every setting takes its stored value over the field default (grouping true, metric Private, debug counts -1, strings ""), then the debug variables override the counts; nothing is persisted or raised |
| Settings.SettingsService.Commit | Services/SettingsService.cs:83-84 | one write to the store, one entry in the persisted log and one event |
| Settings.SettingsService.SetGroupSameProcessNames | Services/SettingsService.cs:69-87 | an unchanged value changes nothing; a new value is stored, persisted once under its key and raises GroupSameProcessNamesChanged(value) once |
| Settings.SettingsService.SetNormalizeProcessUsage | Services/SettingsService.cs:89-107 | an unchanged value changes nothing; a new value is stored, persisted once and raises NormalizeProcessUsageChanged(value) once |
| Settings.SettingsService.SetMemoryMetric | Services/SettingsService.cs:109-127 | an unchanged value changes nothing; a new metric is stored as its int, persisted once and raises MemoryMetricChanged once |
| Settings.SettingsService.SetTwoColumnDrivesAtFour | Services/SettingsService.cs:129-147 | an unchanged value changes nothing; a new value is stored, persisted once and raises TwoColumnDrivesAtFourChanged once |
| Settings.SettingsService.SetDebugGpuCount | Services/SettingsService.cs:149-167 | an unchanged count changes nothing; a new count is stored, persisted once and raises DebugEmulationChanged once |
| Settings.SettingsService.SetDebugDiskCount | Services/SettingsService.cs:169-187 | an unchanged count changes nothing; a new count is stored, persisted once and raises DebugEmulationChanged once |
| Settings.SettingsService.SetCpuPerCoreView | Services/SettingsService.cs:189-207 | an unchanged value changes nothing; a new value is stored, persisted once and raises CpuPerCoreViewChanged once |
| Settings.SettingsService.SetUpdateRepoOwner | Services/SettingsService.cs:209-227 | an equal string changes nothing; otherwise the value (null stored as "") is persisted once and raises UpdateSettingsChanged |
| Settings.SettingsService.SetUpdateRepoName | Services/SettingsService.cs:229-247 | an equal string changes nothing; otherwise the value (null stored as "") is persisted once and raises UpdateSettingsChanged |
| Settings.SettingsService.SetUpdateAutoCheckOnLaunch | Services/SettingsService.cs:249-267 | an unchanged value changes nothing; a new value is persisted once and raises UpdateSettingsChanged |
| Settings.SettingsService.SetUpdateIncludePrereleases | Services/SettingsService.cs:269-287 | an unchanged value changes nothing; a new value is persisted once and raises UpdateSettingsChanged |
| Settings.TruncateToInt | ViewModels/SettingsViewModel.cs:68-89 | the (int) cast of a double truncates toward zero: within one unit of the value, on the zero side |
| Settings.SliderStart | ViewModels/SettingsViewModel.cs:25-28 | a negative count shows 0; a count >= 0 shows itself and truncates back to itself |
| Settings.SettingsViewModel.constructor | ViewModels/SettingsViewModel.cs:9-28 | the toggles copy the service; emulation is on exactly when either debug count is >= 0; the sliders start at SliderStart of the counts |
| Settings.SettingsViewModel.SetGroupSameProcessNames | ViewModels/SettingsViewModel.cs:36-39 | an unchanged value leaves the service alone; a new value reaches the service, which raises its event exactly when its own value changed |
| Settings.SettingsViewModel.SetNormalizeProcessUsage | ViewModels/SettingsViewModel.cs:41-44 | an unchanged value leaves the service alone; a new value reaches the service, which raises its event exactly when its own value changed |
| Settings.SettingsViewModel.SetTwoColumnDrivesAtFour | ViewModels/SettingsViewModel.cs:46-49 | an unchanged value leaves the service alone; a new value reaches the service, which raises its event exactly when its own value changed |
| Settings.SettingsViewModel.SetSelectedMemoryMetric | ViewModels/SettingsViewModel.cs:51-54 | an unchanged value leaves the service alone; a new metric reaches the service, which raises MemoryMetricChanged exactly when its own metric changed |
| Settings.SettingsViewModel.SetEnableEmulation | ViewModels/SettingsViewModel.cs:56-75 | off sets both counts to -1; on gives each negative count its truncated slider value and leaves counts >= 0; one DebugEmulationChanged per count that actually changed |
| Settings.SettingsViewModel.SetDebugGpuCount | ViewModels/SettingsViewModel.cs:77-83 | the slider reaches the service only while emulation is on, as its truncated value, raising an event only if the count changed |
| Settings.SettingsViewModel.SetDebugDiskCount | ViewModels/SettingsViewModel.cs:85-91 | the slider reaches the service only while emulation is on, as its truncated value, raising an event only if the count changed |
| Settings.Raised | Services/SettingsService.cs:69-87 | a setter raises its event once, exactly when the value changed |
| Numerics.Clamp | ViewModels/PerformanceViewModel.cs:546 | Math.Clamp: the result lies in [lo, hi], is x inside the range and the nearer bound outside it |
| Numerics.ClampInt | Views/PerformancePage.xaml.cs:49-51 | the integer clamp: in [lo, hi], x inside the range, the nearer bound outside it |
| Numerics.OrZero | Services/Converters/PercentToScaleConverter.cs:16 | NaN and the infinities read as 0, a finite value as itself |
| Numerics.SumAppend | ViewModels/DashboardViewModel.cs:630-635 | the sum of a concatenation is the sum of the parts |
| Numerics.SumIntAppend | ViewModels/DashboardViewModel.cs:630-637 | the integer sum of a concatenation is the sum of the parts |
| Numerics.SumNonNegative | ViewModels/DashboardViewModel.cs:630-637 | a sum of non-negative samples is non-negative |
| Numerics.Floor | Views/PerformancePage.xaml.cs:49 | Math.Floor: the greatest integer not above the value |
| Numerics.CeilDiv | Views/PerformancePage.xaml.cs:53 | Math.Ceiling of a ratio: the least multiple count covering the numerator |
| Numerics.RoundHalfEven | Services/Converters/FormatConverter.cs:73 | Convert.ToInt32(double): the nearest integer, ties to the even one |
| CoreTiles.CoreCount | Views/PerformancePage.xaml.cs:40-41 | the physical core count when positive, else the tile count when positive, else 1 |
| CoreTiles.Columns | Views/PerformancePage.xaml.cs:49-51 | between 1 and the core count; the columns of minimum width fit with their gaps, and one more would not, unless the bounds force it |
| CoreTiles.FitTile | Views/PerformancePage.xaml.cs:55-63 | the floor of the share of the space after the gaps, the fallback when that is not positive, clamped to [lo, hi] |
| CoreTiles.RecomputeCoreTileSizing | Views/PerformancePage.xaml.cs:31-74 | nothing is applied exactly when the width or height less 4 is not positive; otherwise columns in [1, cores], width in [88, 180], height in [70, 140] |
| CoreTiles.RowsCoverCores | Views/PerformancePage.xaml.cs:53 | the row count gives every core a cell and leaves no row empty |
| CoreTiles.RowFitsWidth | Views/PerformancePage.xaml.cs:55-58 | when the fitted width is not raised to the 88 floor, a full row of tiles with its gaps fits the available width |
| SystemInfo.CpuCoreInfo.constructor | Models/SystemInfoModels.cs:44-52 | a core tile holds the index and the usage it was made with |
| SystemInfo.CpuCoreInfo.Label | Models/SystemInfoModels.cs:51 | "Core " followed by the index, which parses back to the index |
| SystemInfo.GpuEqualsReflexiveSymmetric | Models/SystemInfoModels.cs:90-98 | GpuInfo.Equals is reflexive and symmetric and false for null |
| SystemInfo.StorageEqualsReflexiveSymmetric | Models/SystemInfoModels.cs:247-255 | StorageInfo.Equals is reflexive and symmetric and false for null |
| SystemInfo.GpuEqualsNotTransitive | Models/SystemInfoModels.cs:90-98 | the usage tolerance makes GpuInfo.Equals intransitive: two readings can each equal a third but not each other |
| SystemInfo.StorageEqualsNotTransitive | Models/SystemInfoModels.cs:247-255 | the same intransitivity for StorageInfo.Equals |
| SystemInfo.RamUsed | Models/SystemInfoModels.cs:164 | the compatibility property Used is always 0 |
| SystemInfo.RamTotal | Models/SystemInfoModels.cs:165 | the compatibility property Total is always 0 |
| SystemInfo.CpuSpeed | Models/SystemInfoModels.cs:40 | the compatibility property Speed is the CPU name |
| SystemMonitor.TrimEndChar | Services/SystemMonitorService.cs:231 | TrimEnd('\\'): the longest prefix of the name that does not end in the character; only that character is removed |
| SystemMonitor.CounterLetters | Services/SystemMonitorService.cs:229-260 | the letters given an idle counter are distinct, and are exactly the ready fixed drives whose counter opens |
| SystemMonitor.EnsuredLetters | Services/SystemMonitorService.cs:224-263 | an existing counter table is kept; an empty one is filled with CounterLetters |
| SystemMonitor.DiskActivity | Services/SystemMonitorService.cs:288-291 | activity is 100 minus the idle reading, 0 for NaN or infinite, always in [0,100] |
| SystemMonitor.Smooth | Services/SystemMonitorService.cs:291-297 | a new drive takes the raw value; a known drive moves to 0.6 old + 0.4 new, between the two; always in [0,100] |
| SystemMonitor.Lookup | Services/SystemMonitorService.cs:293 | TryGetValue: a value exactly when the key is present, and then the stored one |
| SystemMonitor.DriveOutcome | Services/SystemMonitorService.cs:286-303 | a drive's new activity is in [0,100], and 0 when its counter fails |
| SystemMonitor.DiskPassBounded | Services/SystemMonitorService.cs:284-312 | a pass keeps every drive's activity in [0,100] |
| SystemMonitor.DiskPassFailure | Services/SystemMonitorService.cs:284-312 | the pass reports a failure exactly when some counter in it fails |
| SystemMonitor.DiskPassUntouched | Services/SystemMonitorService.cs:284-312 | drives outside the pass keep their values, and no entry appears for them |
| SystemMonitor.DiskPassAt | Services/SystemMonitorService.cs:286-302 | every drive up to and including the first failure gets its new value from its own previous value and reading |
| SystemMonitor.DiskPassStops | Services/SystemMonitorService.cs:299-311 | drives after the first failure are not read and keep their values |
| SystemMonitor.CoreSample | Services/SystemMonitorService.cs:419-426 | a core reads 0 without a counter or when it throws, otherwise its sanitised reading; always in [0,100] |
| SystemMonitor.CoreSamples | Services/SystemMonitorService.cs:416-427 | one sample in [0,100] per counter slot |
| SystemMonitor.TargetCount | Services/SystemMonitorService.cs:1067 | the debug count when it is set (>= 0), else the real count |
| SystemMonitor.RealGpu | Services/SystemMonitorService.cs:1077-1102 | a real GPU keeps its name and memory text, its usage is sanitised into [0,100] (0 without a load sensor), its temperature 0 without a sensor |
| SystemMonitor.EmulatedGpu | Services/SystemMonitorService.cs:1105-1117 | an emulated GPU is "Emulated GPU <i>", idle and at 0 degrees |
| SystemMonitor.RealDrive | Services/SystemMonitorService.cs:1324-1345 | a real drive is named "<letter> <label>", shows its smoothed activity (0 when absent), and is the system disk exactly when its root equals the system root ignoring case |
| SystemMonitor.EmulatedDrive | Services/SystemMonitorService.cs:1348-1362 | an emulated drive is "E:<i> Emulated", idle, not the system disk |
| SystemMonitor.ListedDrives | Services/SystemMonitorService.cs:1317 | exactly the ready fixed drives are listed |
| SystemMonitor.PushNetworkSample | Services/SystemMonitorService.cs:1514-1517 | the new sample is last, and a history of at most 30 stays at most 30 |
| SystemMonitor.PushNetworkSampleNewest | Services/SystemMonitorService.cs:1592-1596 | the history after a push is the 30 newest of the old history plus the sample |
| SystemMonitor.Delta | Services/SystemMonitorService.cs:2127-2128 | Math.Max(0, cur - prev): the growth of a counter, never negative |
| SystemMonitor.ElapsedSeconds | Services/SystemMonitorService.cs:2131 | Math.Max(0.001, seconds): at least a millisecond, else the elapsed seconds |
| SystemMonitor.NicPassRecords | Services/SystemMonitorService.cs:1576-1583 | with every interface recorded the loop does not throw, and afterwards holds the live counters of every interface it read |
| SystemMonitor.NicPassKeeps | Services/SystemMonitorService.cs:1576-1583 | interfaces the loop does not read keep their last-seen counters |
| SystemMonitor.NicPassGrowth | Services/SystemMonitorService.cs:1576-1583 | over distinct recorded interfaces the uploaded bytes are the live sent total minus the last-seen sent total |
| SystemMonitor.PreviousTotals | Services/SystemMonitorService.cs:2126 | TryGetValue with the default (0, 0) for a process without a previous snapshot |
| SystemMonitor.TotalsMap | Services/SystemMonitorService.cs:2108 | the snapshot as a dictionary: every row's pid is a key, each key holds its own row |
| SystemMonitor.RateOf | Services/SystemMonitorService.cs:2124-2132 | a process's up and down rates are non-negative and are its byte growth divided by the elapsed seconds |
| SystemMonitor.RatesOf | Services/SystemMonitorService.cs:2122-2144 | one rate per snapshot row, in row order |
| SystemMonitor.EtwMbps | Services/SystemMonitorService.cs:2149-2150 | the trace's megabits per second are never negative, and 0 for no bytes |
| SystemMonitor.TopRates | Services/SystemMonitorService.cs:2152-2154 | OrderByDescending(up + down).Take(max(0, topN)): min(n, topN) input rates, in descending total |
| SystemMonitor.TraceTop | Services/SystemMonitorService.cs:2119-2162 | the busiest processes of an interval are at most as many as the snapshot's rows |
| SystemMonitor.TopOr | Services/SystemMonitorService.cs:1539 | the trace's list when it is non-empty, otherwise the socket-presence list |
| SystemMonitor.DiskTotalsMap | Services/SystemMonitorService.cs:2558 | every row's pid is a key of the disk snapshot |
| SystemMonitor.DiskRate | Services/SystemMonitorService.cs:2573-2577 | a process's disk rate is non-negative and its byte growth over the elapsed seconds |
| SystemMonitor.ExeName | Services/SystemMonitorService.cs:2590-2596 | a found name ends in ".exe" in any case and starts with the process name; a failed lookup gives the pid in decimal |
| SystemMonitor.LinkStatus | Services/SystemMonitorService.cs:1625 | "Connected" exactly when some interface is up, otherwise a non-empty "Disconnected" |
| SystemMonitor.UpInterfaces | Services/SystemMonitorService.cs:1551 | the up interfaces are no more than the known ones |
| SystemMonitor.UpInterfacesMembers | Services/SystemMonitorService.cs:1551 | an interface is kept exactly when it is known and up |
| SystemMonitor.UpInterfacesDistinct | Services/SystemMonitorService.cs:1551 | filtering keeps distinct interfaces distinct |
| SystemMonitor.NicSentIsGrowth | Services/SystemMonitorService.cs:1551-1583 | over distinct recorded interfaces the fallback adds up exactly the growth of the up interfaces' sent counters, without throwing |
| SystemMonitor.KeepsRecorded | Services/SystemMonitorService.cs:1576-1583 | after the loop every known interface is still recorded: up ones with their live counters, others with their old ones |
| SystemMonitor.InterfaceStepValid | Services/SystemMonitorService.cs:1549-1627 | a fallback step keeps every known interface recorded and both histories at most 30 long |
| SystemMonitor.FallbackWithoutInterfaces | Services/SystemMonitorService.cs:1549-1627 | with no known interfaces the fallback reports 0 Mbps up and down and never "Connected" |
| SystemMonitor.TraceWithoutInterfaces | Services/SystemMonitorService.cs:1520-1546 | with no known interfaces the trace path reports "Disconnected" |
| SystemMonitor.FallbackMeasuresGrowth | Services/SystemMonitorService.cs:1549-1627 | once distinct interfaces are recorded, a measured sample is the up interfaces' sent-byte growth over the elapsed seconds, and the status is "Connected" exactly when one is up |
| SystemMonitor.SomeInterfaceUp | Services/SystemMonitorService.cs:1551 | the up list is non-empty exactly when some known interface is up |
| SystemMonitor.NicMbps | Services/SystemMonitorService.cs:1587-1590 | NIC megabits per second are bytes times 8 over 10^6 per second: non-negative for growth, 0 for none |
| SystemMonitor.SystemMonitorService.constructor | Services/SystemMonitorService.cs:122-145 | no interfaces, no counters, empty last-seen tables and histories, the network clock started now, no trace snapshot |
| SystemMonitor.SystemMonitorService.EnsureDiskCounters | Services/SystemMonitorService.cs:224-263 | nothing changes once disabled; otherwise the counter table becomes EnsuredLetters of the old one |
| SystemMonitor.SystemMonitorService.RefreshDriveActivity | Services/SystemMonitorService.cs:282-312 | once disabled nothing changes; otherwise the pass's activity table is stored, and a failed pass disables the path and clears the counters |
| SystemMonitor.SystemMonitorService.Update | Services/SystemMonitorService.cs:265-315 | the drive part of Update: counters ensured, then read as DiskPassOver describes; once disabled the table stays empty and the activity stays |
| SystemMonitor.SystemMonitorService.EnsurePerCoreCounters | Services/SystemMonitorService.cs:202-222 | existing slots are kept; otherwise one slot per logical processor, present when its counter was created, and the cache marked never filled |
| SystemMonitor.SystemMonitorService.SampleCores | Services/SystemMonitorService.cs:416-427 | the sampling loop computes CoreSamples |
| SystemMonitor.SystemMonitorService.PerCoreUsages | Services/SystemMonitorService.cs:400-436 | enough sensor readings are used as they are; otherwise the counters are sampled when the cache is older than 800 ms, and the cached values replace the readings when there are any |
| SystemMonitor.SystemMonitorService.GetGpuInfo | Services/SystemMonitorService.cs:1064-1118 | max(target, 0) entries: the first min(real, target) real, the rest emulated, indices in order |
| SystemMonitor.SystemMonitorService.GetDriveInfo | Services/SystemMonitorService.cs:1314-1363 | max(target, 0) entries over the listed drives: the first min(real, target) real with their smoothed activity, the rest emulated |
| SystemMonitor.SystemMonitorService.TryComputeEtwRates | Services/SystemMonitorService.cs:2095-2166 | false on an empty table, which keeps the snapshot; a first snapshot or a clock that did not advance only records the table; otherwise the rates, the top list and the Mbps totals of the interval, with the table recorded |
| SystemMonitor.SystemMonitorService.FastestDiskProcess | Services/SystemMonitorService.cs:2569-2583 | the first row of the highest disk rate: a row replaces the best only with a strictly higher rate |
| SystemMonitor.SystemMonitorService.TryComputeEtwDiskTop | Services/SystemMonitorService.cs:2547-2602 | the same snapshot handling; succeeds exactly when the first busiest process has a positive pid, and then names it |
| SystemMonitor.SystemMonitorService.EnsureNetworkInterfaces | Services/SystemMonitorService.cs:153-178 | known interfaces are kept; otherwise the enumeration is taken, each interface's counters recorded as the baseline, and the clock restarted |
| SystemMonitor.SystemMonitorService.SampleNetwork | Services/SystemMonitorService.cs:153-178 | EnsureNetworkInterfaces then GetNetworkInfo: the status is "Connected" exactly when an enumerated interface is up |
| SystemMonitor.SystemMonitorService.RecordCounters | Services/SystemMonitorService.cs:163-173 | the baseline loop records every enumerated interface's live counters and nothing else |
| SystemMonitor.SystemMonitorService.NicLoop | Services/SystemMonitorService.cs:1576-1583 | the interface loop computes NicPassOver over the up interfaces |
| SystemMonitor.SystemMonitorService.GetNetworkInfo | Services/SystemMonitorService.cs:1509-1627 | the trace's rates are used exactly when the trace table is non-empty and gives an interval; otherwise the interface fallback step; either way the sample joins the 30-entry histories |
| SystemMonitor.SystemMonitorService.RecordNetworkSample | Services/SystemMonitorService.cs:1512-1627 | the trace's sample when it gave rates, otherwise the interface fallback |
| SystemMonitor.SystemMonitorService.PushTraceSample | Services/SystemMonitorService.cs:1514-1546 | the trace branch: the rates join the histories and are reported as they are |
| SystemMonitor.SystemMonitorService.SampleInterfaces | Services/SystemMonitorService.cs:1549-1627 | the interface fallback applied to the service's own state |
| SystemMonitor.SystemMonitorService.SampleInterfacesOn | Services/SystemMonitorService.cs:1549-1627 | on explicit state: below 0.1 s the clock restarts and 0 is reported; otherwise one pass of the interface loop, whose growth becomes the sample |
| Text.ParseInt | Services/SettingsService.cs:35 | int.TryParse accepts only values inside the 32-bit range |
| Text.ParseIntToString | Services/SettingsService.cs:34-41 | int.TryParse of the text of any 32-bit int gives that int back |
| Text.ParseIntOfDigits | Services/SettingsService.cs:35 | digits without a sign parse to their value |
| Text.ParseIntOfNegatedDigits | Services/SettingsService.cs:35 | a minus sign and digits parse to the negated value |
| Text.ParseRealWhole | Services/Converters/BoolToOpacityConverter.cs:16 | a parsed decimal lies within one unit of its whole part |
| Text.ParseRealOfDigits | Services/Converters/BoolToOpacityConverter.cs:16 | double.TryParse of digits without a sign gives their value |
| Text.ParseRealOfNegatedDigits | Services/Converters/BoolToOpacityConverter.cs:16 | a minus sign and digits parse to the negated value |
| Text.ParseRealOfInt | Services/Converters/BoolToOpacityConverter.cs:16 | the text of an int parses back as that number |
| Text.NatToString | Models/ProcessModels.cs:78 | int.ToString of a natural: non-empty decimal digits with no leading zero, whose value is the number |
| Text.IndexOfChar | Services/Converters/FormatConverter.cs:114 | IndexOf(char): the first position of the character, or -1 exactly when it does not occur |
| Text.Split | Services/UpdateService.cs:226 | Split(sep): at least one piece and no piece containing the separator |
| Text.RemoveEmpty | Services/UpdateService.cs:226 | RemoveEmptyEntries: exactly the non-empty pieces |
| Updates.LessIsStrictTotalOrder | Services/UpdateService.cs:88 | the version order behind "latest > current" is irreflexive, asymmetric, transitive and total |
| Updates.DropV | Services/UpdateService.cs:223 | one leading v or V is dropped, nothing else changes |
| Updates.CutAtDash | Services/UpdateService.cs:224-225 | the text before the first '-', all of it when it has none; the result holds no '-' |
| Updates.VersionCore | Services/UpdateService.cs:222-225 | the trimmed, v-less text cut at its dash holds no '-' |
| Updates.PartNumber | Services/UpdateService.cs:232 | a part that int.TryParse accepts gives its value; any other part, or a missing one, gives 0 |
| Updates.ParseIntoSlots | Services/UpdateService.cs:228-233 | the first parts, at most four, fill the slots of the buffer in order; the other slots stay 0 |
| Updates.ReadParts | Services/UpdateService.cs:228-233 | each of the four slots holds PartNumber of its part |
| Updates.TryParseVersion | Services/UpdateService.cs:218-236 | succeeds exactly when the tag parses, with that version; otherwise 0.0.0.0 |
| Updates.ParseVersion | Services/UpdateService.cs:218-236 | no contract of its own: TryParseVersion, ParsedVersionNonNegative, TagRoundTrip and SinglePartRejected state it |
| Updates.CurrentVersion | Services/UpdateService.cs:51-75 | the package version when there is one, else the informational version when it parses, else the assembly version, else 0.0.0.0 |
| Updates.ParsedVersionNonNegative | Services/UpdateService.cs:224-234 | a parsed version has no negative component, since the text is cut before any '-' |
| Updates.TagRoundTrip | Services/UpdateService.cs:218-236 | "v" + a.b.c + "-" + suffix parses as version a.b.c.0 |
| Updates.PartNumberOfNat | Services/UpdateService.cs:232 | a part printed from an int reads back as that int |
| Updates.SinglePartRejected | Services/UpdateService.cs:226-227 | a single number is not a version |
| Updates.FirstSuitable | Services/UpdateService.cs:121-131 | the release the fetch settles on is one of the list |
| Updates.FirstSuitableIsFirst | Services/UpdateService.cs:121-131 | the chosen release is suitable and no earlier one is; none exactly when no release is suitable |
| Updates.CheckRelease | Services/UpdateService.cs:123-127 | one pass answers exactly whether the release is suitable: kept by the prerelease switch, with a tag that parses |
| Updates.ChooseRelease | Services/UpdateService.cs:119-131 | the loop with its break finds the first suitable release, or reports that there is none |
| Updates.PreferredAsset | Services/UpdateService.cs:144-162 | the asset the fetch reports is one of the release's assets |
| Updates.PreferredAssetNone | Services/UpdateService.cs:144-162 | no asset exactly when no asset name ends with any of the extensions |
| Updates.PreferredAssetIsPreferred | Services/UpdateService.cs:144-162 | the asset has the most preferred extension any asset has, and is the first asset with it |
| Updates.FindWithExtension | Services/UpdateService.cs:149-159 | the inner loop finds the first asset with one extension, or hands on to the next extension |
| Updates.ChooseAsset | Services/UpdateService.cs:146-161 | the nested loops compute PreferredAsset in priority order .msixbundle, .msix, .msi, .exe, .zip |
| Updates.Reported | Services/UpdateService.cs:88-108 | a check appends its verdict or a failure, then CheckingChanged; an update is reported exactly when latest > current |
| Updates.FetchLatestRelease | Services/UpdateService.cs:112-174 | a timed-out request is cancelled, a failing one throws its message, no suitable release throws; otherwise the info of the first suitable release and its preferred asset |
| Updates.UpdateService.constructor | Services/UpdateService.cs:18-22 | the service starts for bossman79/Bluetask without prereleases, not checking, with no info |
| Updates.UpdateService.Configure | Services/UpdateService.cs:44-49 | blank or null names keep the previous owner and repository; the prerelease switch is always taken |
| Updates.UpdateService.BeginCheck | Services/UpdateService.cs:79-81 | a check started while one runs returns at once and changes nothing; otherwise the flag is raised and CheckingChanged sent |
| Updates.UpdateService.CompleteCheck | Services/UpdateService.cs:84-109 | the flag ends lowered; a fetched result is recorded with the current version and reported; a timeout or an exception reports a failure and keeps the old info |
| Updates.UpdateService.CheckForUpdates | Services/UpdateService.cs:77-110 | a running check makes it return at once; otherwise the flag, the fetch, the verdict latest > current or the failure, in that order |

## Left out

- Dashboard.DashboardViewModel.UpdateProcesses as one method (ViewModels/DashboardViewModel.cs:366-688) is not modelled. Its stages are verified one by one, but no single method chains them:
  - the value-level plan (BuildPlan);
  - UpsertRecords and PruneModels;
  - ReconcileParents, WriteAggregates and the grouping turn;
  - ReconcileTopLevelOrder, ApplySortOnly and the visible/top lists.
- The loop over groups in BuildGroupedTopLevel (ViewModels/DashboardViewModel.cs:690-747) is not modelled as one method. One turn of it (PlaceRow), what a turn leaves alone (TurnKeeps), the final trim of the group dictionary (PruneGroupNames) and its keys (GroupNamesAfter) are verified. A method chaining the turns is beyond the proof budget.
- The optional CPU/GPU normalisation block inside UpdateProcesses (ViewModels/DashboardViewModel.cs:370-466) is not modelled. It is a heuristic over floating sums with a 2% jitter guard.
- SetGroupSameNames and OnGroupSameNamesChanged (ViewModels/DashboardViewModel.cs:221-236) are not modelled. They rerun UpdateProcesses on the last records, or else resort and refresh the top list.
- The dashboard constructor's settings reads and event subscriptions (ViewModels/DashboardViewModel.cs:152-172) are not modelled. OnTwoColumnDriveThresholdChanged is modelled only as the `atFour` parameter of the layout.
- SuppressSortDueToInteraction is an input field of the view model. Whatever UI sets it is not modelled.
- Dashboard.DashboardViewModel.ApplySortOnly: only the top-level rows are reordered. The source's sortSubtree (ViewModels/DashboardViewModel.cs:894-910) also reorders every node's children and smooths their keys; child order and child smoothing state are not captured.
- Dashboard.DashboardViewModel.ApplySortOnly: the throttle time is recorded after the sort, where the source stores it first (ViewModels/DashboardViewModel.cs:860). The two differ only when the sort throws.
- Dashboard.DashboardViewModel.IsPinnedRecursive: takes a depth bound, where the source recursion is unbounded (ViewModels/DashboardViewModel.cs:884-892). The contract holds for pins within that depth.
- Dashboard.DashboardViewModel.ResortAll: its own contract states the multiset and the derived lists but not the order. The order is stated by ApplySortOnly and SortRoots, which it calls.
- Dashboard.DashboardViewModel.RefreshTopProcesses: the Name column orders by the culture's string comparison, modelled as the abstract ranking `nameRank`.
- Text.Upper: case folding is ASCII only. StringComparer.OrdinalIgnoreCase and ToUpperInvariant fold all of Unicode. Names that differ only in the case of non-ASCII letters therefore group, match and filter together in the program but not in the model. This affects the group dictionary, GroupBy, the launcher and Steam names, the search filter, the brand rules and the Equals matches.
- Text.ParseReal: plain decimal notation only. double.TryParse also accepts exponents, thousands separators and the current culture's decimal mark, which are not modelled. This affects the BoolToOpacity converter's parameter and the memory text read by Performance.TotalVideoMemoryGb.
- Adapters.NormalizeAdapterName: its contract states the spacing and the length of the result only. The case folding and the removals are not stated; each removal is a single Replace pass, so a removed word can reappear (GGPUPU becomes GPU).
- DashboardTree.Descends: bounded by the number of keys of the desired-children dictionary, where ContainsRecursive is unbounded. A path that visits no key twice fits within the bound. On a cycle reachable from the anchor the source recurses without end (see "## Findings") and the model answers false.
- DashboardTree.MergeHelper: states the outcome of the bounded search. When the lists hold a cycle reachable from the anchor the source's helper pass never returns, which this contract does not capture (see "## Findings").
- DashboardTree.MergeHelpersGathers: every helper ends below the anchor only in the bounded model. As written the loop never finishes once a cycle reachable from the anchor exists (see "## Findings").
- DashboardTree.SteamAnchorGathers: as for MergeHelpersGathers. The source's merge never finishes once its own moves close a cycle below the anchor (see "## Findings").
- Exceptions are not modelled:
  - the catch-all try blocks around UpdateProcesses, RefreshTopProcesses and the sampling loops;
  - ConvertBack's NotImplementedException in the converters;
  - the throws of JSON GetBoolean and GetString (a malformed release document is an error result instead).
- Settings.TruncateToInt: unbounded. The `(int)` cast of a slider value beyond the 32-bit range is not modelled.
- Settings.GetBool, Settings.GetInt, Settings.GetString: a stored value of another kind gives the default. The source's reflection-based ConvertTo (Services/SettingsServiceHelper.cs:91-133) would try to convert it. ApplicationData and JSON persistence are an abstract map.
- ProcessMonitor.ParentProcessMapCache: one cache per service object, where the source keeps a process-wide lazy singleton. With one service the behaviour is the same.
- Performance.FormatUptime: takes `millis: nat`, so a negative TimeSpan is excluded.
- Performance.TotalVideoMemoryGb: has no contract of its own. It enters only through the ranking of ChoosePreferredGpuIsPreferred.
- The `_isChecking` flag of the update service is not modelled as a race. Calls are sequential.
- The other locks, dispatcher enqueues and interlocked flags are also modelled as sequential calls, and the update loops and Dispose are not modelled.
- ETW session setup, its event callbacks and its process-name cache (Services/SystemMonitorService.cs:2230-2526) are not modelled. Only the snapshot-delta arithmetic over the trace tables is.
- The NaN case of a sensor's float value is not modelled. Temperatures are reals.
- The catch in EnsurePerCoreCounters is not modelled. Counter creation is a parameter that either yields the counters or not.
- Download, installer launch and the package or assembly lookup of GetCurrentVersion are not modelled. CurrentVersion takes the three readings as parameters.
- I/O-only helpers are not modelled: process kill, open location and the Explorer launch (ViewModels/DashboardViewModel.cs:1034-1120).
- The UI pages, windows and brush helpers are not modelled.
- HistoryToPointsConverter is not modelled. Its only behaviour beyond CpuHistoryToPointsConverter's is IEEE division by zero.
- Reflection probing of the hardware library is not modelled.
- Formatting of doubles (`:F1`, rates, sizes) and the rounding GetHashCode of the info records are not modelled. Only thresholds and unit choice are.

## Findings

| source | as written | input that shows it | evidently intended | confidence | as-written member | corrected member |
|---|---|---|---|---|---|---|
| ViewModels/DashboardViewModel.cs:630-638 | the synthetic Steam group is given the helpers' summed CPU, memory and GPU as its own values, and aggregation (lines 667-670) then adds the helpers' subtree values again | one steamwebhelper.exe record of m bytes with no steam.exe: the group shows 2m bytes | the group shows the sum of its helpers once | not executed | DashboardTree.LoneHelperDoubleCounted (also DashboardTree.SyntheticGroupCountsTwiceAsWritten over BuildPlanAsWritten) | DashboardTree.LoneHelperCountedOnce (also DashboardTree.SyntheticGroupCountsOnce; BuildPlan uses the corrected merge) |
| Services/SystemMonitorService.cs:1410 | the Kingston test accepts any model starting "SA" before the SanDisk test at line 1415 is reached | a drive whose model is "SANDISK SSD PLUS" and whose manufacturer names no brand resolves as Kingston | such a drive resolves as SanDisk | not executed | Inventory.StorageSanDiskShadowed | Inventory.StorageSanDiskResolved |
| Services/SystemMonitorService.cs:2952 | the Samsung test accepts any part number starting "M" before the Micron test at line 2954 | a module with part number "MTA8ATF1G64AZ" whose manufacturer texts are all placeholders resolves as Samsung | such a module resolves as Micron | not executed | Inventory.RamMicronShadowed | Inventory.RamMicronResolved |
| Models/ProcessModels.cs:78 | the separator is the two characters "Ã—", i.e. the UTF-8 bytes of "×" read in another code page | a group of two "chrome.exe" rows displays "chrome.exe Ã— 2" | "chrome.exe × 2" | not executed | ProcessModels.DisplayNameAsWrittenMisencoded | ProcessModels.ProcessModel.DisplayName |
| Services/SystemMonitorService.cs:153-178 | EnsureNetworkInterfaces has no caller in Services/, ViewModels/, Models/, Views/, MainWindow or Program, so the interface list set empty at line 139 stays empty where lines 1520 and 1551 read it | any sample once the trace path is unavailable: 0 Mbps and never "Connected" | the interfaces are enumerated before the first sample | not executed; callers were searched for in those directories only | SystemMonitor.FallbackWithoutInterfaces (also SystemMonitor.TraceWithoutInterfaces) | SystemMonitor.SystemMonitorService.SampleNetwork (also SystemMonitor.FallbackMeasuresGrowth) |
| ViewModels/DashboardViewModel.cs:579-615 | ContainsRecursive follows the desired-children lists with no visited set, and the helper loop itself can make the lists cyclic: it moves a helper into the list of a steam.exe that is that helper's own child | models in _modelsByPid order: steamwebhelper.exe pid 5 with no parent, steam.exe pid 10 with parent 5, steamwebhelper.exe pid 6 with no parent. Helper 5 goes under steam.exe, closing 10→5→10, and the search for helper 6 recurses without end; the stack overflow is not caught and ends the process | the search stops on a cycle, and helper 6 goes under steam.exe | not executed | DashboardTree.SteamMergeCycleSample (also DashboardTree.MergeHelperClosesCycle over DashboardTree.FirstCallChain) | DashboardTree.MergeHelper, whose search DashboardTree.Descends is bounded by the number of keys (also DashboardTree.CycleHidesHelper and DashboardTree.SteamAnchorGathers; BuildPlan uses it) |
