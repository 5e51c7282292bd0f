# IcefallDB core: a verified model

IcefallDB stores a table as immutable row-group files, deletion vectors, and numbered manifests behind a
pointer. Around that it keeps several fast forms of simple things: compacted fragments, index deltas, cached
aggregates, a learned key model, a live connection. This project models the operations that have to keep the fast
forms in agreement with the simple meaning, and proves that they do: for every input, every run or every
interleaving. Operations that update state in place are classes and methods with loops; protocols are step
relations or methods during which the environment may act; the meaning is given by functions and lemmas.

| file | what it models |
|---|---|
| `Collections.dfy`, `MachineIntegers.dfy`, `Permutations.dfy` | sequences, integer ranges, sorting permutations |
| `RowIds.dfy` | row-id segments in u64 arithmetic |
| `Builder.dfy` | the streaming row-group builder |
| `Compaction.dfy`, `CompactTable.dfy`, `CompactOutcome.dfy` | compaction of one partition and of a table, and what an attempt leaves |
| `CommitProtocol.dfy` | pin, rewrite, revalidate, commit, with writers, several compactors, failures and deaths |
| `CommitSafety.dfy`, `CommitLimits.dfy` | what a single compactor keeps in every run; runs that break the rest, and the exact conditions |
| `IndexDeltas.dfy`, `UniqueIndex.dfy`, `LearnedKey.dfy` | index deltas, unique indexes, the learned model |
| `Selection.dfy`, `AggPartials.dfy`, `AggState.dfy`, `Extrema.dfy` | deletion selections, partials, retraction, extrema |
| `GroupedAgg.dfy`, `GroupedMerge.dfy`, `RewriteAggregates.dfy` | grouped partials, merging, retraction, compaction |
| `LruCache.dfy` | the aggregate-state cache |
| `History.dfy` | the hash chain of manifests |
| `TableStore.dfy`, `Gc.dfy`, `Repair.dfy` | a file store, garbage collection, repair |
| `Freshness.dfy` | the freshness protocol of the native connection, over pointer and mutation log |
| `Tsv.dfy` | the TSV line codec |

`dafny verify dfyconfig.toml` checks everything.

## Where the code and a natural expectation differ

Each of these is stated as a lemma, next to the exact condition under which the expectation holds.

- Compaction is not safe in every run. A cleanup takes the intent of a running compaction for stale. When it comes
  between two renames, a manifest is committed without its data file (`CommitLimits.DataLost`); when the commit fails
  on the missing metadata, its rollback, which no longer holds the lock, deletes the manifest another writer has
  committed meanwhile (`CommitLimits.HistoryLost`). With one compactor this takes a writer that gives up or dies after
  its cleanup, or, for the manifest, a commit that fails after it has chosen its sequence; with two it takes nothing.
  The exact conditions are `HistorySafeIff` and `RowGroupsSafeIff`.
- A comment in the writer says that after a crash behind the pointer swap the next cleanup preserves the files of the
  intent. The cleanup of a pin does not: it spares only row groups. A writer that has deleted rows and dies before it
  drops its intent loses its deletion vector to the next pin (`CommitLimits.DeletionLostByWriter`), a compaction that
  dies there its row index and checkpoint (`CommitLimits.ExtrasLostByCall`); and a rollback deletes the checkpoint of
  the manifest that has taken its number (`CommitLimits.CheckpointLostByRollback`). All files are safe exactly when
  `AllFilesSafeIff` says so.
- A publication can overwrite a commit it never saw exactly when more than one compaction runs at a time
  (`CommitLimits.PublicationsSafeIff`).
- A live connection can answer a query without a commit that was there before the query: a checkpoint that deletes the
  log between the two reads of a load, or between the two looks of a check, hides it (`Freshness.TornLoad`,
  `Freshness.TornCheck`, with the exact conditions in `LoadShowsIff` and `CheckIsSoundIff`).
- `resolve_live_extrema` says that it falls back when the offset of the extremal row is unknown; it reports the
  statistic of the whole column instead, even when its row is deleted (`Extrema.DeletedMinimumIsReported`, with the
  exact condition in `Extrema.ResolveExtremum`).
- A row id of u64::MAX at the end of a range makes the range decode to nothing (`RowIds.EncodingDecodes`).
- The learned key model answers a query such as `+1` that the B-tree does not know
  (`LearnedKey.AgreesUnlessRespelled`).
- `scoped_recompute_extremum` documents a live extremum, but reports nothing for a negative one
  (`Extrema.ScopedRecompute`, `Extrema.NegativeExtremumIsNotReported`).
- `merge_grouped` documents that a measure is dropped on overflow; a later part brings it back with its own values
  (`GroupedMerge.OverflowedMeasureComesBack`), so the merge is right exactly when the group's total fits
  (`GroupedMerge.MergeIsGroupBy`).
- A comment on the empty outcome of compaction says that all rows were deleted; the code takes that path only when
  no physical row was read (`CompactOutcome.Attempt`, with a table in `CompactOutcome.DeletedRowCounts` and the exact
  condition in `CompactOutcome.EmptyMeansAllDeletedIff`).
- The collector does not accept manifests from before checksums, the doctor does: a row group that only such a
  manifest refers to is deleted even when every snapshot is to be kept (`Repair.LegacyRowsAreCollected`, with the exact
  condition in `Repair.ProtectedIsSweptIff`).
- `parent_manifest_checksum` never looks for a predecessor of manifest 1 (`History.PublishedIsLinked`).

## Model

| member | source | states |
|---|---|---|
| `RowIds.IdsToSegments` | crates/icefalldb-core/src/compaction.rs:1711-1742 | the segments are the canonical encoding of the ids: one `Range` per run of consecutive ids when they strictly increase, one `Sorted` segment otherwise |
| `RowIds.EncodingDecodes` | crates/icefalldb-core/src/rowid.rs:25-30 | decoding an encoding gives back exactly the ids, if and only if it is not an increasing list that reaches u64::MAX |
| `RowIds.EncodingIsMinimal` | crates/icefalldb-core/src/compaction.rs:1711-1742 | no other list of ranges that decodes to the same ids is shorter |
| `RowIds.AllocateRange` | crates/icefalldb-core/src/rowid.rs:18-23 | the allocated segment decodes to the next `count` ids and the counter moves past them |
| `Builder.StreamingRowGroupBuilder.Add` | crates/icefalldb-core/src/compaction.rs:370-431 | flushed groups followed by the buffer are the old buffer followed by the batch, nothing lost or reordered, and so are the per-row byte estimates; every flushed group has 1 to target rows, is below the byte target without its last row, and has no room left: the target's rows, or bytes that reach the target or that one more row takes over it; the slicing loop ends |
| `Builder.StreamingRowGroupBuilder.SliceFull` | crates/icefalldb-core/src/compaction.rs:410-431 | cuts whole groups off the front, keeps the rest in order, and terminates |
| `Builder.StreamingRowGroupBuilder.RowsPerGroup` | crates/icefalldb-core/src/compaction.rs:410-415 | the largest slice within both targets, at least one row; it is zero, so that the slicing loop makes no progress, exactly when the row target and the bytes per row are both zero |
| `Builder.StreamingRowGroupBuilder.Flush` | crates/icefalldb-core/src/compaction.rs:433-448 | returns the buffered rows, or nothing if there are none, and empties the buffer |
| `Compaction.FilterMeaning` | crates/icefalldb-core/src/compaction.rs:1749-1787 | rows and ids are filtered by the same offsets and stay paired |
| `Compaction.CollectFragment` | crates/icefalldb-core/src/compaction.rs:831-889 | streaming a fragment batch by batch, with the running physical offset, gives its live rows aligned with their ids |
| `Compaction.SortByRowId` | crates/icefalldb-core/src/compaction.rs:895-942 | ids come out ascending and every row keeps its id |
| `Compaction.RowIdAccumulator.Take` | crates/icefalldb-core/src/compaction.rs:1693-1704 | the ids handed out, in order, are a prefix of the ids pushed |
| `Compaction.StagingState.StageChunk` | crates/icefalldb-core/src/compaction.rs:1306-1404 | one output fragment is recorded that decodes to exactly the chunk's ids and rows in the fewest ranges |
| `Compaction.WritePartition` | crates/icefalldb-core/src/compaction.rs:944-1010 | the fragments written for a partition hold, chunk by chunk, exactly the given ids and rows, whatever the targets; every chunk but the last is filled, and none is oversized, by the row estimates of the batches |
| `CompactTable.CompactPartition` | crates/icefalldb-core/src/compaction.rs:831-1010 | the output of a partition has the same live (id, row) pairs as its input, ids strictly increasing across chunks |
| `CompactTable.Compact` | crates/icefalldb-core/src/compaction.rs:817-1010 | for every set of fragments and deletion vectors the output holds exactly the live rows of the input, each under its id and in its partition, partition after partition; per partition ids strictly increase and every fragment but the last is filled; every fragment has 1 to target rows and a minimal encoding |
| `CompactTable.CompactMerges` | crates/icefalldb-core/src/compaction.rs:361-431 | when the byte target does not bind, a partition with n live rows comes out as the fewest fragments, ceil(n / target rows) |
| `CompactTable.FewestFragments` | crates/icefalldb-core/src/compaction.rs:361-431 | then every fragment but the last has exactly the target's rows |
| `CompactOutcome.Attempt` | crates/icefalldb-core/src/compaction.rs:817-1014 | the table is left as it is exactly when it has no physical row; otherwise the output holds the same row under every id, satisfies what a next compaction asks for, and is empty when all rows are deleted |
| `CompactOutcome.EmptyMeansAllDeletedIff` | crates/icefalldb-core/src/compaction.rs:1012-1014 | the number of rows read is zero exactly when no row is live, if and only if there is a live row or no physical row |
| `CompactOutcome.DeletedRowCounts` | crates/icefalldb-core/src/compaction.rs:1012-1014 | a table of one deleted row holds nothing and counts one input row |
| `CompactOutcome.SameTable` | crates/icefalldb-core/src/compaction.rs:817-1010 | two tables with the same contents, of which one has unique ids, hold the same row under every id |
| `CompactOutcome.TableMapHas` | crates/icefalldb-core/src/compaction.rs:1749-1787 | the map of a table holds exactly its live rows, each under its id |
| `CompactOutcome.PublishedRows` | crates/icefalldb-core/src/compaction.rs:1064-1088 | the rows of the manifest a compaction publishes are those of its output fragments, when these are a compaction of the manifest in place |
| `CommitProtocol.EveryPublicationIsBuiltOnPredecessor` | crates/icefalldb-core/src/compaction.rs:1023-1066 | in every run of any number of compactors and writers, with failures and deaths of any kind: as long as no committed manifest was lost, a published compaction manifest holds, at the moment of publication, what its immediate predecessor holds, refers to exactly the same index files, to a row index and a checkpoint of its own, and to no deletion vector or row-index delta; with one compactor always |
| `CommitProtocol.EveryPublicationIsMadeOfClaims` | crates/icefalldb-core/src/compaction.rs:1066-1082 | in every run whatever, the row groups of a published compaction manifest are exactly those its call has staged, each with data, metadata and aggregate file, and as many as the scanned rows go into |
| `CommitProtocol.PublishesOnPredecessor` | crates/icefalldb-core/src/compaction.rs:1034-1048 | the no-ABA argument: a pointer that still names the pinned sequence means that the scan, opened after the pin lock was released, shows exactly the manifest now in place |
| `CommitProtocol.InvRun` | crates/icefalldb-core/src/compaction.rs:1306-1404 | in every run of any kind the row groups of different calls, of the writer at work and of manifests stay apart |
| `CommitProtocol.ConflictIsHarmless` | crates/icefalldb-core/src/compaction.rs:1596-1652 | in every run a conflict, and both halves of the rollback after it, leave every manifest, the pointer and every file of a manifest alone |
| `CommitProtocol.CallsTerminate` | crates/icefalldb-core/src/compaction.rs:600-650 | every step of a call decreases a measure that nobody else can raise, with at most three attempts |
| `CommitProtocol.RetriesIffPointerMoved` | crates/icefalldb-core/src/compaction.rs:600-650 | a call tries again only after its commit found the pointer moved since the pin, and only twice; every other failure ends it |
| `CommitProtocol.NeverStuck` | crates/icefalldb-core/src/compaction.rs:652-1260 | in every run a call that does not wait for the lock can proceed without failing, and open its scan when the manifest is there |
| `CommitProtocol.DataRun` | crates/icefalldb-core/src/compaction.rs:1066-1082 | in every run a manifest with rows refers to a data file |
| `CommitSafety.SoloRun` | crates/icefalldb-core/src/writer.rs:5244-5356 | in every run with at most one compactor and no writer that gives up: what an intent lists is needed by nobody or by the current manifest alone, what a writer keeps stays in place while it works, and the rest of the invariant behind the three conditions |
| `CommitSafety.PinCleans` | crates/icefalldb-core/src/writer.rs:5244-5356 | a pin takes exactly the files that intents list but the row groups of the manifest it loaded, all intents, then the staged files and the manifests above the pointer |
| `CommitSafety.WriterCleans` | crates/icefalldb-core/src/writer.rs:5244-5356 | the same for a writer, which spares every file of the current manifest |
| `CommitSafety.ExtraIsNew` | crates/icefalldb-core/src/writer.rs:1838-1870 | the next version of a deletion vector, and files named by the next sequence number, belong to no committed manifest |
| `CommitSafety.PublishWellNamed` | crates/icefalldb-core/src/writer.rs:2112-2126 | a writer's publication keeps it so: no file is numbered above its manifest, and the latest deletion vector of a current row group is current |
| `CommitLimits.HistorySafeIff` | crates/icefalldb-core/src/compaction.rs:1196-1218 | no committed manifest is lost in any run, if and only if there is at most one compactor, and with one no commit fails after choosing its sequence and no writer gives up before it has moved the pointer |
| `CommitLimits.HistoryLost` | crates/icefalldb-core/src/compaction.rs:1596-1652 | a run in which the rollback of a failed commit deletes a manifest that a writer committed after the lock was released |
| `CommitLimits.RowGroupsSafeIff` | crates/icefalldb-core/src/writer.rs:5244-5299 | the row groups of committed manifests stay in place in every run, if and only if there is at most one compactor, and with one no writer gives up |
| `CommitLimits.DataLost` | crates/icefalldb-core/src/compaction.rs:1407-1496 | a run in which a cleanup between two renames makes a manifest without its data file |
| `CommitLimits.AllFilesSafeIff` | crates/icefalldb-core/src/compaction.rs:690-705 | all files of committed manifests, deletion vectors, index files, row index and checkpoint included, stay in place in every run, if and only if there is at most one compactor, and with one no commit fails after choosing its sequence and no call or writer gives up half-way, dies or leaves its intent |
| `CommitLimits.ExtrasLostByCall` | crates/icefalldb-core/src/compaction.rs:1093-1134 | a run in which the pin after a publication deletes the current manifest's row index |
| `CommitLimits.DeletionLostByWriter` | crates/icefalldb-core/src/writer.rs:2075-2083 | a run of one compactor that neither fails nor dies, in which a writer dies after moving the pointer and the next pin deletes the current manifest's deletion vector |
| `CommitLimits.CheckpointLostByRollback` | crates/icefalldb-core/src/compaction.rs:1628-1647 | a run in which the rollback of a failed commit deletes the checkpoint of the manifest in place |
| `CommitLimits.PublicationsSafeIff` | crates/icefalldb-core/src/compaction.rs:600-719 | every publication in every run is its immediate predecessor, rewritten, if and only if at most one compaction runs at a time |
| `CommitLimits.PublishesOnLostManifest` | crates/icefalldb-core/src/compaction.rs:1263-1288 | a run of two compactors in which the pointer goes back after a lost manifest and a publication overwrites a commit it never saw |
| `IndexDeltas.LookupApplyDelta` | crates/icefalldb-core/src/index.rs:459-487 | one delta filters the postings of every key and then appends its adds |
| `IndexDeltas.BTreeIndex.ReplayDeltas` | crates/icefalldb-core/src/index.rs:459-487 | replaying in place equals folding the deltas, missing files skipped |
| `IndexDeltas.IndexDeltaOverlay.Load` | crates/icefalldb-core/src/index.rs:568-596 | for every base and key the overlay knows what replay would drop and append |
| `IndexDeltas.OverlayLookup` | crates/icefalldb-core/src/index.rs:543-596 | `merge(v, base.lookup(v))` equals, as an exact sequence, the lookup of `v` after replaying the deltas |
| `UniqueIndex.CheckUniqueAdds` | crates/icefalldb-core/src/index.rs:976-1017 | accepts exactly when equal added keys are the same row and every row already under an added key is tombstoned |
| `UniqueIndex.DeltaKeepsExact` | crates/icefalldb-core/src/index.rs:1133-1236 | on an exact index, the check accepts exactly the changes that keep the live rows unique, and the delta then makes the index exact for the new rows |
| `UniqueIndex.BuildIsExact` | crates/icefalldb-core/src/index.rs:702-734 | a full build succeeds exactly on unique rows and is then exact |
| `UniqueIndex.BuildFromAdds` | crates/icefalldb-core/src/index.rs:702-734 | the loop that groups, sorts and deduplicates is the specified build, with the same refusals |
| `UniqueIndex.ExactIsInjective` | crates/icefalldb-core/src/index.rs:976-1017 | an exact index maps each key to one row id and each row id to one key |
| `UniqueIndex.MaintainStep` | crates/icefalldb-core/src/index.rs:1312-1422 | every accepted statement keeps the index exact, and with a base, or when one is built, a statement is refused exactly when it would break uniqueness; an accepted insert or rebuild leaves an exact index with a base whatever there was before, a base stays, and without one an update that adds keys is refused |
| `UniqueIndex.EveryRunKeepsIndexExact` | crates/icefalldb-core/src/index.rs:1133-1422 | over every run of inserts, updates and deletes there is a base if and only if there was one before or an insert or rebuild was accepted, and from then on the resolved base plus deltas equals a full rebuild over the live non-null rows |
| `UniqueIndex.UniqueIndexSlot.OnInsert` | crates/icefalldb-core/src/index.rs:1312-1422 | the in-place maintenance on insert is the specified step |
| `UniqueIndex.UniqueIndexSlot.OnUpdate` | crates/icefalldb-core/src/index.rs:1133-1236 | the in-place maintenance on update is the specified step |
| `UniqueIndex.UniqueIndexSlot.OnDelete` | crates/icefalldb-core/src/index.rs:360-401 | a delete appends the tombstones and nothing else |
| `LearnedKey.ParsePrint` | crates/icefalldb-core/src/index.rs:954-960 | parsing a printed i64 gives it back |
| `LearnedKey.Fit` | crates/icefalldb-core/src/index.rs:78-128 | a fitted model stands for exactly the index's keys and row ids, and none is returned only when no model does, with overflow counted as a mismatch |
| `LearnedKey.AgreesUnlessRespelled` | crates/icefalldb-core/src/index.rs:130-152 | for every query string the model's arithmetic lookup equals the B-tree lookup, if and only if the string is not another spelling of a key |
| `LearnedKey.AgreesOnIntegers` | crates/icefalldb-core/src/index.rs:130-152 | on printed i64 keys and queries, present or absent, up to both extremes, the two lookups agree |
| `LearnedKey.RespelledQueryDiffers` | crates/icefalldb-core/src/index.rs:130-152 | a fitted index and the query `+1` on which they differ |
| `Selection.DeletedSelection` | crates/icefalldb-core/src/agg_cache.rs:640-656 | the run-length selection expands to exactly the deleted offsets, with no empty run |
| `Selection.LiveSelection` | crates/icefalldb-core/src/agg_cache.rs:1012-1029 | the other selection expands to exactly the live offsets and covers every row, with no empty run |
| `Selection.SelectionsAreComplements` | crates/icefalldb-core/src/agg_cache.rs:640-656 | together the two list every offset of the fragment exactly once |
| `AggPartials.ComputeIntCol` | crates/icefalldb-core/src/agg_cache.rs:1152-1219 | the checked fold returns count, sum and sum of squares and the first extremal offsets, and drops the column exactly when the sum of squares leaves i128 |
| `AggPartials.FoldRows` | crates/icefalldb-core/src/agg_cache.rs:1477-1542 | the offset-free fold has the same totals and the same overflow condition |
| `AggPartials.CellTotals` | crates/icefalldb-core/src/agg_cache.rs:1152-1219 | a cell v counts 1, v and v * v; null and no cell count nothing |
| `AggPartials.RetractColExact` | crates/icefalldb-core/src/agg_cache.rs:886-946 | retracting the deleted totals from a kept partial never drops the column and leaves exactly the live totals |
| `AggPartials.MergeColsExact` | crates/icefalldb-core/src/agg_cache.rs:1662-1688 | merging is exact if and only if the combined sum of squares fits |
| `AggPartials.TotPermutation` | crates/icefalldb-core/src/agg_cache.rs:1152-1219 | totals do not depend on row order |
| `AggPartials.TotSplit` | crates/icefalldb-core/src/agg_cache.rs:633-884 | a column's totals are those of its deleted rows plus those of its live rows |
| `AggState.ComputeAggState` | crates/icefalldb-core/src/agg_cache.rs:217-330 | keeps exactly the integer columns whose sum of squares fits |
| `AggState.DeletedContribution` | crates/icefalldb-core/src/agg_cache.rs:633-884 | folds exactly the deleted rows of the requested columns, and fails only on a real overflow |
| `AggState.Retract` | crates/icefalldb-core/src/agg_cache.rs:886-967 | the in-place update subtracts column by column and drops exactly the columns whose subtraction fails |
| `AggState.LivePartials` | crates/icefalldb-core/src/agg_cache.rs:886-967 | for every deletion vector every kept column stays, with count, sum and sum of squares of exactly the live rows |
| `Extrema.SurvivingExtremum` | crates/icefalldb-core/src/agg_cache.rs:985-1000 | an extremal row that was not deleted still holds the extremum of the live rows |
| `Extrema.ScopedRecompute` | crates/icefalldb-core/src/agg_cache.rs:1003-1142 | an answer is the live extremum, and there is one exactly when the live extremum lies in 0..u64::MAX |
| `Extrema.ResolveExtremum` | crates/icefalldb-core/src/reader.rs:1360-1414 | what is reported is the live extremum, if and only if the offset of the extremal row is known, or there is no statistic, or a live row still holds it; the statistic is reported unless the extremal row is known to be deleted, and then the live extremum in the range that JSON numbers have |
| `Extrema.DeletedMinimumIsReported` | crates/icefalldb-core/src/agg_cache.rs:985-1000 | a sidecar without offsets for which the minimum of a deleted row is reported |
| `Extrema.NegativeExtremumIsNotReported` | crates/icefalldb-core/src/agg_cache.rs:1085-1142 | every negative extremum is reported as none |
| `GroupedAgg.ComputeGrouped` | crates/icefalldb-core/src/agg_cache.rs:1384-1473 | per group and measure the totals of exactly the group's rows, no group overflows when the column does not, and none at all exactly above the cardinality guard |
| `GroupedAgg.GroupColumnHas` | crates/icefalldb-core/src/agg_cache.rs:1384-1473 | the column of a group holds exactly the values its rows have for the measure |
| `GroupedAgg.GroupsMergeToColumn` | crates/icefalldb-core/src/agg_cache.rs:1384-1473 | merging all groups of a fragment, in any order, gives the ungrouped partial of the column |
| `GroupedAgg.GroupPermutation` | crates/icefalldb-core/src/agg_cache.rs:1619-1658 | a group's totals do not depend on row order |
| `GroupedMerge.MergeGrouped` | crates/icefalldb-core/src/agg_cache.rs:1619-1658 | the nested loops compute the specified merge, including removal on overflow and re-insertion |
| `GroupedMerge.MergeIsGroupBy` | crates/icefalldb-core/src/agg_cache.rs:1619-1688 | merging fragments, in any order, gives the group-by of the table for every group and carried measure, if and only if the group's sum of squares fits i128 |
| `GroupedMerge.GroupBy` | crates/icefalldb-core/src/agg_cache.rs:1384-1658 | computing every fragment's groups and merging them gives the group-by of the table, if and only if the group's sum of squares fits, and nothing exactly when a fragment has too many groups |
| `GroupedMerge.OverflowedMeasureComesBack` | crates/icefalldb-core/src/agg_cache.rs:1619-1658 | after an overflow a later part re-inserts the measure with its own values alone |
| `GroupedMerge.RetractGrouped` | crates/icefalldb-core/src/agg_cache.rs:1701-1881 | row-by-row subtraction gives the group-by of the live rows for the requested measures and leaves the others alone |
| `GroupedMerge.WarmGroupBy` | crates/icefalldb-query/src/rules/metadata_aggregate.rs:1680-1705 | retracting every fragment and merging gives the group-by of the live table, if and only if the group's sum of squares fits |
| `RewriteAggregates.SurvivorsAreLiveRows` | crates/icefalldb-core/src/compaction.rs:1749-1787 | compaction and retraction agree on which rows are live |
| `RewriteAggregates.AggregatesSurvive` | crates/icefalldb-core/src/compaction.rs:1554-1566 | when the live sum of squares fits, no fresh partial of an output fragment overflows, and they add up to what the retracted partials of the input added up to, for every chunking |
| `RewriteAggregates.CompactWithAggregates` | crates/icefalldb-core/src/compaction.rs:817-1010 | retracting the input fragments, compacting and recomputing the output fragments gives the same count, sum and sum of squares, with no partial missing, when the live sum of squares fits |
| `RewriteAggregates.RegroupOutput` | crates/icefalldb-core/src/compaction.rs:1554-1566 | the groups recomputed from the output are the group-by of the live input |
| `RewriteAggregates.GroupsSurvive` | crates/icefalldb-core/src/compaction.rs:1554-1566 | merged group partials before and after a compaction stand for the same groups with the same totals |
| `RewriteAggregates.CollectColumn` | crates/icefalldb-query/src/rules/metadata_aggregate.rs:1138-1218 | the cached total is exact, and available exactly when every row group has a current partial of the column, the first has the column's type (or all are null) and no running total overflows |
| `LruCache.AggStateCache.Get` | crates/icefalldb-core/src/agg_cache.rs:2030-2051 | returns the cached value and moves a hit to the back of the order |
| `LruCache.AggStateCache.PutEntry` | crates/icefalldb-core/src/agg_cache.rs:2053-2072 | keeps order and entries at the capacity-many most recently touched paths |
| `LruCache.AggStateCache.ClearAll` | crates/icefalldb-core/src/agg_cache.rs:2074-2080 | starts over with nothing |
| `LruCache.CacheHolds` | crates/icefalldb-core/src/agg_cache.rs:2030-2080 | after every run of critical sections a path is cached if and only if it was put or hit since the last clear and fewer than capacity other paths were after it, with its last value |
| `LruCache.NewestIffFewLater` | crates/icefalldb-core/src/agg_cache.rs:2053-2072 | the list order characterised without lists: cached exactly with fewer than capacity distinct later paths |
| `LruCache.TouchNewest` | crates/icefalldb-core/src/agg_cache.rs:2053-2072 | moving to the back, or appending and evicting the front, keeps the newest paths |
| `History.VerifyHistory` | crates/icefalldb-core/src/doctor.rs:1262-1396 | the loop that threads the predecessor reports exactly the breaks: files judged against their closest predecessor on disk |
| `History.BreakIff` | crates/icefalldb-core/src/doctor.rs:1301-1396 | which break a sequence number has, in terms of the files: garbage, a wrong checksum that is not legacy, or a link that is wrong or missing where manifest and closest predecessor can both be trusted |
| `History.ChainBindsHistory` | crates/icefalldb-core/src/doctor.rs:1301-1396 | two intact timestamped histories over the same sequences with the same latest checksum are identical, or two of their manifests collide under the hash |
| `History.PruningAddsNoBreak` | crates/icefalldb-core/src/gc.rs:231-265 | removing any prefix introduces no break |
| `History.PruningKeepsBreaks` | crates/icefalldb-core/src/gc.rs:231-265 | and hides none above the oldest manifest kept |
| `History.ParentManifestChecksum` | crates/icefalldb-core/src/metadata/manifest.rs:161-236 | fast path and scan both find the checksum of the closest predecessor |
| `History.PublishedIsLinked` | crates/icefalldb-core/src/metadata/manifest.rs:139-251 | a published manifest is a break if and only if it is number 1 after a trusted number 0 |
| `History.PublishingIsLocal` | crates/icefalldb-core/src/metadata/manifest.rs:242-251 | publishing above all manifests changes no other verdict |
| `History.EveryRunIsIntact` | crates/icefalldb-core/src/doctor.rs:1301-1396 | over every run of commits and prunings the history stays intact |
| `TableStore.Sweep` | crates/icefalldb-core/src/gc.rs:276-306 | deletes exactly the doomed files of a directory, and every state on the way lacks only doomed files |
| `Gc.ResolveCurrent` | crates/icefalldb-core/src/gc.rs:357-371 | takes the snapshot the manifest pointer names, or repairs the pointer to the highest valid one, safely at every step |
| `Gc.Run` | crates/icefalldb-core/src/gc.rs:50-268 | at every point of the run every valid snapshot in the window (all of them, or those above the current number less the window) keeps its manifest and every file it refers to, and the pointer is untouched or names the current one; exactly those snapshots are reported as retained, exactly the doomed files go, and a second run deletes nothing |
| `Gc.SweptKinds` | crates/icefalldb-core/src/gc.rs:116-268 | row groups, aggregates, deletion vectors, row-index, checkpoint and index files, by name: each kind goes when nothing in the window refers to it |
| `Gc.SweptAnyway` | crates/icefalldb-core/src/gc.rs:116-268 | temporary and staged files and intents go in any case, manifests below the window; schemas, pointers and unknown files never |
| `Gc.KeptKinds` | crates/icefalldb-core/src/gc.rs:116-268 | a file of these kinds that is referred to stays |
| `Gc.BetweenIsSafe` | crates/icefalldb-core/src/gc.rs:116-268 | a stop between any two deletions leaves the table safe |
| `Gc.SweptIsClean` | crates/icefalldb-core/src/gc.rs:63-112 | after a run the same window, pointer and references leave nothing doomed |
| `Repair.RollbackIntents` | crates/icefalldb-core/src/doctor.rs:397-484 | no intent is left; only intents and listed files no valid snapshot has are gone, and, unless an intent lists another, all of those are |
| `Repair.RepairMetas` | crates/icefalldb-core/src/doctor.rs:585-721 | at every point what is new is the metadata of a row group, with the content rebuilt from the snapshot's schema, that group's data file, the checkpoint and its position; afterwards every metadata file is there or cannot be rebuilt; exactly the new ones are reported; nothing else changes |
| `Repair.DeleteOrphans` | crates/icefalldb-core/src/doctor.rs:921-1038 | deletes exactly the orphans and reports each as removed |
| `Repair.OrphanKinds` | crates/icefalldb-core/src/doctor.rs:921-1038 | what the doctor takes for an orphan or an intent, by name |
| `Repair.RepairTable` | crates/icefalldb-core/src/doctor.rs:283-383 | at every point every valid snapshot keeps its manifest, and the data and metadata of its row groups; what is new or different is the manifest pointer or metadata with the rebuilt content; afterwards the manifest pointer is at the highest valid snapshot, everything that can be rebuilt is there, what intents list and no valid snapshot has is gone, and the table is settled; a repair of a settled table changes nothing and reports nothing repaired; invalid manifests, a wrong pointer and new metadata are in the report; the error cases exactly |
| `Repair.SettledHasNoIssue` | crates/icefalldb-core/src/doctor.rs:1041-1137 | a settled table has no stale intent, wrong pointer, orphan or newer manifest |
| `Repair.OrphansPreserve` | crates/icefalldb-core/src/doctor.rs:921-1038 | deleting orphans loses nothing a valid snapshot refers to |
| `Repair.ProtectedIsSweptIff` | crates/icefalldb-core/src/gc.rs:420-426 | inside the collector's window, a row group the doctor protects is swept if and only if no manifest with a good checksum in the window refers to it |
| `Repair.LegacyRowsAreCollected` | crates/icefalldb-core/src/gc.rs:420-426 | a table whose first manifest is from before checksums loses that manifest's rows although every snapshot is to be kept |
| `Freshness.LoadShowsIff` | crates/icefalldb-core/src/mutation_wal.rs:222-235 | a load contains the commits up to a number that were there at its first read, if and only if they are all in the manifest or no checkpoint deletes the log between the two reads |
| `Freshness.TornLoad` | crates/icefalldb-core/src/mutation_wal.rs:266-312 | a history in which a load misses a commit that was there before it began |
| `Freshness.CheckIsSoundIff` | python/icefalldb/adapter.py:725-746 | when the signature matches, the loaded view contains everything committed before the check, if and only if a log was there at the capture, or none at the check, or nothing was committed since the load |
| `Freshness.CheckIsSound` | python/icefalldb/adapter.py:748-762 | a matching check is right when no checkpoint deletes the log during the check |
| `Freshness.TornCheck` | python/icefalldb/adapter.py:725-746 | a history in which a check takes an outdated view for current |
| `Freshness.FreshUnlessCleared` | python/icefalldb/adapter.py:748-770 | on both paths every commit there was at the start shows, unless a checkpoint deletes the log |
| `Freshness.Connection.constructor` | python/icefalldb/adapter.py:703-723 | every signature is captured before its view is loaded, and the views are exactly as fresh as an untorn or torn load makes them |
| `Freshness.Connection.EnsureFresh` | python/icefalldb/adapter.py:748-770 | the exact condition for what each referenced table shows, on the path that reloads and on the one that does not; it reloads only when the files of a referenced table gave another signature than the stored one, and fails only when a load fails; a pinned connection is untouched |
| `Freshness.Connection.Sql` | python/icefalldb/adapter.py:772-777 | a query shows every commit there was when it was issued, for every table it refers to whose log no checkpoint deletes during the call; it fails exactly when a load fails |
| `Freshness.Connection.Mutate` | python/icefalldb/adapter.py:779-793 | a mutation commits, stores no signature and keeps the invariant; it is refused exactly when the connection is pinned or a load fails |
| `Freshness.MutateThenQuery` | python/icefalldb/adapter.py:772-793 | a query after a mutation sees it, unless a checkpoint deletes the log during the query |
| `Tsv.EscapeCons` | python/icefalldb/adapter.py:2483-2490 | the four successive replacements escape character by character |
| `Tsv.EscapeCodes` | python/icefalldb/adapter.py:2483-2514 | the four codes, both ways, and what happens to every other character |
| `Tsv.UnescapeTsv` | python/icefalldb/adapter.py:2493-2514 | the index loop computes the recursive meaning, including the error for an unknown escape |
| `Tsv.SplitTsvLine` | python/icefalldb/adapter.py:2517-2535 | the scanner computes the recursive split |
| `Tsv.RoundTrip` | python/icefalldb/adapter.py:2638-2652 | splitting the tab-joined escaped cells and unescaping each gives back the list, if and only if the list is not empty, and the line holds no line break |
| `Tsv.CanonicalIff` | python/icefalldb/adapter.py:2493-2514 | escaping an unescaped text gives it back if and only if it has no raw separator and no dangling backslash |

## Left out

- Compaction with sort keys: the chunk is sorted but its row ids are not, so rows and ids do not stay aligned there.
- Compact: asks for a row target of at least one; see `RowsPerGroup` for what happens at zero. What memory a batch is
  reported to take is a parameter, any function of where the batch comes from and of its rows.
- Fragments without row ids, and ids of u64::MAX in input fragments: `Compact` asks that ids cover exactly the rows.
- The collector, the doctor and WAL-only commits inside compaction's lock-free phase: revalidation checks only the
  pointer.
- The contents of log records and their materialisation; `Gc.Run` starts after the checkpoint.
- Floats, sketches, density thresholds, and unsupported group-key types.
- Overflow of row counters, fragment ids and byte estimates in usize and u64.
- Parquet, Arrow and JSON encodings, bitmap bytes, uuids: rows are values, deletion vectors are sets or ascending
  offsets, names are fresh numbers, files have abstract contents.
- Partition values are compared and ordered only, so they are numbers.
- Non-unique indexes, legacy index files, decryption, and the resolution of row ids to live addresses.
- `merge_grouped` asserts that all parts share the key column; the model has one key column. Grouped partials of the
  model hold every kept measure.
- RetractGrouped: asks for distinct measure names, which is what `resolve_live_grouped` passes.
- Gc.Run: asks that manifests refer to no temporary, staged, intent, manifest or pointer file; manifest file names are
  taken to be the canonical ones, one per sequence number.
- Repair.RepairTable: asks that intents list no manifest, schema or pointer, and that data, metadata and checkpoint
  files have their usual names; aggregate, index and deletion files are not protected by the doctor. The deep
  integrity check after the repair changes no file and is not modelled; rebuilding one metadata file is a function of
  schema, data, checkpoint and position. The second look at the schema pointer cannot fail once the table exists and
  is not repeated.
- Freshness.Connection.Sql: assumes that a signature tells the versions of one file apart, as long as the file exists.
  Parsing of query texts for table names is a set of names.
- CommitLimits.HistorySafeIff: a commit that fails leaves no manifest file before its own rollback, which would delete
  it. Cleanups of intents are one step each. The collector and the doctor are not among the steps.
- CommitLimits.AllFilesSafeIff: derived siblings of index and checkpoint files (`.idx`, `.model`, `.rkyv`), which
  readers can do without, and schema files are not modelled.
- In `CommitProtocol` the deletion vectors of a row group go by the id of its metadata file, which every row group has
  to itself. Opening the staging directory and the intent file is part of opening the scan.
- The lock waits of the cache are not modelled; its critical sections are.
- LruCache.AggStateCache.Get: the uninterrupted call; interleaved calls are runs of its two sections `Lookup` and
  `PromoteCached`.
- Whole-file TSV reading and writing: type inference, nulls as empty cells and line splitting.
- Encryption, CLI, HTTP client, benchmarks, DuckDB views, catalog, SQL tokenizers, commit deltas and table checks.
