# AskLake: rules, continuous SQL, Kafka replay, API compatibility and the AI gateway, proved

A Dafny model of the parts of AskLake where a mistake would lose, duplicate or leak rows without anybody
noticing, and proofs of what those parts are for. Frames are sequences of rows; storage, tables and caches are
explicit state; whatever Spark, a regular expression engine, a hash or an HTTP server computes is a parameter.
Each module opens with what it models.

- **The rule engine** (`Expressions`, `RuleExpressions`, `RowRuns`, `SnapshotRules`, `TransformPasses`,
  `QualityPasses`, `RuleMeanings`, `PlainRules`, `RuleEngine`, `SnapshotRuleLaws`, `SparkSnapshotRules`,
  `PlainSpark`). Transform and quality rules run as whole-frame passes with cached counts. The passes are proved
  equal, for every frame and rule list, to running each row alone through the rules, and what the compiled rules do
  to a row is proved to be what they mean, said of its cells; no failure test is ever NULL, so filtering on it and on
  its negation splits every frame; counts are conserved; cutting the transforms into segments around SQL rules
  changes nothing; a SQL rule that fails is a row rule that fails on every row; and no record is lost over a run,
  whatever its SQL rules return.
- **Continuous SQL** (`StaticJoins`, `StaticSnapshotCache`, `StaticBindings`, `StaticBatches`). Pruning a static
  snapshot to the keys of a micro-batch preserves every INNER and LEFT join; snapshots unique on their join keys
  never multiply rows; the three process-wide caches stay coherent; a batch is refused, over its limit or joined
  exactly as its whole snapshots say; every successful call for a batch returns the snapshots of its one binding
  manifest, however workers interleave, retry and crash; that manifest fits the plan of its writer relation by
  relation, and a pinned one carries the pinned snapshots whatever the tables do; and retries join the batch to the
  same rows.
- **Kafka replay** (`OffsetRanges`, `QuarantineReplay`, `QuarantineReplayLaws`, `PlainReplay`, `ReplayRules`,
  `SchemaPaths`, `JsonPaths`). Two algorithms compress offsets into the same, unique list of ranges. Replays store no offset
  twice over any sequence of runs and failures, and none that was not asked for; what a run reports and publishes is stored exactly under the
  conditions proved; it is settled which rows get stored in the end; and the verdicts a replay acts on are those of
  the rule engine. The nested schema tree and its key index agree, and a printed JSON path can be read back.
- **API compatibility** (`JsonDocuments`, `SchemaReferences`, `SchemaResolution`, `PropertyShapes`,
  `SchemaUnfolding`, `ApiCompatibility`, `ApiCompatibilityLaws`, `ContractReadings`). The worklist finds exactly the reachable
  schemas; reference resolution succeeds exactly when following the references ends; a property has a shape exactly
  if it never meets a schema twice, and then the number of objects in its document is depth enough; and "no
  breaking change" is reflexive and composes exactly under the conditions proved.
- **AI gateway** (`ReplayGuard`, `ProviderRetry`). The exact answer of the bounded replay guard to every call,
  and the exact requests and pauses of the retry and failover schedule.

`Text` holds the few Python string methods used and `TextLaws` what they come to, `Wrappers` the option type, `Sets` a fact about sizes of sets.

Five properties turn out not to hold without a condition. For each there is a lemma with a concrete input that
breaks it and one with the exact condition under which it holds: a pruned frame that is accepted need not be
unique (`StaleVerificationAdmitsDuplicates`), and is, whatever a batch brings, exactly if its columns were not
verified before or no two rows of the snapshot with the same key can both be matched (`AcceptanceMeansUnique`);
a replay may report rows as stored that it did not store (`ReportedButNotStored`, `ReportedIsStored`, and over
any sequence of runs `ReportsAreStored`); replays with rejecting rules may stall (`RejectedHeadStalls`,
`StoredInTheEnd`); a recursive schema has no shape (`RecursiveNeverShaped`, `ShapedIff`); and compatibility need
not compose (`CompositionCanFail`, `TransitiveIff`). A complete manifest, too, may stand for rows the table does
not hold; `ManifestIsStored` says exactly when it does not.

Where the repository's comments and its code differ, the code is followed: the comment on uniqueness speaks of
the snapshot, but on the pruned path only the pruned rows are looked at
(backend/scripts/continuous_sql_runtime.py:251-263).

## Model

| member | source | states |
|---|---|---|
| RuleExpressions.MissingIsBool | backend/scripts/snapshot_rule_runtime.py:389-390 | the missing-value test is true or false on every row, and true on NULL |
| RuleExpressions.CastInvalidIsBool | backend/scripts/snapshot_rule_runtime.py:265-295 | the invalid test of every cast, for every target type, is true or false on every row |
| RuleExpressions.TransformInvalidIsBool | backend/scripts/snapshot_rule_runtime.py:226-262 | the invalid test of a transform is never NULL, for every operation, parameter and row |
| RuleExpressions.RangeFailureIsBool | backend/scripts/snapshot_rule_runtime.py:304-323 | the range check is never NULL, whatever bounds are given |
| RuleExpressions.QualityFailureIsBool | backend/scripts/snapshot_rule_runtime.py:298-342 | the failure condition of a quality rule is never NULL; when it is true is the next row |
| RuleMeanings.QualityMeans | backend/scripts/snapshot_rule_runtime.py:298-342 | the compiled failure test of a quality rule holds of a row exactly if the row fails it: a required value is NULL or blank; a value is no number or outside its bounds, strictly or not; it is NULL, does not match, or is not listed; and the reason says which |
| RuleMeanings.CastMeans | backend/scripts/snapshot_rule_runtime.py:265-295 | a compiled cast gives, for the kind its type name asks for, the converted value, and finds exactly the present values invalid that do not convert |
| RuleMeanings.TransformMeans | backend/scripts/snapshot_rule_runtime.py:226-262 | a compiled transform gives the new value of the row, and finds it invalid, exactly as its operation says of the cell it reads |
| RuleMeanings.RecordMeans | backend/scripts/snapshot_rule_runtime.py:345-370 | the record of a quarantined row holds its source position, converted, all its columns and cells, and the rule, reason, stage and target |
| RuleMeanings.ColumnResolved | backend/scripts/snapshot_rule_runtime.py:393-398 | a name stands for itself if the frame has it, else for its normalized form, else for nothing |
| Expressions.NumbersOrdered | backend/scripts/snapshot_rule_runtime.py:304-323 | the numbers a range compares are totally ordered: reals by size, the infinities around them, NaN above all |
| RowRuns.Conservation | backend/scripts/snapshot_rule_runtime.py:74-142 | if each row is accounted for, rows in are rows kept, dropped and quarantined, and errors add up |
| RowRuns.RunAppend | backend/scripts/spark_snapshot_rules.py:42-92 | a row under the rules A then B ends as under A and then, if kept, under B |
| RowRuns.Segmentation | backend/scripts/spark_snapshot_rules.py:42-92 | a batch under A then B: kept rows pass through, quarantines unite, counters add, the first failing rule is the same |
| TransformPasses.FilterSplits | backend/scripts/snapshot_rule_runtime.py:101-118 | filter(invalid) and filter(~invalid) split every frame: no row lost, none in both |
| TransformPasses.PassMeans | backend/scripts/snapshot_rule_runtime.py:81-126 | a rule's pass over the frame gives the rows, records, counters and failures of the rule on each row |
| TransformPasses.TransformPass | backend/scripts/snapshot_rule_runtime.py:85-126 | one transform rule: stops exactly if it must fail the batch and a row is invalid; frame, quarantine and counters are those of the rows; the cached row count is the size of the frame |
| TransformPasses.ApplyTransforms | backend/scripts/snapshot_rule_runtime.py:74-126 | the transform phase: stops at the earliest rule some row fails, else keeps what each row alone would keep |
| QualityPasses.FlagRows | backend/scripts/snapshot_rule_runtime.py:128-146 | all verdicts are frozen on the values before any quality edit, and the invalid rows are counted once each |
| QualityPasses.FindBlocking | backend/scripts/snapshot_rule_runtime.py:153-163 | the first batch-failing rule that flags a row, and the number of flags of all of them |
| QualityPasses.QualityPass | backend/scripts/snapshot_rule_runtime.py:181-200 | one quality rule on the flagged frame does what it does to each row |
| QualityPasses.ApplyGates | backend/scripts/snapshot_rule_runtime.py:180-200 | the quality rules in turn keep what each judged row alone would keep, with the same records and counters |
| RuleEngine.ApplySnapshotRules | backend/scripts/snapshot_rule_runtime.py:47-219 | for every frame and rule list the result, or the exception with rule, reason and counters, is what the rows give one at a time, and what the plain reading of the rules gives |
| PlainRules.StepMeans | backend/scripts/snapshot_rule_runtime.py:74-126 | what becomes of a row under one transform: its new value, or stopped, quarantined, dropped, nulled or kept with its old value, as onError and then failureDisposition say |
| PlainRules.GateMeans | backend/scripts/snapshot_rule_runtime.py:180-200 | what becomes of a row that fails a quality rule: quarantined, dropped, nulled or kept, as onError and then failureDisposition say |
| PlainRules.ExecutionMeans | backend/scripts/snapshot_rule_runtime.py:47-219 | every execution is the plain reading of its rules: each row is transformed and judged by itself as the rules mean; the first rule that must stop the batch does, with its counters; else rows, records and counters are those of the rows |
| PlainRules.OneQuarantiningRule | backend/scripts/snapshot_rule_runtime.py:180-200 | one quarantining quality rule keeps exactly the rows that pass it, in order, and quarantines exactly those that fail it |
| PlainRules.MissingUserQuarantined | backend/scripts/snapshot_rule_runtime.py:304 | with a required user id, of a row with one and a row without, the first is kept and the second quarantined |
| SnapshotRuleLaws.Conservation | backend/scripts/snapshot_rule_runtime.py:74-200 | input = output + dropped + quarantined over both phases; transform errors add up; invalid rows lie between rows removed and rows touched |
| SnapshotRuleLaws.QualityIsOrderFree | backend/scripts/snapshot_rule_runtime.py:128-200 | which rules remove or null a row depends only on its post-transform values, not on earlier quality edits |
| SnapshotRuleLaws.RowByRowDetermines | backend/scripts/snapshot_rule_runtime.py:47-219 | two results that both are what the rows give agree in frame, quarantine, counters and exception |
| SparkSnapshotRules.SegmentRuns | backend/scripts/spark_snapshot_rules.py:42-60 | a segment no row fails is its rules one at a time |
| SparkSnapshotRules.SegmentStops | backend/scripts/spark_snapshot_rules.py:42-60 | a segment some row fails stops at the rule, with the reason and counters, of its rules one at a time |
| SparkSnapshotRules.SqlFailureIsEveryRow | backend/scripts/spark_snapshot_rules.py:115-157 | a failed SQL rule leaves the rows, records and counters of a row rule that fails on every row, and conserves rows; it stops the batch exactly if its action says so, even an empty one, which a row rule cannot stop |
| SparkSnapshotRules.SparkRuleRun.FlushSegment | backend/scripts/spark_snapshot_rules.py:42-60 | flushing runs the pending segment as its rules one at a time and empties it |
| SparkSnapshotRules.SparkRuleRun.RunTransforms | backend/scripts/spark_snapshot_rules.py:62-78 | all transforms, in segments and SQL rules, are the rules one at a time, which `PlainSpark.RunMeans` reads plainly |
| SparkSnapshotRules.ApplySparkSnapshotRules | backend/scripts/spark_snapshot_rules.py:31-112 | the runner is the interpreter that takes the rules one by one, so that `PlainSpark.RunMeans` and the laws beside it hold of its result |
| SparkSnapshotRules.RunnerAgreesWithEngine | backend/scripts/spark_snapshot_rules.py:31-112 | without SQL rules the runner returns the frame, quarantine and counters of one rule-engine call |
| PlainSpark.RunMeans | backend/scripts/spark_snapshot_rules.py:31-112 | every run, SQL rules included, is the plain reading of its rules: each transform in turn on the frame it finds, then the quality rules |
| PlainSpark.SqlFailureMeans | backend/scripts/spark_snapshot_rules.py:134-174 | what a failed SQL rule leaves, said of the rows: stopped, all recorded, all dropped, all nulled or all kept with their input, each row counted as an error and under its heading |
| PlainSpark.RunnerConserves | backend/scripts/spark_snapshot_rules.py:31-112 | over a whole run with SQL rules the quarantine holds one record for every row counted as quarantined, transform errors add up, and rows read, with those SQL added or took away, are rows returned, dropped or quarantined |
| PlainSpark.NothingIsLost | backend/scripts/spark_snapshot_rules.py:62-75 | what is recorded and counted after any number of transforms is in the result |
| PlainSpark.SqlSuccess | backend/scripts/spark_snapshot_rules.py:129-133 | a SQL rule that succeeds hands on exactly the frame its SQL returned, keeps every record, and raises only the applied count, by the rows it was given |
| PlainSpark.QuarantinedBeforeSql | backend/scripts/spark_snapshot_rules.py:62-75 | a row quarantined before a SQL rule that succeeds is the one record of the result |
| StaticJoins.BuildPredicate | backend/scripts/continuous_sql_runtime.py:418-439 | the pushed-down predicate holds of a row exactly if the row agrees with some collected key |
| StaticJoins.PrunedStaticSnapshot | backend/scripts/continuous_sql_runtime.py:370-440 | the pruned frame is the semijoin with the batch on the streaming-side equalities; raises without such an equality, or with more distinct non-null keys than the limit |
| StaticJoins.PruningPreservesJoin | backend/scripts/continuous_sql_runtime.py:370-440 | an INNER or LEFT join against the pruned snapshot is the join against the whole one, though pruning uses only part of the equalities |
| StaticJoins.PruningPreservesBatch | backend/scripts/continuous_sql_runtime.py:226-277 | any number of joins of a batch gives the same rows on pruned snapshots |
| StaticJoins.JoinMembers | backend/scripts/continuous_sql_runtime.py:269 | the rows of a join are the rows of its left side extended by each row that agrees on all keys, both cells present and equal; a LEFT join also keeps the rows without any |
| StaticJoins.SemiJoinMembers | backend/scripts/continuous_sql_runtime.py:418-440 | the rows of a pruning are the snapshot rows that agree with some row of the batch on every pair |
| StaticJoins.PruningPairMembers | backend/scripts/continuous_sql_runtime.py:380-401 | a relation is pruned by the keys of the first join to it whose left side is the stream and whose columns are not blank |
| StaticJoins.BatchKeyMembers | backend/scripts/continuous_sql_runtime.py:410-421 | the keys a batch is pruned by, and counted against the limit, are those of its rows with no NULL in them |
| StaticJoins.KeyLimitMeans | backend/scripts/continuous_sql_runtime.py:403-406 | that limit is the one configured, a hundred if there is none or it is zero, one if it is negative |
| StaticJoins.OneMoreJoin | backend/scripts/continuous_sql_runtime.py:269 | joins are taken in the order of the plan |
| StaticJoins.IdentifierMeans | backend/scripts/continuous_sql_runtime.py:594-595 | an identifier names its core in small letters, whatever quotes stand around it and blanks around these |
| StaticJoins.ChainDoesNotMultiply | backend/scripts/continuous_sql_runtime.py:298-327 | unique snapshots: at most one output row per input row, exactly one if all joins are LEFT |
| StaticJoins.CardinalityHolds | backend/scripts/continuous_sql_runtime.py:115-127 | with unique snapshots the cardinality check cannot raise, whatever multiplier is configured |
| StaticJoins.CardinalityMeans | backend/scripts/continuous_sql_runtime.py:115-127 | the check passes exactly if no more rows come out per row than configured, ten if that is zero, one if it is negative |
| StaticSnapshotCache.StaticSnapshotCache.EvictStaleVerifications | backend/scripts/continuous_sql_runtime.py:330-336 | exactly the verifications of other snapshots of the dataset go |
| StaticSnapshotCache.StaticSnapshotCache.EvictStaticSnapshot | backend/scripts/continuous_sql_runtime.py:457-471 | frame, index entry and verifications of the key go together; the caches stay mirrors |
| StaticSnapshotCache.StaticSnapshotCache.ReusableStaticSnapshot | backend/scripts/continuous_sql_runtime.py:339-367 | the frame equals a fresh read of the snapshot and is afterwards the dataset's only cached one; if the read raises, the older frame is gone and the caches are still coherent |
| StaticSnapshotCache.StaticSnapshotCache.VerifyStaticKeyUniqueness | backend/scripts/continuous_sql_runtime.py:298-327 | accepts a frame whose snapshot was verified before on columns of the same normalized names, or that is unique now; all verifications of a dataset share one snapshot |
| StaticSnapshotCache.StaticSnapshotCache.ResetStaticSnapshotCache | backend/scripts/continuous_sql_runtime.py:474-477 | empties all three structures, one eviction at a time |
| StaticSnapshotCache.StaticSnapshotCache.PrepareRelation | backend/scripts/continuous_sql_runtime.py:240-268 | a relation gets a frame exactly if it has an identity, its snapshot can be read and, unless cached whole, pruned, and the uniqueness check passes; the frame is the whole snapshot, then unique, or its pruning by the batch; the verifications gain exactly that check |
| StaticSnapshotCache.PrepareBatch | backend/scripts/continuous_sql_runtime.py:226-277 | a batch gets its frames exactly if every relation is acceptable when its turn comes; if each is cached whole, or newly verified, or of an unambiguous snapshot, all frames are unique on their join keys; the caches stay coherent, whatever came before |
| StaticSnapshotCache.WholeBatchAcceptable | backend/scripts/continuous_sql_runtime.py:251-263 | a batch of relations cached whole is accepted exactly if each is bound to a snapshot that can be read and is unique on its join keys, whatever was verified before |
| StaticSnapshotCache.RegisteredJoinsAsWhole | backend/scripts/continuous_sql_runtime.py:226-277 | the joins of a batch give the same rows on the frames it registers as on the whole snapshots its relations are bound to |
| StaticSnapshotCache.ExecuteBatch | backend/scripts/continuous_sql_runtime.py:226-277 | a batch is refused exactly if a relation is not acceptable, ends with too many rows exactly if the join of the whole snapshots has more than its input rows times the limit (the one configured, ten if that is zero, one if it is negative), and else gives that join; it never has too many rows if each relation is cached whole, or newly verified, or of an unambiguous snapshot |
| StaticSnapshotCache.VerifiedBatchFits | backend/scripts/continuous_sql_runtime.py:115-127 | a batch of unique relations joins to at most one row per input row, through the columns that were verified |
| StaticSnapshotCache.PruningsUnique | backend/scripts/continuous_sql_runtime.py:370-440 | every pruning of a snapshot is unique on the join keys exactly if no two of its rows share a key that a row of a batch can match |
| StaticSnapshotCache.PrunedByVerified | backend/scripts/continuous_sql_runtime.py:370-400 | every column a relation is pruned by is one it is then verified on, so the two laws beside this one hold for every relation |
| StaticSnapshotCache.AcceptanceMeansUnique | backend/scripts/continuous_sql_runtime.py:298-327 | on the pruned path acceptance means the frame is unique, for every batch, exactly if the columns were not verified before for the snapshot or no two rows with the same key can be matched |
| StaticSnapshotCache.StaleVerificationAdmitsDuplicates | backend/scripts/continuous_sql_runtime.py:251-263 | two batches on the pruned path: the second is accepted though its rows are duplicates, and the join multiplies rows |
| StaticSnapshotCache.SecondBatchExceeds | backend/scripts/continuous_sql_runtime.py:115-127 | that second batch, with a multiplier of one, ends with too many rows |
| StaticSnapshotCache.IdentityMeans | backend/scripts/continuous_sql_runtime.py:443-454 | a cached snapshot is identified by the relation's own dataset before the binding's, the binding's fingerprint before the relation's, and its snapshot, none of them blank |
| StaticSnapshotCache.UniqueKeyMembers | backend/scripts/continuous_sql_runtime.py:304-315 | the columns a relation is verified on are those some join to it equates, but for blank ones |
| StaticSnapshotCache.UniqueKeysInOrder | backend/scripts/continuous_sql_runtime.py:304-316 | those columns come in the order the joins equate them, each once, where it is first seen |
| StaticSnapshotCache.SpellingAccepted | backend/scripts/continuous_sql_runtime.py:317-322 | a snapshot verified on columns is accepted on columns of the same normalized names, however they are written |
| StaticBindings.StepKeeps | backend/scripts/continuous_sql_runtime.py:168-223 | every step keeps: a writer owns its torn directory, a returned call holds what is durable, nothing durable changes |
| StaticBindings.RunKeeps | backend/scripts/continuous_sql_runtime.py:554-560 | over every run a durable manifest never changes and an ended call stays as it ended |
| StaticBindings.Agreement | backend/scripts/continuous_sql_runtime.py:168-223 | two successful calls for the same output, generation and batch return the same snapshots, with the same plan hash and token hash |
| StaticBindings.RetryAgrees | backend/scripts/continuous_sql_runtime.py:168-223 | what a call returned, every later successful call for the path returns |
| StaticBindings.StrangerNeverReturns | backend/scripts/continuous_sql_runtime.py:563-575 | a worker with another plan hash, token or policy raises and never returns |
| StaticBindings.TornPathStaysClosed | backend/scripts/continuous_sql_runtime.py:554-560 | a writer that died before the completion marker closes the path for good |
| StaticBindings.AloneReturnsIff | backend/scripts/continuous_sql_runtime.py:168-223 | an undisturbed call ends; it returns exactly if the path holds a manifest that identifies it, whose bindings it then returns, or is untouched while every static relation can be bound, and then one binding for each, in order, of its dataset, view and fingerprint, to the pinned snapshot or else the head of its table, and the snapshot exists |
| StaticBindings.AloneBinds | backend/scripts/continuous_sql_runtime.py:189-208 | for an untouched path it returns exactly the bindings that are, relation by relation, the pinned snapshot or the head, still there |
| StaticBindings.PinnedIgnoresHeads | backend/scripts/continuous_sql_runtime.py:196-200 | however far the tables advance before it, a pinned call returns the bindings it would have returned |
| StaticBindings.ReturnedFits | backend/scripts/continuous_sql_runtime.py:168-223 | over every run, what a call returns for a path free at the start fits the plan of a call for that path with its plan hash, token hash and policy: one binding for each static relation in order, pinned ones as pinned |
| StaticBindings.BoundaryIdentifies | backend/scripts/continuous_sql_runtime.py:79-112 | for an injective digest two batches have one boundary id exactly if they agree in everything the boundary names |
| StaticBindings.TargetMeans | backend/scripts/continuous_sql_runtime.py:540-544 | two calls share a manifest exactly if they are for the same output, generation and batch |
| StaticBindings.RunIdMeans | backend/scripts/continuous_sql_runtime.py:108-110 | a run id carries the job, generation and batch, and the first sixteen characters of the boundary id |
| StaticBindings.SlashesStripped | backend/scripts/continuous_sql_runtime.py:92 | of a checkpoint path exactly the slashes at its end are stripped |
| StaticBindings.BoundariesAgree | backend/scripts/continuous_sql_runtime.py:79-112 | successful calls for a path have the same boundary id exactly for the same source ranges, and then the same run id |
| StaticBatches.RetriesJoinAlike | backend/scripts/continuous_sql_runtime.py:168-277 | two successful calls for the same output, generation and batch execute the same program, and on caches of any history, if neither is refused, give the same rows or both have too many (for a plan hash without collisions) |
| StaticBatches.WholeRetriesEndAlike | backend/scripts/continuous_sql_runtime.py:168-277 | with relations cached whole the two end alike in any case, refused or not |
| StaticBatches.ExecuteBound | backend/scripts/continuous_sql_runtime.py:226-277 | a batch executed on the snapshots of its manifest is refused exactly if a relation is not acceptable, ends with too many rows exactly by the arithmetic of its limit, and else gives the join of those snapshots |
| StaticBatches.UnboundIsRefused | backend/scripts/continuous_sql_runtime.py:248-250 | a relation whose dataset the manifest does not bind is refused |
| StaticBatches.BoundMeans | backend/scripts/continuous_sql_runtime.py:235-250 | a relation is bound to the dataset, snapshot and fingerprint of the last binding that names its dataset |
| OffsetRanges.CanonicalUnique | backend/scripts/kafka_continuous_maintenance.py:138-165 | a set of offsets has at most one sorted, disjoint, non-adjacent list of half-open ranges |
| OffsetRanges.CompactKafkaSourceRanges | backend/scripts/kafka_continuous_maintenance.py:138-165 | the merge loop returns such a list covering exactly the offsets of the rows, repetitions or not |
| OffsetRanges.ReplayDescribes | backend/scripts/kafka_continuous_maintenance.py:257-282 | grouping by offset minus row number returns such a list covering exactly the offsets of the rows |
| OffsetRanges.AlgorithmsAgree | backend/scripts/kafka_continuous_maintenance.py:257-282 | whatever describes the rows, the merge loop's result included, is what the grouping returns |
| OffsetRanges.RangesOfASet | backend/scripts/kafka_continuous_maintenance.py:257-282 | the ranges depend on the set of offsets, not on order or repetition |
| OffsetRanges.BeforeMeans | backend/scripts/kafka_continuous_maintenance.py:413 | ranges and batches are in order by topic, then partition, then offset, each from the smallest |
| QuarantineReplay.BatchFacts | backend/scripts/kafka_continuous_maintenance.py:402-414 | the batch holds each key once and no stored one, and as many rows as there are up to the limit |
| QuarantineReplay.BatchIsFirst | backend/scripts/kafka_continuous_maintenance.py:413-414 | an eligible row is in the batch exactly if fewer eligible rows than the limit precede it |
| QuarantineReplay.EligibleAfter | backend/scripts/kafka_continuous_maintenance.py:402-408 | storing the accepted rows takes exactly them out of what the anti-join leaves |
| PlainReplay.EligibleMeans | backend/scripts/kafka_continuous_maintenance.py:354-407 | a row is eligible exactly if it is in the quarantine, asked for or nothing is, not malformed nor showing what the policy keeps out, and not stored |
| PlainReplay.BatchMeans | backend/scripts/kafka_continuous_maintenance.py:402-414 | a row is taken up exactly if it is eligible and fewer eligible rows than the limit precede it |
| PlainReplay.LimitMeans | backend/scripts/kafka_continuous_maintenance.py:409-412 | a run takes up as many rows as configured, but at least one and at most ten thousand |
| QuarantineReplay.ReplayTarget.RollbackIcebergCommit | backend/scripts/runtime/spark_job_runtime.py:688-706 | points the table at the previous snapshot, or drops a table that did not exist; it may fail without effect, or take effect and fail its verification |
| QuarantineReplay.ReplayTarget.CommitIcebergTable | backend/scripts/runtime/spark_job_runtime.py:596-685 | appends once per run id, or reuses; a failed commit leaves its rows exactly if the append took effect unseen, or the rollback had no effect, and else restores the table |
| QuarantineReplay.ReplayTarget.PublishReplayManifest | backend/scripts/kafka_continuous_maintenance.py:298-345 | writes the manifest once; after a fresh commit any failure, even of the check of a complete manifest, takes the commit back unless the rollback has no effect |
| QuarantineReplay.ReplayTarget.SelectBatch | backend/scripts/kafka_continuous_maintenance.py:352-425 | pauses exactly if a well-formed requested row must pause; selects the batch and counts as specified; `PlainReplay.BatchMeans`, `RunPauses` and `ReportMeans` say of the rows what that is |
| QuarantineReplay.ReplayTarget.ReplayQuarantine | backend/scripts/kafka_continuous_maintenance.py:348-477 | the run over snapshots, rollbacks and manifests is the abstract run, of which `PlainReplay.UndisturbedRun` and `OnlyAskedIsStored` say which rows it stores; a failed publication restores the table unless the rollback has no effect |
| QuarantineReplayLaws.NeverStoredTwice | backend/scripts/kafka_continuous_maintenance.py:402-407 | over any sequence of replays and failures, among appends of new offsets by other writers, no partition and offset is stored twice, and rows are only appended |
| PlainReplay.OnlyAskedIsStored | backend/scripts/kafka_continuous_maintenance.py:352-477 | over any sequence of replays, failures and streams every row added was streamed, or is a row of a quarantine that its replay asked for, the policy lets in and the rules accept |
| PlainReplay.OthersUntouched | backend/scripts/kafka_continuous_maintenance.py:354-357 | replays that ask for some offsets neither add nor take away any other |
| PlainReplay.UndisturbedRun | backend/scripts/kafka_continuous_maintenance.py:348-477 | an undisturbed run that neither pauses nor is stopped adds exactly the keys of the accepted rows it takes up |
| PlainReplay.RunPauses | backend/scripts/kafka_continuous_maintenance.py:384-392 | a run pauses, and then changes nothing, exactly if a row asked for parses and shows something on which the policy pauses |
| PlainReplay.OnlySecondStored | backend/scripts/kafka_continuous_maintenance.py:354-357 | of two replayable offsets the one asked for is stored, and the other is not |
| QuarantineReplayLaws.CountsAddUp | backend/scripts/kafka_continuous_maintenance.py:402-425 | input = stored + skipped + failed + deferred; failed = schema-invalid + rule-rejected; none negative |
| PlainReplay.ReportMeans | backend/scripts/kafka_continuous_maintenance.py:402-477 | what each count of a report counts: rows asked for, all if nothing is; valid and stored ones; replayable ones beyond the limit; taken up and accepted, or not; kept out by the policy |
| QuarantineReplayLaws.RangesAreEvidence | backend/scripts/kafka_continuous_maintenance.py:417-430 | the reported ranges cover exactly the batch; stored rows always have some |
| QuarantineReplayLaws.ReportedIsStored | backend/scripts/runtime/spark_job_runtime.py:617-636 | a run that reports a commit stored the rows it counts exactly if the table held no row of its run id |
| QuarantineReplayLaws.RowsLeft | backend/scripts/runtime/spark_job_runtime.py:596-706 | the rows a run leaves, whatever fails: without a commit to reuse the accepted rows are appended exactly if the append takes effect and is published or not taken back; and which failure it reports |
| QuarantineReplayLaws.ManifestsLeft | backend/scripts/kafka_continuous_maintenance.py:298-345 | the manifests a run leaves: none over an existing one, a complete, torn or no directory as the write goes; it reports a commit exactly if it wrote a complete manifest and saw it |
| QuarantineReplayLaws.ReportedButNotStored | backend/scripts/kafka_continuous_maintenance.py:428-457 | a lost rollback or an unseen append, and a retry of the run id: a row reported and published as stored that the table does not hold |
| QuarantineReplayLaws.ReportsAreStored | backend/scripts/kafka_continuous_maintenance.py:428-477 | over any replays that lose no rollback and no append, among any appends of other writers, on a table that holds any rows of other run ids and, of the run ids tried, only rows of runs with a manifest directory: a reported commit appended exactly the accepted rows of its batch, and they stay in the table |
| QuarantineReplayLaws.ManifestIsStored | backend/scripts/kafka_continuous_maintenance.py:327-345 | the rows of a complete manifest are in the table exactly if it held no row of the run before, and the manifest was seen to be complete or the rollback had no effect |
| ReplayRules.ExecutionIsEndings | backend/scripts/snapshot_rule_runtime.py:47-219 | a rule execution raises exactly if some row alone stops its batch, and else ends with what the rules make of each row that leaves them, in order |
| ReplayRules.VerdictsAreRuleRuns | backend/scripts/kafka_continuous_maintenance.py:419-424 | the rules over a replay batch raise exactly if a verdict is to stop, and else keep one row for each accepted row, in order |
| QuarantineReplayLaws.Drains | backend/scripts/kafka_continuous_maintenance.py:409-414 | with rules that accept every eligible row, k runs leave max(0, n - k * limit) rows |
| QuarantineReplayLaws.BlockedForever | backend/scripts/kafka_continuous_maintenance.py:402-424 | a row behind as many rejected rows as the limit is never stored, however often the replay runs and whatever fails |
| QuarantineReplayLaws.RejectedHeadStalls | backend/scripts/kafka_continuous_maintenance.py:402-424 | one rejected row and a limit of one: the acceptable row behind it is never stored |
| QuarantineReplayLaws.StoredInTheEnd | backend/scripts/kafka_continuous_maintenance.py:402-424 | enough undisturbed runs store an acceptable row exactly if fewer rejected rows than the limit precede it |
| SchemaPaths.JoinInjective | backend/scripts/kafka_schema_paths.py:7-12 | dotted paths of valid segments are never confused |
| SchemaPaths.SplitsIff | backend/scripts/kafka_schema_paths.py:7-12 | a source path is these segments exactly if they are not empty, nor is any of them, none holds a dot, and joined by dots they are the stripped path |
| TextLaws.BlanksAre | backend/scripts/kafka_schema_paths.py:8 | the blanks that are stripped: space, tab to carriage return, and the four separators |
| TextLaws.StripMeans | backend/scripts/kafka_schema_paths.py:8 | stripping takes away the blanks on both ends, and nothing else |
| TextLaws.NormalizedIsPlain | backend/scripts/snapshot_rule_runtime.py:410-411 | a normalized name is small letters, digits and underscores, with no underscore outside |
| TextLaws.PlainStays | backend/scripts/snapshot_rule_runtime.py:410-411 | a plain name is normalized to itself |
| TextLaws.SpellingIrrelevant | backend/scripts/snapshot_rule_runtime.py:410-411 | capitals and blanks around it do not matter to a name |
| TextLaws.RunBecomesUnderscore | backend/scripts/snapshot_rule_runtime.py:410-411 | a run of other characters between two plain names becomes one underscore |
| SchemaPaths.AddBinding | backend/scripts/kafka_schema_paths.py:18-32 | adding a binding extends the tree by exactly it, or fails because it conflicts, with the error that says how: an earlier path is a proper prefix, or goes on, or is the same with another type |
| SchemaPaths.BuildNestedSchemaTree | backend/scripts/kafka_schema_paths.py:15-33 | succeeds exactly if all paths are valid, none is a proper prefix of another and equal paths have equal types; leaves are the bindings, children are in first-seen order; else it names the first binding that is invalid or conflicts, and how |
| SchemaPaths.TreeIsCompatible | backend/scripts/kafka_schema_paths.py:15-33 | only compatible bindings have a tree |
| SchemaPaths.OrderIrrelevant | backend/scripts/kafka_schema_paths.py:15-33 | success and the tree as a map do not depend on the order of the bindings |
| SchemaPaths.ExpectedObjectKeys | backend/scripts/kafka_schema_paths.py:36-45 | lists the children of every inner path in first-seen order, and no other path |
| SchemaPaths.IndexMatchesTree | backend/scripts/kafka_schema_paths.py:36-45 | for every inner node of the tree the index lists the node's children in the same order |
| JsonPaths.JsonPath | backend/scripts/kafka_schema_paths.py:48-56 | raises exactly for invalid paths; the printed path reads back as the segments |
| JsonPaths.DotIff | backend/scripts/kafka_schema_paths.py:51-55 | a segment is printed after a dot exactly if it is letters, digits and underscores and begins with no digit, and else quoted with escapes |
| JsonPaths.ReadPrinted | backend/scripts/kafka_schema_paths.py:48-56 | reading dot names and quoted names (section 2.5.1 of RFC 9535) recovers exactly the printed segments |
| JsonPaths.PrintedPathsDiffer | backend/scripts/kafka_schema_paths.py:48-56 | paths that print alike are the same up to surrounding blanks |
| JsonDocuments.DecodeEncode | backend/scripts/verify-backward-compatibility.py:86 | token decoding inverts the escaping of sections 3 and 4 of RFC 6901, for every token |
| JsonDocuments.PointerRoundTrip | backend/scripts/verify-backward-compatibility.py:85-86 | the tokens read from a printed pointer are the tokens printed |
| JsonDocuments.LastCounts | backend/scripts/verify-backward-compatibility.py:18-22 | of entries with the same key the last one counts |
| SchemaReferences.ReferenceNames | backend/scripts/verify-backward-compatibility.py:39-41 | a reference into components/schemas names the schema after its last slash |
| SchemaReferences.Discover | backend/scripts/verify-backward-compatibility.py:56-63 | the worklist stops, and has then discovered exactly what chains of references reach |
| SchemaReferences.RequestSchemaNames | backend/scripts/verify-backward-compatibility.py:50-63 | the schemas reachable from request bodies and parameters, and no others |
| ContractReadings.OperationsMean | backend/scripts/verify-backward-compatibility.py:25-33 | the operations of a document are the objects under one of seven methods, however capitalized, in an object among its paths |
| ContractReadings.RootsMean | backend/scripts/verify-backward-compatibility.py:36-55 | requests name a schema exactly if some object inside the body or the parameters of an operation refers to it |
| ContractReadings.RefsMean | backend/scripts/verify-backward-compatibility.py:36-47 | the schemas of a value are those some object anywhere inside it refers to |
| SchemaResolution.TargetOfPointer | backend/scripts/verify-backward-compatibility.py:84-91 | a pointer printed for a path of keys is followed key by key |
| SchemaResolution.Override | backend/scripts/verify-backward-compatibility.py:92-94 | entries beside the reference win over those of its target; the reference itself is not copied |
| SchemaResolution.ResolvedIsPlain | backend/scripts/verify-backward-compatibility.py:70-94 | what comes out of a resolution is no reference |
| SchemaResolution.ResolvesIff | backend/scripts/verify-backward-compatibility.py:70-94 | resolution succeeds exactly if following the references ends at an object that is no reference |
| SchemaResolution.ResolvedSays | backend/scripts/verify-backward-compatibility.py:92-94 | a resolved schema says of each key but the reference what the nearest object along its references says, and nothing if none does |
| ContractReadings.SchemaTarget | backend/scripts/verify-backward-compatibility.py:83-90 | a reference to a schema of the document leads to its entry, if that is an object |
| SchemaResolution.CyclicIff | backend/scripts/verify-backward-compatibility.py:80-81 | a cycle is reported exactly if following the references never stops |
| SchemaUnfolding.ShapedIff | backend/scripts/verify-backward-compatibility.py:97-119 | a property has a shape exactly if no chain of unfoldings from it meets the same schema twice and every schema met resolves; the number of objects in it and its document is then depth enough |
| SchemaUnfolding.EndsIff | backend/scripts/verify-backward-compatibility.py:97-119 | if unfolding a property ends at all, in a shape or a broken reference, it ends within the number of objects in it and its document |
| SchemaUnfolding.SameShapeIff | backend/scripts/verify-backward-compatibility.py:97-119 | two shapes are equal exactly if the schemas unfolded at every path agree in type, format and nullability |
| PropertyShapes.DepthIrrelevant | backend/scripts/verify-backward-compatibility.py:97-119 | any two depths that are enough give the same shape or the same broken reference |
| PropertyShapes.RecursiveNeverShaped | backend/scripts/verify-backward-compatibility.py:97-119 | no depth is enough for a schema whose items refer back to it |
| ApiCompatibility.CompareOperation | backend/scripts/verify-backward-compatibility.py:132-160 | the breaking changes of an operation: removed, lost responses or parameters, parameters newly required |
| ContractReadings.RemovedMeans | backend/scripts/verify-backward-compatibility.py:132-137 | an operation is reported removed exactly if the earlier document has it and the later one does not |
| ContractReadings.ParametersMean | backend/scripts/verify-backward-compatibility.py:143-152 | the parameters compared are the objects an operation lists, by place and name |
| ContractReadings.RequiredMeans | backend/scripts/verify-backward-compatibility.py:157-160 | a parameter is required exactly if it says so with anything but null, false, zero or an empty value |
| ContractReadings.ListsMean | backend/scripts/verify-backward-compatibility.py:138-139 | the responses, values and required fields compared are those listed |
| ContractReadings.SectionsMean | backend/scripts/verify-backward-compatibility.py:166-167 | the schemas compared are the entries of the components, the properties those of a schema |
| ContractReadings.EnumsMean | backend/scripts/verify-backward-compatibility.py:122-123 | the values of a property are those listed by the nearest object along its references that lists any |
| ContractReadings.LaterReplaces | backend/scripts/verify-backward-compatibility.py:129-130 | a later operation of the same path and method replaces an earlier one, and so does a later parameter |
| ApiCompatibilityLaws.JudgeMeans | backend/scripts/verify-backward-compatibility.py:179-198 | comparing a property by shapes and values: removed if it is gone, unreadable if a schema met on either side does not resolve, reshaped if some path tells a difference, narrowed if it lost a value, and else fine |
| ApiCompatibilityLaws.ChangesMean | backend/scripts/verify-backward-compatibility.py:182-198 | which change is reported of a property, by what is met when it is unfolded on both sides |
| ApiCompatibility.CompareSchema | backend/scripts/verify-backward-compatibility.py:168-205 | the breaking changes of a schema; added required fields only if requests reach it |
| ApiCompatibility.CompareOpenapi | backend/scripts/verify-backward-compatibility.py:126-211 | lists exactly the breaking changes of two documents, none exactly if they are compatible, wherever unfolding the properties it compares ends |
| ApiCompatibilityLaws.ComparableIff | backend/scripts/verify-backward-compatibility.py:97-119 | some depth is enough for all properties compared exactly if the number of objects in both documents is |
| ApiCompatibilityLaws.SettlesIff | backend/scripts/verify-backward-compatibility.py:97-119 | some depth is enough for a document exactly if the number of objects in it is |
| ApiCompatibilityLaws.AcyclicDocumentEnds | backend/scripts/verify-backward-compatibility.py:97-119 | a document none of whose properties meets a schema twice settles within the number of objects in it |
| ApiCompatibilityLaws.CompatibleIff | backend/scripts/verify-backward-compatibility.py:126-211 | nothing breaks exactly if every operation serves its old clients and every schema is kept: type, values, requirements, and each property at every path |
| ApiCompatibilityLaws.ReflexiveIff | backend/scripts/verify-backward-compatibility.py:126-211 | a document is compatible with itself exactly if every schema its properties meet resolves |
| ApiCompatibilityLaws.TransitiveIff | backend/scripts/verify-backward-compatibility.py:199-205 | of two compatible steps the whole can be compared, and is compatible exactly if no schema's added required fields come into use only in the last document |
| ApiCompatibilityLaws.Transitive | backend/scripts/verify-backward-compatibility.py:126-211 | they compose if whatever requests reach in the last document they reached in the middle one |
| ApiCompatibilityLaws.CompositionCanFail | backend/scripts/verify-backward-compatibility.py:199-205 | three documents whose two steps are compatible and whose composition is not |
| ApiCompatibilityLaws.AnyDepth | backend/scripts/verify-backward-compatibility.py:126-211 | the verdict is the same at every depth that is enough for what is compared |
| ReplayGuard.ContextReplayGuard.Consume | ai-server/app/main.py:114-128 | one call takes the guard's step and leaves at most the allowed entries, each key once |
| ReplayGuard.Bounded | ai-server/app/main.py:106-128 | over any sequence of calls the table never exceeds its bound |
| ReplayGuard.Always | ai-server/app/main.py:117-128 | the table is the latest part of the accepted calls; every earlier one expired or was followed by as many other keys as fit |
| ReplayGuard.RefusedWasAccepted | ai-server/app/main.py:118-120 | a refused key was accepted less than one time to live ago |
| ReplayGuard.AcceptedAgain | ai-server/app/main.py:118-128 | a key accepted before is accepted again exactly if that expired or at least as many other keys as fit were accepted since |
| ReplayGuard.TwiceNeedsMany | ai-server/app/main.py:121-127 | a key accepted twice within its time to live had as many other keys as fit in between |
| ReplayGuard.FirstTimeAccepted | ai-server/app/main.py:114-128 | a key not accepted before is accepted |
| ProviderRetry.RetryDelay | ai-server/app/llm_client.py:284-289 | no pause after the last attempt, nor one of no length |
| ProviderRetry.AskProvider | ai-server/app/llm_client.py:216-258 | the attempts with one provider: requests, pauses, and how they end |
| ProviderRetry.Generate | ai-server/app/llm_client.py:202-262 | the whole schedule; a configuration error without providers, else the first answer or the last failure |
| ProviderRetry.Sent | ai-server/app/llm_client.py:202-262 | a request is sent exactly if no earlier provider answers and every earlier attempt with its provider asked for a retry |
| ProviderRetry.RepliesMean | ai-server/app/llm_client.py:224-256 | time-outs, transport errors and the statuses 408, 409, 425, 429 and from 500 on, with a body that can be read, are retried, and nothing else; an answer is a usable body under status 400; which error each other reply raises |
| ProviderRetry.SentByReplies | ai-server/app/llm_client.py:202-262 | a request is sent exactly if no provider before answers and all replies before it from its provider are ones that are retried |
| ProviderRetry.FirstAnswer | ai-server/app/llm_client.py:202-262 | the answer returned is that of the first provider that answers; an error is raised exactly if none does |
| ProviderRetry.InOrder | ai-server/app/llm_client.py:202-262 | each pause stands between two attempts with one provider; a provider is tried only after its predecessor gave up or used all attempts |
| ProviderRetry.Bounds | ai-server/app/llm_client.py:202-289 | at most n * m requests, and pauses of at most n * base * (2^(m-1) - 1) in all |
| ProviderRetry.BoundsAreTight | ai-server/app/llm_client.py:202-289 | both bounds are reached when every request asks for a retry |
| ProviderRetry.LastFailureRaised | ai-server/app/llm_client.py:259-262 | the error raised is that of the last request sent |

## Left out

- Spark, Iceberg, Trino, Kafka and HTTP themselves: relation operators have their textbook meaning, and conversions, patterns, JSON extraction, hashes and SQL text are parameters.
- Rules: the row id column (rows are counted as they stand), reserved flag columns used by rules, case-insensitive column resolution and the type coercion of conditional columns.
- Rules: pass rate, summaries, durations and logging; the JSON rendering of a quarantined record, which is kept as its columns and cells.
- Rules: quarantine frames are compared as multisets, since the order of a union is not defined.
- Text: the Python string methods are modelled on ASCII.
- StaticBindings: the existence check and the creation of a manifest directory are one step, so a race inside Spark's own committer is not modelled; a manifest's place is the triple of output, generation and batch.
- StaticSnapshotCache: the dataset id determines the table, as the cache key does not contain the table; nested dictionaries are modelled as values keyed by what identifies them.
- StaticJoins: schema validation, broadcasts and temporary views; rows hold their cells under normalized column names, so names that Spark tells apart only by quotes or blanks are the same column.
- StaticSnapshotCache: reading a snapshot raises or not once and for all; a snapshot that expires while it is cached is not modelled.
- ExecuteBatch: plans other than the planner makes, which gives every relation its own alias and joins each once (backend/app/services/continuous_sql_planner.py:222-229); the SQL text of the plan, which is its joins here.
- QuarantineReplay: rows with a NULL topic, partition or offset; a writer of the table while a replay runs, as other writers append only between replays; quarantines that hold one partition and offset twice or several topics, which the anti-join does not tell apart.
- QuarantineReplay: rules are given by their verdict on each row, which `ReplayRules` derives from the rule engine; rules are taken to leave partition and offset alone.
- SchemaPaths: nested dictionaries are modelled as one map from paths to nodes, updated step by step.
- ApiCompatibility: the additive changes and the wording and order of messages; comparing persisted and frontend contracts, which are set differences.
- ApiCompatibility: documents on which the script would fail with a type error are read as if the malformed part were absent; Python's equality of 1, 1.0 and True and of objects with reordered keys; a parameter named None.
- PropertyShapes: the interpreter's recursion limit; a shape is computed to a depth that is enough.
- CompareOpenapi: pairs of documents with a compared property whose unfolding does not end, on which the script fails with a recursion error; a later property is not unfolded, and may be endless, if the earlier one is broken.
- ProviderRetry: how a request is built and a response is parsed; the choice of providers from the configuration.
- Validation of input sizes, authentication, configuration, deployment and the frontend, which are simple checks or input and output.
