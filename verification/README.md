# Memongo migration and benchmark proofs

A Dafny model of the parts of this repository whose correctness is hardest to see from the code:

- **Offline diagnostics migration** (`RowDigest`, `DiagnosticsProtocol`, `DiagnosticsSafety`,
  `DiagnosticsMigration`). The server, the journal file and the pinned snapshots form a world; every
  `$out`, rename, drop, index creation, journal write and server-side expiry is one command with the
  guard under which the program may issue it. A crash is the end of a command log, and the next run
  starts from whatever world it left. Safety is proved over all logs; the program itself is the class
  `Converter`, each of whose methods is proved to extend a legal log, whatever the server answers.
- **Shared-prefix migration** (`SharedPrefixNames`, `SharedPrefixMigration`). Names, the keep-existing
  merge, the consuming digest check, the conditional drop, and the loop over sources with common
  targets, with failures, partial merges, expiry and process death at every operation.
- **Paired inference** (`McNemar`, `B2Join`): the exact binomial test on integers and the join that uses it.
- **Ranking metrics** (`Ranking`): credited gain, the grouped and the flattened rankings, recall.
- **Resumable scoring** (`Scanner`, `Hypothesis`, `ResumableScoring`, `AnswerSummary`): the brace
  scanner and answer extraction, the per-question sidecar across crashes, and the published accuracy.
- **Allocation, replay, admission, closures** (`SeededShuffle`, `StratifiedSelection`,
  `FrozenSelection`, `DecimalText`, `Replay`, `LongMemEvalAdmission`, `LoCoMoAdmission`, `Worklists`).

Strings are sequences of characters. SHA-256 is an arbitrary function, assumed injective only by the
lemmas that say so. Providers, the server and the crash points are arbitrary functions of the
operation count, so a theorem covers every sequence of outcomes. `Common` holds the string order,
sorting and trimming that several modules share.

## Findings

- An abort interrupted between its drop and its erasing of the journal leaves a phase `copied` or
  `verified` without candidate (`InterruptedAbortLosesCandidate`). Nothing else does
  (`OnlyDropLosesCandidate`), an apply refuses exactly then (`RunApply`), and an abort followed by an
  apply completes (`Recover`).
- An agent whose collection name spells a shared base (agent `access`, base `events`) is read as the
  shared collection and never discovered (`AccessEventsNotFound`). `DiscoveryRecoversAgentAndBase`
  gives the exact condition.
- LongMemEval session ids are pairwise distinct and so are turn ids, but a session id can equal
  another session's turn id (`CoincidenceExample`, against the comment at
  scripts/benchmark/longmemeval-admission.ts:325-330). `SessionIsTurnExactly` and
  `KindsApartExactly` say when, in terms of the sources.
- A conversation or turn limit strictly between 0 and 1 is floored to 0 and selects nothing
  (`FractionalLimitSelectsNothing`), where 0 itself means no limit; `LimitSelectsExactly` gives the
  limits that select the first n.
- Whether the frozen selection succeeds can depend on the seed (`SeedDecides`: seeds 0 and 1 on two
  rows): the first quota may use up the rows the second needs.

## Model

| member | source | states |
|---|---|---|
| `RowDigest.DigestMultiset` | scripts/migrate-diagnostics-to-ordinary.ts:467-479 | the loop over rows builds the canonical digest of the bag of row hashes |
| `RowDigest.DigestsEqualExact` | scripts/migrate-diagnostics-to-ordinary.ts:481-490 | the positional comparison of two built digests holds exactly when the two hash bags are equal |
| `RowDigest.DigestDecidesPayload` | scripts/migrate-diagnostics-to-ordinary.ts:467-490 | under an injective hash, equal digests mean equal payloads as multisets of rows, whatever the cursor orders |
| `DiagnosticsProtocol.FullNamesDistinct` | scripts/migrate-diagnostics-to-ordinary.ts:76-99 | the four canonical and candidate names built from one prefix never coincide |
| `DiagnosticsSafety.StepKeepsInv` | scripts/migrate-diagnostics-to-ordinary.ts:632-891 | every enabled command, of apply, abort or the server's expiry, keeps the protocol invariant |
| `DiagnosticsSafety.ReachableInv` | scripts/migrate-diagnostics-to-ordinary.ts:1041-1388 | the invariant holds in every world of every legal log, so at every crash point |
| `DiagnosticsSafety.JournalAlwaysValid` | scripts/migrate-diagnostics-to-ordinary.ts:260-461 | every journal any interruption leaves behind passes the persisted-state check |
| `DiagnosticsSafety.DataNeverLost` | scripts/migrate-diagnostics-to-ordinary.ts:632-891 | from any server contents, at every point of every log, either the source is in place short of exactly the rows the server expired, or the canonical name holds exactly the pinned payload until its expiry index exists and then lacks only rows the server expired; the pin itself lacks none but expired rows |
| `DiagnosticsSafety.OnlyRenameRemovesSource` | scripts/migrate-diagnostics-to-ordinary.ts:845-891 | the one command that can remove a source is its rename, after a persisted `verified`, and it puts the pinned copy in its place |
| `DiagnosticsSafety.OnlyOwnedCollectionsTouched` | scripts/migrate-diagnostics-to-ordinary.ts:643-829 | in any world at all, a collection is replaced, dropped or indexed only under the recorded identities that entitle the command to it |
| `DiagnosticsSafety.AdoptedPayload` | scripts/migrate-diagnostics-to-ordinary.ts:694-737 | adopting an unrecorded candidate by digest adopts exactly the pinned payload |
| `DiagnosticsSafety.OnlyDropLosesCandidate` | scripts/migrate-diagnostics-to-ordinary.ts:1304-1388 | no history without a drop, however often interrupted, loses a recorded candidate |
| `DiagnosticsSafety.InterruptedAbortLosesCandidate` | scripts/migrate-diagnostics-to-ordinary.ts:1304-1388 | a log from one source, an abort cut off just after its drop, that leaves a recorded candidate lost |
| `DiagnosticsSafety.LostCandidateCanBeAbandoned` | scripts/migrate-diagnostics-to-ordinary.ts:1304-1388 | after an interrupted abort the journal may be erased, which restores a state no surface is stuck in |
| `DiagnosticsMigration.InstallPlans` | scripts/migrate-diagnostics-to-ordinary.ts:794-829 | from every reconciled record about to install, the plan is a rename, an already installed copy or a restart, never a refusal |
| `DiagnosticsMigration.ReachableNotRefused` | scripts/migrate-diagnostics-to-ordinary.ts:1115-1219 | the reconciliation of record and server refuses no reachable state |
| `DiagnosticsMigration.RecoveryFindsOwnCopy` | scripts/migrate-diagnostics-to-ordinary.ts:694-737 | a candidate found while a copy was being made is the program's own pinned copy |
| `DiagnosticsMigration.ReachableStages` | scripts/migrate-diagnostics-to-ordinary.ts:1221-1292 | what each later stage needs holds in every reachable state that gets there |
| `DiagnosticsMigration.Converter.Persist` | scripts/migrate-diagnostics-to-ordinary.ts:983-1004 | the journal is replaced whole, as one legal command, and both surfaces' records are what was written |
| `DiagnosticsMigration.Converter.RecoverCopyingPhase` | scripts/migrate-diagnostics-to-ordinary.ts:694-737 | an interrupted copy is restarted when no candidate exists, adopted when the candidate matches the digest, refused otherwise |
| `DiagnosticsMigration.Converter.RunCopyPhase` | scripts/migrate-diagnostics-to-ordinary.ts:632-687 | the checkpoint is persisted before `$out`, and a success leaves an owned, digest-matched candidate beside the untouched source |
| `DiagnosticsMigration.Converter.RunVerifyPhase` | scripts/migrate-diagnostics-to-ordinary.ts:739-779 | `verified` is recorded only for an owned candidate that matches the pinned digest and carries fresh ids |
| `DiagnosticsMigration.Converter.RunInstallPhase` | scripts/migrate-diagnostics-to-ordinary.ts:845-891 | after a rename, even one whose response was lost, the canonical name carries the candidate; a vanished candidate restarts the copy |
| `DiagnosticsMigration.Converter.RunTtlPhase` | scripts/migrate-diagnostics-to-ordinary.ts:905-949 | completion means exactly the one planned `{ts: 1}` expiry, created only on the full row count |
| `DiagnosticsMigration.Converter.ConvertSurface` | scripts/migrate-diagnostics-to-ordinary.ts:1041-1293 | one surface, from any earlier point, is finished exactly when its candidate was not lost |
| `DiagnosticsMigration.Converter.RunApply` | scripts/migrate-diagnostics-to-ordinary.ts:1041-1293 | however it ends an apply takes nothing back and loses no candidate; uninterrupted, cooperative and with retention accepted it succeeds if and only if no candidate was lost before, leaves both surfaces converted, and a further one issues nothing but journal writes |
| `DiagnosticsMigration.Converter.AbortSurface` | scripts/migrate-diagnostics-to-ordinary.ts:1304-1388 | a candidate is dropped only while the source is in place, and the canonical collections are untouched |
| `DiagnosticsMigration.Converter.RunAbort` | scripts/migrate-diagnostics-to-ordinary.ts:1304-1388 | an uninterrupted abort succeeds if and only if nothing was installed, erases the journal and leaves both canonical collections alone |
| `DiagnosticsMigration.Converter.Recover` | scripts/migrate-diagnostics-to-ordinary.ts:1041-1388 | from every reachable state an apply, or an abort and then an apply, ends with both surfaces converted |
| `DiagnosticsMigration.KilledApply` | scripts/migrate-diagnostics-to-ordinary.ts:1041-1293 | an apply process killed after any of its commands leaves a history from which the next one can go on |
| `DiagnosticsMigration.ApplyUntilConverted` | scripts/migrate-diagnostics-to-ordinary.ts:1041-1293 | after any number of apply runs killed between any two commands, one uninterrupted run completes, both surfaces are converted and no source has lost a row the server did not expire |
| `SharedPrefixNames.NoShadowedBase` | scripts/migrate-to-shared-prefix.ts:84-128 | no entry of the suffix list can be found at the end of a longer entry after it, as the list's ordering rule asks |
| `SharedPrefixNames.DiscoveryRecoversAgentAndBase` | scripts/migrate-to-shared-prefix.ts:166-202 | a name built from an agent and a base is read back to that agent and base if and only if it does not spell a shared base |
| `SharedPrefixNames.TargetIsNoSource` | scripts/migrate-to-shared-prefix.ts:171-202 | a shared target is never itself taken for a source |
| `SharedPrefixNames.DiscoverSources` | scripts/migrate-to-shared-prefix.ts:166-202 | the result is the selected sources among the listed names, each as often as it is listed, in the order of the names |
| `SharedPrefixNames.DiscoveredDistinct` | scripts/migrate-to-shared-prefix.ts:166-202 | from distinct names each source is found once, and exactly the selected ones are found |
| `SharedPrefixNames.AccessEventsNotFound` | scripts/migrate-to-shared-prefix.ts:171-179 | the `events` of an agent called `access` are found under no prefix |
| `SharedPrefixMigration.VerifyCopy` | scripts/migrate-to-shared-prefix.ts:326-351 | `unmatched` is the size of the source digests minus the target digests as multisets |
| `SharedPrefixMigration.UnmatchedIsDifference` | scripts/migrate-to-shared-prefix.ts:314-351 | under an injective hash that is the size of the multiset difference of the rows themselves, in any cursor order |
| `SharedPrefixMigration.CompleteMergeCovers` | scripts/migrate-to-shared-prefix.ts:415-434 | a complete merge leaves every source row in the target exactly when no `_id` conflicts |
| `SharedPrefixMigration.MergeIdempotent` | scripts/migrate-to-shared-prefix.ts:415-434 | repeating a merge, or completing a partial one, equals one complete merge |
| `SharedPrefixMigration.ConservedTransitive` | scripts/migrate-to-shared-prefix.ts:516-584 | conservation of rows composes over steps, sources and runs |
| `SharedPrefixMigration.NoRowLost` | scripts/migrate-to-shared-prefix.ts:390-464 | after any conserving history each source row is in its source or byte-identical in its target |
| `SharedPrefixMigration.ConflictingSourceKept` | scripts/migrate-to-shared-prefix.ts:390-464 | a source with a row whose `_id` the target holds differently is never dropped |
| `SharedPrefixMigration.Migrator.MigrateCollection` | scripts/migrate-to-shared-prefix.ts:390-464 | a drop needs a verified copy; with a healthy server verified means supported shapes and no conflict; a covered source changes nothing |
| `SharedPrefixMigration.ReadyStays` | scripts/migrate-to-shared-prefix.ts:516-584 | migrating one source leaves another of the same target ready, if the two agree where they share an `_id` |
| `SharedPrefixMigration.Migrator.Run` | scripts/migrate-to-shared-prefix.ts:516-584 | a whole run, failing anywhere, conserves every row; with every operation healthy all sources verify if and only if each is supported and free of conflicts with its target and with the others; verified sources are covered or gone; with nothing to copy it changes nothing |
| `SharedPrefixMigration.Migrator.RunRepeatedly` | scripts/migrate-to-shared-prefix.ts:466-612 | any sequence of interrupted runs conserves every row |
| `SharedPrefixMigration.MigrateToSharedPrefix` | scripts/migrate-to-shared-prefix.ts:166-612 | a run over the real names: under every prefix the rows of each agent's collections and of each shared collection survive, and verified collections of the selected agents are covered or dropped |
| `McNemar.DivisionIsExact` | scripts/benchmark/paired-inference.ts:45-48 | the loop's integer division never truncates: each term is the next binomial coefficient |
| `McNemar.ExactMcNemar` | scripts/benchmark/paired-inference.ts:34-56 | the result is the one-rounding quotient of twice the lower binomial tail and 2^n; unsafe counts are refused |
| `McNemar.ReportsOneExactlyWhenBalanced` | scripts/benchmark/paired-inference.ts:22-56 | the value-1 branch is taken exactly when gains and losses differ by at most one |
| `McNemar.ScaledQuotientBounds` | scripts/benchmark/paired-inference.ts:22-32 | below 1 the scaled quotient is at least 2^63, so its floor errs by less than one part in 2^63 |
| `McNemar.PValueCountsExtremeOutcomes` | scripts/benchmark/paired-inference.ts:34-56 | the value times 2^n counts the outcomes at least as lopsided as the one seen |
| `McNemar.PValueOrdersByImbalance` | scripts/benchmark/paired-inference.ts:34-56 | with the number of discordant pairs fixed, a more lopsided split never has the larger value, and order does not matter |
| `B2Join.BuildInference` | scripts/benchmark/b2-join.ts:191-286 | the verdict is the one the tallied gains and losses determine, with each ineligibility reason in order |
| `B2Join.JoinB2Runs` | scripts/benchmark/b2-join.ts:486-603 | the report is assembled from the pairs over the sorted union of questions |
| `B2Join.B2FlipRate` | scripts/benchmark/b2-join.ts:610-627 | the flips counted are the judged pairs that disagree, in whatever order the map yields them |
| `B2Join.NetFlipsBoundedByFlipRate` | scripts/benchmark/b2-join.ts:486-627 | net movement and flip count are the difference and the sum of the same gains and losses, whatever the key order |
| `B2Join.EligibleAgreesWithJoin` | scripts/benchmark/b2-join.ts:191-603 | for an eligible comparison gains minus losses is the net of the join and the difference in proportion is its delta |
| `B2Join.EligibleAgreesWithRecall` | scripts/benchmark/b2-join.ts:191-603 | the same for recall-only comparisons and the net recall |
| `B2Join.EvidencePointsTheRightWay` | scripts/benchmark/b2-join.ts:264-285 | evidence for either run needs a lead of at least two in its favour |
| `B2Join.JoinSwaps` | scripts/benchmark/b2-join.ts:191-603 | swapping the runs keeps the p-value and eligibility and flips gains, losses, difference and evidence |
| `B2Join.JoinNetsSwap` | scripts/benchmark/b2-join.ts:486-603 | swapping the runs negates both nets and exchanges the unpaired counts |
| `B2Join.DeltaIsDifferenceOfMeans` | scripts/benchmark/b2-join.ts:297-313 | the reported delta is the difference of the two means over one population |
| `Ranking.OfficialDcgAtK` | scripts/benchmark/mongodb-benchmark-runner.ts:1215-1241 | gain is counted for exactly the slots that bring a relevant id no earlier slot brought |
| `Ranking.NdcgInUnitInterval` | scripts/benchmark/mongodb-benchmark-runner.ts:1215-1249 | official nDCG lies in [0,1] for every ranking, with repeats, empty slots and bundles |
| `Ranking.NdcgPerfect` | scripts/benchmark/mongodb-benchmark-runner.ts:1215-1249 | it is 1 when the leading slots each bring another relevant id |
| `Ranking.DcgAtK` | scripts/benchmark/mongodb-benchmark-runner.ts:1251-1264 | the loop sums the discounts of the slots that touch a relevant id |
| `Ranking.InternalNdcgInUnitInterval` | scripts/benchmark/mongodb-benchmark-runner.ts:1251-1285 | the uncredited metric stays in [0,1] on the grouped ranking |
| `Ranking.UncreditedProjectionExceedsIdeal` | scripts/benchmark/mongodb-benchmark-runner.ts:1221-1226 | on the flattened projection, uncredited gain would exceed the ideal |
| `Ranking.RankResultIdGroups` | scripts/benchmark/mongodb-benchmark-runner.ts:1266-1285 | the loop with its set of seen ids computes the grouped ranking |
| `Ranking.ProjectCanonicalRankedGroups` | scripts/benchmark/mongodb-benchmark-runner.ts:1287-1310 | the loop computes the flattened projection, one slot per id and one empty slot for a result without ids |
| `Ranking.RankGroupsAreDisjoint` | scripts/benchmark/mongodb-benchmark-runner.ts:1266-1285 | no id is in two groups of the grouped ranking |
| `Ranking.ProjectionOnlyDeflates` | scripts/benchmark/mongodb-benchmark-runner.ts:1287-1316 | at every k the projection finds no id that the grouped ranking misses |
| `Ranking.ProjectedRecallIsLower` | scripts/benchmark/mongodb-benchmark-runner.ts:1337-1384 | so recall on the projection never exceeds recall on the grouped ranking |
| `Ranking.RecallMonotone` | scripts/benchmark/mongodb-benchmark-runner.ts:1337-1384 | recall grows with k, and recalling all implies recalling some |
| `Ranking.RecallShareBounded` | scripts/benchmark/mongodb-benchmark-runner.ts:1442-1451 | the relevant ids among the first k are each counted once |
| `Ranking.EvaluateOfficialRetrieval` | scripts/benchmark/mongodb-benchmark-runner.ts:1337-1384 | one cutoff of the official metrics; none at all without a relevant id |
| `Scanner.IterateBalancedObjects` | scripts/benchmark/longmemeval-official-scoring.ts:743-788 | the candidates are disjoint minimal string-aware blocks from left to right, and no other opening brace closes |
| `Scanner.CandidatesUnique` | scripts/benchmark/longmemeval-official-scoring.ts:735-788 | that description has exactly one solution |
| `Hypothesis.PrintNeutral` | scripts/benchmark/longmemeval-official-scoring.ts:739-741 | printed JSON is balanced for the scanner whatever its strings contain |
| `Hypothesis.PrintedObjectIsFirstCandidate` | scripts/benchmark/longmemeval-official-scoring.ts:743-788 | a printed object after text without braces is the first candidate, exactly |
| `Hypothesis.ParseOfficialHypothesis` | scripts/benchmark/longmemeval-official-scoring.ts:807-855 | the outcome is decided by the first candidate that parses with a usable answer, else by the prose rules |
| `Hypothesis.PrintedAnswerRecovered` | scripts/benchmark/longmemeval-official-scoring.ts:807-830 | the answer of such an object is recovered exactly |
| `Hypothesis.FencedAnswerRecovered` | scripts/benchmark/longmemeval-official-scoring.ts:729-830 | and so it is inside a JSON code fence |
| `Hypothesis.BareAnswerIsProse` | scripts/benchmark/longmemeval-official-scoring.ts:831-855 | an answer no candidate supplied is one non-blank line without brace, bracket or fence |
| `ResumableScoring.Scorer.GenerateAnswer` | scripts/benchmark/longmemeval-official-scoring.ts:1048-1140 | one answer call; on return its outcome is on disk and nothing was lost, and otherwise at most this answer was; other questions are untouched |
| `ResumableScoring.Scorer.JudgeHypothesis` | scripts/benchmark/longmemeval-official-scoring.ts:1142-1259 | at most two judge calls; the paid answer stays on the judged or unreliable row |
| `ResumableScoring.Scorer.ScoreCase` | scripts/benchmark/longmemeval-official-scoring.ts:905-1010 | the result is what the sidecar says; a terminal row costs no call, a row on disk no answer call, and any case at most one answer call and two judge calls |
| `ResumableScoring.Scorer.ScoreScenario` | scripts/benchmark/longmemeval-official-scoring.ts:876-1029 | the lists are the declared ids by their state on disk; answered by everybody it always finishes, and it is complete exactly when every case is settled or has a target; a complete scenario rescored makes no call; at most one answer is lost, and only when it stops |
| `ResumableScoring.Scorer.CheckResume` | scripts/benchmark/longmemeval-official-scoring.ts:626-638 | the resume check passes exactly when every scenario recorded as complete is settled on disk |
| `ResumableScoring.Scorer.Run` | scripts/benchmark/mongodb-manager-benchmark.ts:1007-2100 | one process refuses exactly a checkpoint the sidecar contradicts, keeps the two in agreement however it ends, records every resolvable scenario if it finishes, and makes no call when all are recorded |
| `ResumableScoring.Scorer.RunAll` | scripts/benchmark/longmemeval-official-scoring.ts:623-1140 | over any sequence of stopped processes: hypotheses and terminal rows never change, no resume check fails, at most one answer is lost per stop, and no question is paid for more often than once and once more per stop |
| `ResumableScoring.ScenarioPartitionsDeclared` | scripts/benchmark/longmemeval-official-scoring.ts:876-1029 | every declared id is in exactly one of judged, unreliable and unavailable, once |
| `ResumableScoring.AnswersBounded` | scripts/benchmark/longmemeval-official-scoring.ts:1048-1140 | with one answer lost per stop, every question has at most one completed answer call more than there were stops, and all questions together have at most the settled ones plus the stops |
| `AnswerSummary.FullCoverageIsBijective` | scripts/benchmark/longmemeval-official-scoring.ts:1392-1459 | at full coverage judged rows and declared ids are one set, each id once on either side |
| `AnswerSummary.PublishedAccuracyIsHonest` | scripts/benchmark/longmemeval-official-scoring.ts:1392-1514 | accuracy is published exactly at full coverage and is then correct over declared |
| `AnswerSummary.OverallIsWeightedMean` | scripts/benchmark/longmemeval-official-qa.ts:196-232 | overall accuracy is the count-weighted mean of the per-type accuracies when all types are known |
| `AnswerSummary.ChosenExportIsAccepted` | scripts/benchmark/longmemeval-official-scoring.ts:1290-1503 | the full export the summary chooses is never refused by the exact-500 validator |
| `AnswerSummary.ValidatorAcceptsExactly` | scripts/benchmark/longmemeval-official-qa.ts:316-361 | the validator accepts exactly two duplicate-free lists of the same 500 ids |
| `SeededShuffle.Stream.ShuffleInPlace` | scripts/benchmark/longmemeval-b2-frozen50.ts:143-152 | the in-place swaps compute the specified shuffle and advance the stream by their number |
| `SeededShuffle.ShufflePermutes` | scripts/benchmark/longmemeval-b2-frozen50.ts:143-152 | for every stream of draws in [0,1) the shuffle only rearranges |
| `StratifiedSelection.TargetsAreFair` | scripts/benchmark/longmemeval-b2-frozen50.ts:154-173 | the targets cover the types, add up to the size and differ by at most one |
| `StratifiedSelection.TypeTargets` | scripts/benchmark/longmemeval-b2-frozen50.ts:154-173 | the countdown of the remainder computes those targets, and no types is an error |
| `StratifiedSelection.QuotaMetExactly` | scripts/benchmark/longmemeval-b2-frozen50.ts:175-209 | a quota takes the lesser of what it needs and what rooms and rows allow per type, whatever the draws |
| `StratifiedSelection.FillFailsOnlyForLack` | scripts/benchmark/longmemeval-b2-frozen50.ts:259-280 | the fill fails if and only if some type has fewer rows than its target |
| `StratifiedSelection.FillMeetsTargets` | scripts/benchmark/longmemeval-b2-frozen50.ts:259-280 | a successful fill meets every target and keeps what the quotas chose |
| `FrozenSelection.SelectB2FrozenSet` | scripts/benchmark/longmemeval-b2-frozen50.ts:211-284 | the program with its maps, stream and in-place shuffles computes the specified selection |
| `FrozenSelection.ResultMeetsSpecification` | scripts/benchmark/longmemeval-b2-frozen50.ts:211-284 | a returned list has ascending ids, the exact size, each type at its target and both quotas met |
| `FrozenSelection.SelectionSucceedsExactly` | scripts/benchmark/longmemeval-b2-frozen50.ts:175-284 | for distinct ids it succeeds if and only if both quotas fit and each type has rows for its target |
| `FrozenSelection.SucceedsWhateverTheDraws` | scripts/benchmark/longmemeval-b2-frozen50.ts:175-284 | with room for both quotas at once among the abstentions, and rows for each target, no draw makes it fail |
| `FrozenSelection.NeedsRoomWhateverTheDraws` | scripts/benchmark/longmemeval-b2-frozen50.ts:175-284 | without room for each quota on its own, or rows for a target, no draw makes it succeed |
| `FrozenSelection.DrawsDecide` | scripts/benchmark/longmemeval-b2-frozen50.ts:175-284 | two rows and options for which, under every stream, the first draw alone decides between success and failure |
| `FrozenSelection.SeedDecides` | scripts/benchmark/longmemeval-b2-frozen50.ts:128-284 | of the program's own generator seed 0 selects from those rows and seed 1 fails on them |
| `FrozenSelection.OrderDoesNotMatter` | scripts/benchmark/longmemeval-b2-frozen50.ts:224-226 | the order of the input rows changes neither the result nor the error |
| `Replay.SelectsFirstNonEmpty` | scripts/benchmark/mongodb-benchmark-harness.ts:168-175 | exactly the first `limit` conversations with turns are replayed |
| `Replay.LimitSelectsExactly` | scripts/benchmark/mongodb-benchmark-harness.ts:151-175 | a limit replays the first n conversations with turns of every dataset if and only if it is positive and its whole part is n |
| `Replay.FractionalLimitSelectsNothing` | scripts/benchmark/mongodb-benchmark-harness.ts:151-175 | a limit strictly between 0 and 1, of conversations or of turns, selects nothing, and 0 is no limit |
| `Replay.KeysDistinct` | scripts/benchmark/mongodb-benchmark-harness.ts:107-132 | under an injective hash two turns of a replay never share an idempotency key |
| `Replay.ItemKeysDistinct` | scripts/benchmark/mongodb-benchmark-harness.ts:107-132 | so all items of one replay have distinct keys |
| `Replay.ReplayConversationDataset` | scripts/benchmark/mongodb-benchmark-harness.ts:134-332 | the batches are the selected turns in order, imported and failed turns add up, and every count follows from the receipts |
| `Replay.BatchingUnique` | scripts/benchmark/mongodb-benchmark-harness.ts:215-251 | batches that are full but for the last are determined by the turns |
| `Replay.ModesCountAlike` | scripts/benchmark/mongodb-benchmark-harness.ts:253-320 | with the same fate for each turn both modes count the same |
| `LongMemEvalAdmission.PreflightIdentity` | scripts/benchmark/longmemeval-admission.ts:331-370 | it passes if and only if question ids and generated session ids are distinct and repeats agree, and names a fault that is there otherwise |
| `LongMemEvalAdmission.EveryTurnOnce` | scripts/benchmark/longmemeval-admission.ts:75-230 | every raw turn of a walked session becomes exactly one admitted turn or exactly one diagnostic |
| `LongMemEvalAdmission.AdmitQuestion` | scripts/benchmark/longmemeval-admission.ts:107-300 | the walk with its counters and lists yields the specified admission, each rejection in order |
| `LongMemEvalAdmission.ExpectedIdsNameAdmittedContent` | scripts/benchmark/longmemeval-admission.ts:107-300 | expected turn ids are exactly the admitted answer turns, expected sessions exactly the admitted evidence, none of it missing; a case is eligible exactly when it has evidence and a user answer, and its official ids are exactly the user's answer turns and their sessions |
| `LongMemEvalAdmission.AdmitLongMemEvalDocument` | scripts/benchmark/longmemeval-admission.ts:377-393 | a document is accepted if and only if the preflight finds no fault and some question is admitted, with the admissions and diagnostics of its questions in order |
| `LongMemEvalAdmission.SessionIdsUnique` | scripts/benchmark/longmemeval-admission.ts:57-370 | no two admitted conversations of a document share a session id |
| `LongMemEvalAdmission.TurnIdsUnique` | scripts/benchmark/longmemeval-admission.ts:57-370 | no two admitted turns of a document share a turn id |
| `LongMemEvalAdmission.SessionIsTurnExactly` | scripts/benchmark/longmemeval-admission.ts:57-66 | a session id equals a turn id if and only if the session is the first to name its source and question and source together spell the turn |
| `LongMemEvalAdmission.KindsApartExactly` | scripts/benchmark/longmemeval-admission.ts:325-330 | in a document whose question ids are distinct, with no colon last or doubled in them, no id names both a session and a turn if and only if no source spells an admitted turn of its question |
| `LongMemEvalAdmission.CoincidenceExample` | scripts/benchmark/longmemeval-admission.ts:325-330 | a document that passes the preflight and keeps its question, in whose scenario one id names a session and a turn |
| `LongMemEvalAdmission.AdmitSpellingDocument` | scripts/benchmark/longmemeval-admission.ts:377-393 | the adapter accepts that document |
| `LoCoMoAdmission.WalkSessions` | scripts/benchmark/locomo-admission.ts:115-207 | sessions 1 to the highest number each yield a conversation or their diagnostics, and every other session key is counted |
| `LoCoMoAdmission.AdmitSample` | scripts/benchmark/locomo-admission.ts:214-329 | a sample is rejected outright with its one reason, or yields exactly the conversations, cases and ordered diagnostics its sessions and questions determine |
| `LoCoMoAdmission.CanonicalKeys` | scripts/benchmark/locomo-admission.ts:34-140 | the keys with a place in the walk are exactly those written from a positive number |
| `LoCoMoAdmission.EveryTurnOnce` | scripts/benchmark/locomo-admission.ts:78-180 | every raw turn of a walked session becomes exactly one admitted turn or one diagnostic |
| `LoCoMoAdmission.ExpectedDialogsAreAdmitted` | scripts/benchmark/locomo-admission.ts:214-329 | every expected dialog id is on an admitted turn of a session the case also expects |
| `LoCoMoAdmission.ExpectedSessionsAreAdmitted` | scripts/benchmark/locomo-admission.ts:214-329 | every expected session is an admitted conversation holding an expected dialog |
| `LoCoMoAdmission.CaseKeptExactly` | scripts/benchmark/locomo-admission.ts:241-279 | a question becomes a case if and only if it can be read and every dialog it cites is on an admitted turn |
| `LoCoMoAdmission.PreflightIdentity` | scripts/benchmark/locomo-admission.ts:337-360 | it passes if and only if sample ids are distinct and dialog ids are distinct within each sample, and names a fault that is there otherwise |
| `LoCoMoAdmission.DialogHasOneConversation` | scripts/benchmark/locomo-admission.ts:337-360 | after a clean preflight a dialog id belongs to one conversation |
| `LoCoMoAdmission.DocumentIdsUnique` | scripts/benchmark/locomo-admission.ts:331-360 | session ids are distinct across a document |
| `LoCoMoAdmission.SessionIsNoCase` | scripts/benchmark/locomo-admission.ts:331-336 | no session id is ever a case id |
| `LoCoMoAdmission.CaseIdsUnique` | scripts/benchmark/locomo-admission.ts:331-360 | case ids are distinct across a document |
| `LoCoMoAdmission.AdmitLoCoMoDocument` | scripts/benchmark/locomo-admission.ts:367-383 | a document is accepted if and only if the preflight finds no fault and some sample keeps a case, with every sample not rejected outright, in order |
| `Worklists.WalkSourceGraph` | scripts/benchmark/benchmark-source-graph.ts:84-125 | the walk ends, returns exactly the reachable files with each file's workspace imports once, and refuses exactly when some reachable file is unsound |
| `Worklists.ObserveWorkspaceBuild` | scripts/benchmark/benchmark-executable-identity.ts:374-417 | exactly the packages reachable through source or built imports are observed, or something needed is refused |
| `Worklists.CollectRegExpBindings` | scripts/ci/check-no-fallbacks.ts:369-435 | the repeated passes end with the least set of names closed under the alias rules |
| `Worklists.BindingOrderDoesNotMatter` | scripts/ci/check-no-fallbacks.ts:429-434 | the order of the declarations does not change that set |

## Left out

- The MongoDB driver, sessions, cursors, timeouts, retries and logging; a command is atomic, a snapshot read is exact, and an operation either takes effect or does not. A `$out` that finishes after a later run started, and outside DDL between an inspection and its command, are excluded as the recovery contract excludes them.
- The dry-run modes, which only read and print.
- The journal file's header (version, database, prefix) and the type checks on its fields: the model's journal is typed. An incomplete `copying` checkpoint is excluded by the same check that guards the program.
- Skip reasons and error texts are kept as plain labels.
- `Converter.RunApply` and `Converter.RunAbort` promise success for a server that carries out what it is asked (response lost or not); under refusals and misreports only the safety clauses hold.
- Retention is a number or absent; server version and feature gates are not modelled.
- The locale under which `discoverSources` compares names: the order is any total preorder on names.
- JavaScript numbers: counts are unbounded except in `ExactMcNemar`, whose bound on safe integers is kept; ratios are exact, and the last conversion of a quotient to a double is not modelled. Session numbers beyond 2^53 are read exactly.
- `log2`: the discount is any positive non-increasing sequence.
- String order is by character code; characters outside the basic plane are one character here and two code units there.
- `JSON.parse` is a parameter of the hypothesis parser, assumed to invert the printer only where a lemma says so.
- A provider call stands for its bounded transport retries, and a failed one for retries exhausted; the paid preflight probe is not modelled.
- Provider prompts, redaction, the capture writer and its `recordCase` calls, token usage and statistics counters.
- The checkpoint file beyond the set of scenarios it calls complete; retrieval, which supplies each scenario's material, is a parameter of the run.
- Reading a stored sidecar field by field (`parseStoredSidecar`), and property names inherited by plain objects: the rows are a map.
- Timestamps in admitted and replayed turns beyond the text that enters a key, dataset metadata, speaker names, and `normalizeBenchmarkConversationTimestamps`, which keeps turn counts.
- The answer text of an admitted case: only whether a gold answer is readable matters here.
- `resolveRelativeSource`, `resolveWorkspacePackage` and `hashBuildTree` are arbitrary functions of their inputs; digests of files and trees are not modelled.
- The TypeScript syntax tree: bindings are the list of nodes a pass meets, over a small expression type.
- Command lines, environment resolution, publishability checks, smoke and proof-pack scripts, search-index polling, percentiles and report text.
