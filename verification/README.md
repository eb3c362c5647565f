# Catalog benchmark: verified model

A Dafny model of the strict same-table contention benchmark and of the evidence built on it.

- **Commit phases.** A round runs a warmup, a sequential phase and a window of concurrent writers against one table. `Contention` is a state machine in which clients issue commits, the catalog applies and answers them in any order (late and lost answers included), effects store whatever they like, the store may be rewritten at any time, writers panic or stop, and finished writers are joined in any order. `Phases` and `Attribution` prove what every run of it keeps; `Honest` carries that to the round's verdict.
- **Accounting.** `Ledger` is the mutable request ledger with its linked sets, lists and counters; `Statistics` are the distributions computed from it; `Writers` are the loops that fill and merge ledgers.
- **Rounds and sweeps.** `Round` is the multi-exit round with its catalog calls, evidence and checks. `Schedule`, `Aggregate` and `Sweep` follow the rounds through the rotate-left schedule, replay, medians and ranking; `Bundle` verifies the failure review and evaluates the published assertions, `Matrix` orders the published rows and `Disagreement` settles when that order is the ranking.
- **Engine runs.** `EngineEvents`, `EngineDecoder` and `EngineRuns` are the event protocol, the decoder of child output and the two runners. `RowOracle` generates the rows both must read back.
- **Publication.** `Timestamp`, `Sanitizer` and `OutputTree` are the UTC timestamps, the redaction pointers and the exact-output check of result bundles.

`Ordering`, `Arithmetic`, `Identity`, `Audit`, `Metrics` and `RoundLaws` support these. Durations are nanoseconds, `f64` is an exact real, SHA-256 is an arbitrary function (collision-free on the identities of a round only where a statement says so), and I/O is a value that a statement ranges over. Verify with `dafny verify dfyconfig.toml`.

Findings a reader may not expect of the code:

- Of the shared failures, the DuckDB runner cannot print two. An unanswered preflight query counts as an occupied fixture (exit code 3), and catalog initialisation has no failure of its own: every query attaches the catalog first, so a catalog that does not attach shows up as the failure of another stage (`EngineRuns.EmitsExactlyTheTraces`). Given equal answers the two engines run alike exactly when the runtime failed, or the catalog loads and the preflight is answered (`EngineRuns.EnginesCoincide`).
- A result matrix and a transcript ranking use different medians. Over all policies with conditioning and measured rounds, published matrices are sure to show their ranking row for row if and only if the number of measured rounds is odd (`Disagreement.RowsAgreeExactlyForOddCounts`). The shipped policy admits only the canonical scenario with its five measured rounds, so there the matrix always shows the ranking; the even half (`Disagreement.EvenRoundsDisagree`, a published sweep of honest rounds for every even number) concerns policies that the canonical scenario excludes.
- Past the output limit, the events kept from a child depend on how the pipe cut its output, unless nothing is decoded from the last read buffer before the limit (`EngineDecoder.CutsAgreeExactly`). For every run that owns its fixture the authority to clean up can depend on it too (`EngineRuns.ParentMayMissOwnership`).
- The materializer's two consistency refusals, a passing catalog that is not ranked and a failed one that is, are unreachable for every sweep: the review must first cover exactly the failed catalogs (`Bundle.NeverInconsistent`). What remains when every check is required is one refusal, of a ranked catalog with a failed assertion that is no round check (`Bundle.RefusalsExactly`).
- Validation does not require a plan's table to have the three generated columns (`RowOracle.SomeTableIsWider`); reads have the expected width exactly when it does (`RowOracle.ReadsMatchTheScenario`).

`RoundLaws.OutcomeShape`, `RoundLaws.ClassificationIsExact` and `RoundLaws.PassesExactly` are readings of the specification function `OutcomeOf`; what ties that function to the mutable round is `Round.RoundRunner.Run`.

## Model

| member | source | states |
|---|---|---|
| `Statistics.PopulationMoments` | crates/commit/src/stats.rs:125-137 | the single-pass loop returns exactly the two-pass mean and population variance; the clamp at zero never acts |
| `Statistics.WelfordIsTwoPass` | crates/contract-tool/src/legacy_commit.rs:467-482 | after any prefix the accumulator holds the mean and the sum of squared deviations that two passes compute |
| `Statistics.SortedNonnegative` | crates/commit/src/stats.rs:102-118 | sorts, or names the first negative sample or an empty list |
| `Statistics.NonnegativeDistribution` | crates/commit/src/stats.rs:57-73 | fails exactly on rejected samples, otherwise returns the summary of them |
| `Statistics.NearestRankIsQuantile` | crates/commit/src/stats.rs:120-123 | the nearest-rank value is the least sample with at least the asked share at or below it |
| `Statistics.SummaryIsComplete` | crates/commit/src/stats.rs:57-73 | p50, p95 and p99 meet the quantile definition on the unsorted samples and lie in order between the attained minimum and maximum |
| `Statistics.SummaryIsPermutationInvariant` | crates/commit/src/stats.rs:57-73 | a summary depends on its samples only as a multiset |
| `Statistics.MedianAgreesWithP50` | crates/commit/src/stats.rs:78-92 | midpoint median and nearest-rank p50 agree if and only if the count is odd or the two middle samples coincide |
| `Statistics.MedianIsNonnegative` | crates/commit/src/stats.rs:78-92 | nonempty nonnegative samples always have a median, between their extremes |
| `Identity.IdentityInjective` | crates/commit/src/workflow.rs:703-715 | within a round, request identities of distinct (phase, writer, sequence) slots differ |
| `Ledger.LedgerInvariant` | crates/commit/src/model.rs:208-217 | all latencies are the multiset union of the three outcome lists, seen identities count all requests, accepted identities count accepted ones and are seen, error counters sum to the error list |
| `Ledger.RequestLedger.Record` | crates/commit/src/model.rs:220-243 | records one entry, refuses a reused identity unchanged, and fails a saturated counter with the half-recorded state the code leaves |
| `Ledger.RequestLedger.Classify` | crates/commit/src/model.rs:229-242 | files one unseen request under its outcome |
| `Ledger.RequestLedger.TryMerge` | crates/commit/src/model.rs:281-303 | all or nothing: on error the receiver is unchanged, otherwise the ledger of both logs; the inner extend and additions cannot fail |
| `Ledger.RequestLedger.Finish` | crates/commit/src/model.rs:245-279 | returns the evidence of the recorded log and never reports unaccounted requests |
| `Ledger.CountsFit` | crates/commit/src/model.rs:285-292 | the overflow pre-check passes exactly when every summed counter fits 64 bits |
| `Ledger.AddCounts` | crates/commit/src/model.rs:299-301 | adds counters key by key without leaving 64 bits |
| `Ledger.OptionalDistribution` | crates/commit/src/model.rs:418-424 | no distribution exactly for an empty list; latencies are never rejected |
| `Ledger.BuildMerged` | crates/commit/src/model.rs:281-303 | merging two ledgers with disjoint identities equals recording one log after the other |
| `Ledger.CountersCount` | crates/commit/src/model.rs:236-240 | each error counter is the number of requests that failed that way |
| `Ledger.EveryLogIsAccounted` | crates/commit/src/model.rs:157-165 | outcome lists partition the log and counters total the errors |
| `Ledger.DistinctDigestsCount` | crates/commit/src/model.rs:226-234 | without reused identities the identity sets count requests and accepted requests |
| `Ledger.FinishedIsPermutationInvariant` | crates/commit/src/model.rs:245-279 | evidence and accepted set depend on the log only as a multiset |
| `Contention.IdInjective` | crates/commit/src/workflow.rs:624-649 | no two commits of a phase share an identity |
| `Contention.StepKeeps` | crates/commit/src/workflow.rs:637-661 | every step (issue, apply, late apply, answer, stop, panic, join, clock, store change) keeps the phase invariant: issued, recorded, answered and applied requests correspond, whatever an effect stores |
| `Contention.IssueKeeps` | crates/commit/src/workflow.rs:650-654 | issuing a commit keeps the invariant |
| `Contention.ApplyKeeps` | crates/commit/src/protocol.rs:397-426 | a commit taking effect keeps the invariant, with or without storing a metadata object |
| `Contention.ApplyLateKeeps` | crates/commit/src/protocol.rs:422-424 | a failed or abandoned request taking effect later keeps the invariant, with or without storing a metadata object |
| `Contention.RespondKeeps` | crates/commit/src/workflow.rs:654-658 | an answer recorded by its client keeps the invariant |
| `Contention.PanicKeeps` | crates/commit/src/workflow.rs:688-692 | a panicking writer keeps the invariant |
| `Contention.StoreKeeps` | crates/commit/src/store.rs:389-429 | any change of the stored objects keeps the invariant |
| `Contention.StepGrows` | crates/commit/src/model.rs:351-371 | every step keeps the growth relation: unless the store shrank, each commit that stored a metadata object added one |
| `Phases.RunKeeps` | crates/commit/src/workflow.rs:610-701 | every state of every interleaved run keeps the phase invariant |
| `Phases.RunKeepsLedgers` | crates/commit/src/workflow.rs:645-660 | in every run each client ledger is duplicate free and reports a duplicate only for a digest it holds |
| `Phases.RunGrows` | crates/commit/src/model.rs:351-371 | the growth relation holds in every state of every interleaved run |
| `Phases.JoinRecords` | crates/commit/src/workflow.rs:676-697 | a join order without error has merged every ledger it met, each request once |
| `Phases.JoinsExactly` | crates/commit/src/workflow.rs:676-697 | a join order has no error if and only if every writer succeeded, no digest occurs twice and every error total fits 64 bits; then it holds all their logs |
| `Phases.JoinOrderIsIrrelevant` | crates/commit/src/workflow.rs:676-701 | for any two join orders of the same results, one fails if and only if the other does, and otherwise both finish with the same evidence |
| `Attribution.EveryPhase` | crates/commit/src/workflow.rs:588-701 | every completed run of a phase either succeeds, having recorded every issued commit exactly once with the catalog's answer and accepted exactly the digests of accepted commits, or, without a digest collision, fails only by an interruption: a lost writer, a sequence overflow or a counter overflow |
| `Attribution.PhaseFailsRarely` | crates/commit/src/model.rs:226-240 | with a collision-free digest no record and no merge reports a duplicate, so a failing phase was interrupted |
| `Attribution.NextPhase` | crates/commit/src/workflow.rs:462-504 | after any number of succeeded phases every completed run of the next one is accounted and disjoint from all of them, or was interrupted |
| `Attribution.LegTells` | crates/commit/src/workflow.rs:462-504 | a successful phase adds exactly its own requests to what the catalog answered |
| `Attribution.PhaseReached` | crates/commit/src/workflow.rs:462-504 | every later phase starts with none of its identities used |
| `Attribution.GrowthCoversAccepted` | crates/commit/src/model.rs:351-371 | if each accepted commit stored a metadata object and none was deleted, metadata grows by at least the accepted commits, whatever failed or late ones stored |
| `Attribution.PropertyIsExplained` | crates/commit/src/model.rs:316-330 | the final property belongs to a request that was accepted or failed yet took effect, whatever the effects stored |
| `Attribution.PropertyIsAccepted` | crates/commit/src/model.rs:316-338 | with no errors and one acceptance it belongs to an accepted request and nothing can change it any more, whatever the effects stored |
| `Attribution.HonestRound` | crates/commit/src/workflow.rs:462-558 | over every interleaved run of the phases, without errors and with an acceptance the final property is an accepted request's and nothing can change it any more |
| `Attribution.HonestGrowth` | crates/commit/src/model.rs:351-371 | over every interleaved run of the phases metadata grows by at least the accepted commits, if each stored a metadata object and none was deleted |
| `Attribution.PhasesExtendWithoutDuplicates` | crates/commit/src/workflow.rs:565-586 | however far a round got, recording a phase meets no accepted request of an earlier one |
| `Writers.RecordAttempt` | crates/commit/src/workflow.rs:645-660 | one recorded answer takes the client to the phase machine's next state |
| `Writers.CloseLedger` | crates/commit/src/workflow.rs:698-701 | finishing a ledger gives the phase machine's result |
| `Writers.RunSerialPhase` | crates/commit/src/workflow.rs:588-608 | the serial loop computes the phase machine's client, then finishes its ledger |
| `Writers.RunWriter` | crates/commit/src/workflow.rs:645-660 | the writer loop computes the phase machine's client up to the deadline, with checked sequence |
| `Writers.JoinWriter` | crates/commit/src/workflow.rs:679-693 | one joined writer is merged or its error kept if it is the first |
| `Writers.JoinWriters` | crates/commit/src/workflow.rs:676-701 | the join loop computes the merge of all results in join order, or the first error |
| `Writers.WritersAreLoops` | crates/commit/src/workflow.rs:637-661 | in every interleaved run a finished writer returns what the sequential loop returns for some script |
| `Audit.AuditTable` | crates/commit/src/store.rs:389-429 | returns the totals of the listing; fails exactly when it breaks off or a total leaves 64 bits |
| `Audit.Count` | crates/commit/src/store.rs:401-419 | adds one object, failing exactly when a counter would overflow |
| `Round.EvaluateGrowth` | crates/commit/src/model.rs:352-371 | growth against the summed accepted commits, with checked addition and subtraction |
| `Round.RoundRunner.Run` | crates/commit/src/workflow.rs:382-418 | for every script of answers the evidence is filled exactly up to the first stage that fails and the calls are those of that stage |
| `Round.RoundRunner.Prepare` | crates/commit/src/workflow.rs:420-460 | table, location and baseline, each able to stop the round |
| `Round.RoundRunner.Measure` | crates/commit/src/workflow.rs:462-493 | the two serial phases, each stopping the round when it fails or repeats a request |
| `Round.RoundRunner.Race` | crates/commit/src/workflow.rs:495-504 | the window of concurrent writers, stopping the round when it fails or repeats a request |
| `Round.RoundRunner.Conclude` | crates/commit/src/workflow.rs:506-562 | final table, audit, growth and cleanup |
| `Round.RoundRunner.RecordPhase` | crates/commit/src/workflow.rs:565-586 | extends the accepted set all or nothing |
| `Round.RoundRunner.Cleanup` | crates/commit/src/workflow.rs:717-740 | makes all four cleanup calls in order whatever they return |
| `Round.Reach` | crates/commit/src/workflow.rs:391-514 | the first stage not cleared, all earlier ones being cleared |
| `RoundLaws.EveryRoundIsDisciplined` | crates/commit/src/workflow.rs:382-563 | no create, commit or drop unless preflight saw the namespace absent; once a create is issued the four cleanup calls come exactly once, in order, last |
| `RoundLaws.OutcomeShape` | crates/commit/src/workflow.rs:338-361 | exactly the stages not reached are marked not attempted, cleanup exactly when the fixture is not owned |
| `RoundLaws.ClassificationIsExact` | crates/commit/src/workflow.rs:363-377 | collision exactly when the namespace was present; pass exactly when all checks pass, and only at the end of a round |
| `RoundLaws.PassesExactly` | crates/commit/src/workflow.rs:742-808 | a round passes if and only if the ports answered this way: fixture absent, usable table, three accounted phases, same table with an accepted property inside the root, sufficient growth, clean fixture |
| `RoundLaws.LedgersAreEvidenced` | crates/commit/src/model.rs:245-279 | ledger evidence is fully accounted and carries ordered quantiles exactly when something was attempted |
| `RoundLaws.AccountedMeansComplete` | crates/commit/src/workflow.rs:757-774 | for ledger evidence, sequential accounting implies complete latency, and a succeeded concurrent phase is fully accounted |
| `Honest.HonestPhasesFailRarely` | crates/commit/src/workflow.rs:462-504 | a phase of an honest round fails only by a lost writer, a sequence overflow, a counter overflow or a zero elapsed time |
| `Honest.HonestRoundRunsThrough` | crates/commit/src/workflow.rs:462-514 | an honest round on a usable table whose phases were not cut short that way clears all three and reaches its end exactly when the final load succeeds |
| `Honest.HonestRoundIsAttributed` | crates/commit/src/workflow.rs:515-558 | its own evidence then shows, when the accounting checks pass, a property of an accepted request, whatever commits stored |
| `Honest.HonestRoundGrows` | crates/commit/src/model.rs:351-371 | its evidence shows sufficient growth if each accepted commit left a metadata object and none was deleted |
| `Honest.SomeRoundHappens` | crates/commit/src/workflow.rs:462-504 | the hypotheses of the round theorems are met: three accepted commits, one per phase and as long as it, against any fresh catalog are such a round, with these logs and this final catalog |
| `Metrics.PassingRoundIsMeasured` | crates/commit/src/aggregate.rs:259-287 | a passing round of ledger evidence carries all fifteen measurements, none negative |
| `Metrics.MetricIsNonnegative` | crates/commit/src/aggregate.rs:259-287 | no measurement of a round of ledger evidence is negative, passing or not |
| `Schedule.ScheduleRounds` | crates/commit/src/policy.rs:535-565 | the rotated rounds with repetition and kind; fails exactly on no catalogs or an overflowing round count |
| `Schedule.PositionOf` | crates/commit/src/policy.rs:547-553 | position p of round i holds the catalog i + p places along |
| `Schedule.EveryRoundIsAPermutation` | crates/commit/src/policy.rs:548-553 | every round runs every catalog once |
| `Schedule.LatinSquare` | crates/commit/src/policy.rs:526-531 | each catalog takes each position in exactly one measured round if and only if there is one measured round per catalog, whatever the conditioning |
| `Aggregate.ValidateSchedule` | crates/commit/src/aggregate.rs:50-91 | returns the first problem met in plan order, and none exactly for transcripts that replay the plan |
| `Aggregate.NoProblemMeansReplay` | crates/commit/src/aggregate.rs:50-91 | transcripts without a problem are exactly the replays of the plan |
| `Aggregate.Tally` | crates/commit/src/aggregate.rs:152-179 | counts scheduled, executed and passed rounds; overflows exactly when the scheduled count does |
| `Aggregate.AggregateCatalog` | crates/commit/src/aggregate.rs:93-150 | one catalog's tallies, reasons and medians |
| `Aggregate.RankCatalogs` | crates/commit/src/aggregate.rs:181-238 | measured catalogs sorted and numbered, then the failing ones, or the exact error |
| `Aggregate.ListUnranked` | crates/commit/src/aggregate.rs:219-229 | lists failing catalogs, refusing one that is classified as passing |
| `Aggregate.AggregateEach` | crates/commit/src/aggregate.rs:32-35 | aggregates every catalog of the first round, in order, or returns the error of the first that fails |
| `Aggregate.AggregateContention` | crates/commit/src/aggregate.rs:14-48 | aggregates, ranking and verdict, or the exact error: the schedule problem, an empty schedule or the first failing catalog; ranking itself never fails |
| `Aggregate.CatalogsFit` | crates/commit/src/aggregate.rs:209-218 | ranks never overflow: a validated schedule has fewer than 2^32 catalogs |
| `Sweep.RunSweep` | crates/commit/src/sweep.rs:91-175 | one transcript per place of the plan, in order |
| `Sweep.ScheduledExactly` | crates/commit/src/aggregate.rs:152-162 | up to any round a catalog has been scheduled exactly once per round of a kind |
| `Sweep.MeasuredEverywhere` | crates/commit/src/aggregate.rs:290-316 | measurable rounds reduce, every metric to the median of its samples |
| `Sweep.JudgedFairly` | crates/commit/src/aggregate.rs:93-150 | a catalog passes exactly when all its rounds passed |
| `Sweep.SweepAggregates` | crates/commit/src/aggregate.rs:25-35 | transcripts of rounds in plan order always validate and aggregate: no overflow, missing execution, missing measurement or rejected statistic |
| `Sweep.RankingIsExact` | crates/commit/src/aggregate.rs:181-229 | every catalog once; passing ones first with ranks 1..k by throughput descending, latency and id ascending; then failing ones in schedule order |
| `Sweep.VerdictAgreesWithRanking` | crates/commit/src/aggregate.rs:36-46 | the sweep passes if and only if no catalog is unranked |
| `Sweep.RunContentionSweep` | crates/commit/src/sweep.rs:91-179 | a whole sweep always aggregates, ranks completely, and passes exactly when every round passed |
| `Bundle.AssertedMeans` | crates/contract-tool/src/contention_bundle.rs:366-372 | a catalog's assertions pass exactly when every required one holds in every round it speaks of |
| `Bundle.ChecksMeanRanked` | crates/contract-tool/src/contention_bundle.rs:511-596 | for every sweep the eleven round checks hold in all rounds of a catalog if and only if it is ranked |
| `Bundle.VerifyReview` | crates/contract-tool/src/contention_bundle.rs:943-1018 | accepts exactly the reviews that cover the failed catalogs, each once, with the error totals of the transcript, else names the first problem |
| `Bundle.CoverageTellsFailures` | crates/contract-tool/src/contention_bundle.rs:943-955 | after the coverage test a catalog is reviewed exactly when it is not ranked |
| `Bundle.RefusalsExactly` | crates/contract-tool/src/contention_bundle.rs:381-403 | under a covering review: a failed catalog is refused exactly when its required assertions hold, a ranked one exactly when one that is no round check fails, nothing clashes with the ranking, and with every check required only the second can happen |
| `Bundle.BuildRecords` | crates/contract-tool/src/contention_bundle.rs:254-278 | one record per catalog in order, or the error of the first that cannot be built |
| `Bundle.Generate` | crates/contract-tool/src/contention_bundle.rs:193-278 | runner and sanitization statements, then the review, then the records |
| `Bundle.GeneratesExactly` | crates/contract-tool/src/contention_bundle.rs:193-413 | a bundle is generated if and only if the statements hold, the review covers the failures with the right totals, and for every catalog assertions can be evaluated, all measurements are present and the required assertions hold exactly when it is ranked; its records then pass exactly when ranked |
| `Bundle.CanonicalExactly` | crates/commit/src/policy.rs:247-277 | under the fourteen required assertions a record needs its measurements, a quotable error total and, for a ranked catalog, ready negotiations |
| `Bundle.NeverInconsistent` | crates/contract-tool/src/contention_bundle.rs:374-403 | for every sweep, scenario and review no passing catalog is found unranked, no failed one ranked and none missing from the ranking |
| `Bundle.FoundEntryIsOwn` | crates/contract-tool/src/contention_bundle.rs:374-379 | the ranking entry found for a catalog tells whether it passed |
| `Bundle.BuiltAgrees` | crates/contract-tool/src/contention_bundle.rs:328-413 | a record that is built passes exactly when its catalog is ranked, and carries the distributions of its measured rounds |
| `Matrix.SelectPassing` | crates/contract-tool/src/matrix.rs:36-47 | keeps the pass records, failing exactly when one lacks a p50 |
| `Matrix.RenderOrder` | crates/contract-tool/src/matrix.rs:36-67 | pass rows numbered in sorted order, then the other rows by name; fails exactly when a pass record lacks a p50 |
| `Matrix.KeysAgree` | crates/contract-tool/src/contention_bundle.rs:636-692 | for odd counts a record's sort key equals its aggregate's |
| `Matrix.MatrixAgreesWithRanking` | crates/contract-tool/src/matrix.rs:36-60 | for an odd number of measured rounds the pass rows of a generated bundle equal the transcript ranking row for row, from records in any order |
| `Disagreement.EvenRoundsDisagree` | crates/contract-tool/src/matrix.rs:36-60 | for every even number of measured rounds a generated bundle, under the canonical assertions, of a sweep with one conditioning round and honest rounds only, whose first row is not the catalog ranked first |
| `Disagreement.RowsAgreeExactlyForOddCounts` | crates/commit/src/stats.rs:75-92 | all generated bundles with conditioning and n measured rounds show their ranking if and only if n is odd |
| `EngineEvents.AcceptsExactlyTheTraces` | crates/engine/src/protocol.rs:290-331 | the decoder's automaton accepts exactly the well-formed traces and keeps them whole |
| `EngineEvents.NeverTooMany` | crates/engine/src/protocol.rs:295-298 | the event limit is never what rejects a stream |
| `EngineEvents.KeepsAPrefix` | crates/engine/src/protocol.rs:290-331 | what is kept is a prefix of what was fed |
| `EngineDecoder.EventDecoder.AcceptEvent` | crates/engine/src/protocol.rs:290-331 | one step of the automaton, by the two kinds of event below |
| `EngineDecoder.EventDecoder.AcceptEnd` | crates/engine/src/protocol.rs:299-313 | an event that ends the run, accepted only at its stage |
| `EngineDecoder.EventDecoder.AcceptStage` | crates/engine/src/protocol.rs:314-330 | an event that clears a stage, accepted only at its stage |
| `EngineDecoder.EventDecoder.EndLine` | crates/engine/src/protocol.rs:278-288 | a finished line is ignored, decoded or rejected |
| `EngineDecoder.EventDecoder.PushChunk` | crates/engine/src/protocol.rs:235-257 | one chunk of output, with both size limits |
| `EngineDecoder.EventDecoder.DrainStdout` | crates/engine/src/process.rs:612-643 | the read loop feeds chunk after chunk until the output ends or decoding fails |
| `EngineDecoder.EventDecoder.FinishCapture` | crates/engine/src/protocol.rs:264-276 | the final capture, requiring a terminal event |
| `EngineDecoder.ChunkingIsIrrelevant` | crates/engine/src/protocol.rs:235-257 | up to the output limit the capture does not depend on how the output was cut |
| `EngineDecoder.KeptIsAPrefix` | crates/engine/src/process.rs:617-624 | beyond the limit what is kept was decoded from a prefix that ends less than one read buffer before the limit |
| `EngineDecoder.CutsAgreeExactly` | crates/engine/src/protocol.rs:235-242 | all legal cuttings keep the same events if and only if the output fits the limit or nothing is decoded from the last read buffer before it |
| `EngineDecoder.CleanupDependsOnCuts` | crates/engine/src/protocol.rs:186-217 | for every codec and every trace that owns its fixture, if its first three lines fit a read buffer, chatter and two legal cuttings: cleanup is authorised after one and not after the other |
| `EngineDecoder.CaptureIsTheTrace` | crates/engine/src/protocol.rs:229-288 | through any chatter and chunking the capture is what the automaton makes of the printed events |
| `EngineRuns.RunDuckDb` | crates/engine/src/adapters.rs:710-739 | the DuckDB run clears stages in order and stops at the first that fails or collides |
| `EngineRuns.DuckDbPreflight` | crates/engine/src/adapters.rs:740-751 | the preflight query, ending the run with exit code 3 unless it counts zero |
| `EngineRuns.DuckDbCreate` | crates/engine/src/adapters.rs:752-776 | namespace and table |
| `EngineRuns.DuckDbLoad` | crates/engine/src/adapters.rs:777-789 | first append and first read |
| `EngineRuns.DuckDbEvolve` | crates/engine/src/adapters.rs:790-805 | schema change and second append |
| `EngineRuns.DuckDbConclude` | crates/engine/src/adapters.rs:806-817 | second read, final observation and completion |
| `EngineRuns.DuckDbFailed` | crates/engine/src/adapters.rs:881-888 | a failure ends the run with exit code 2 |
| `EngineRuns.SparkRunner.RunSpark` | crates/engine/spark/runner.py:896-919 | the Spark run up to its preflight |
| `EngineRuns.SparkRunner.Create` | crates/engine/spark/runner.py:921-941 | namespace and table |
| `EngineRuns.SparkRunner.Load` | crates/engine/spark/runner.py:943-952 | first append and first read |
| `EngineRuns.SparkRunner.Evolve` | crates/engine/spark/runner.py:954-969 | schema change and second append |
| `EngineRuns.SparkRunner.Conclude` | crates/engine/spark/runner.py:971-982 | second read, final observation and completion |
| `EngineRuns.SparkRunner.Fail` | crates/engine/spark/runner.py:573-575 | a failure ends the run with exit code 2 |
| `EngineRuns.EveryRunConforms` | crates/engine/src/adapters.rs:710-818 | every run of both engines is a trace of the shared automaton, with the exit code of its last event, and mutates exactly when preflight found the fixture absent |
| `EngineRuns.EmitsExactlyTheTraces` | crates/engine/spark/runner.py:896-982 | the traces of each engine are exactly the emittable ones; DuckDB lacks two failures |
| `EngineRuns.EmitsOnce` | crates/engine/src/adapters.rs:710-818 | the answers determine the run of an engine |
| `EngineRuns.EnginesCoincide` | crates/engine/spark/runner.py:896-982 | given equal answers DuckDB and Spark run alike if and only if the runtime failed, or the catalog loads and the preflight is answered |
| `EngineRuns.ParentAgrees` | crates/engine/src/protocol.rs:186-217 | whatever chatter and cutting within the output limit, the parent's capture tells completion, failure and collision exactly as the exit code does, and authorises cleanup exactly when something may have been touched |
| `EngineRuns.ParentMayMissOwnership` | crates/engine/src/process.rs:612-643 | the same for every run of either engine that may have touched something |
| `RowOracle.ValidateBatches` | crates/engine/spark/runner.py:324-341 | accepts exactly nonempty contiguous batches within both limits |
| `RowOracle.AppendsMakeTheEvolvedRows` | crates/engine/spark/runner.py:867-875 | the two appends, the first padded with null, are the evolved rows |
| `RowOracle.OrderingRecoversGeneration` | crates/engine/spark/runner.py:878-889 | ordering by id recovers the generated rows from any storage order |
| `RowOracle.EveryLongFits` | crates/engine/spark/runner.py:409-428 | every id and amount of a validated scenario is at most 2^63 - 1 |
| `RowOracle.GeneratedAt` | crates/engine/spark/runner.py:415-445 | each generated row in closed form across both batches |
| `RowOracle.ReadsMatchTheScenario` | crates/engine/spark/runner.py:394-407 | row counts and ordered contents match both canonical reads, and widths do exactly when the table has the three generated columns |
| `RowOracle.SomeTableIsWider` | crates/engine/spark/runner.py:324-407 | a validated scenario whose table has four columns |
| `Timestamp.OrderIsTime` | crates/contract-tool/src/publication.rs:15-24 | field order is the order of nanoseconds since a fixed epoch, for all valid timestamps |
| `Timestamp.FoldDigits` | crates/contract-tool/src/publication.rs:163-171 | the digit fold is the decimal value and never exceeds 32 bits |
| `Timestamp.ScaleFraction` | crates/contract-tool/src/publication.rs:126-136 | a fraction scaled to nanoseconds, within 32 bits throughout |
| `Timestamp.ParseUtcTimestamp` | crates/contract-tool/src/publication.rs:104-161 | returns the denoted timestamp; reports a text as not canonical exactly when its shape is wrong, and a calendar value as invalid exactly when the shape is right yet it denotes no instant |
| `Timestamp.PrintedDenotes` | crates/contract-tool/src/publication.rs:104-161 | printing at any width that loses nothing, then parsing, returns the same instant |
| `Timestamp.ParsesExactlyThePrinted` | crates/contract-tool/src/publication.rs:103-139 | the accepted texts are exactly the printed forms |
| `Timestamp.TwelveMonths` | crates/contract-tool/src/publication.rs:173-183 | month lengths add up to the length of the year |
| `Sanitizer.SanitizeValue` | crates/conformance/src/sanitize.rs:27-70 | rewrites the document and lists one pointer per redaction, in order |
| `Sanitizer.SanitizeObject` | crates/conformance/src/sanitize.rs:34-44 | members: sensitive keys replaced, others descended into |
| `Sanitizer.SanitizeArray` | crates/conformance/src/sanitize.rs:45-54 | items descended into by index |
| `Sanitizer.UnescapeEscape` | crates/conformance/src/sanitize.rs:130-132 | escaping a segment round trips under section 4 of RFC 6901 and leaves no slash |
| `Sanitizer.ReadRendered` | crates/conformance/src/sanitize.rs:36-36 | every pointer reads back into its tokens |
| `Sanitizer.RenderInjective` | crates/conformance/src/sanitize.rs:130-132 | distinct paths have distinct pointers |
| `Sanitizer.PointersResolve` | crates/conformance/src/sanitize.rs:36-66 | every reported pointer string reads back to a path that resolves in the original and, to a string, in the output |
| `Sanitizer.ReportsCoverChanges` | crates/conformance/src/sanitize.rs:27-70 | every changed node is reported or lies above or below a report |
| `Sanitizer.PointersAreDistinct` | crates/conformance/src/sanitize.rs:27-70 | no pointer string is reported twice |
| `Sanitizer.SanitizeJson` | crates/conformance/src/sanitize.rs:9-16 | sorts the pointers; deduplication drops none of them, and each resolves in both documents |
| `OutputTree.CollectOutputEntries` | crates/contract-tool/src/engine_bundle.rs:661-696 | succeeds exactly on clean trees and then holds every path with its kind |
| `OutputTree.ExpectedOutputEntries` | crates/contract-tool/src/engine_bundle.rs:632-645 | every file and every directory on the way to one |
| `OutputTree.OutputIsExact` | crates/contract-tool/src/engine_bundle.rs:92-100 | for prefix-free files the listings are equal if and only if the files match and no directory is empty |

## Left out

- HTTP transport, OAuth, URL construction and the mapping of HTTP statuses to outcomes (crates/commit/src/protocol.rs:397-426): the model ranges over the outcomes they hand over.
- Tokio barrier, watch channel and clocks: writers start after release, time only advances, and no commit starts at or after the deadline. A deadline that overflows and a closed start channel are not reachable in the model.
- IEEE-754 rounding, NaN, infinities and the square root of the variance: arithmetic is exact and a distribution carries the variance.
- SHA-256, serde, JSON schemas, Markdown text, file writing and secret handling: foreign code or I/O. The key-ordered list of error counts is the map it lists.
- Table locations (crates/commit/src/store.rs:26-90): their checks are outcomes of a script, since URL parsing is foreign code.
- Profile and scenario drift checks, per-engine constant tables, engine review evidence: long equality lists that would only add easy members.
- The content of runtime, table and row-hash observations of engine runs: uninterpreted payloads. Printing an event is taken not to fail.
- The PyIceberg client, fault-recovery probe, legacy driver and timing scripts.
- Statistics.PopulationMoments: returns the variance, because its square root is not an exact real.
- Statistics.SortedNonnegative: does not model non-finite samples, because reals have none.
- Statistics.NonnegativeDistribution: carries the variance and has no non-finite error, for the same two reasons.
- Ledger.RequestLedger.Finish: does not model a `usize` wider than 64 bits.
- Sweep.RunSweep: does not model fixture, catalog and runner setup errors that abort a sweep before it has transcripts.
- Sweep.RunContentionSweep: does not model setup, negotiation and sanitization errors, which end a sweep without a result.
- Bundle.VerifyReview: does not model texts, timestamps, log observations and HTTP status counts of a review, which are further equality checks.
- Bundle.Generate: does not model file hashes (the shipped materializer is pinned to one reviewed transcript), the remaining transcript identity checks and the manifest.
- Bundle.BuiltAgrees: the record keeps the two distributions that order it; negotiation evidence and runner identity are predicates of the statement, and counter metrics and summary texts are not modelled.
- Matrix.RenderOrder: does not model the text of the rows.
- RowOracle.ReadsMatchTheScenario: column types and names are not modelled, only their number.
- Sanitizer.SanitizeValue: works on values, so the in-place rewrite of the tree is a returned tree; the key and text policies are arbitrary functions.
- EngineDecoder.EventDecoder.DrainStdout: does not model a failed read or a poisoned lock.
- OutputTree.CollectOutputEntries: does not model I/O errors while listing.
