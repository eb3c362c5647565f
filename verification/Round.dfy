/** One isolated catalog round: the evidence it collects, the catalog calls it
    makes and the checks that classify it. */
module Round {
  import opened Ordering
  import opened Identity
  import opened Ledger
  import opened Contention
  import opened Audit

  // ---------- what the ports answer ----------

  datatype Presence = Present | Absent

  datatype PresenceObservation = PresenceObservation(httpStatus: nat, presence: Presence)

  datatype MutationReceipt = MutationReceipt(httpStatus: nat)

  datatype CatalogFailure = CatalogFailure(httpStatus: Option<nat>, detail: string)

  datatype TableSnapshot = TableSnapshot(
    formatVersion: nat, tableUuid: string, location: string, metadataLocation: string, properties: map<string, string>)

  /** What finishing a phase returned to the round. */
  type PhaseResult = Result<(PhaseEvidence, set<Digest>), WorkflowError>

  /** The answers of one run. Which of them are consulted depends on the
      earlier ones; `tableRoot` and `withinRoot` are the location checks. */
  datatype Script = Script(
    preflight: Result<PresenceObservation, CatalogFailure>,
    createNamespace: Result<MutationReceipt, CatalogFailure>,
    createTable: Result<TableSnapshot, CatalogFailure>,
    tableRoot: Result<(), ObjectStoreFailure>,
    baseline: Result<TableAudit, ObjectStoreFailure>,
    warmup: PhaseResult, sequential: PhaseResult, concurrent: PhaseResult,
    load: Result<TableSnapshot, CatalogFailure>,
    withinRoot: bool,
    finalAudit: Result<TableAudit, ObjectStoreFailure>,
    dropTable: Result<MutationReceipt, CatalogFailure>,
    tablePresence: Result<PresenceObservation, CatalogFailure>,
    dropNamespace: Result<MutationReceipt, CatalogFailure>,
    namespacePresence: Result<PresenceObservation, CatalogFailure>)

  datatype Setup = Setup(config: RoundConfig, kind: RoundKind, commitProperty: string, digest: string -> Digest)

  // ---------- evidence ----------

  datatype StepFailure =
    | CatalogStep(catalog: CatalogFailure) | StoreStep(store: ObjectStoreFailure) | HarnessStep(harness: WorkflowError)

  datatype Evidence<T> = Succeeded(output: T) | Failure(failure: StepFailure) | NotAttempted

  datatype FinalStateAttribution = FinalStateAttribution(
    propertyPresent: bool, requestDigest: Option<Digest>, belongsToAccepted: bool, withinTableRoot: bool)
  {
    predicate Passed() { propertyPresent && belongsToAccepted && withinTableRoot }
  }

  datatype FinalTable = FinalTable(
    formatVersion: nat, tableUuid: string, metadataLocation: string,
    uuidMatchesSetup: bool, locationMatchesSetup: bool, attribution: FinalStateAttribution)
  {
    predicate Passed() { formatVersion == 2 && uuidMatchesSetup && locationMatchesSetup && attribution.Passed() }
  }

  datatype MetadataGrowth = MetadataGrowth(
    baseline: nat, final: nat, observed: Option<nat>, required: nat, sufficient: bool)

  datatype CleanupEvidence = CleanupEvidence(
    dropTable: Evidence<MutationReceipt>, verifyTable: Evidence<PresenceObservation>,
    dropNamespace: Evidence<MutationReceipt>, verifyNamespace: Evidence<PresenceObservation>)
  {
    predicate Passed() {
      && dropTable.Succeeded? && verifyTable.Succeeded? && verifyTable.output.presence.Absent?
      && dropNamespace.Succeeded? && verifyNamespace.Succeeded? && verifyNamespace.output.presence.Absent?
    }
  }

  const SKIPPED := CleanupEvidence(NotAttempted, NotAttempted, NotAttempted, NotAttempted)

  datatype RoundChecks = RoundChecks(
    fixtureIsolated: bool, setupSucceeded: bool, warmupAccounted: bool, sequentialAccounted: bool,
    sequentialLatencyComplete: bool, allRequestsAccounted: bool, zeroRequestErrors: bool,
    concurrentProgress: bool, finalStateAccounted: bool, metadataPersisted: bool, fixtureClean: bool)
  {
    predicate AllPassed() {
      && fixtureIsolated && setupSucceeded && warmupAccounted && sequentialAccounted && sequentialLatencyComplete
      && allRequestsAccounted && zeroRequestErrors && concurrentProgress && finalStateAccounted && metadataPersisted
      && fixtureClean
    }
  }

  const PENDING := RoundChecks(false, false, false, false, false, false, false, false, false, false, false)

  datatype Classification = Pass | Fail | FixtureCollision

  datatype RoundExecution = RoundExecution(
    config: RoundConfig, kind: RoundKind,
    classification: Classification,
    preflight: Evidence<PresenceObservation>,
    createNamespace: Evidence<MutationReceipt>,
    createTable: Evidence<TableSnapshot>,
    baselineAudit: Evidence<TableAudit>,
    warmup: Evidence<PhaseEvidence>, sequential: Evidence<PhaseEvidence>, concurrent: Evidence<PhaseEvidence>,
    finalTable: Evidence<FinalTable>,
    finalAudit: Evidence<TableAudit>,
    metadataGrowth: Evidence<MetadataGrowth>,
    cleanup: CleanupEvidence,
    checks: RoundChecks)
  {
    predicate Passed() { classification.Pass? && checks.AllPassed() }
  }

  function Pending(setup: Setup): RoundExecution {
    RoundExecution(setup.config, setup.kind, Fail, NotAttempted, NotAttempted, NotAttempted, NotAttempted,
      NotAttempted, NotAttempted,
      NotAttempted, NotAttempted, NotAttempted, NotAttempted, SKIPPED, PENDING)
  }

  function OfCatalog<T>(r: Result<T, CatalogFailure>): Evidence<T> {
    match r case Ok(output) => Succeeded(output) case Err(failure) => Failure(CatalogStep(failure))
  }

  function OfStore<T>(r: Result<T, ObjectStoreFailure>): Evidence<T> {
    match r case Ok(output) => Succeeded(output) case Err(failure) => Failure(StoreStep(failure))
  }

  // ---------- checks ----------

  predicate UsableAudit(audit: Evidence<TableAudit>) {
    audit.Succeeded? && audit.output.metadataObjects > 0 && audit.output.referencedMetadataExists
  }

  predicate SerialAccounted(phase: PhaseEvidence, expected: nat) {
    phase.counts == RequestCounts(expected, expected, 0, 0) && phase.counts.FullyAccounted()
  }

  predicate LatencyComplete(phase: PhaseEvidence, expected: nat) {
    match phase.latencyMs.all
    case None => false
    case Some(d) =>
      && "p50" in d.quantiles && "p95" in d.quantiles && "p99" in d.quantiles
      && d.samples == expected
      && d.minimum <= d.quantiles["p50"] <= d.quantiles["p95"] <= d.quantiles["p99"] <= d.maximum
  }

  predicate AllRequestsAccounted(phase: PhaseEvidence) {
    && phase.counts.FullyAccounted()
    && (match phase.latencyMs.all case None => 0 case Some(d) => d.samples) == phase.counts.attempts
  }

  function EvaluateChecks(e: RoundExecution): RoundChecks {
    RoundChecks(
      e.preflight.Succeeded? && e.preflight.output.presence.Absent?,
      e.createNamespace.Succeeded? && e.createTable.Succeeded? && UsableAudit(e.baselineAudit),
      e.warmup.Succeeded? && SerialAccounted(e.warmup.output, e.config.warmupCommits),
      e.sequential.Succeeded? && SerialAccounted(e.sequential.output, e.config.sequentialCommits),
      e.sequential.Succeeded? && LatencyComplete(e.sequential.output, e.config.sequentialCommits),
      e.concurrent.Succeeded? && AllRequestsAccounted(e.concurrent.output),
      e.concurrent.Succeeded? && e.concurrent.output.counts.errors == 0,
      e.concurrent.Succeeded? && e.concurrent.output.counts.accepted > 0,
      e.finalTable.Succeeded? && e.finalTable.output.Passed(),
      && e.metadataGrowth.Succeeded? && e.metadataGrowth.output.sufficient
      && e.finalAudit.Succeeded? && e.finalAudit.output.referencedMetadataExists,
      e.cleanup.Passed())
  }

  function Finalized(e: RoundExecution, collision: bool): RoundExecution {
    var checks := EvaluateChecks(e);
    e.(checks := checks,
       classification := if collision then FixtureCollision else if checks.AllPassed() then Pass else Fail)
  }

  // ---------- how far a round gets ----------

  datatype Call =
    | NamespacePresence | CreateNamespace | CreateTable | AuditStore | Commits(phase: PhaseName) | LoadTable
    | DropTable | TablePresence | DropNamespace

  const CLEANUP := [DropTable, TablePresence, DropNamespace, NamespacePresence]

  function AcceptedBy(r: PhaseResult): set<Digest> {
    if r.Ok? then r.value.1 else {}
  }

  /** A phase stops the round when it fails or repeats an accepted request. */
  predicate Ledgered(before: set<Digest>, r: PhaseResult) {
    r.Ok? && before !! r.value.1
  }

  predicate Cleared(script: Script, stage: nat) {
    match stage
    case 0 => script.preflight.Ok? && script.preflight.value.presence.Absent?
    case 1 => script.createNamespace.Ok?
    case 2 => script.createTable.Ok?
    case 3 => script.tableRoot.Ok? && UsableAudit(OfStore(script.baseline))
    case 4 => Ledgered({}, script.warmup)
    case 5 => Ledgered(AcceptedBy(script.warmup), script.sequential)
    case 6 => Ledgered(AcceptedBy(script.warmup) + AcceptedBy(script.sequential), script.concurrent)
    case 7 => script.load.Ok?
    case _ => false
  }

  /** The first stage that is not cleared; 8 when the round runs to its end. */
  function Reach(script: Script): (stage: nat)
    ensures stage <= 8 && Through(script, stage) && !Cleared(script, stage)
  {
    if !Cleared(script, 0) then 0
    else if !Cleared(script, 1) then 1
    else if !Cleared(script, 2) then 2
    else if !Cleared(script, 3) then 3
    else if !Cleared(script, 4) then 4
    else if !Cleared(script, 5) then 5
    else if !Cleared(script, 6) then 6
    else if !Cleared(script, 7) then 7
    else 8
  }

  predicate Through(script: Script, n: nat) {
    && n <= 8
    && (n > 0 ==> Cleared(script, 0)) && (n > 1 ==> Cleared(script, 1)) && (n > 2 ==> Cleared(script, 2))
    && (n > 3 ==> Cleared(script, 3)) && (n > 4 ==> Cleared(script, 4)) && (n > 5 ==> Cleared(script, 5))
    && (n > 6 ==> Cleared(script, 6)) && (n > 7 ==> Cleared(script, 7))
  }

  function OfPhase(before: set<Digest>, r: PhaseResult): Evidence<PhaseEvidence> {
    match r
    case Err(error) => Failure(HarnessStep(error))
    case Ok(pair) => if before !! pair.1 then Succeeded(pair.0)
      else Failure(HarnessStep(Model(DuplicateRequestIdentity)))
  }

  function Attribute(
    setup: Setup, property: Option<string>, accepted: set<Digest>, within: bool): FinalStateAttribution {
    FinalStateAttribution(
      property.Some?, if property.Some? then Some(setup.digest(property.value)) else None,
      property.Some? && setup.digest(property.value) in accepted, within)
  }

  function PropertyOf(setup: Setup, snapshot: TableSnapshot): Option<string> {
    if setup.commitProperty in snapshot.properties then Some(snapshot.properties[setup.commitProperty]) else None
  }

  function FinalTableOf(
    setup: Setup, created: TableSnapshot, last: TableSnapshot, accepted: set<Digest>, within: bool): FinalTable {
    FinalTable(last.formatVersion, last.tableUuid, last.metadataLocation,
      last.tableUuid == created.tableUuid, last.location == created.location,
      Attribute(setup, PropertyOf(setup, last), accepted, within))
  }

  /** Growth of the metadata object count against the accepted commits, with
      64-bit addition and subtraction that do not wrap. */
  function GrowthOf(baseline: nat, final: nat, required: nat): Evidence<MetadataGrowth> {
    if required > U64_MAX then Failure(HarnessStep(Model(CountOverflow)))
    else
      var observed := if final < baseline then None else Some(final - baseline);
      Succeeded(MetadataGrowth(baseline, final, observed, required, observed.Some? && observed.value >= required))
  }

  function RequiredGrowth(script: Script): nat
    requires script.warmup.Ok? && script.sequential.Ok? && script.concurrent.Ok?
  {
    script.warmup.value.0.counts.accepted + script.sequential.value.0.counts.accepted
      + script.concurrent.value.0.counts.accepted
  }

  function CleanupOf(script: Script): CleanupEvidence {
    CleanupEvidence(OfCatalog(script.dropTable), OfCatalog(script.tablePresence),
      OfCatalog(script.dropNamespace), OfCatalog(script.namespacePresence))
  }

  /** The evidence of a round that stops at stage `n`: everything up to that
      stage is filled in, later stages are never attempted, and cleanup is
      recorded exactly when the fixture was found absent. */
  function EvidenceAt(setup: Setup, script: Script, n: nat): RoundExecution
    requires Through(script, n)
  {
    var warm, both := AcceptedBy(script.warmup), AcceptedBy(script.warmup) + AcceptedBy(script.sequential);
    RoundExecution(
      setup.config, setup.kind, Fail,
      OfCatalog(script.preflight),
      if n >= 1 then OfCatalog(script.createNamespace) else NotAttempted,
      if n >= 2 then OfCatalog(script.createTable) else NotAttempted,
      if n >= 3 then (if script.tableRoot.Ok? then OfStore(script.baseline)
        else Failure(StoreStep(script.tableRoot.error)))
      else NotAttempted,
      if n >= 4 then OfPhase({}, script.warmup) else NotAttempted,
      if n >= 5 then OfPhase(warm, script.sequential) else NotAttempted,
      if n >= 6 then OfPhase(both, script.concurrent) else NotAttempted,
      if n < 7 then NotAttempted
      else if n == 7 then (if script.load.Err? then Failure(CatalogStep(script.load.error)) else NotAttempted)
      else Succeeded(FinalTableOf(setup, script.createTable.value, script.load.value, both + script.concurrent.value.1,
        script.withinRoot)),
      if n >= 8 then OfStore(script.finalAudit) else NotAttempted,
      if n >= 8 && script.finalAudit.Ok?
      then GrowthOf(script.baseline.value.metadataObjects, script.finalAudit.value.metadataObjects,
        RequiredGrowth(script))
      else NotAttempted,
      if n >= 1 then CleanupOf(script) else SKIPPED,
      PENDING)
  }

  predicate Collides(script: Script) {
    script.preflight.Ok? && script.preflight.value.presence.Present?
  }

  function OutcomeOf(setup: Setup, script: Script): RoundExecution {
    Finalized(EvidenceAt(setup, script, Reach(script)), Collides(script))
  }

  const PROGRAM := [NamespacePresence, CreateNamespace, CreateTable, AuditStore, Commits(Warmup), Commits(Sequential),
    Commits(Concurrent), LoadTable, AuditStore]

  /** The calls made before cleanup by a round that stops at stage `n`. A bad
      table root stops it before the audit is asked for. */
  function Journal(script: Script, n: nat): seq<Call>
    requires n <= 8
  {
    if n == 3 && script.tableRoot.Err? then PROGRAM[..3] else PROGRAM[..n + 1]
  }

  function CallsOf(script: Script): seq<Call> {
    Journal(script, Reach(script)) + (if Reach(script) >= 1 then CLEANUP else [])
  }

  // ---------- the program ----------

  function TotalAccepted(counts: seq<RequestCounts>): nat {
    if counts == [] then 0 else TotalAccepted(counts[..|counts| - 1]) + counts[|counts| - 1].accepted
  }

  /** Folds the accepted counts with checked 64-bit addition. */
  method EvaluateGrowth(baseline: nat, final: nat, counts: seq<RequestCounts>) returns (r: Evidence<MetadataGrowth>)
    ensures r == GrowthOf(baseline, final, TotalAccepted(counts))
  {
    var required := 0;
    for i := 0 to |counts|
      invariant required == TotalAccepted(counts[..i]) <= U64_MAX
    {
      assert counts[..i + 1][..i] == counts[..i];
      if required + counts[i].accepted > U64_MAX {
        AcceptedGrow(counts, i + 1);
        return Failure(HarnessStep(Model(CountOverflow)));
      }
      required := required + counts[i].accepted;
    }
    assert counts[..|counts|] == counts;
    var observed := if final < baseline then None else Some(final - baseline);
    r := Succeeded(MetadataGrowth(baseline, final, observed, required, observed.Some? && observed.value >= required));
  }

  lemma {:induction false} AcceptedGrow(counts: seq<RequestCounts>, k: nat)
    requires k <= |counts|
    ensures TotalAccepted(counts[..k]) <= TotalAccepted(counts)
  {
    if k < |counts| {
      var front := counts[..|counts| - 1];
      assert front[..k] == counts[..k];
      AcceptedGrow(front, k);
    } else {
      assert counts[..k] == counts;
    }
  }

  lemma ThreeCounts(a: RequestCounts, b: RequestCounts, c: RequestCounts)
    ensures TotalAccepted([a, b, c]) == a.accepted + b.accepted + c.accepted
  {
    assert [a, b, c][..2] == [a, b] && [a, b][..1] == [a] && [a][..0] == [];
    assert TotalAccepted([a]) == a.accepted;
    assert TotalAccepted([a, b]) == a.accepted + b.accepted;
  }

  class RoundRunner {
    const setup: Setup
    var execution: RoundExecution
    var accepted: set<Digest>
    var calls: seq<Call>

    constructor (setup: Setup)
      ensures this.setup == setup && execution == Pending(setup) && accepted == {} && calls == []
    {
      this.setup := setup;
      execution, accepted, calls := Pending(setup), {}, [];
    }

    method Finalize(collision: bool)
      modifies this`execution
      ensures execution == Finalized(old(execution), collision)
    {
      var checks := EvaluateChecks(execution);
      execution := execution.(checks := checks);
      execution := execution.(classification := if collision then FixtureCollision else if checks.AllPassed() then Pass
        else Fail);
    }

    /** Each cleanup call is made whatever the previous one returned. */
    method Cleanup(script: Script)
      modifies this`execution, this`calls
      ensures execution == Finalized(old(execution).(cleanup := CleanupOf(script)), false)
      ensures calls == old(calls) + CLEANUP
    {
      calls := calls + [DropTable];
      var dropTable := OfCatalog(script.dropTable);
      calls := calls + [TablePresence];
      var verifyTable := OfCatalog(script.tablePresence);
      calls := calls + [DropNamespace];
      var dropNamespace := OfCatalog(script.dropNamespace);
      calls := calls + [NamespacePresence];
      var verifyNamespace := OfCatalog(script.namespacePresence);
      execution := execution.(cleanup := CleanupEvidence(dropTable, verifyTable, dropNamespace, verifyNamespace));
      Finalize(false);
    }

    /** Extends the accepted requests of the round by those of one phase. */
    method RecordPhase(result: PhaseResult) returns (evidence: Evidence<PhaseEvidence>, proceed: bool)
      modifies this`accepted
      ensures evidence == OfPhase(old(accepted), result)
      ensures proceed == Ledgered(old(accepted), result)
      ensures accepted == if proceed then old(accepted) + result.value.1 else old(accepted)
    {
      match result {
        case Err(error) => return Failure(HarnessStep(error)), false;
        case Ok(pair) =>
          if !(accepted !! pair.1) {
            return Failure(HarnessStep(Model(DuplicateRequestIdentity))), false;
          }
          accepted := accepted + pair.1;
          return Succeeded(pair.0), true;
      }
    }

    method Run(script: Script)
      requires execution == Pending(setup) && accepted == {} && calls == []
      modifies this
      ensures execution == OutcomeOf(setup, script)
      ensures calls == CallsOf(script)
    {
      calls := [NamespacePresence];
      execution := execution.(preflight := OfCatalog(script.preflight));
      if script.preflight.Err? {
        Finalize(false);
        return;
      }
      if script.preflight.value.presence.Present? {
        Finalize(true);
        return;
      }

      calls := calls + [CreateNamespace];
      execution := execution.(createNamespace := OfCatalog(script.createNamespace));
      if script.createNamespace.Err? {
        Cleanup(script);
        return;
      }

      Prepare(script);
    }

    /** Creates the table and takes the baseline audit. */
    method Prepare(script: Script)
      requires Through(script, 2) && accepted == {}
      requires execution == EvidenceAt(setup, script, 1).(cleanup := SKIPPED) && calls == Journal(script, 1)
      modifies this
      ensures execution == OutcomeOf(setup, script)
      ensures calls == CallsOf(script)
    {
      calls := calls + [CreateTable];
      execution := execution.(createTable := OfCatalog(script.createTable));
      if script.createTable.Err? {
        Cleanup(script);
        return;
      }

      if script.tableRoot.Err? {
        execution := execution.(baselineAudit := Failure(StoreStep(script.tableRoot.error)));
        Cleanup(script);
        return;
      }
      calls := calls + [AuditStore];
      execution := execution.(baselineAudit := OfStore(script.baseline));
      if !UsableAudit(execution.baselineAudit) {
        Cleanup(script);
        return;
      }
      Measure(script);
    }

    /** The part of a round that runs on a usable table. */
    method Measure(script: Script)
      requires Through(script, 4) && accepted == {}
      requires execution == EvidenceAt(setup, script, 3).(cleanup := SKIPPED) && calls == Journal(script, 3)
      modifies this
      ensures execution == OutcomeOf(setup, script)
      ensures calls == CallsOf(script)
    {
      calls := calls + [Commits(Warmup)];
      var warmup, warm := RecordPhase(script.warmup);
      execution := execution.(warmup := warmup);
      if !warm {
        Cleanup(script);
        return;
      }

      calls := calls + [Commits(Sequential)];
      var sequential, steady := RecordPhase(script.sequential);
      execution := execution.(sequential := sequential);
      if !steady {
        Cleanup(script);
        return;
      }

      Race(script);
    }

    /** The window of concurrent writers. */
    method Race(script: Script)
      requires Through(script, 6) && accepted == AcceptedBy(script.warmup) + AcceptedBy(script.sequential)
      requires execution == EvidenceAt(setup, script, 5).(cleanup := SKIPPED) && calls == Journal(script, 5)
      modifies this
      ensures execution == OutcomeOf(setup, script)
      ensures calls == CallsOf(script)
    {
      calls := calls + [Commits(Concurrent)];
      var concurrent, raced := RecordPhase(script.concurrent);
      execution := execution.(concurrent := concurrent);
      if !raced {
        Cleanup(script);
        return;
      }
      Conclude(script);
    }

    /** Final table, final audit, growth and cleanup. */
    method Conclude(script: Script)
      requires Through(script, 7)
      requires accepted == AcceptedBy(script.warmup) + AcceptedBy(script.sequential) + script.concurrent.value.1
      requires execution == EvidenceAt(setup, script, 6).(cleanup := SKIPPED) && calls == Journal(script, 6)
      modifies this
      ensures execution == OutcomeOf(setup, script)
      ensures calls == CallsOf(script)
    {
      calls := calls + [LoadTable];
      if script.load.Err? {
        execution := execution.(finalTable := Failure(CatalogStep(script.load.error)));
        Cleanup(script);
        return;
      }
      var final := script.load.value;
      var attribution := Attribute(setup, PropertyOf(setup, final), accepted, script.withinRoot);
      execution := execution.(finalTable := Succeeded(FinalTable(
        final.formatVersion, final.tableUuid, final.metadataLocation,
        final.tableUuid == script.createTable.value.tableUuid,
        final.location == script.createTable.value.location, attribution)));

      calls := calls + [AuditStore];
      execution := execution.(finalAudit := OfStore(script.finalAudit));
      if execution.warmup.Succeeded? && execution.sequential.Succeeded? && execution.concurrent.Succeeded?
         && execution.finalAudit.Succeeded? {
        var growth := EvaluateGrowth(script.baseline.value.metadataObjects, execution.finalAudit.output.metadataObjects,
          [execution.warmup.output.counts, execution.sequential.output.counts, execution.concurrent.output.counts]);
        ThreeCounts(execution.warmup.output.counts, execution.sequential.output.counts,
          execution.concurrent.output.counts);
        execution := execution.(metadataGrowth := growth);
      }
      Cleanup(script);
    }
  }
}
