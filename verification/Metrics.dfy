/** The fifteen measurements a passing round contributes to an aggregate. */
module Metrics {
  import opened Ordering
  import opened Ledger
  import opened Round
  import opened RoundLaws

  datatype Metric =
    | SequentialP50 | SequentialP95 | SequentialP99 | SequentialAcceptedThroughput
    | ConcurrentP50 | ConcurrentP95 | ConcurrentP99 | ConcurrentAttemptedThroughput | ConcurrentAcceptedThroughput
    | ConflictRate | ErrorRate | Attempts | AcceptedCommits | Conflicts | MetadataObjectGrowth

  function Quantile(phase: Evidence<PhaseEvidence>, name: string): Option<real> {
    if phase.Succeeded? && phase.output.latencyMs.all.Some? && name in phase.output.latencyMs.all.value.quantiles
    then Some(phase.output.latencyMs.all.value.quantiles[name]) else None
  }

  function Figure(phase: Evidence<PhaseEvidence>, f: PhaseEvidence -> real): Option<real> {
    if phase.Succeeded? then Some(f(phase.output)) else None
  }

  function MetricOf(e: RoundExecution, metric: Metric): Option<real> {
    match metric
    case SequentialP50 => Quantile(e.sequential, "p50")
    case SequentialP95 => Quantile(e.sequential, "p95")
    case SequentialP99 => Quantile(e.sequential, "p99")
    case SequentialAcceptedThroughput => Figure(e.sequential, (p: PhaseEvidence) => p.acceptedThroughput)
    case ConcurrentP50 => Quantile(e.concurrent, "p50")
    case ConcurrentP95 => Quantile(e.concurrent, "p95")
    case ConcurrentP99 => Quantile(e.concurrent, "p99")
    case ConcurrentAttemptedThroughput => Figure(e.concurrent, (p: PhaseEvidence) => p.attemptedThroughput)
    case ConcurrentAcceptedThroughput => Figure(e.concurrent, (p: PhaseEvidence) => p.acceptedThroughput)
    case ConflictRate => Figure(e.concurrent, (p: PhaseEvidence) => p.conflictRate)
    case ErrorRate => Figure(e.concurrent, (p: PhaseEvidence) => p.errorRate)
    case Attempts => Figure(e.concurrent, (p: PhaseEvidence) => p.counts.attempts as real)
    case AcceptedCommits => Figure(e.concurrent, (p: PhaseEvidence) => p.counts.accepted as real)
    case Conflicts => Figure(e.concurrent, (p: PhaseEvidence) => p.counts.conflicts as real)
    case MetadataObjectGrowth =>
      if e.metadataGrowth.Succeeded? && e.metadataGrowth.output.observed.Some?
      then Some(e.metadataGrowth.output.observed.value as real) else None
  }

  /** Every measurement is present and nonnegative. */
  ghost predicate FullyMeasured(e: RoundExecution) {
    forall m :: MetricOf(e, m).Some? && MetricOf(e, m).value >= 0.0
  }

  lemma EvidencedQuantiles(phase: Evidence<PhaseEvidence>)
    requires phase.Succeeded? && Evidenced(phase.output) && phase.output.counts.attempts > 0
    ensures forall name :: name in {"p50", "p95", "p99"} ==>
            Quantile(phase, name).Some? && Quantile(phase, name).value >= 0.0
  {
  }

  lemma MeasuredOnce(e: RoundExecution, m: Metric)
    requires e.sequential.Succeeded? && Evidenced(e.sequential.output) && e.sequential.output.counts.attempts > 0
    requires e.concurrent.Succeeded? && Evidenced(e.concurrent.output) && e.concurrent.output.counts.attempts > 0
    requires e.metadataGrowth.Succeeded? && e.metadataGrowth.output.observed.Some?
    ensures MetricOf(e, m).Some? && MetricOf(e, m).value >= 0.0
  {
    EvidencedQuantiles(e.sequential);
    EvidencedQuantiles(e.concurrent);
    var names := {"p50", "p95", "p99"};
    assert "p50" in names && "p95" in names && "p99" in names;
  }

  /** A passing round whose phases were closed by ledgers carries all fifteen
      measurements, so aggregation never misses one. */
  lemma PassingRoundIsMeasured(setup: Setup, script: Script)
    requires Ledgers(script) && setup.config.sequentialCommits > 0
    requires OutcomeOf(setup, script).Passed()
    ensures FullyMeasured(OutcomeOf(setup, script))
  {
    var e := OutcomeOf(setup, script);
    ClassificationIsExact(setup, script);
    OutcomeAtEnd(setup, script);
    ChecksRead(setup, script);
    LedgersAreEvidenced(script.sequential);
    LedgersAreEvidenced(script.concurrent);
    forall m ensures MetricOf(e, m).Some? && MetricOf(e, m).value >= 0.0 {
      MeasuredOnce(e, m);
    }
  }

  lemma PhasesAreScripted(setup: Setup, script: Script)
    ensures var e := OutcomeOf(setup, script);
            && (e.sequential.Succeeded? ==> script.sequential.Ok? && e.sequential.output == script.sequential.value.0)
            && (e.concurrent.Succeeded? ==> script.concurrent.Ok? && e.concurrent.output == script.concurrent.value.0)
  {
  }

  lemma PhasesAreEvidenced(setup: Setup, script: Script)
    requires Ledgers(script)
    ensures var e := OutcomeOf(setup, script);
            && (e.sequential.Succeeded? ==> Evidenced(e.sequential.output))
            && (e.concurrent.Succeeded? ==> Evidenced(e.concurrent.output))
  {
    var e := OutcomeOf(setup, script);
    PhasesAreScripted(setup, script);
    if e.sequential.Succeeded? { LedgersAreEvidenced(script.sequential); }
    if e.concurrent.Succeeded? { LedgersAreEvidenced(script.concurrent); }
  }

  lemma EvidencedIsNonnegative(e: RoundExecution, m: Metric)
    requires e.sequential.Succeeded? ==> Evidenced(e.sequential.output)
    requires e.concurrent.Succeeded? ==> Evidenced(e.concurrent.output)
    requires MetricOf(e, m).Some?
    ensures MetricOf(e, m).value >= 0.0
  {
  }

  /** No measurement of a round closed by ledgers is negative, whether or not
      the round passed. */
  lemma MetricIsNonnegative(setup: Setup, script: Script, m: Metric)
    requires Ledgers(script) && MetricOf(OutcomeOf(setup, script), m).Some?
    ensures MetricOf(OutcomeOf(setup, script), m).value >= 0.0
  {
    PhasesAreEvidenced(setup, script);
    EvidencedIsNonnegative(OutcomeOf(setup, script), m);
  }
}
