/** Result records built from a finished sweep: the required assertions, the
    published distributions, and their agreement with the ranking. */
module Bundle {
  import opened Ordering
  import opened Statistics
  import opened Identity
  import opened Round
  import opened RoundLaws
  import opened Metrics
  import opened Schedule
  import opened Aggregate
  import opened Sweep

  datatype BundleError =
    | UnknownAssertion | NoMeasuredRounds | MissingMeasure | CountTotalOverflow
    | RejectedSamples(error: StatisticsError)
    | NotListed | UnexpectedReview | PassingNotRanked | UnreviewedFailure | FailedButRanked
    | RunnerMismatch | NotSanitized | ReviewCoverage | ReviewTotals

  /** One published catalog: `throughput` and `latency` are the distributions
      over its measured rounds. */
  datatype Record = Record(component: string, name: string, passed: bool, throughput: Distribution,
    latency: Distribution)

  // ---------- assertions ----------

  datatype Check =
    | FixtureIsolated | SetupSucceeded | WarmupAccounted | SequentialAccounted | SequentialLatencyComplete
    | RequestsAccounted | ZeroRequestErrors | ConcurrentProgress | FinalStateAccounted | MetadataPersisted
    | FixtureClean

  datatype AssertionId =
    | RunnerPinned | NegotiationReady | CheckHolds(check: Check) | TranscriptSanitized | Unimplemented

  datatype AssertionSpec = AssertionSpec(id: AssertionId, required: bool)

  /** What the assertions read besides the rounds: the runner identity, the
      sanitization statement and each round's negotiation evidence. */
  datatype Statement = Statement(runnerPinned: bool, sanitized: bool, negotiated: Transcript -> bool)

  function CheckOf(c: RoundChecks, check: Check): bool {
    match check
    case FixtureIsolated => c.fixtureIsolated
    case SetupSucceeded => c.setupSucceeded
    case WarmupAccounted => c.warmupAccounted
    case SequentialAccounted => c.sequentialAccounted
    case SequentialLatencyComplete => c.sequentialLatencyComplete
    case RequestsAccounted => c.allRequestsAccounted
    case ZeroRequestErrors => c.zeroRequestErrors
    case ConcurrentProgress => c.concurrentProgress
    case FinalStateAccounted => c.finalStateAccounted
    case MetadataPersisted => c.metadataPersisted
    case FixtureClean => c.fixtureClean
  }

  predicate RoundHolds(t: Transcript, check: Check) {
    t.outcome.Executed? && CheckOf(t.outcome.execution.checks, check)
  }

  /** Whether an implemented assertion holds of a catalog's rounds. */
  predicate Holds(statement: Statement, rounds: seq<Transcript>, id: AssertionId) {
    match id
    case RunnerPinned => statement.runnerPinned
    case TranscriptSanitized => statement.sanitized
    case NegotiationReady => forall t :: t in rounds ==> t.outcome.Executed? && statement.negotiated(t)
    case CheckHolds(check) => forall t :: t in rounds ==> RoundHolds(t, check)
    case Unimplemented => false
  }

  /** The error total quoted when request errors occurred. */
  function SumErrors(rounds: seq<Transcript>): Result<nat, BundleError> {
    if rounds == [] then Ok(0)
    else
      var t := rounds[|rounds| - 1];
      match SumErrors(rounds[..|rounds| - 1])
      case Err(error) => Err(error)
      case Ok(total) =>
        if t.outcome.NegotiationFailed? || !t.outcome.execution.concurrent.Succeeded? then Err(MissingMeasure)
        else if total + t.outcome.execution.concurrent.output.counts.errors > U64_MAX then Err(CountTotalOverflow)
        else Ok(total + t.outcome.execution.concurrent.output.counts.errors)
  }

  function Evaluate(statement: Statement, rounds: seq<Transcript>, id: AssertionId): Result<bool, BundleError> {
    if id.Unimplemented? then Err(UnknownAssertion)
    else if id == CheckHolds(ZeroRequestErrors) && !Holds(statement, rounds, id) then
      match SumErrors(rounds) case Err(error) => Err(error) case Ok(_) => Ok(false)
    else Ok(Holds(statement, rounds, id))
  }

  /** Evaluates every assertion; the catalog passes when no required one fails. */
  function Asserted(
    statement: Statement, rounds: seq<Transcript>, specs: seq<AssertionSpec>): Result<bool, BundleError> {
    if specs == [] then Ok(true)
    else
      var spec := specs[|specs| - 1];
      match Asserted(statement, rounds, specs[..|specs| - 1])
      case Err(error) => Err(error)
      case Ok(passing) =>
        match Evaluate(statement, rounds, spec.id)
        case Err(error) => Err(error)
        case Ok(holds) => Ok(passing && (spec.required ==> holds))
  }

  lemma {:induction false} AssertedMeans(statement: Statement, rounds: seq<Transcript>, specs: seq<AssertionSpec>)
    requires Asserted(statement, rounds, specs).Ok?
    ensures Asserted(statement, rounds, specs).value
       <==> forall spec :: spec in specs && spec.required ==> Holds(statement, rounds, spec.id)
  {
    if specs != [] {
      var front, last := specs[..|specs| - 1], specs[|specs| - 1];
      AssertedMeans(statement, rounds, front);
      assert specs == front + [last];
      assert forall spec :: spec in specs <==> spec in front || spec == last;
    }
  }

  const CHECKS: seq<Check> := [
    FixtureIsolated, SetupSucceeded, WarmupAccounted, SequentialAccounted, SequentialLatencyComplete, RequestsAccounted,
    ZeroRequestErrors, ConcurrentProgress, FinalStateAccounted, MetadataPersisted, FixtureClean]

  function RequiredChecks(checks: seq<Check>): (specs: seq<AssertionSpec>)
    ensures |specs| == |checks|
    ensures forall i :: 0 <= i < |specs| ==> specs[i] == AssertionSpec(CheckHolds(checks[i]), true)
  {
    seq(|checks|, i requires 0 <= i < |checks| => AssertionSpec(CheckHolds(checks[i]), true))
  }

  /** The fourteen assertions of the canonical scenario, all required. */
  const CANONICAL: seq<AssertionSpec> :=
    [AssertionSpec(RunnerPinned, true), AssertionSpec(NegotiationReady, true)] + RequiredChecks(CHECKS)
      + [AssertionSpec(TranscriptSanitized, true)]

  lemma CheckIsListed(check: Check)
    ensures check in CHECKS
  {
    match check
    case FixtureIsolated => assert CHECKS[0] == check;
    case SetupSucceeded => assert CHECKS[1] == check;
    case WarmupAccounted => assert CHECKS[2] == check;
    case SequentialAccounted => assert CHECKS[3] == check;
    case SequentialLatencyComplete => assert CHECKS[4] == check;
    case RequestsAccounted => assert CHECKS[5] == check;
    case ZeroRequestErrors => assert CHECKS[6] == check;
    case ConcurrentProgress => assert CHECKS[7] == check;
    case FinalStateAccounted => assert CHECKS[8] == check;
    case MetadataPersisted => assert CHECKS[9] == check;
    case FixtureClean => assert CHECKS[10] == check;
  }

  lemma CanonicalMembers(spec: AssertionSpec)
    ensures spec in CANONICAL <==> spec.required && !spec.id.Unimplemented?
  {
    var checks := RequiredChecks(CHECKS);
    assert spec in CANONICAL <==>
      spec == AssertionSpec(RunnerPinned, true) || spec == AssertionSpec(NegotiationReady, true) || spec in checks
      || spec == AssertionSpec(TranscriptSanitized, true);
    if spec.id.CheckHolds? {
      CheckIsListed(spec.id.check);
      var i :| 0 <= i < |CHECKS| && CHECKS[i] == spec.id.check;
      assert checks[i] == AssertionSpec(spec.id, true);
    }
  }

  // ---------- building a record ----------

  function MeasuredRounds(id: string, transcripts: seq<Transcript>): seq<Transcript> {
    Filter(OfKind(Measured), Filter(RunBy(id), transcripts))
  }

  /** Every published measurement needs both phases and the growth of each round. */
  predicate Publishable(rounds: seq<Transcript>) {
    forall t :: t in rounds ==> t.outcome.Executed? && forall m :: m in METRICS ==>
      MetricOf(t.outcome.execution, m).Some?
  }

  function DistributionOf(samples: seq<real>): Result<Distribution, BundleError> {
    match Rejection(samples)
    case Some(error) => Err(RejectedSamples(error))
    case None => Ok(Summary(samples))
  }

  function FindEntry(ranking: seq<RankingEntry>, id: string): Option<Disposition> {
    if ranking == [] then None
    else if ranking[0].catalog.catalog == id then Some(ranking[0].disposition)
    else FindEntry(ranking[1..], id)
  }

  /** Whether the required assertions, the review and the ranking agree. */
  function Agreed(asserted: bool, reviewed: bool, entry: Option<Disposition>): Result<bool, BundleError> {
    if entry.None? then Err(NotListed)
    else if asserted then
      if reviewed then Err(UnexpectedReview) else if entry.value.Ranked? then Ok(true) else Err(PassingNotRanked)
    else
      if !reviewed then Err(UnreviewedFailure) else if entry.value.NotRanked? then Ok(false) else Err(FailedButRanked)
  }

  /** The ranking contradicts the assertions, or leaves the catalog out. */
  predicate Clashes(error: BundleError) {
    error.PassingNotRanked? || error.FailedButRanked? || error.NotListed?
  }

  function Measurement(catalog: CatalogRun, rounds: seq<Transcript>, passed: bool): Result<Record, BundleError> {
    if rounds == [] then Err(NoMeasuredRounds)
    else if !Publishable(rounds) then Err(MissingMeasure)
    else
      match DistributionOf(Samples(rounds, ConcurrentAcceptedThroughput))
      case Err(error) => Err(error)
      case Ok(throughput) =>
        match DistributionOf(Samples(rounds, SequentialP50))
        case Err(error) => Err(error)
        case Ok(latency) => Ok(Record(catalog.catalog, catalog.name, passed, throughput, latency))
  }

  datatype Publication = Publication(statement: Statement, specs: seq<AssertionSpec>)

  function BuildRecord(
    publication: Publication, catalog: CatalogRun, transcripts: seq<Transcript>, reviewed: bool,
      ranking: seq<RankingEntry>)
    : Result<Record, BundleError>
  {
    match Asserted(publication.statement, Filter(RunBy(catalog.catalog), transcripts), publication.specs)
    case Err(error) => Err(error)
    case Ok(asserted) =>
      match Measurement(catalog, MeasuredRounds(catalog.catalog, transcripts), asserted)
      case Err(error) => Err(error)
      case Ok(record) =>
        match Agreed(asserted, reviewed, FindEntry(ranking, catalog.catalog))
        case Err(error) => Err(error)
        case Ok(_) => Ok(record)
  }

  lemma {:induction false} AssertionErrors(statement: Statement, rounds: seq<Transcript>, specs: seq<AssertionSpec>)
    requires Asserted(statement, rounds, specs).Err?
    ensures !Clashes(Asserted(statement, rounds, specs).error)
  {
    var front := specs[..|specs| - 1];
    if Asserted(statement, rounds, front).Err? { AssertionErrors(statement, rounds, front); }
    SumErrorKinds(rounds);
  }

  lemma {:induction false} SumErrorKinds(rounds: seq<Transcript>)
    ensures SumErrors(rounds).Err? ==> SumErrors(rounds).error in {MissingMeasure, CountTotalOverflow}
  {
    if rounds != [] { SumErrorKinds(rounds[..|rounds| - 1]); }
  }

  /** A record needs its assertions, its measurement and their agreement with
      the ranking; only the last of these can clash. */
  lemma RecordParts(
    publication: Publication, catalog: CatalogRun, transcripts: seq<Transcript>, reviewed: bool,
    ranking: seq<RankingEntry>)
    ensures var r := BuildRecord(publication, catalog, transcripts, reviewed, ranking);
            var rounds := Filter(RunBy(catalog.catalog), transcripts);
            var asserted := Asserted(publication.statement, rounds, publication.specs);
            && (r.Ok? <==>
                  && asserted.Ok? && Agreed(asserted.value, reviewed, FindEntry(ranking, catalog.catalog)).Ok?
                  && Measurement(catalog, MeasuredRounds(catalog.catalog, transcripts), asserted.value).Ok?)
            && (r.Err? && Clashes(r.error) ==>
                  asserted.Ok? && Agreed(asserted.value, reviewed, FindEntry(ranking, catalog.catalog)) == Err(r.error))
  {
    var rounds := Filter(RunBy(catalog.catalog), transcripts);
    if Asserted(publication.statement, rounds, publication.specs).Err? {
      AssertionErrors(publication.statement, rounds, publication.specs);
    }
  }

  // ---------- the failure review ----------

  /** The reviewed attribution of one failed catalog. */
  datatype FailureReview = FailureReview(catalog: string, conditioningErrors: nat, measuredErrors: nat)

  function ReviewedIds(review: seq<FailureReview>): set<string> {
    set i | 0 <= i < |review| :: review[i].catalog
  }

  function FailedCatalogs(aggregates: seq<CatalogAggregate>): set<string> {
    set i | 0 <= i < |aggregates| && !aggregates[i].Passed() :: aggregates[i].catalog.catalog
  }

  /** The reviews are of exactly the failed catalogs, each once. */
  predicate Covers(review: seq<FailureReview>, aggregates: seq<CatalogAggregate>) {
    |review| == |ReviewedIds(review)| && ReviewedIds(review) == FailedCatalogs(aggregates)
  }

  /** A reviewed error total must be the one the transcript gives. */
  function TotalsProblem(f: FailureReview, transcripts: seq<Transcript>): Option<BundleError> {
    var mine := Filter(RunBy(f.catalog), transcripts);
    match SumErrors(Filter(OfKind(Conditioning), mine))
    case Err(error) => Some(error)
    case Ok(conditioning) =>
      match SumErrors(Filter(OfKind(Measured), mine))
      case Err(error) => Some(error)
      case Ok(measured) =>
        if conditioning != f.conditioningErrors || measured != f.measuredErrors then Some(ReviewTotals) else None
  }

  function FirstTotals(review: seq<FailureReview>, transcripts: seq<Transcript>): Option<BundleError> {
    if review == [] then None
    else
      match FirstTotals(review[..|review| - 1], transcripts)
      case Some(error) => Some(error)
      case None => TotalsProblem(review[|review| - 1], transcripts)
  }

  function ReviewProblem(
    review: seq<FailureReview>, aggregates: seq<CatalogAggregate>, transcripts: seq<Transcript>): Option<BundleError> {
    if !Covers(review, aggregates) then Some(ReviewCoverage) else FirstTotals(review, transcripts)
  }

  ghost predicate TotalsMatch(review: seq<FailureReview>, transcripts: seq<Transcript>) {
    forall f :: f in review ==> TotalsProblem(f, transcripts).None?
  }

  lemma {:induction false} TotalsMatchExactly(review: seq<FailureReview>, transcripts: seq<Transcript>)
    ensures FirstTotals(review, transcripts).None? <==> TotalsMatch(review, transcripts)
  {
    if review != [] {
      var front, last := review[..|review| - 1], review[|review| - 1];
      TotalsMatchExactly(front, transcripts);
      assert review == front + [last];
    }
  }

  method VerifyReview(review: seq<FailureReview>, aggregates: seq<CatalogAggregate>, transcripts: seq<Transcript>)
    returns (problem: Option<BundleError>)
    ensures problem == ReviewProblem(review, aggregates, transcripts)
    ensures problem.None? <==> Covers(review, aggregates) && TotalsMatch(review, transcripts)
  {
    TotalsMatchExactly(review, transcripts);
    if !Covers(review, aggregates) { return Some(ReviewCoverage); }
    for i := 0 to |review|
      invariant FirstTotals(review[..i], transcripts).None?
    {
      assert review[..i + 1][..i] == review[..i];
      problem := TotalsProblem(review[i], transcripts);
      if problem.Some? {
        assert FirstTotals(review[..i + 1], transcripts) == problem;
        FirstStays(review, i + 1, transcripts);
        return;
      }
    }
    assert review[..|review|] == review;
    return None;
  }

  lemma {:induction false} FirstStays(review: seq<FailureReview>, n: nat, transcripts: seq<Transcript>)
    requires n <= |review| && FirstTotals(review[..n], transcripts).Some?
    ensures FirstTotals(review, transcripts) == FirstTotals(review[..n], transcripts)
  {
    if n < |review| {
      assert review[..|review| - 1][..n] == review[..n];
      FirstStays(review[..|review| - 1], n, transcripts);
    } else {
      assert review[..n] == review;
    }
  }

  // ---------- generating the bundle ----------

  /** All records in order, or the first error. */
  function Gather(results: seq<Result<Record, BundleError>>): Result<seq<Record>, BundleError> {
    if results == [] then Ok([])
    else
      match Gather(results[..|results| - 1])
      case Err(error) => Err(error)
      case Ok(records) =>
        match results[|results| - 1]
        case Err(error) => Err(error)
        case Ok(record) => Ok(records + [record])
  }

  lemma {:induction false} ErrorStays(results: seq<Result<Record, BundleError>>, n: nat)
    requires n <= |results| && Gather(results[..n]).Err?
    ensures Gather(results) == Gather(results[..n])
  {
    if n < |results| {
      assert results[..|results| - 1][..n] == results[..n];
      ErrorStays(results[..|results| - 1], n);
    } else {
      assert results[..n] == results;
    }
  }

  lemma GatherNext(results: seq<Result<Record, BundleError>>, i: nat)
    requires i < |results| && Gather(results[..i]).Ok?
    ensures results[i].Ok? ==> Gather(results[..i + 1]) == Ok(Gather(results[..i]).value + [results[i].value])
    ensures results[i].Err? ==> Gather(results) == Err(results[i].error)
  {
    assert results[..i + 1][..i] == results[..i];
    if results[i].Err? { ErrorStays(results, i + 1); }
  }

  /** Everything is built exactly when each record is, and an error is that of
      some record. */
  lemma {:induction false} GathersEach(results: seq<Result<Record, BundleError>>)
    ensures Gather(results).Ok? <==> forall i :: 0 <= i < |results| ==> results[i].Ok?
    ensures Gather(results).Ok? ==>
              |Gather(results).value| == |results|
              && forall i :: 0 <= i < |results| ==> results[i] == Ok(Gather(results).value[i])
    ensures Gather(results).Err? ==> exists i :: 0 <= i < |results| && results[i] == Err(Gather(results).error)
  {
    if results != [] {
      var n := |results| - 1;
      GathersEach(results[..n]);
      assert forall i :: 0 <= i < n ==> results[..n][i] == results[i];
    }
  }

  function ResultFor(
    publication: Publication, review: seq<FailureReview>, transcripts: seq<Transcript>, s: SweepResult, i: nat)
    : Result<Record, BundleError>
    requires i < |s.aggregates|
  {
    var catalog := s.aggregates[i].catalog;
    BuildRecord(publication, catalog, transcripts, catalog.catalog in ReviewedIds(review), s.ranking)
  }

  function Results(
    publication: Publication, review: seq<FailureReview>, transcripts: seq<Transcript>, s: SweepResult)
    : (results: seq<Result<Record, BundleError>>)
    ensures |results| == |s.aggregates|
    ensures forall i :: 0 <= i < |results| ==> results[i] == ResultFor(publication, review, transcripts, s, i)
  {
    seq(|s.aggregates|, i requires 0 <= i < |s.aggregates| => ResultFor(publication, review, transcripts, s, i))
  }

  /** The transcript's own statements, then the review, then the records. */
  function Generated(
    publication: Publication, review: seq<FailureReview>, transcripts: seq<Transcript>, s: SweepResult)
    : Result<seq<Record>, BundleError>
  {
    if !publication.statement.runnerPinned then Err(RunnerMismatch)
    else if !publication.statement.sanitized then Err(NotSanitized)
    else
      match ReviewProblem(review, s.aggregates, transcripts)
      case Some(error) => Err(error)
      case None => Gather(Results(publication, review, transcripts, s))
  }

  method Generate(
    publication: Publication, review: seq<FailureReview>, transcripts: seq<Transcript>, s: SweepResult)
    returns (r: Result<seq<Record>, BundleError>)
    ensures r == Generated(publication, review, transcripts, s)
  {
    if !publication.statement.runnerPinned { return Err(RunnerMismatch); }
    if !publication.statement.sanitized { return Err(NotSanitized); }
    var problem := VerifyReview(review, s.aggregates, transcripts);
    if problem.Some? { return Err(problem.value); }
    r := BuildRecords(publication, review, transcripts, s);
  }

  method BuildRecords(
    publication: Publication, review: seq<FailureReview>, transcripts: seq<Transcript>, s: SweepResult)
    returns (r: Result<seq<Record>, BundleError>)
    ensures r == Gather(Results(publication, review, transcripts, s))
  {
    ghost var results := Results(publication, review, transcripts, s);
    var records: seq<Record> := [];
    for i := 0 to |s.aggregates|
      invariant Gather(results[..i]) == Ok(records)
    {
      var built := ResultFor(publication, review, transcripts, s, i);
      GatherNext(results, i);
      if built.Err? { return Err(built.error); }
      records := records + [built.value];
    }
    assert results[..|results|] == results;
    return Ok(records);
  }

  // ---------- a finished sweep ----------

  datatype SweepRun = SweepRun(
    catalogs: seq<CatalogRun>, policy: RoundPolicy, rounds: seq<RoundPlan>, transcripts: seq<Transcript>,
      result: SweepResult)

  /** The rounds of the plan were run in order and aggregated. */
  ghost predicate Swept(w: SweepRun) {
    && Planned(w.catalogs, w.policy, w.rounds) && Ran(Places(w.rounds), w.transcripts)
    && |w.result.aggregates| == |w.catalogs| && Ranks(w.result.aggregates, w.result.ranking)
    && w.result.verdict == VerdictOf(w.result.aggregates)
    && forall i :: 0 <= i < |w.catalogs| ==> Aggregates(w.policy, w.transcripts, w.catalogs[i], w.result.aggregates[i])
  }

  function RoundsOf(w: SweepRun, j: nat): seq<Transcript>
    requires j < |w.catalogs|
  {
    Filter(RunBy(w.catalogs[j].catalog), w.transcripts)
  }

  ghost predicate Aligned(catalogs: seq<CatalogRun>, aggregates: seq<CatalogAggregate>) {
    |aggregates| == |catalogs| && forall i :: 0 <= i < |catalogs| ==> aggregates[i].catalog == catalogs[i]
  }

  lemma SweptFacts(w: SweepRun, j: nat)
    requires Swept(w) && j < |w.catalogs|
    ensures Conclusive(w.catalogs, w.transcripts, w.result) && Classified(w.result.aggregates)
    ensures Aligned(w.catalogs, w.result.aggregates)
    ensures FairlyJudged(w.policy, RoundsOf(w, j), w.result.aggregates[j])
  {
    Concluded(w.catalogs, w.policy, w.rounds, w.transcripts, w.result);
    JudgedAll(w.catalogs, w.policy, w.rounds, w.transcripts, w.result.aggregates);
    CatalogAggregates(w.catalogs, w.policy, w.rounds, w.transcripts, j);
  }

  lemma MeasuredCount(w: SweepRun, j: nat)
    requires Swept(w) && j < |w.catalogs|
    ensures |MeasuredRounds(w.catalogs[j].catalog, w.transcripts)| == w.policy.measured
  {
    assert w.rounds[..|w.rounds|] == w.rounds;
    ScheduledExactly(w.catalogs, w.policy, w.rounds, |w.rounds|, j, Measured);
    PlacesAndTranscripts(Places(w.rounds), w.transcripts, w.catalogs[j].catalog, Measured);
  }

  // ---------- the ranking entry of a catalog ----------

  lemma {:induction false} EntryIsFound(ranking: seq<RankingEntry>, id: string) returns (i: nat)
    requires exists k :: 0 <= k < |ranking| && ranking[k].catalog.catalog == id
    ensures i < |ranking| && ranking[i].catalog.catalog == id && FindEntry(ranking, id) == Some(ranking[i].disposition)
  {
    if ranking[0].catalog.catalog == id {
      i := 0;
    } else {
      var k :| 0 <= k < |ranking| && ranking[k].catalog.catalog == id;
      assert ranking[1..][k - 1] == ranking[k];
      var rest := EntryIsFound(ranking[1..], id);
      i := rest + 1;
    }
  }

  lemma SameAggregate(catalogs: seq<CatalogRun>, aggregates: seq<CatalogAggregate>, a: CatalogAggregate, j: nat)
    requires DistinctRuns(catalogs) && Aligned(catalogs, aggregates) && a in aggregates && j < |catalogs|
    requires a.catalog.catalog == catalogs[j].catalog
    ensures a == aggregates[j]
  {
    var k :| 0 <= k < |aggregates| && aggregates[k] == a;
    assert k == j;
  }

  lemma EntryIsListed(catalogs: seq<CatalogRun>, ranking: seq<RankingEntry>, j: nat)
    requires multiset(Map(ListedCatalog, ranking)) == multiset(catalogs) && j < |catalogs|
    ensures exists i :: 0 <= i < |ranking| && ranking[i].catalog.catalog == catalogs[j].catalog
  {
    SameElements(Map(ListedCatalog, ranking), catalogs);
    assert catalogs[j] in catalogs;
    var i :| 0 <= i < |ranking| && Map(ListedCatalog, ranking)[i] == catalogs[j];
    assert ranking[i].catalog == catalogs[j];
  }

  /** The entry found for a catalog tells whether it passed. */
  lemma FoundEntryIsOwn(w: SweepRun, j: nat)
    requires Swept(w) && j < |w.catalogs|
    ensures var entry := FindEntry(w.result.ranking, w.catalogs[j].catalog);
            entry.Some? && (entry.value.Ranked? <==> w.result.aggregates[j].Passed())
  {
    var id, aggregates, ranking := w.catalogs[j].catalog, w.result.aggregates, w.result.ranking;
    SweptFacts(w, j);
    EntryIsListed(w.catalogs, ranking, j);
    var i := EntryIsFound(ranking, id);
    var a := EntryOwner(aggregates, ranking, i);
    SameAggregate(w.catalogs, aggregates, a, j);
  }

  lemma EntryOwner(aggregates: seq<CatalogAggregate>, ranking: seq<RankingEntry>, i: nat) returns (a: CatalogAggregate)
    requires WellRanked(aggregates, ranking) && i < |ranking|
    ensures a in aggregates && a.catalog == ranking[i].catalog && (a.Passed() <==> ranking[i].disposition.Ranked?)
  {
    var ranked, failing := RankedList(aggregates), Filter(NotPassed, aggregates);
    if i < |ranked| {
      a := ranked[i];
    } else {
      var k := i - |ranked|;
      a := failing[k];
      assert ranking[|ranked| + k].catalog == failing[k].catalog;
      FilterMembers(NotPassed, aggregates);
      assert failing[k] in failing;
    }
  }

  // ---------- assertions and ranking ----------

  lemma EveryCheck(c: RoundChecks)
    ensures c.AllPassed() <==> forall check :: CheckOf(c, check)
  {
    if forall check :: CheckOf(c, check) {
      assert CheckOf(c, FixtureIsolated) && CheckOf(c, SetupSucceeded) && CheckOf(c, WarmupAccounted);
      assert CheckOf(c, SequentialAccounted) && CheckOf(c, SequentialLatencyComplete) && CheckOf(c, RequestsAccounted);
      assert CheckOf(c, ZeroRequestErrors) && CheckOf(c, ConcurrentProgress) && CheckOf(c, FinalStateAccounted);
      assert CheckOf(c, MetadataPersisted) && CheckOf(c, FixtureClean);
    }
  }

  lemma ChecksMeanPassing(place: Place, t: Transcript)
    requires Produced(place, t)
    ensures t.Passed() <==> forall check :: RoundHolds(t, check)
  {
    if t.outcome.Executed? {
      var setup, script :| RanRound(setup, script, place, t.outcome.execution);
      ClassificationIsExact(setup, script);
      EveryCheck(t.outcome.execution.checks);
      assert forall check :: RoundHolds(t, check) <==> CheckOf(t.outcome.execution.checks, check);
    } else {
      assert !RoundHolds(t, FixtureIsolated);
    }
  }

  lemma RoundsCheck(w: SweepRun, j: nat, t: Transcript)
    requires Swept(w) && j < |w.catalogs| && t in RoundsOf(w, j)
    ensures t.Passed() <==> HoldsThroughout(t)
  {
    FilterMembers(RunBy(w.catalogs[j].catalog), w.transcripts);
    var i :| 0 <= i < |w.transcripts| && w.transcripts[i] == t;
    ChecksMeanPassing(Places(w.rounds)[i], t);
  }

  ghost predicate AllChecksHold(statement: Statement, rounds: seq<Transcript>) {
    forall check :: Holds(statement, rounds, CheckHolds(check))
  }

  /** The eleven check assertions all hold of a catalog if and only if it is
      ranked. */
  lemma ChecksMeanRanked(w: SweepRun, j: nat, statement: Statement)
    requires Swept(w) && j < |w.catalogs|
    ensures AllChecksHold(statement, RoundsOf(w, j)) <==> w.result.aggregates[j].Passed()
    ensures var entry := FindEntry(w.result.ranking, w.catalogs[j].catalog);
            entry.Some? && (entry.value.Ranked? <==> w.result.aggregates[j].Passed())
  {
    var rounds := RoundsOf(w, j);
    SweptFacts(w, j);
    FoundEntryIsOwn(w, j);
    forall t | t in rounds ensures t.Passed() <==> HoldsThroughout(t) {
      RoundsCheck(w, j, t);
    }
    ChecksTransposed(statement, rounds);
  }

  ghost predicate HoldsThroughout(t: Transcript) { forall check :: RoundHolds(t, check) }

  lemma ChecksTransposed(statement: Statement, rounds: seq<Transcript>)
    ensures AllChecksHold(statement, rounds) <==> forall t :: t in rounds ==> HoldsThroughout(t)
  {
    if AllChecksHold(statement, rounds) {
      forall t, check | t in rounds ensures RoundHolds(t, check) {
        assert Holds(statement, rounds, CheckHolds(check));
      }
    } else {
      var check :| !Holds(statement, rounds, CheckHolds(check));
      var t :| t in rounds && !RoundHolds(t, check);
    }
  }

  ghost predicate RequiredHold(statement: Statement, rounds: seq<Transcript>, specs: seq<AssertionSpec>) {
    forall spec :: spec in specs && spec.required ==> Holds(statement, rounds, spec.id)
  }

  /** A required assertion that is not one of the checks fails. */
  ghost predicate SideFails(statement: Statement, rounds: seq<Transcript>, specs: seq<AssertionSpec>) {
    exists spec :: spec in specs && spec.required && !spec.id.CheckHolds? && !Holds(statement, rounds, spec.id)
  }

  /** A reviewed catalog is a failed one. */
  lemma CoverageTellsFailures(w: SweepRun, review: seq<FailureReview>, j: nat)
    requires Swept(w) && j < |w.catalogs| && Covers(review, w.result.aggregates)
    ensures w.catalogs[j].catalog in ReviewedIds(review) <==> !w.result.aggregates[j].Passed()
    ensures w.result.aggregates[j].catalog == w.catalogs[j]
  {
    var aggregates := w.result.aggregates;
    SweptFacts(w, j);
    if w.catalogs[j].catalog in ReviewedIds(review) {
      var k :| 0 <= k < |aggregates| && !aggregates[k].Passed()
               && aggregates[k].catalog.catalog == w.catalogs[j].catalog;
      SameAggregate(w.catalogs, aggregates, aggregates[k], j);
    }
  }

  /** Where the review covers the failures, assertions and ranking clash in at
      most two ways: a failed catalog with all its required assertions holding,
      which takes a check that none of them names, and a ranked one that fails
      one of them, which is then on the runner, the negotiation or the
      sanitization. */
  lemma RefusalsExactly(w: SweepRun, j: nat, publication: Publication, review: seq<FailureReview>)
    requires Swept(w) && j < |w.catalogs| && Covers(review, w.result.aggregates)
    requires Asserted(publication.statement, RoundsOf(w, j), publication.specs).Ok?
    ensures var rounds, statement, specs := RoundsOf(w, j), publication.statement, publication.specs;
            var passed := w.result.aggregates[j].Passed();
            var verdict := Agreed(Asserted(statement, rounds, specs).value,
                                  w.catalogs[j].catalog in ReviewedIds(review),
                                  FindEntry(w.result.ranking, w.catalogs[j].catalog));
            && (verdict == Err(UnexpectedReview) <==> !passed && RequiredHold(statement, rounds, specs))
            && (verdict == Err(UnreviewedFailure) <==> passed && SideFails(statement, rounds, specs))
            && (verdict.Ok? <==> (RequiredHold(statement, rounds, specs) <==> passed))
            && (verdict.Err? ==> !Clashes(verdict.error))
            && (RequiresChecks(specs) ==> verdict != Err(UnexpectedReview))
  {
    var rounds, statement, specs := RoundsOf(w, j), publication.statement, publication.specs;
    CoverageTellsFailures(w, review, j);
    ChecksMeanRanked(w, j, statement);
    AssertedMeans(statement, rounds, specs);
    AgreedExactly(Asserted(statement, rounds, specs).value, w.result.aggregates[j].Passed(),
                  FindEntry(w.result.ranking, w.catalogs[j].catalog));
    if AllChecksHold(statement, rounds) { SideDecides(statement, rounds, specs); }
    if RequiresChecks(specs) { RequiredChecksHold(statement, rounds, specs); }
  }

  lemma RequiredChecksHold(statement: Statement, rounds: seq<Transcript>, specs: seq<AssertionSpec>)
    requires RequiresChecks(specs)
    ensures RequiredHold(statement, rounds, specs) ==> AllChecksHold(statement, rounds)
  {
    if RequiredHold(statement, rounds, specs) {
      forall check ensures Holds(statement, rounds, CheckHolds(check)) {
        assert AssertionSpec(CheckHolds(check), true) in specs;
      }
    }
  }

  lemma AgreedExactly(asserted: bool, passed: bool, entry: Option<Disposition>)
    requires entry.Some? && (entry.value.Ranked? <==> passed)
    ensures var verdict := Agreed(asserted, !passed, entry);
            && (verdict == Err(UnexpectedReview) <==> !passed && asserted)
            && (verdict == Err(UnreviewedFailure) <==> passed && !asserted)
            && (verdict.Ok? <==> (asserted <==> passed))
            && (verdict.Err? ==> !Clashes(verdict.error))
  {
  }

  lemma SideDecides(statement: Statement, rounds: seq<Transcript>, specs: seq<AssertionSpec>)
    requires AllChecksHold(statement, rounds)
    ensures RequiredHold(statement, rounds, specs) <==> !SideFails(statement, rounds, specs)
  {
    forall spec | spec in specs && spec.required && spec.id.CheckHolds? ensures Holds(statement, rounds, spec.id) {
      assert Holds(statement, rounds, CheckHolds(spec.id.check));
    }
  }

  /** The scenario requires all eleven checks. */
  ghost predicate RequiresChecks(specs: seq<AssertionSpec>) {
    forall check :: AssertionSpec(CheckHolds(check), true) in specs
  }

  /** Whatever the scenario requires, a record that was built passes exactly
      when its catalog is ranked. */
  lemma BuiltAgrees(w: SweepRun, j: nat, publication: Publication, reviewed: bool)
    requires Swept(w) && j < |w.catalogs|
    requires BuildRecord(publication, w.catalogs[j], w.transcripts, reviewed, w.result.ranking).Ok?
    ensures Reflects(w, j, BuildRecord(publication, w.catalogs[j], w.transcripts, reviewed, w.result.ranking).value)
  {
    FoundEntryIsOwn(w, j);
    var asserted := Asserted(publication.statement, RoundsOf(w, j), publication.specs).value;
    MeasurementGives(w.catalogs[j], MeasuredRounds(w.catalogs[j].catalog, w.transcripts), asserted);
  }

  lemma MeasurementGives(catalog: CatalogRun, rounds: seq<Transcript>, passed: bool)
    requires Measurement(catalog, rounds, passed).Ok?
    ensures var r := Measurement(catalog, rounds, passed).value;
            && r.passed == passed && r.component == catalog.catalog
            && DistributionOf(Samples(rounds, ConcurrentAcceptedThroughput)) == Ok(r.throughput)
            && DistributionOf(Samples(rounds, SequentialP50)) == Ok(r.latency)
  {
  }

  // ---------- when a sweep is published ----------

  /** No assertion is unknown, and the error total quoted when request errors
      occurred can be formed. */
  ghost predicate Evaluable(statement: Statement, rounds: seq<Transcript>, specs: seq<AssertionSpec>) {
    forall spec :: spec in specs ==>
      && !spec.id.Unimplemented?
      && (spec.id == CheckHolds(ZeroRequestErrors) && !Holds(statement, rounds, spec.id) ==> SumErrors(rounds).Ok?)
  }

  lemma {:induction false} AssertedExactly(statement: Statement, rounds: seq<Transcript>, specs: seq<AssertionSpec>)
    ensures Asserted(statement, rounds, specs).Ok? <==> Evaluable(statement, rounds, specs)
  {
    if specs != [] {
      var front, last := specs[..|specs| - 1], specs[|specs| - 1];
      AssertedExactly(statement, rounds, front);
      assert specs == front + [last];
      assert forall spec :: spec in specs <==> spec in front || spec == last;
    }
  }

  /** What a published measurement reads is never negative. */
  ghost predicate Nonnegative(t: Transcript) {
    t.outcome.Executed? ==>
      forall m :: MetricOf(t.outcome.execution, m).Some? ==> MetricOf(t.outcome.execution, m).value >= 0.0
  }

  lemma ProducedIsNonnegative(place: Place, t: Transcript)
    requires Produced(place, t)
    ensures Nonnegative(t)
  {
    if t.outcome.Executed? {
      var setup, script :| RanRound(setup, script, place, t.outcome.execution);
      forall m ensures MetricOf(t.outcome.execution, m).Some? ==> MetricOf(t.outcome.execution, m).value >= 0.0 {
        if MetricOf(t.outcome.execution, m).Some? { MetricIsNonnegative(setup, script, m); }
      }
    }
  }

  lemma SamplesAreAccepted(rounds: seq<Transcript>, m: Metric)
    requires rounds != [] && Publishable(rounds) && forall t :: t in rounds ==> Nonnegative(t)
    ensures DistributionOf(Samples(rounds, m)).Ok?
  {
    var samples := Samples(rounds, m);
    EveryMetricIsListed(m);
    forall i | 0 <= i < |samples| ensures samples[i] >= 0.0 {
      assert rounds[i] in rounds;
    }
  }

  lemma MeasuredIsNonnegative(w: SweepRun, j: nat)
    requires Swept(w) && j < |w.catalogs|
    ensures forall t :: t in MeasuredRounds(w.catalogs[j].catalog, w.transcripts) ==> Nonnegative(t)
  {
    FilterMembers(OfKind(Measured), RoundsOf(w, j));
    FilterMembers(RunBy(w.catalogs[j].catalog), w.transcripts);
    forall t | t in w.transcripts ensures Nonnegative(t) {
      var i :| 0 <= i < |w.transcripts| && w.transcripts[i] == t;
      ProducedIsNonnegative(Places(w.rounds)[i], t);
    }
  }

  /** Only a missing measurement keeps a catalog from being measured. */
  lemma MeasuredExactly(w: SweepRun, j: nat, passed: bool)
    requires Swept(w) && j < |w.catalogs|
    ensures var rounds := MeasuredRounds(w.catalogs[j].catalog, w.transcripts);
            Measurement(w.catalogs[j], rounds, passed).Ok? <==> Publishable(rounds)
  {
    var rounds := MeasuredRounds(w.catalogs[j].catalog, w.transcripts);
    MeasuredCount(w, j);
    MeasuredIsNonnegative(w, j);
    if Publishable(rounds) {
      SamplesAreAccepted(rounds, ConcurrentAcceptedThroughput);
      SamplesAreAccepted(rounds, SequentialP50);
    }
  }

  /** The record of catalog `j` can be built: its assertions can be evaluated,
      its measured rounds carry every measurement, and the required assertions
      hold of it exactly when it is ranked. */
  ghost predicate Buildable(w: SweepRun, publication: Publication, j: nat)
    requires j < |w.catalogs| == |w.result.aggregates|
  {
    var rounds, statement, specs := RoundsOf(w, j), publication.statement, publication.specs;
    && Evaluable(statement, rounds, specs) && Publishable(MeasuredRounds(w.catalogs[j].catalog, w.transcripts))
    && (RequiredHold(statement, rounds, specs) <==> w.result.aggregates[j].Passed())
  }

  lemma RecordExactly(w: SweepRun, j: nat, publication: Publication, review: seq<FailureReview>)
    requires Swept(w) && j < |w.catalogs| && Covers(review, w.result.aggregates)
    ensures var r := ResultFor(publication, review, w.transcripts, w.result, j);
            && (r.Ok? <==> Buildable(w, publication, j))
            && (r.Err? ==> !Clashes(r.error))
  {
    var rounds, statement, specs := RoundsOf(w, j), publication.statement, publication.specs;
    CoverageTellsFailures(w, review, j);
    RecordParts(
      publication, w.catalogs[j], w.transcripts, w.catalogs[j].catalog in ReviewedIds(review), w.result.ranking);
    AssertedExactly(statement, rounds, specs);
    if Evaluable(statement, rounds, specs) {
      RefusalsExactly(w, j, publication, review);
      MeasuredExactly(w, j, Asserted(statement, rounds, specs).value);
    }
  }

  lemma RecordsExactly(w: SweepRun, publication: Publication, review: seq<FailureReview>)
    requires Swept(w) && Covers(review, w.result.aggregates)
    ensures Gather(Results(publication, review, w.transcripts, w.result)).Ok?
       <==> forall j :: 0 <= j < |w.catalogs| ==> Buildable(w, publication, j)
  {
    var results := Results(publication, review, w.transcripts, w.result);
    GathersEach(results);
    forall j | 0 <= j < |w.catalogs| ensures results[j].Ok? <==> Buildable(w, publication, j) {
      RecordExactly(w, j, publication, review);
    }
  }

  /** The bundle of a sweep is generated if and only if the transcript's
      statements hold, the reviews cover the failed catalogs with the right
      totals and every record can be built. The records then follow the
      catalogs and pass exactly when those are ranked. */
  lemma GeneratesExactly(w: SweepRun, publication: Publication, review: seq<FailureReview>)
    requires Swept(w)
    ensures var r := Generated(publication, review, w.transcripts, w.result);
            && (r.Ok? <==>
                  && publication.statement.runnerPinned && publication.statement.sanitized
                  && Covers(review, w.result.aggregates) && TotalsMatch(review, w.transcripts)
                  && forall j :: 0 <= j < |w.catalogs| ==> Buildable(w, publication, j))
            && (r.Ok? ==>
                  && |r.value| == |w.catalogs|
                  && forall j :: 0 <= j < |w.catalogs| ==> Reflects(w, j, r.value[j]))
  {
    if Covers(review, w.result.aggregates) {
      TotalsMatchExactly(review, w.transcripts);
      RecordsExactly(w, publication, review);
    }
    var r := Generated(publication, review, w.transcripts, w.result);
    if r.Ok? { GeneratedReflects(w, publication, review); }
  }

  /** What a record says of its catalog. */
  ghost predicate Reflects(w: SweepRun, j: nat, r: Record)
    requires j < |w.catalogs| == |w.result.aggregates|
  {
    && (r.passed <==> w.result.aggregates[j].Passed())
    && r.component == w.catalogs[j].catalog
    && var rounds := MeasuredRounds(w.catalogs[j].catalog, w.transcripts);
    && DistributionOf(Samples(rounds, ConcurrentAcceptedThroughput)) == Ok(r.throughput)
    && DistributionOf(Samples(rounds, SequentialP50)) == Ok(r.latency)
  }

  lemma GeneratedReflects(w: SweepRun, publication: Publication, review: seq<FailureReview>)
    requires Swept(w) && Generated(publication, review, w.transcripts, w.result).Ok?
    ensures var built := Generated(publication, review, w.transcripts, w.result).value;
            |built| == |w.catalogs| && forall j :: 0 <= j < |built| ==> Reflects(w, j, built[j])
  {
    RecordsReflect(w, publication, review, Generated(publication, review, w.transcripts, w.result).value);
  }

  lemma RecordsReflect(w: SweepRun, publication: Publication, review: seq<FailureReview>, built: seq<Record>)
    requires Swept(w) && Covers(review, w.result.aggregates)
    requires Gather(Results(publication, review, w.transcripts, w.result)) == Ok(built)
    ensures |built| == |w.catalogs| && forall j :: 0 <= j < |built| ==> Reflects(w, j, built[j])
  {
    GathersEach(Results(publication, review, w.transcripts, w.result));
    forall j | 0 <= j < |built| ensures Reflects(w, j, built[j]) {
      ResultReflects(w, publication, review, j, built[j]);
    }
  }

  lemma ResultReflects(w: SweepRun, publication: Publication, review: seq<FailureReview>, j: nat, r: Record)
    requires Swept(w) && j < |w.catalogs| && Covers(review, w.result.aggregates)
    requires ResultFor(publication, review, w.transcripts, w.result, j) == Ok(r)
    ensures Reflects(w, j, r)
  {
    CoverageTellsFailures(w, review, j);
    BuiltAgrees(w, j, publication, w.catalogs[j].catalog in ReviewedIds(review));
  }

  /** Under the canonical scenario and with the transcript's statements holding,
      a record needs its measurements, a quotable error total, and, if the
      catalog is ranked, ready negotiations. */
  lemma CanonicalExactly(w: SweepRun, publication: Publication, j: nat)
    requires Swept(w) && j < |w.catalogs| && publication.specs == CANONICAL
    requires publication.statement.runnerPinned && publication.statement.sanitized
    ensures var rounds, statement := RoundsOf(w, j), publication.statement;
            Buildable(w, publication, j) <==>
              && Publishable(MeasuredRounds(w.catalogs[j].catalog, w.transcripts))
              && (!Holds(statement, rounds, CheckHolds(ZeroRequestErrors)) ==> SumErrors(rounds).Ok?)
              && (w.result.aggregates[j].Passed() ==> Holds(statement, rounds, NegotiationReady))
  {
    var rounds, statement := RoundsOf(w, j), publication.statement;
    ChecksMeanRanked(w, j, statement);
    CanonicalEvaluable(statement, rounds);
    CanonicalHolds(statement, rounds);
  }

  lemma CanonicalEvaluable(statement: Statement, rounds: seq<Transcript>)
    ensures Evaluable(statement, rounds, CANONICAL)
       <==> (!Holds(statement, rounds, CheckHolds(ZeroRequestErrors)) ==> SumErrors(rounds).Ok?)
  {
    forall spec ensures spec in CANONICAL <==> spec.required && !spec.id.Unimplemented? {
      CanonicalMembers(spec);
    }
    assert AssertionSpec(CheckHolds(ZeroRequestErrors), true) in CANONICAL;
  }

  lemma CanonicalHolds(statement: Statement, rounds: seq<Transcript>)
    requires statement.runnerPinned && statement.sanitized
    ensures RequiredHold(statement, rounds, CANONICAL)
       <==> AllChecksHold(statement, rounds) && Holds(statement, rounds, NegotiationReady)
  {
    forall spec ensures spec in CANONICAL <==> spec.required && !spec.id.Unimplemented? {
      CanonicalMembers(spec);
    }
    RequiredChecksHold(statement, rounds, CANONICAL);
    assert AssertionSpec(NegotiationReady, true) in CANONICAL;
    if AllChecksHold(statement, rounds) { SideDecides(statement, rounds, CANONICAL); }
  }

  predicate Consistent(r: Result<Record, BundleError>) { r.Err? ==> !Clashes(r.error) }

  lemma RecordsNeverClash(w: SweepRun, publication: Publication, review: seq<FailureReview>)
    requires Swept(w) && Covers(review, w.result.aggregates)
    ensures var results := Results(publication, review, w.transcripts, w.result);
            forall j :: 0 <= j < |results| ==> Consistent(results[j])
  {
    var results := Results(publication, review, w.transcripts, w.result);
    forall j | 0 <= j < |results| ensures Consistent(results[j]) {
      RecordExactly(w, j, publication, review);
    }
  }

  /** The two consistency refusals, a passing catalog that is not ranked and a
      failed one that is, are never reached, nor is a catalog missing from the
      ranking: the coverage test comes first. */
  lemma NeverInconsistent(w: SweepRun, publication: Publication, review: seq<FailureReview>)
    requires Swept(w)
    ensures var r := Generated(publication, review, w.transcripts, w.result); r.Err? ==> !Clashes(r.error)
  {
    if ReviewProblem(review, w.result.aggregates, w.transcripts).None? {
      RecordsNeverClash(w, publication, review);
      GathersEach(Results(publication, review, w.transcripts, w.result));
    } else {
      ReviewErrors(review, w.result.aggregates, w.transcripts);
    }
  }

  lemma {:induction false} TotalsErrors(review: seq<FailureReview>, transcripts: seq<Transcript>)
    ensures FirstTotals(review, transcripts).Some? ==>
              FirstTotals(review, transcripts).value in {MissingMeasure, CountTotalOverflow, ReviewTotals}
  {
    if review != [] {
      TotalsErrors(review[..|review| - 1], transcripts);
      var mine := Filter(RunBy(review[|review| - 1].catalog), transcripts);
      SumErrorKinds(Filter(OfKind(Conditioning), mine));
      SumErrorKinds(Filter(OfKind(Measured), mine));
    }
  }

  lemma ReviewErrors(review: seq<FailureReview>, aggregates: seq<CatalogAggregate>, transcripts: seq<Transcript>)
    requires ReviewProblem(review, aggregates, transcripts).Some?
    ensures ReviewProblem(review, aggregates, transcripts).value
         in {ReviewCoverage, MissingMeasure, CountTotalOverflow, ReviewTotals}
  {
    TotalsErrors(review, transcripts);
  }
}
