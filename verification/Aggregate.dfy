/** Replaying a sweep against its plan, reducing each catalog to medians and
    ranking the catalogs. */
module Aggregate {
  import opened Ordering
  import opened Statistics
  import opened Identity
  import opened Round
  import opened Metrics
  import opened Schedule

  // ---------- transcripts ----------

  datatype RoundOutcome = Executed(execution: RoundExecution) | NegotiationFailed(detail: string)

  datatype Transcript = Transcript(repetition: nat, kind: RoundKind, position: nat, catalog: CatalogRun,
    outcome: RoundOutcome) {
    predicate Passed() { outcome.Executed? && outcome.execution.Passed() }
  }

  datatype Plan = Plan(policy: RoundPolicy, rounds: seq<RoundPlan>)

  datatype AggregationError =
    | EmptySchedule | CountOverflow | ScheduleLength(expected: nat, actual: nat) | ScheduleMismatch(index: nat)
    | MissingExecution | FailedRoundInPassingAggregate | MissingMeasurement | InvalidAggregate
    | BadStatistics(error: StatisticsError)

  datatype RoundTally = RoundTally(scheduled: nat, executed: nat, passed: nat)

  datatype Reason = RoundsShort(kind: RoundKind, passed: nat, expected: nat, executed: nat)

  type Measurements = map<Metric, MedianRange>

  datatype Verdict = PassVerdict | FailVerdict(reasons: seq<Reason>)

  datatype CatalogAggregate = CatalogAggregate(
    catalog: CatalogRun, conditioning: RoundTally, measured: RoundTally, verdict: Verdict,
      measurements: Option<Measurements>)
  {
    predicate Passed() { verdict.PassVerdict? && measurements.Some? }
  }

  datatype Disposition = Ranked(rank: nat, score: MedianRange) | NotRanked(reasons: seq<Reason>)

  datatype RankingEntry = RankingEntry(catalog: CatalogRun, disposition: Disposition)

  datatype SweepVerdict = SweepPass | SweepFail(failed: seq<string>)

  datatype SweepResult = SweepResult(aggregates: seq<CatalogAggregate>, ranking: seq<RankingEntry>,
    verdict: SweepVerdict)

  // ---------- the expected order of rounds ----------

  datatype Place = Place(repetition: nat, kind: RoundKind, position: nat, catalog: CatalogRun)

  function PlacesOf(round: RoundPlan): (r: seq<Place>)
    ensures |r| == |round.catalogs|
  {
    seq(|round.catalogs|, p requires 0 <= p < |round.catalogs| =>
      Place(round.repetition, round.kind, p + 1, round.catalogs[p]))
  }

  function Places(rounds: seq<RoundPlan>): seq<Place> {
    if rounds == [] then [] else Places(rounds[..|rounds| - 1]) + PlacesOf(rounds[|rounds| - 1])
  }

  predicate Matches(place: Place, t: Transcript) {
    && t.repetition == place.repetition && t.kind == place.kind && t.position == place.position
    && t.catalog == place.catalog
    && (t.outcome.Executed? ==>
          && t.outcome.execution.config.catalog == place.catalog.catalog
          && t.outcome.execution.config.repetition == place.repetition
          && t.outcome.execution.kind == place.kind)
  }

  ghost predicate Replays(places: seq<Place>, actual: seq<Transcript>) {
    && |actual| == |places| <= U64_MAX
    && forall i :: 0 <= i < |places| ==> places[i].position <= U32_MAX && Matches(places[i], actual[i])
  }

  /** What is wrong with the transcripts from place `i` on. */
  function ProblemFrom(places: seq<Place>, actual: seq<Transcript>, i: nat): Option<AggregationError>
    requires i <= |places| == |actual|
    decreases |places| - i
  {
    if i == |places| then None
    else if places[i].position > U32_MAX then Some(CountOverflow)
    else if !Matches(places[i], actual[i]) then Some(ScheduleMismatch(i))
    else ProblemFrom(places, actual, i + 1)
  }

  function ScheduleProblem(places: seq<Place>, actual: seq<Transcript>): Option<AggregationError> {
    if |places| > U64_MAX then Some(CountOverflow)
    else if |actual| != |places| then Some(ScheduleLength(|places|, |actual|))
    else ProblemFrom(places, actual, 0)
  }

  lemma {:induction false} ProblemMeans(places: seq<Place>, actual: seq<Transcript>, i: nat)
    requires i <= |places| == |actual|
    ensures ProblemFrom(places, actual, i).None? <==>
              forall k :: i <= k < |places| ==> places[k].position <= U32_MAX && Matches(places[k], actual[k])
    decreases |places| - i
  {
    if i < |places| { ProblemMeans(places, actual, i + 1); }
  }

  /** Transcripts without a problem are exactly those that replay the plan. */
  lemma NoProblemMeansReplay(places: seq<Place>, actual: seq<Transcript>)
    ensures ScheduleProblem(places, actual).None? <==> Replays(places, actual)
  {
    if |actual| == |places| { ProblemMeans(places, actual, 0); }
  }

  /** Accepts exactly the transcripts that replay the plan; otherwise it names
      the first round that does not. */
  method ValidateSchedule(rounds: seq<RoundPlan>, actual: seq<Transcript>) returns (failure: Option<AggregationError>)
    ensures failure == ScheduleProblem(Places(rounds), actual)
    ensures failure.None? <==> Replays(Places(rounds), actual)
  {
    NoProblemMeansReplay(Places(rounds), actual);
    var expected: seq<Place> := [];
    for r := 0 to |rounds|
      invariant expected == Places(rounds[..r]) && |expected| <= U64_MAX
    {
      assert rounds[..r + 1][..r] == rounds[..r];
      if |expected| + |rounds[r].catalogs| > U64_MAX {
        PlacesGrow(rounds, r + 1);
        return Some(CountOverflow);
      }
      expected := expected + PlacesOf(rounds[r]);
    }
    assert rounds[..|rounds|] == rounds;
    if |actual| != |expected| {
      return Some(ScheduleLength(|expected|, |actual|));
    }
    for i := 0 to |actual|
      invariant ProblemFrom(expected, actual, 0) == ProblemFrom(expected, actual, i)
    {
      if expected[i].position > U32_MAX {
        return Some(CountOverflow);
      }
      if !Matches(expected[i], actual[i]) {
        return Some(ScheduleMismatch(i));
      }
    }
    return None;
  }

  lemma {:induction false} PlacesGrow(rounds: seq<RoundPlan>, k: nat)
    requires k <= |rounds|
    ensures |Places(rounds[..k])| <= |Places(rounds)|
  {
    if k < |rounds| {
      var front := rounds[..|rounds| - 1];
      assert front[..k] == rounds[..k];
      PlacesGrow(front, k);
    } else {
      assert rounds[..k] == rounds;
    }
  }

  // ---------- tallies ----------

  function OfKind(kind: RoundKind): Transcript -> bool { (t: Transcript) => t.kind == kind }
  function ExecutedOf(kind: RoundKind): Transcript -> bool { (t: Transcript) => t.kind == kind && t.outcome.Executed? }
  function PassedOf(kind: RoundKind): Transcript -> bool { (t: Transcript) => t.kind == kind && t.Passed() }
  function RunBy(id: string): Transcript -> bool { (t: Transcript) => t.catalog.catalog == id }

  function TallyOf(rounds: seq<Transcript>, kind: RoundKind): RoundTally {
    RoundTally(|Filter(OfKind(kind), rounds)|, |Filter(ExecutedOf(kind), rounds)|, |Filter(PassedOf(kind), rounds)|)
  }

  lemma FilterSnoc(keep: Transcript -> bool, s: seq<Transcript>, k: nat)
    requires k < |s|
    ensures Filter(keep, s[..k + 1]) == Filter(keep, s[..k]) + (if keep(s[k]) then [s[k]] else [])
  {
    assert s[..k + 1] == s[..k] + [s[k]];
    FilterAppend(keep, s[..k], [s[k]]);
    assert [s[k]][1..] == [];
  }

  lemma FilterPrefix(keep: Transcript -> bool, s: seq<Transcript>, k: nat)
    requires k <= |s|
    ensures |Filter(keep, s[..k])| <= |Filter(keep, s)|
  {
    assert s == s[..k] + s[k..];
    FilterAppend(keep, s[..k], s[k..]);
  }

  lemma {:induction false} FilterWeaker(strong: Transcript -> bool, weak: Transcript -> bool, s: seq<Transcript>)
    requires forall t :: strong(t) ==> weak(t)
    ensures |Filter(strong, s)| <= |Filter(weak, s)|
    ensures |Filter(strong, s)| == |Filter(weak, s)| ==> forall t :: t in s && weak(t) ==> strong(t)
  {
    if s != [] {
      FilterWeaker(strong, weak, s[1..]);
      assert s == [s[0]] + s[1..];
    }
  }

  /** Counts the scheduled, executed and passed rounds of one kind. Only the
      scheduled counter can leave the 32-bit range first. */
  method Tally(rounds: seq<Transcript>, kind: RoundKind) returns (r: Result<RoundTally, AggregationError>)
    ensures r == if TallyOf(rounds, kind).scheduled > U32_MAX then Err(CountOverflow) else Ok(TallyOf(rounds, kind))
  {
    var scheduled, executed, passed := 0, 0, 0;
    for i := 0 to |rounds|
      invariant scheduled == |Filter(OfKind(kind), rounds[..i])| <= U32_MAX
      invariant executed == |Filter(ExecutedOf(kind), rounds[..i])|
      invariant passed == |Filter(PassedOf(kind), rounds[..i])|
    {
      FilterSnoc(OfKind(kind), rounds, i);
      FilterSnoc(ExecutedOf(kind), rounds, i);
      FilterSnoc(PassedOf(kind), rounds, i);
      if rounds[i].kind != kind { continue; }
      FilterPrefix(OfKind(kind), rounds, i + 1);
      if scheduled == U32_MAX { return Err(CountOverflow); }
      scheduled := scheduled + 1;
      FilterWeaker(ExecutedOf(kind), OfKind(kind), rounds[..i]);
      FilterWeaker(PassedOf(kind), OfKind(kind), rounds[..i]);
      if rounds[i].outcome.Executed? {
        if executed == U32_MAX { return Err(CountOverflow); }
        executed := executed + 1;
      }
      if rounds[i].Passed() {
        if passed == U32_MAX { return Err(CountOverflow); }
        passed := passed + 1;
      }
    }
    assert rounds[..|rounds|] == rounds;
    return Ok(RoundTally(scheduled, executed, passed));
  }

  // ---------- one catalog ----------

  /** Why a round cannot contribute measurements. */
  function RoundProblem(t: Transcript): Option<AggregationError> {
    if t.outcome.NegotiationFailed? then Some(MissingExecution)
    else if !t.outcome.execution.Passed() then Some(FailedRoundInPassingAggregate)
    else if exists m :: m in METRICS && MetricOf(t.outcome.execution, m).None? then Some(MissingMeasurement)
    else None
  }

  function FirstProblem(rounds: seq<Transcript>): Option<AggregationError> {
    if rounds == [] then None
    else if RoundProblem(rounds[0]).Some? then RoundProblem(rounds[0])
    else FirstProblem(rounds[1..])
  }

  /** One metric over the measured rounds, in transcript order. */
  function Samples(rounds: seq<Transcript>, m: Metric): seq<real> {
    Map((t: Transcript) => Sample(t, m), rounds)
  }

  function Sample(t: Transcript, m: Metric): real {
    if t.outcome.Executed? && MetricOf(t.outcome.execution, m).Some? then MetricOf(t.outcome.execution, m).value
      else 0.0
  }

  const METRICS: seq<Metric> := [
    SequentialP50, SequentialP95, SequentialP99, SequentialAcceptedThroughput, ConcurrentP50, ConcurrentP95,
    ConcurrentP99, ConcurrentAttemptedThroughput, ConcurrentAcceptedThroughput, ConflictRate, ErrorRate, Attempts,
    AcceptedCommits, Conflicts, MetadataObjectGrowth]

  /** Reduces the metrics one by one, stopping at the first bad sample list. */
  function Reduce(rounds: seq<Transcript>, metrics: seq<Metric>): Result<Measurements, AggregationError> {
    if metrics == [] then Ok(map[])
    else
      match MedianWithRange(Samples(rounds, metrics[0]))
      case Err(error) => Err(BadStatistics(error))
      case Ok(median) =>
        match Reduce(rounds, metrics[1..])
        case Err(error) => Err(error)
        case Ok(rest) => Ok(rest[metrics[0] := median])
  }

  function MeasurementsOf(rounds: seq<Transcript>): Result<Measurements, AggregationError> {
    match FirstProblem(rounds)
    case Some(error) => Err(error)
    case None => Reduce(rounds, METRICS)
  }

  predicate Short(tally: RoundTally, expected: nat) {
    tally.scheduled != expected || tally.executed != expected || tally.passed != expected
  }

  function Shortfall(kind: RoundKind, tally: RoundTally, expected: nat): seq<Reason> {
    if Short(tally, expected) then [RoundsShort(kind, tally.passed, expected, tally.executed)] else []
  }

  function Judged(
    policy: RoundPolicy, mine: seq<Transcript>, catalog: CatalogRun): Result<CatalogAggregate, AggregationError> {
    var c, m := TallyOf(mine, Conditioning), TallyOf(mine, Measured);
    var reasons := Shortfall(Conditioning, c, policy.conditioning) + Shortfall(Measured, m, policy.measured);
    if c.scheduled > U32_MAX || m.scheduled > U32_MAX then Err(CountOverflow)
    else if reasons != [] then Ok(CatalogAggregate(catalog, c, m, FailVerdict(reasons), None))
    else
      match MeasurementsOf(Filter(OfKind(Measured), mine))
      case Err(error) => Err(error)
      case Ok(measurements) => Ok(CatalogAggregate(catalog, c, m, PassVerdict, Some(measurements)))
  }

  function AggregateOf(
    policy: RoundPolicy, rounds: seq<Transcript>, catalog: CatalogRun): Result<CatalogAggregate, AggregationError> {
    Judged(policy, Filter(RunBy(catalog.catalog), rounds), catalog)
  }

  method AggregateCatalog(policy: RoundPolicy, rounds: seq<Transcript>, catalog: CatalogRun)
    returns (r: Result<CatalogAggregate, AggregationError>)
    ensures r == AggregateOf(policy, rounds, catalog)
    ensures r.Ok? ==> (r.value.verdict.PassVerdict? <==> r.value.measurements.Some?)
  {
    var mine := Filter(RunBy(catalog.catalog), rounds);
    var conditioning := Tally(mine, Conditioning);
    if conditioning.Err? { return Err(conditioning.error); }
    var measured := Tally(mine, Measured);
    if measured.Err? { return Err(measured.error); }
    var reasons: seq<Reason> := [];
    var c, m := conditioning.value, measured.value;
    if c.scheduled != policy.conditioning || c.executed != policy.conditioning || c.passed != policy.conditioning {
      reasons := reasons + [RoundsShort(Conditioning, c.passed, policy.conditioning, c.executed)];
    }
    if m.scheduled != policy.measured || m.executed != policy.measured || m.passed != policy.measured {
      reasons := reasons + [RoundsShort(Measured, m.passed, policy.measured, m.executed)];
    }
    assert reasons == Shortfall(Conditioning, c, policy.conditioning) + Shortfall(Measured, m, policy.measured);
    if reasons != [] {
      return Ok(CatalogAggregate(catalog, c, m, FailVerdict(reasons), None));
    }
    var measurements := MeasurementsOf(Filter(OfKind(Measured), mine));
    if measurements.Err? { return Err(measurements.error); }
    return Ok(CatalogAggregate(catalog, c, m, PassVerdict, Some(measurements.value)));
  }

  // ---------- ranking ----------

  function Score(a: CatalogAggregate): MedianRange { Measure(a, ConcurrentAcceptedThroughput) }

  function Measure(a: CatalogAggregate, m: Metric): MedianRange {
    if a.measurements.Some? && m in a.measurements.value then a.measurements.value[m] else MedianRange(0, 0.0, 0.0, 0.0)
  }

  /** Higher throughput first, then lower latency, then the smaller id. */
  predicate RanksBefore(a: CatalogAggregate, b: CatalogAggregate) {
    Before(KeyOf(a), KeyOf(b))
  }

  datatype RankKey = RankKey(throughput: real, latency: real, id: string)

  function KeyOf(a: CatalogAggregate): RankKey {
    RankKey(Score(a).median, Measure(a, SequentialP50).median, a.catalog.catalog)
  }

  predicate Before(a: RankKey, b: RankKey) {
    if a.throughput != b.throughput then a.throughput > b.throughput
    else if a.latency != b.latency then a.latency < b.latency
    else StringLe(a.id, b.id)
  }

  predicate HasMeasurements(a: CatalogAggregate) { a.measurements.Some? }
  predicate NotPassed(a: CatalogAggregate) { !a.Passed() }

  function RankedList(aggregates: seq<CatalogAggregate>): seq<CatalogAggregate> {
    Sort(RanksBefore, Filter(HasMeasurements, aggregates))
  }

  function RankedEntries(ranked: seq<CatalogAggregate>): seq<RankingEntry> {
    seq(|ranked|, i requires 0 <= i < |ranked| => RankingEntry(ranked[i].catalog, Ranked(i + 1, Score(ranked[i]))))
  }

  function UnrankedEntries(failing: seq<CatalogAggregate>): seq<RankingEntry>
    requires forall i :: 0 <= i < |failing| ==> failing[i].verdict.FailVerdict?
  {
    seq(|failing|, i requires 0 <= i < |failing| => RankingEntry(failing[i].catalog,
      NotRanked(failing[i].verdict.reasons)))
  }

  predicate Classified(aggregates: seq<CatalogAggregate>) {
    forall i :: 0 <= i < |aggregates| ==> (aggregates[i].verdict.PassVerdict? <==> aggregates[i].measurements.Some?)
  }

  lemma FailingAreExplained(aggregates: seq<CatalogAggregate>)
    requires Classified(aggregates)
    ensures forall i :: 0 <= i < |Filter(NotPassed, aggregates)| ==>
            Filter(NotPassed, aggregates)[i].verdict.FailVerdict?
  {
    FilterMembers(NotPassed, aggregates);
    var failing := Filter(NotPassed, aggregates);
    forall i | 0 <= i < |failing| ensures failing[i].verdict.FailVerdict? {
      assert failing[i] in failing;
    }
  }

  /** Ranked catalogs first, in order, then the failing ones as scheduled. */
  method RankCatalogs(aggregates: seq<CatalogAggregate>) returns (r: Result<seq<RankingEntry>, AggregationError>)
    ensures var ranked, failing := RankedList(aggregates), Filter(NotPassed, aggregates);
            var invalid := exists i :: 0 <= i < |failing| && failing[i].verdict.PassVerdict?;
            && (|ranked| > U32_MAX ==> r == Err(CountOverflow))
            && (|ranked| <= U32_MAX && invalid ==> r == Err(InvalidAggregate))
            && (|ranked| <= U32_MAX && !invalid ==> r == Ok(RankedEntries(ranked) + UnrankedEntries(failing)))
  {
    var ranked := Sort(RanksBefore, Filter(HasMeasurements, aggregates));
    var entries: seq<RankingEntry> := [];
    for index := 0 to |ranked|
      invariant index <= U32_MAX && entries == RankedEntries(ranked[..index])
    {
      if index + 1 > U32_MAX { return Err(CountOverflow); }
      assert ranked[..index + 1][..index] == ranked[..index];
      entries := entries + [RankingEntry(ranked[index].catalog, Ranked(index + 1, Score(ranked[index])))];
    }
    assert ranked[..|ranked|] == ranked;
    var unranked := ListUnranked(Filter(NotPassed, aggregates));
    return match unranked case Err(error) => Err(error) case Ok(rest) => Ok(entries + rest);
  }

  method ListUnranked(failing: seq<CatalogAggregate>) returns (r: Result<seq<RankingEntry>, AggregationError>)
    ensures r == (if exists i :: 0 <= i < |failing| && failing[i].verdict.PassVerdict? then Err(InvalidAggregate)
                  else Ok(UnrankedEntries(failing)))
  {
    var entries: seq<RankingEntry> := [];
    for i := 0 to |failing|
      invariant forall k :: 0 <= k < i ==> failing[k].verdict.FailVerdict?
      invariant entries == UnrankedEntries(failing[..i])
    {
      if failing[i].verdict.PassVerdict? { return Err(InvalidAggregate); }
      entries := entries + [RankingEntry(failing[i].catalog, NotRanked(failing[i].verdict.reasons))];
    }
    assert failing[..|failing|] == failing;
    return Ok(entries);
  }

  // ---------- the whole sweep ----------

  function FailedIds(aggregates: seq<CatalogAggregate>): seq<string> {
    Map((a: CatalogAggregate) => a.catalog.catalog, Filter(NotPassed, aggregates))
  }

  function VerdictOf(aggregates: seq<CatalogAggregate>): SweepVerdict {
    if FailedIds(aggregates) == [] then SweepPass else SweepFail(FailedIds(aggregates))
  }

  predicate Aggregates(policy: RoundPolicy, rounds: seq<Transcript>, catalog: CatalogRun, a: CatalogAggregate) {
    AggregateOf(policy, rounds, catalog) == Ok(a)
  }

  /** The error of the first catalog that does not aggregate. */
  function FirstFailing(
    policy: RoundPolicy, rounds: seq<Transcript>, order: seq<CatalogRun>): Option<AggregationError> {
    if order == [] then None
    else
      match AggregateOf(policy, rounds, order[0])
      case Err(error) => Some(error)
      case Ok(_) => FirstFailing(policy, rounds, order[1..])
  }

  method AggregateEach(policy: RoundPolicy, rounds: seq<Transcript>, order: seq<CatalogRun>)
    returns (r: Result<seq<CatalogAggregate>, AggregationError>)
    ensures FirstFailing(policy, rounds, order) == if r.Err? then Some(r.error) else None
    ensures r.Ok? ==> |r.value| == |order| && Classified(r.value)
    ensures r.Ok? ==> forall i :: 0 <= i < |order| ==> Aggregates(policy, rounds, order[i], r.value[i])
  {
    var aggregates: seq<CatalogAggregate> := [];
    assert order[0..] == order;
    for i := 0 to |order|
      invariant |aggregates| == i && Classified(aggregates)
      invariant forall k :: 0 <= k < i ==> Aggregates(policy, rounds, order[k], aggregates[k])
      invariant FirstFailing(policy, rounds, order) == FirstFailing(policy, rounds, order[i..])
    {
      assert order[i..][1..] == order[i + 1..];
      var aggregate := AggregateCatalog(policy, rounds, order[i]);
      if aggregate.Err? { return Err(aggregate.error); }
      aggregates := aggregates + [aggregate.value];
    }
    return Ok(aggregates);
  }

  lemma {:induction false} FirstPlaces(rounds: seq<RoundPlan>)
    requires rounds != []
    ensures |PlacesOf(rounds[0])| <= |Places(rounds)| && Places(rounds)[..|PlacesOf(rounds[0])|] == PlacesOf(rounds[0])
  {
    var front := rounds[..|rounds| - 1];
    if front == [] {
      assert Places(front) == [];
      assert Places(rounds) == [] + PlacesOf(rounds[0]);
    } else {
      FirstPlaces(front);
    }
  }

  /** A schedule that validates has fewer than 2^32 catalogs to rank. */
  lemma CatalogsFit(rounds: seq<RoundPlan>, actual: seq<Transcript>)
    requires rounds != [] && Replays(Places(rounds), actual)
    ensures |rounds[0].catalogs| <= U32_MAX
  {
    FirstPlaces(rounds);
    var n := |rounds[0].catalogs|;
    if n > 0 { assert Places(rounds)[..n][n - 1] == PlacesOf(rounds[0])[n - 1]; }
  }

  /** Validates, aggregates each catalog, ranks and judges the sweep. The error
      is that of the schedule, else that of the first catalog; ranking itself
      never fails. */
  method AggregateContention(plan: Plan, rounds: seq<Transcript>) returns (r: Result<SweepResult, AggregationError>)
    ensures var problem := ScheduleProblem(Places(plan.rounds), rounds);
            && (problem.Some? ==> r == Err(problem.value))
            && (problem.None? && plan.rounds == [] ==> r == Err(EmptySchedule))
            && (problem.None? && plan.rounds != [] ==>
                  FirstFailing(plan.policy, rounds, plan.rounds[0].catalogs) == if r.Err? then Some(r.error) else None)
    ensures r.Ok? ==>
              && plan.rounds != [] && Replays(Places(plan.rounds), rounds)
              && |r.value.aggregates| == |plan.rounds[0].catalogs|
              && (forall i :: 0 <= i < |r.value.aggregates| ==>
                    Aggregates(plan.policy, rounds, plan.rounds[0].catalogs[i], r.value.aggregates[i]))
              && Ranks(r.value.aggregates, r.value.ranking) && r.value.verdict == VerdictOf(r.value.aggregates)
  {
    var invalid := ValidateSchedule(plan.rounds, rounds);
    if invalid.Some? { return Err(invalid.value); }
    if plan.rounds == [] { return Err(EmptySchedule); }
    var order := plan.rounds[0].catalogs;
    CatalogsFit(plan.rounds, rounds);
    var each := AggregateEach(plan.policy, rounds, order);
    if each.Err? { return Err(each.error); }
    var aggregates := each.value;
    FailingAreExplained(aggregates);
    var ranking := RankCatalogs(aggregates);
    return match ranking
      case Err(error) => Err(error)
      case Ok(entries) => Ok(SweepResult(aggregates, entries, VerdictOf(aggregates)));
  }

  /** `ranking` is the ranking of `aggregates`. */
  ghost predicate Ranks(aggregates: seq<CatalogAggregate>, ranking: seq<RankingEntry>) {
    var ranked, failing := RankedList(aggregates), Filter(NotPassed, aggregates);
    && (forall i :: 0 <= i < |failing| ==> failing[i].verdict.FailVerdict?)
    && ranking == RankedEntries(ranked) + UnrankedEntries(failing)
  }
}
