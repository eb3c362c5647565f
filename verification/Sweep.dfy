/** Whole sweeps: rounds run in plan order always aggregate, and the ranking
    lists every catalog once. */
module Sweep {
  import opened Ordering
  import opened Statistics
  import opened Identity
  import opened Round
  import opened RoundLaws
  import opened Metrics
  import opened Schedule
  import opened Aggregate

  // ---------- running the plan ----------

  function Transcribe(place: Place, outcome: RoundOutcome): Transcript {
    Transcript(place.repetition, place.kind, place.position, place.catalog, outcome)
  }

  /** Runs every position of every round, in order, and collects transcripts.
      `answers` holds what connecting and executing each round came to. */
  method RunSweep(
    rounds: seq<RoundPlan>, answers: seq<RoundOutcome>) returns (r: Result<seq<Transcript>, AggregationError>)
    requires |answers| == |Places(rounds)|
    ensures r.Err? <==> exists i :: 0 <= i < |Places(rounds)| && Places(rounds)[i].position > U32_MAX
    ensures r.Ok? ==>
              && |r.value| == |answers|
              && forall i :: 0 <= i < |answers| ==> r.value[i] == Transcribe(Places(rounds)[i], answers[i])
  {
    var transcripts: seq<Transcript> := [];
    ghost var places := Places(rounds);
    for n := 0 to |rounds|
      invariant |transcripts| == |Places(rounds[..n])| <= |places| && places[..|transcripts|] == Places(rounds[..n])
      invariant forall i :: 0 <= i < |transcripts| ==>
                  places[i].position <= U32_MAX && transcripts[i] == Transcribe(places[i], answers[i])
    {
      PlacesPrefix(rounds, n + 1);
      assert rounds[..n + 1][..n] == rounds[..n];
      ghost var before := |transcripts|;
      var round := rounds[n];
      for position := 0 to |round.catalogs|
        invariant |transcripts| == before + position
        invariant forall i :: 0 <= i < |transcripts| ==>
                    places[i].position <= U32_MAX && transcripts[i] == Transcribe(places[i], answers[i])
      {
        assert places[before + position] == PlacesOf(round)[position];
        if position + 1 > U32_MAX {
          return Err(CountOverflow);
        }
        transcripts := transcripts
          + [Transcript(round.repetition, round.kind, position + 1, round.catalogs[position], answers[|transcripts|])];
      }
    }
    assert rounds[..|rounds|] == rounds;
    return Ok(transcripts);
  }

  lemma LastPlaces(rounds: seq<RoundPlan>, r: nat)
    requires 0 < r <= |rounds|
    ensures Places(rounds[..r]) == Places(rounds[..r - 1]) + PlacesOf(rounds[r - 1])
  {
    assert rounds[..r][..r - 1] == rounds[..r - 1];
  }

  lemma {:induction false} PlacesPrefix(rounds: seq<RoundPlan>, k: nat)
    requires k <= |rounds|
    ensures |Places(rounds[..k])| <= |Places(rounds)| && Places(rounds)[..|Places(rounds[..k])|] == Places(rounds[..k])
  {
    if k < |rounds| {
      var front := rounds[..|rounds| - 1];
      assert front[..k] == rounds[..k];
      PlacesPrefix(front, k);
    } else {
      assert rounds[..k] == rounds;
    }
  }

  // ---------- each catalog is scheduled once per round ----------

  function IsRun(id: string): CatalogRun -> bool { (c: CatalogRun) => c.catalog == id }
  function IsPlace(
    id: string, kind: RoundKind): Place -> bool { (p: Place) => p.catalog.catalog == id && p.kind == kind }

  lemma DistinctRunsCount(catalogs: seq<CatalogRun>, j: nat)
    requires DistinctRuns(catalogs) && j < |catalogs|
    ensures |Filter(IsRun(catalogs[j].catalog), catalogs)| == 1
  {
    var id := catalogs[j].catalog;
    assert catalogs == catalogs[..j] + ([catalogs[j]] + catalogs[j + 1..]);
    FilterAppend(IsRun(id), catalogs[..j], [catalogs[j]] + catalogs[j + 1..]);
    FilterOne(IsRun(id), catalogs[j], catalogs[j + 1..]);
    FilterNone(IsRun(id), catalogs[..j]);
    FilterNone(IsRun(id), catalogs[j + 1..]);
  }

  function Seats(round: RoundPlan, k: nat): (r: seq<Place>)
    requires k <= |round.catalogs|
    ensures |r| == k
  {
    PlacesOf(round)[..k]
  }

  lemma {:induction false} RoundSeats(round: RoundPlan, k: nat, id: string, kind: RoundKind)
    requires k <= |round.catalogs|
    ensures |Filter(IsPlace(id, kind), Seats(round, k))| == if round.kind == kind
            then |Filter(IsRun(id), round.catalogs[..k])| else 0
  {
    if k > 0 {
      RoundSeats(round, k - 1, id, kind);
      var c := round.catalogs[k - 1];
      var place := PlacesOf(round)[k - 1];
      assert Seats(round, k) == Seats(round, k - 1) + [place];
      assert round.catalogs[..k] == round.catalogs[..k - 1] + [c];
      FilterAppend(IsPlace(id, kind), Seats(round, k - 1), [place]);
      FilterAppend(IsRun(id), round.catalogs[..k - 1], [c]);
      FilterOne(IsPlace(id, kind), place, []);
      FilterOne(IsRun(id), c, []);
      assert [place] + [] == [place] && [c] + [] == [c];
    }
  }

  ghost predicate Planned(catalogs: seq<CatalogRun>, policy: RoundPolicy, rounds: seq<RoundPlan>) {
    && catalogs != [] && DistinctRuns(catalogs) && policy.measured == |catalogs|
    && |rounds| == policy.conditioning + policy.measured <= U32_MAX
    && forall i :: 0 <= i < |rounds| ==> rounds[i] == PlanAt(catalogs, policy, i)
  }

  lemma RoundSeatsOne(catalogs: seq<CatalogRun>, policy: RoundPolicy, i: nat, j: nat, kind: RoundKind)
    requires DistinctRuns(catalogs) && j < |catalogs|
    ensures |Filter(IsPlace(catalogs[j].catalog, kind), PlacesOf(PlanAt(catalogs, policy, i)))| ==
            if KindOf(policy, i) == kind then 1 else 0
  {
    var round, id := PlanAt(catalogs, policy, i), catalogs[j].catalog;
    RoundSeats(round, |round.catalogs|, id, kind);
    assert Seats(round, |round.catalogs|) == PlacesOf(round);
    assert round.catalogs[..|round.catalogs|] == round.catalogs;
    EveryRoundIsAPermutation(catalogs, policy, i);
    FilterPermutes(IsRun(id), round.catalogs, catalogs);
    SameElements(Filter(IsRun(id), round.catalogs), Filter(IsRun(id), catalogs));
    DistinctRunsCount(catalogs, j);
  }

  function RoundsOfKind(policy: RoundPolicy, r: nat, kind: RoundKind): nat {
    if kind.Conditioning? then (if r < policy.conditioning then r else policy.conditioning)
    else if r > policy.conditioning then r - policy.conditioning else 0
  }

  /** Up to any round, a catalog has been scheduled once per round of a kind. */
  lemma {:induction false} ScheduledExactly(
    catalogs: seq<CatalogRun>, policy: RoundPolicy, rounds: seq<RoundPlan>, r: nat, j: nat, kind: RoundKind)
    requires Planned(catalogs, policy, rounds) && r <= |rounds| && j < |catalogs|
    ensures |Filter(IsPlace(catalogs[j].catalog, kind), Places(rounds[..r]))| == RoundsOfKind(policy, r, kind)
  {
    if r > 0 {
      ScheduledExactly(catalogs, policy, rounds, r - 1, j, kind);
      LastPlaces(rounds, r);
      assert rounds[r - 1] == PlanAt(catalogs, policy, r - 1);
      FilterAppend(IsPlace(catalogs[j].catalog, kind), Places(rounds[..r - 1]), PlacesOf(rounds[r - 1]));
      RoundSeatsOne(catalogs, policy, r - 1, j, kind);
      OneMoreRound(policy, r, kind);
    }
  }

  lemma OneMoreRound(policy: RoundPolicy, r: nat, kind: RoundKind)
    requires r > 0
    ensures RoundsOfKind(policy, r, kind) ==
            RoundsOfKind(policy, r - 1, kind) + (if KindOf(policy, r - 1) == kind then 1 else 0)
  {
  }

  // ---------- transcripts that come from rounds ----------

  ghost predicate RanRound(setup: Setup, script: Script, place: Place, e: RoundExecution) {
    && setup.config.catalog == place.catalog.catalog && setup.config.repetition == place.repetition
    && setup.kind == place.kind
    && setup.config.sequentialCommits > 0 && Ledgers(script) && e == OutcomeOf(setup, script)
  }

  /** The transcript of a place: a failed negotiation, or some round run there. */
  ghost predicate Produced(place: Place, t: Transcript) {
    && t == Transcribe(place, t.outcome)
    && (t.outcome.Executed? ==> exists setup, script :: RanRound(setup, script, place, t.outcome.execution))
  }

  ghost predicate Ran(places: seq<Place>, transcripts: seq<Transcript>) {
    |transcripts| == |places| && forall i :: 0 <= i < |places| ==> Produced(places[i], transcripts[i])
  }

  ghost predicate Sound(t: Transcript) {
    t.Passed() ==> FullyMeasured(t.outcome.execution)
  }

  lemma ProducedIsSound(place: Place, t: Transcript)
    requires Produced(place, t)
    ensures Matches(place, t) && Sound(t)
  {
    if t.outcome.Executed? {
      var setup, script :| RanRound(setup, script, place, t.outcome.execution);
      OutcomeShape(setup, script);
      if t.Passed() { PassingRoundIsMeasured(setup, script); }
    }
  }

  lemma {:induction false} PlacesAndTranscripts(
    places: seq<Place>, transcripts: seq<Transcript>, id: string, kind: RoundKind)
    requires Ran(places, transcripts)
    ensures |Filter(OfKind(kind), Filter(RunBy(id), transcripts))| == |Filter(IsPlace(id, kind), places)|
    ensures forall t :: t in Filter(RunBy(id), transcripts) ==> Sound(t)
  {
    if places != [] {
      ProducedIsSound(places[0], transcripts[0]);
      PlacesAndTranscripts(places[1..], transcripts[1..], id, kind);
      var rest := Filter(RunBy(id), transcripts[1..]);
      if RunBy(id)(transcripts[0]) {
        assert Filter(RunBy(id), transcripts) == [transcripts[0]] + rest;
        FilterOne(OfKind(kind), transcripts[0], rest);
      } else {
        assert Filter(RunBy(id), transcripts) == rest;
      }
    }
  }

  // ---------- aggregation never fails ----------

  lemma EveryMetricIsListed(m: Metric)
    ensures m in METRICS
  {
    match m
    case SequentialP50 => assert METRICS[0] == m;
    case SequentialP95 => assert METRICS[1] == m;
    case SequentialP99 => assert METRICS[2] == m;
    case SequentialAcceptedThroughput => assert METRICS[3] == m;
    case ConcurrentP50 => assert METRICS[4] == m;
    case ConcurrentP95 => assert METRICS[5] == m;
    case ConcurrentP99 => assert METRICS[6] == m;
    case ConcurrentAttemptedThroughput => assert METRICS[7] == m;
    case ConcurrentAcceptedThroughput => assert METRICS[8] == m;
    case ConflictRate => assert METRICS[9] == m;
    case ErrorRate => assert METRICS[10] == m;
    case Attempts => assert METRICS[11] == m;
    case AcceptedCommits => assert METRICS[12] == m;
    case Conflicts => assert METRICS[13] == m;
    case MetadataObjectGrowth => assert METRICS[14] == m;
  }

  ghost predicate Measurable(rounds: seq<Transcript>) {
    forall t :: t in rounds ==> t.Passed() && FullyMeasured(t.outcome.execution)
  }

  lemma {:induction false} MeasurableHasNoProblem(rounds: seq<Transcript>)
    requires Measurable(rounds)
    ensures FirstProblem(rounds).None?
  {
    if rounds != [] {
      assert rounds[0] in rounds;
      assert forall t :: t in rounds[1..] ==> t in rounds;
      MeasurableHasNoProblem(rounds[1..]);
    }
  }

  lemma SamplesAreNonnegative(rounds: seq<Transcript>, m: Metric)
    requires Measurable(rounds) && rounds != []
    ensures MedianWithRange(Samples(rounds, m)).Ok?
  {
    var samples := Samples(rounds, m);
    forall x | x in samples ensures x >= 0.0 {
      var i :| 0 <= i < |samples| && samples[i] == x;
      assert rounds[i] in rounds;
      assert MetricOf(rounds[i].outcome.execution, m).Some?;
    }
    MedianIsNonnegative(samples);
  }

  /** Every metric reduces to the median of its samples. */
  lemma {:induction false} ReduceMeasures(rounds: seq<Transcript>, metrics: seq<Metric>)
    requires Measurable(rounds) && rounds != []
    ensures Reduce(rounds, metrics).Ok?
    ensures forall m :: m in metrics ==>
              && m in Reduce(rounds, metrics).value
              && MedianWithRange(Samples(rounds, m)) == Ok(Reduce(rounds, metrics).value[m])
  {
    if metrics != [] {
      SamplesAreNonnegative(rounds, metrics[0]);
      ReduceMeasures(rounds, metrics[1..]);
      assert forall m :: m in metrics ==> m == metrics[0] || m in metrics[1..];
    }
  }

  lemma MeasuredEverywhere(rounds: seq<Transcript>)
    requires Measurable(rounds) && rounds != []
    ensures MeasurementsOf(rounds).Ok?
    ensures forall m ::
              m in MeasurementsOf(rounds).value
              && MedianWithRange(Samples(rounds, m)) == Ok(MeasurementsOf(rounds).value[m])
  {
    MeasurableHasNoProblem(rounds);
    ReduceMeasures(rounds, METRICS);
    forall m ensures m in MeasurementsOf(rounds).value &&
      MedianWithRange(Samples(rounds, m)) == Ok(MeasurementsOf(rounds).value[m]) {
      EveryMetricIsListed(m);
    }
  }

  /** A catalog passes exactly when every one of its rounds passed, and then
      each of its measurements is the median over its measured rounds. */
  ghost predicate FairlyJudged(policy: RoundPolicy, mine: seq<Transcript>, a: CatalogAggregate) {
    && (a.Passed() <==> forall t :: t in mine ==> t.Passed())
    && (a.verdict.PassVerdict? <==> a.measurements.Some?)
    && a.conditioning.scheduled == policy.conditioning && a.measured.scheduled == policy.measured
    && (a.Passed() ==>
          forall m :: m in a.measurements.value &&
            MedianWithRange(Samples(Filter(OfKind(Measured), mine), m)) == Ok(a.measurements.value[m]))
  }

  lemma TalliesTell(mine: seq<Transcript>, kind: RoundKind)
    ensures !Short(TallyOf(mine, kind), TallyOf(mine, kind).scheduled) <==>
            forall t :: t in mine && t.kind == kind ==> t.Passed()
  {
    FilterWeaker(PassedOf(kind), OfKind(kind), mine);
    FilterWeaker(ExecutedOf(kind), OfKind(kind), mine);
    if forall t :: t in mine && t.kind == kind ==> t.Passed() {
      SameFilter(PassedOf(kind), OfKind(kind), mine);
      SameFilter(ExecutedOf(kind), OfKind(kind), mine);
    }
  }

  lemma {:induction false} SameFilter(p: Transcript -> bool, q: Transcript -> bool, s: seq<Transcript>)
    requires forall t :: t in s ==> (p(t) <==> q(t))
    ensures Filter(p, s) == Filter(q, s)
  {
    if s != [] {
      assert s[0] in s && forall t :: t in s[1..] ==> t in s;
      SameFilter(p, q, s[1..]);
    }
  }

  lemma JudgedFairly(policy: RoundPolicy, mine: seq<Transcript>, catalog: CatalogRun)
    requires policy.conditioning <= U32_MAX && 0 < policy.measured <= U32_MAX
    requires TallyOf(mine, Conditioning).scheduled == policy.conditioning &&
             TallyOf(mine, Measured).scheduled == policy.measured
    requires forall t :: t in mine ==> Sound(t)
    ensures Judged(policy, mine, catalog).Ok? && FairlyJudged(policy, mine, Judged(policy, mine, catalog).value)
    ensures Judged(policy, mine, catalog).value.catalog == catalog
  {
    TalliesTell(mine, Conditioning);
    TalliesTell(mine, Measured);
    if forall t :: t in mine ==> t.Passed() {
      MeasuredMine(mine);
    } else {
      var t :| t in mine && !t.Passed();
      assert t.kind == Conditioning || t.kind == Measured;
    }
  }

  lemma MeasuredMine(mine: seq<Transcript>)
    requires forall t :: t in mine ==> t.Passed() && Sound(t)
    requires TallyOf(mine, Measured).scheduled > 0
    ensures var measured := Filter(OfKind(Measured), mine);
            && MeasurementsOf(measured).Ok?
            && forall m ::
                 m in MeasurementsOf(measured).value
                 && MedianWithRange(Samples(measured, m)) == Ok(MeasurementsOf(measured).value[m])
  {
    FilterMembers(OfKind(Measured), mine);
    MeasuredEverywhere(Filter(OfKind(Measured), mine));
  }

  lemma Times(r: nat, n: nat)
    requires r > 0
    ensures r * n == (r - 1) * n + n
  {
  }

  lemma {:induction false} PlacesCount(catalogs: seq<CatalogRun>, policy: RoundPolicy, rounds: seq<RoundPlan>, r: nat)
    requires Planned(catalogs, policy, rounds) && r <= |rounds|
    ensures |Places(rounds[..r])| == r * |catalogs|
  {
    if r > 0 {
      PlacesCount(catalogs, policy, rounds, r - 1);
      assert rounds[..r][..r - 1] == rounds[..r - 1];
      Times(r, |catalogs|);
    }
  }

  lemma {:induction false} PlacesBound(rounds: seq<RoundPlan>, n: nat)
    requires forall i :: 0 <= i < |rounds| ==> |rounds[i].catalogs| == n
    ensures forall i :: 0 <= i < |Places(rounds)| ==> Places(rounds)[i].position <= n
  {
    if rounds != [] { PlacesBound(rounds[..|rounds| - 1], n); }
  }

  lemma ProductFits(a: nat, b: nat)
    requires a <= U32_MAX && b <= U32_MAX
    ensures a * b <= U64_MAX
  {
    var slack := U32_MAX - a;
    assert slack * b >= 0;
    assert slack * b == U32_MAX * b - a * b;
  }

  /** A sweep whose transcripts come from rounds in plan order validates, and
      every catalog aggregates: no overflow, no missing execution, no missing
      measurement, no rejected statistic. */
  lemma SweepAggregates(
    catalogs: seq<CatalogRun>, policy: RoundPolicy, rounds: seq<RoundPlan>, transcripts: seq<Transcript>)
    requires Planned(catalogs, policy, rounds) && Ran(Places(rounds), transcripts)
    ensures Replays(Places(rounds), transcripts)
    ensures forall j :: 0 <= j < |catalogs| ==>
              && AggregateOf(policy, transcripts, catalogs[j]).Ok?
              && AggregateOf(policy, transcripts, catalogs[j]).value.catalog == catalogs[j]
              && FairlyJudged(policy, Filter(RunBy(catalogs[j].catalog), transcripts),
                 AggregateOf(policy, transcripts, catalogs[j]).value)
  {
    assert rounds[..|rounds|] == rounds;
    PlacesCount(catalogs, policy, rounds, |rounds|);
    PlacesBound(rounds, |catalogs|);
    ProductFits(|rounds|, |catalogs|);
    forall i | 0 <= i < |transcripts| ensures Matches(Places(rounds)[i], transcripts[i]) {
      ProducedIsSound(Places(rounds)[i], transcripts[i]);
    }
    forall j | 0 <= j < |catalogs|
      ensures && AggregateOf(policy, transcripts, catalogs[j]).Ok?
              && AggregateOf(policy, transcripts, catalogs[j]).value.catalog == catalogs[j]
              && FairlyJudged(policy, Filter(RunBy(catalogs[j].catalog), transcripts),
                 AggregateOf(policy, transcripts, catalogs[j]).value)
    {
      CatalogAggregates(catalogs, policy, rounds, transcripts, j);
    }
  }

  lemma CatalogAggregates(
    catalogs: seq<CatalogRun>, policy: RoundPolicy, rounds: seq<RoundPlan>, transcripts: seq<Transcript>, j: nat)
    requires Planned(catalogs, policy, rounds) && Ran(Places(rounds), transcripts) && j < |catalogs|
    ensures var a := AggregateOf(policy, transcripts, catalogs[j]);
            && a.Ok? && a.value.catalog == catalogs[j]
            && FairlyJudged(policy, Filter(RunBy(catalogs[j].catalog), transcripts), a.value)
  {
    var id := catalogs[j].catalog;
    assert rounds[..|rounds|] == rounds;
    ScheduledExactly(catalogs, policy, rounds, |rounds|, j, Conditioning);
    ScheduledExactly(catalogs, policy, rounds, |rounds|, j, Measured);
    PlacesAndTranscripts(Places(rounds), transcripts, id, Conditioning);
    PlacesAndTranscripts(Places(rounds), transcripts, id, Measured);
    JudgedFairly(policy, Filter(RunBy(id), transcripts), catalogs[j]);
  }

  // ---------- the ranking ----------

  lemma BeforeIsTotal()
    ensures Total(RanksBefore)
  {
    forall x: CatalogAggregate, y: CatalogAggregate ensures RanksBefore(x, y) || RanksBefore(y, x) {
      StringLeTotal(KeyOf(x).id, KeyOf(y).id);
    }
    forall x: CatalogAggregate, y: CatalogAggregate, z: CatalogAggregate | RanksBefore(x, y) && RanksBefore(y, z)
      ensures RanksBefore(x, z)
    {
      BeforeTransitive(KeyOf(x), KeyOf(y), KeyOf(z));
    }
  }

  lemma BeforeTransitive(a: RankKey, b: RankKey, c: RankKey)
    requires Before(a, b) && Before(b, c)
    ensures Before(a, c)
  {
    if StringLe(a.id, b.id) && StringLe(b.id, c.id) { StringLeTransitive(a.id, b.id, c.id); }
  }

  function CatalogOf(a: CatalogAggregate): CatalogRun { a.catalog }
  function ListedCatalog(e: RankingEntry): CatalogRun { e.catalog }

  lemma {:induction false} PassOrFail(aggregates: seq<CatalogAggregate>)
    requires Classified(aggregates)
    ensures multiset(aggregates) ==
            multiset(Filter(HasMeasurements, aggregates)) + multiset(Filter(NotPassed, aggregates))
  {
    if aggregates != [] {
      var a, rest := aggregates[0], aggregates[1..];
      PassOrFail(rest);
      HeadAndTail(aggregates);
      assert HasMeasurements(a) <==> !NotPassed(a);
    }
  }

  lemma ListedInOrder(ranked: seq<CatalogAggregate>, failing: seq<CatalogAggregate>)
    requires forall a :: a in failing ==> a.verdict.FailVerdict?
    ensures Map(ListedCatalog, RankedEntries(ranked) + UnrankedEntries(failing)) == Map(CatalogOf, ranked + failing)
  {
    MapAppend(CatalogOf, ranked, failing);
    MapAppend(ListedCatalog, RankedEntries(ranked), UnrankedEntries(failing));
    assert Map(ListedCatalog, RankedEntries(ranked)) == Map(CatalogOf, ranked);
    assert Map(ListedCatalog, UnrankedEntries(failing)) == Map(CatalogOf, failing);
  }

  lemma ListedOnce(aggregates: seq<CatalogAggregate>, ranking: seq<RankingEntry>)
    requires Classified(aggregates) && Ranks(aggregates, ranking)
    ensures multiset(Map(ListedCatalog, ranking)) == multiset(Map(CatalogOf, aggregates))
  {
    var ranked, failing := RankedList(aggregates), Filter(NotPassed, aggregates);
    SortPermutes(RanksBefore, Filter(HasMeasurements, aggregates));
    PassOrFail(aggregates);
    assert multiset(ranked + failing) == multiset(ranked) + multiset(failing);
    MapPermutes(CatalogOf, ranked + failing, aggregates);
    ListedInOrder(ranked, failing);
  }

  /** Passing catalogs first, contiguous ranks from one, ordered by throughput
      descending, latency ascending and id ascending; then the failing ones in
      schedule order. */
  ghost predicate WellRanked(aggregates: seq<CatalogAggregate>, ranking: seq<RankingEntry>) {
    var ranked, failing := RankedList(aggregates), Filter(NotPassed, aggregates);
    && |ranking| == |aggregates| == |ranked| + |failing|
    && (forall i :: 0 <= i < |ranked| ==>
          ranking[i] == RankingEntry(ranked[i].catalog, Ranked(i + 1, Score(ranked[i]))) && ranked[i] in aggregates &&
            ranked[i].Passed())
    && (forall i, j :: 0 <= i < j < |ranked| ==> Before(KeyOf(ranked[i]), KeyOf(ranked[j])))
    && (forall i :: 0 <= i < |failing| ==>
          ranking[|ranked| + i].catalog == failing[i].catalog && ranking[|ranked| + i].disposition.NotRanked?)
  }

  lemma EntriesAt(ranked: seq<CatalogAggregate>, failing: seq<CatalogAggregate>)
    requires forall i :: 0 <= i < |failing| ==> failing[i].verdict.FailVerdict?
    ensures var ranking := RankedEntries(ranked) + UnrankedEntries(failing);
            && |ranking| == |ranked| + |failing|
            && (forall i :: 0 <= i < |ranked| ==>
                  ranking[i] == RankingEntry(ranked[i].catalog, Ranked(i + 1, Score(ranked[i]))))
            && (forall i :: 0 <= i < |failing| ==>
                  ranking[|ranked| + i].catalog == failing[i].catalog && ranking[|ranked| + i].disposition.NotRanked?)
  {
  }

  lemma EntriesAreListed(aggregates: seq<CatalogAggregate>, ranking: seq<RankingEntry>)
    requires Ranks(aggregates, ranking)
    ensures var ranked, failing := RankedList(aggregates), Filter(NotPassed, aggregates);
            && |ranking| == |ranked| + |failing|
            && (forall i :: 0 <= i < |ranked| ==>
               ranking[i] == RankingEntry(ranked[i].catalog, Ranked(i + 1, Score(ranked[i]))))
            && (forall i :: 0 <= i < |failing| ==>
                  ranking[|ranked| + i].catalog == failing[i].catalog && ranking[|ranked| + i].disposition.NotRanked?)
  {
    EntriesAt(RankedList(aggregates), Filter(NotPassed, aggregates));
  }

  lemma RankingIsExact(aggregates: seq<CatalogAggregate>, ranking: seq<RankingEntry>)
    requires Classified(aggregates) && Ranks(aggregates, ranking)
    ensures WellRanked(aggregates, ranking)
    ensures multiset(Map(ListedCatalog, ranking)) == multiset(Map(CatalogOf, aggregates))
  {
    ListedOnce(aggregates, ranking);
    EntriesAreListed(aggregates, ranking);
    RankedAreSorted(aggregates);
    SameElements(Map(ListedCatalog, ranking), Map(CatalogOf, aggregates));
  }

  /** The sweep passes exactly when no catalog is left unranked. */
  lemma VerdictAgreesWithRanking(aggregates: seq<CatalogAggregate>, ranking: seq<RankingEntry>)
    requires Classified(aggregates) && Ranks(aggregates, ranking)
    ensures VerdictOf(aggregates).SweepPass? <==> forall i :: 0 <= i < |ranking| ==> ranking[i].disposition.Ranked?
  {
    EntriesAreListed(aggregates, ranking);
    var ranked, failing := RankedList(aggregates), Filter(NotPassed, aggregates);
    assert |FailedIds(aggregates)| == |failing|;
    if failing != [] {
      assert ranking[|ranked| + 0].disposition.NotRanked?;
    }
  }

  lemma RankedAreSorted(aggregates: seq<CatalogAggregate>)
    requires Classified(aggregates)
    ensures var ranked := RankedList(aggregates);
            && (forall i :: 0 <= i < |ranked| ==> ranked[i] in aggregates && ranked[i].Passed())
            && (forall i, j :: 0 <= i < j < |ranked| ==> Before(KeyOf(ranked[i]), KeyOf(ranked[j])))
  {
    var kept, ranked := Filter(HasMeasurements, aggregates), RankedList(aggregates);
    BeforeIsTotal();
    SortSorts(RanksBefore, kept);
    SortPermutes(RanksBefore, kept);
    SameElements(ranked, kept);
    FilterMembers(HasMeasurements, aggregates);
    forall i | 0 <= i < |ranked| ensures ranked[i] in aggregates && ranked[i].Passed() {
      assert ranked[i] in ranked;
    }
    forall i, j | 0 <= i < j < |ranked| ensures Before(KeyOf(ranked[i]), KeyOf(ranked[j])) {
      assert RanksBefore(ranked[i], ranked[j]);
    }
  }

  // ---------- the whole sweep ----------

  lemma FirstRoundIsUnrotated(catalogs: seq<CatalogRun>, policy: RoundPolicy, rounds: seq<RoundPlan>)
    requires Planned(catalogs, policy, rounds)
    ensures rounds != [] && rounds[0].catalogs == catalogs
  {
    assert rounds[0] == PlanAt(catalogs, policy, 0);
    assert catalogs[0..] + catalogs[..0] == catalogs;
  }

  /** A plan of at most 2^32 - 1 rounds always runs to its end. */
  method Collect(catalogs: seq<CatalogRun>, policy: RoundPolicy, rounds: seq<RoundPlan>, answers: seq<RoundOutcome>)
    returns (transcripts: seq<Transcript>)
    requires Planned(catalogs, policy, rounds) && |answers| == |Places(rounds)|
    ensures |transcripts| == |answers|
    ensures forall i :: 0 <= i < |answers| ==> transcripts[i] == Transcribe(Places(rounds)[i], answers[i])
  {
    PlacesBound(rounds, |catalogs|);
    var swept := RunSweep(rounds, answers);
    return swept.value;
  }

  /** Aggregates a sweep. Whatever the catalogs and the store did, aggregation
      succeeds with a complete ranking, and the sweep passes exactly when
      every round of it passed. */
  method RunContentionSweep(
    catalogs: seq<CatalogRun>, policy: RoundPolicy, rounds: seq<RoundPlan>, answers: seq<RoundOutcome>)
    returns (transcripts: seq<Transcript>, r: Result<SweepResult, AggregationError>)
    requires Planned(catalogs, policy, rounds) && |answers| == |Places(rounds)|
    requires forall i :: 0 <= i < |answers| ==> Produced(Places(rounds)[i], Transcribe(Places(rounds)[i], answers[i]))
    ensures Ran(Places(rounds), transcripts) && forall i :: 0 <= i < |answers| ==> transcripts[i].outcome == answers[i]
    ensures r.Ok? && Conclusive(catalogs, transcripts, r.value)
  {
    transcripts := Collect(catalogs, policy, rounds, answers);
    SweepAggregates(catalogs, policy, rounds, transcripts);
    FirstRoundIsUnrotated(catalogs, policy, rounds);
    NoProblemMeansReplay(Places(rounds), transcripts);
    NoneFailing(policy, transcripts, catalogs);
    r := AggregateContention(Plan(policy, rounds), transcripts);
    Concluded(catalogs, policy, rounds, transcripts, r.value);
  }

  lemma {:induction false} NoneFailing(policy: RoundPolicy, transcripts: seq<Transcript>, catalogs: seq<CatalogRun>)
    requires forall j :: 0 <= j < |catalogs| ==> AggregateOf(policy, transcripts, catalogs[j]).Ok?
    ensures FirstFailing(policy, transcripts, catalogs).None?
  {
    if catalogs != [] { NoneFailing(policy, transcripts, catalogs[1..]); }
  }

  ghost predicate Conclusive(catalogs: seq<CatalogRun>, transcripts: seq<Transcript>, s: SweepResult) {
    && |s.aggregates| == |catalogs| && WellRanked(s.aggregates, s.ranking)
    && multiset(Map(ListedCatalog, s.ranking)) == multiset(catalogs)
    && (s.verdict.SweepPass? <==> forall i :: 0 <= i < |s.ranking| ==> s.ranking[i].disposition.Ranked?)
    && (s.verdict.SweepPass? <==> forall i :: 0 <= i < |transcripts| ==> transcripts[i].Passed())
  }

  lemma Concluded(
    catalogs: seq<CatalogRun>, policy: RoundPolicy, rounds: seq<RoundPlan>, transcripts: seq<Transcript>,
      s: SweepResult)
    requires Planned(catalogs, policy, rounds) && Ran(Places(rounds), transcripts)
    requires |s.aggregates| == |catalogs| && Ranks(s.aggregates, s.ranking) && s.verdict == VerdictOf(s.aggregates)
    requires forall i :: 0 <= i < |catalogs| ==> Aggregates(policy, transcripts, catalogs[i], s.aggregates[i])
    ensures Conclusive(catalogs, transcripts, s)
  {
    JudgedAll(catalogs, policy, rounds, transcripts, s.aggregates);
    ConcludesRanking(catalogs, s);
    AllPassed(catalogs, policy, rounds, transcripts, s.aggregates);
  }

  lemma ConcludesRanking(catalogs: seq<CatalogRun>, s: SweepResult)
    requires |s.aggregates| == |catalogs| && Classified(s.aggregates)
    requires forall i :: 0 <= i < |catalogs| ==> s.aggregates[i].catalog == catalogs[i]
    requires Ranks(s.aggregates, s.ranking) && s.verdict == VerdictOf(s.aggregates)
    ensures WellRanked(s.aggregates, s.ranking) && multiset(Map(ListedCatalog, s.ranking)) == multiset(catalogs)
    ensures s.verdict.SweepPass? <==> forall i :: 0 <= i < |s.ranking| ==> s.ranking[i].disposition.Ranked?
  {
    RankingIsExact(s.aggregates, s.ranking);
    VerdictAgreesWithRanking(s.aggregates, s.ranking);
    assert Map(CatalogOf, s.aggregates) == catalogs;
  }

  lemma JudgedAll(
    catalogs: seq<CatalogRun>, policy: RoundPolicy, rounds: seq<RoundPlan>, transcripts: seq<Transcript>,
    aggregates: seq<CatalogAggregate>)
    requires Planned(catalogs, policy, rounds) && Ran(Places(rounds), transcripts) && |aggregates| == |catalogs|
    requires forall i :: 0 <= i < |catalogs| ==> Aggregates(policy, transcripts, catalogs[i], aggregates[i])
    ensures Classified(aggregates)
    ensures forall i :: 0 <= i < |catalogs| ==> aggregates[i].catalog == catalogs[i]
    ensures forall i :: 0 <= i < |catalogs| ==>
              (aggregates[i].Passed() <==>
                forall t :: t in Filter(RunBy(catalogs[i].catalog), transcripts) ==> t.Passed())
  {
    forall i | 0 <= i < |catalogs|
      ensures aggregates[i].catalog == catalogs[i]
      ensures FairlyJudged(policy, Filter(RunBy(catalogs[i].catalog), transcripts), aggregates[i])
    {
      CatalogAggregates(catalogs, policy, rounds, transcripts, i);
    }
  }

  lemma {:induction false} PlacedCatalogs(
    catalogs: seq<CatalogRun>, policy: RoundPolicy, rounds: seq<RoundPlan>, r: nat)
    requires Planned(catalogs, policy, rounds) && r <= |rounds|
    ensures forall i :: 0 <= i < |Places(rounds[..r])| ==> Places(rounds[..r])[i].catalog in catalogs
  {
    if r > 0 {
      PlacedCatalogs(catalogs, policy, rounds, r - 1);
      LastPlaces(rounds, r);
      EveryRoundIsAPermutation(catalogs, policy, r - 1);
      var round := rounds[r - 1];
      SameElements(round.catalogs, catalogs);
      forall p | 0 <= p < |round.catalogs| ensures PlacesOf(round)[p].catalog in catalogs {
        assert round.catalogs[p] in round.catalogs;
      }
    }
  }

  lemma {:induction false} AllPassed(
    catalogs: seq<CatalogRun>, policy: RoundPolicy, rounds: seq<RoundPlan>, transcripts: seq<Transcript>,
    aggregates: seq<CatalogAggregate>)
    requires Planned(catalogs, policy, rounds) && Ran(Places(rounds), transcripts) && |aggregates| == |catalogs|
    requires forall i :: 0 <= i < |catalogs| ==>
              (aggregates[i].Passed() <==>
                forall t :: t in Filter(RunBy(catalogs[i].catalog), transcripts) ==> t.Passed())
    ensures VerdictOf(aggregates).SweepPass? <==> forall i :: 0 <= i < |transcripts| ==> transcripts[i].Passed()
  {
    FilterMembers(NotPassed, aggregates);
    assert |FailedIds(aggregates)| == |Filter(NotPassed, aggregates)|;
    if VerdictOf(aggregates).SweepPass? {
      PlacedCatalogs(catalogs, policy, rounds, |rounds|);
      assert rounds[..|rounds|] == rounds;
      forall i | 0 <= i < |transcripts| ensures transcripts[i].Passed() {
        assert Produced(Places(rounds)[i], transcripts[i]);
        var c := transcripts[i].catalog;
        var j :| 0 <= j < |catalogs| && catalogs[j] == c;
        assert aggregates[j] in aggregates;
        FilterMembers(RunBy(c.catalog), transcripts);
        assert transcripts[i] in transcripts;
      }
    } else {
      var failing := Filter(NotPassed, aggregates);
      assert failing[0] in failing;
      var j :| 0 <= j < |aggregates| && aggregates[j] == failing[0];
      FilterMembers(RunBy(catalogs[j].catalog), transcripts);
    }
  }
}
