/** An even number of measured rounds: sweeps whose published matrix and
    transcript ranking order the catalogs differently. */
module Disagreement {
  import opened Ordering
  import opened Statistics
  import opened Identity
  import opened Ledger
  import opened Audit
  import opened Writers
  import opened Round
  import opened RoundLaws
  import opened Metrics
  import opened Schedule
  import opened Aggregate
  import opened Sweep
  import opened Bundle
  import opened Matrix
  import opened Honest
  import Contention
  import Attribution

  // ---------- a passing round of any throughput ----------

  const SECOND: nat := 1_000_000_000

  /** A phase whose only commit took all of `elapsed`. */
  function OnePhase(digest: Digest, elapsed: Duration): PhaseResult { Closed(OneEntry(digest, elapsed), elapsed) }

  /** A phase that committed once and was accepted. */
  ghost predicate CommitsOnce(r: PhaseResult, digest: Digest) {
    r.Ok? && r.value.1 == {digest} && r.value.0.counts == RequestCounts(1, 1, 0, 0)
  }

  function ThroughputOf(r: PhaseResult): real { if r.Ok? then r.value.0.acceptedThroughput else 0.0 }

  lemma OnePhaseCommitsOnce(digest: Digest, elapsed: Duration) returns (r: PhaseResult)
    requires elapsed > 0
    ensures r == OnePhase(digest, elapsed) && CommitsOnce(r, digest) && FromLedger(r)
  {
    var log := OneEntry(digest, elapsed);
    r := OnePhase(digest, elapsed);
    OneCounts(digest, elapsed);
    assert Finished(log, elapsed) == Ok(r.value);
  }

  lemma LogThroughput(log: seq<Entry>, elapsed: Duration)
    requires elapsed > 0 && CountsOf(log) == RequestCounts(1, 1, 0, 0)
    ensures ThroughputOf(Closed(log, elapsed)) == PerSecond(1, elapsed)
  {
  }

  lemma OnePhaseThroughput(digest: Digest, elapsed: Duration)
    requires elapsed > 0
    ensures ThroughputOf(OnePhase(digest, elapsed)) == PerSecond(1, elapsed)
  {
    OneCounts(digest, elapsed);
    LogThroughput(OneEntry(digest, elapsed), elapsed);
  }

  const CREATED: TableSnapshot := TableSnapshot(2, "uuid", "root", "root/0.metadata.json", map[])
  const ABSENT: PresenceObservation := PresenceObservation(404, Absent)

  function Committed(property: string): TableSnapshot {
    TableSnapshot(2, "uuid", "root", "root/3.metadata.json", map["property" := property])
  }

  /** A round in which everything but the phases goes well. */
  function ScriptOf(w: PhaseResult, s: PhaseResult, c: PhaseResult, property: string): Script {
    Script(
      Ok(ABSENT), Ok(MutationReceipt(200)), Ok(CREATED), Ok(()), Ok(TableAudit(1, 1, 0, 0, true)),
      w, s, c, Ok(Committed(property)), true, Ok(TableAudit(4, 4, 0, 0, true)),
      Ok(MutationReceipt(204)), Ok(ABSENT), Ok(MutationReceipt(204)), Ok(ABSENT))
  }

  /** The window of the concurrent phase. */
  const WINDOW: nat := 100_000_000

  function ConfigFor(place: Place): RoundConfig {
    RoundConfig(place.catalog.catalog, "fixture", place.repetition, 1, 1, 1, WINDOW)
  }

  function SetupFor(place: Place): Setup { Setup(ConfigFor(place), place.kind, "property", (x: string) => x) }

  /** The requests of a round at `place`, one per phase. */
  function IdAt(place: Place, i: nat): string { FirstId(ConfigFor(place), i) }

  lemma IdsDiffer(place: Place, i: nat, j: nat)
    requires i < j < 3
    ensures IdAt(place, i) != IdAt(place, j)
  {
    if IdAt(place, i) == IdAt(place, j) { IdentityInjective(ConfigFor(place), FirstSlot(i), FirstSlot(j)); }
  }

  /** The phases committed the requests of this place. */
  ghost predicate CommitsAt(place: Place, w: PhaseResult, s: PhaseResult, c: PhaseResult) {
    CommitsOnce(w, IdAt(place, 0)) && CommitsOnce(s, IdAt(place, 1)) && CommitsOnce(c, IdAt(place, 2))
  }

  lemma OnceIsComplete(r: PhaseResult)
    requires r.Ok? && FromLedger(r) && r.value.0.counts == RequestCounts(1, 1, 0, 0)
    ensures var p := r.value.0; SerialAccounted(p, 1) && LatencyComplete(p, 1) && AllRequestsAccounted(p)
  {
    var p := r.value.0;
    LedgersAreEvidenced(r);
    assert p.counts.FullyAccounted();
    assert SerialAccounted(p, 1);
    EvidencedIsComplete(p, 1);
  }

  lemma ScriptRunsThrough(place: Place, w: PhaseResult, s: PhaseResult, c: PhaseResult)
    requires CommitsAt(place, w, s, c)
    ensures Through(ScriptOf(w, s, c, IdAt(place, 2)), 8)
  {
    IdsDiffer(place, 0, 1);
    IdsDiffer(place, 0, 2);
    IdsDiffer(place, 1, 2);
  }

  lemma ScriptPhasesPass(place: Place, w: PhaseResult, s: PhaseResult, c: PhaseResult)
    requires CommitsAt(place, w, s, c) && FromLedger(w) && FromLedger(s) && FromLedger(c)
    ensures PhasesPass(SetupFor(place), ScriptOf(w, s, c, IdAt(place, 2)))
  {
    OnceIsComplete(w);
    OnceIsComplete(s);
    OnceIsComplete(c);
  }

  lemma ScriptTablePasses(place: Place, w: PhaseResult, s: PhaseResult, c: PhaseResult, property: string)
    requires Through(ScriptOf(w, s, c, property), 8) && w.Ok? && s.Ok? && c.Ok? && c.value.1 == {property}
    ensures TablePasses(SetupFor(place), ScriptOf(w, s, c, property))
  {
    assert Committed(property).properties["property"] == property;
  }

  lemma ScriptGrowthPasses(place: Place, w: PhaseResult, s: PhaseResult, c: PhaseResult)
    requires CommitsAt(place, w, s, c) && Through(ScriptOf(w, s, c, IdAt(place, 2)), 8)
    ensures var script := ScriptOf(w, s, c, IdAt(place, 2)); GrowthPasses(script) && CleanupPasses(script)
  {
    assert RequiredGrowth(ScriptOf(w, s, c, IdAt(place, 2))) == 3;
  }

  lemma ScriptPasses(place: Place, w: PhaseResult, s: PhaseResult, c: PhaseResult)
    requires CommitsAt(place, w, s, c) && FromLedger(w) && FromLedger(s) && FromLedger(c)
    ensures OutcomeOf(SetupFor(place), ScriptOf(w, s, c, IdAt(place, 2))).Passed()
  {
    ScriptRunsThrough(place, w, s, c);
    ScriptPhasesPass(place, w, s, c);
    ScriptTablePasses(place, w, s, c, IdAt(place, 2));
    ScriptGrowthPasses(place, w, s, c);
    PassesExactly(SetupFor(place), ScriptOf(w, s, c, IdAt(place, 2)));
  }

  lemma ScriptThroughput(place: Place, w: PhaseResult, s: PhaseResult, c: PhaseResult)
    requires CommitsAt(place, w, s, c)
    ensures MetricOf(OutcomeOf(SetupFor(place), ScriptOf(w, s, c, IdAt(place, 2))), ConcurrentAcceptedThroughput) ==
            Some(ThroughputOf(c))
  {
    ScriptRunsThrough(place, w, s, c);
    OutcomeAtEnd(SetupFor(place), ScriptOf(w, s, c, IdAt(place, 2)));
  }

  /** How long each phase of a round takes. */
  function Waits(elapsed: Duration): seq<nat> { [SECOND, SECOND, elapsed] }

  /** A round that commits once per phase, the concurrent one in `elapsed`. */
  function PassingScript(place: Place, elapsed: Duration): Script {
    ScriptOf(
      OnePhase(IdAt(place, 0), SECOND), OnePhase(IdAt(place, 1), SECOND), OnePhase(IdAt(place, 2), elapsed),
      IdAt(place, 2))
  }

  lemma PhasesCommit(place: Place, elapsed: Duration) returns (w: PhaseResult, s: PhaseResult, c: PhaseResult)
    requires elapsed > 0
    ensures CommitsAt(place, w, s, c) && FromLedger(w) && FromLedger(s) && FromLedger(c)
    ensures PassingScript(place, elapsed) == ScriptOf(w, s, c, IdAt(place, 2)) && c == OnePhase(IdAt(place, 2), elapsed)
  {
    w := OnePhaseCommitsOnce(IdAt(place, 0), SECOND);
    s := OnePhaseCommitsOnce(IdAt(place, 1), SECOND);
    c := OnePhaseCommitsOnce(IdAt(place, 2), elapsed);
  }

  // ---------- such a round is honest ----------

  function MetadataFile(i: nat): Contention.StoredObject {
    Contention.StoredObject("root/" + Decimal(i) + ".metadata.json", 1)
  }

  const STORED: seq<Contention.StoredObject> := [MetadataFile(1), MetadataFile(2), MetadataFile(3)]

  const UNTOUCHED: Contention.Catalog := Contention.Catalog(None, [MetadataFile(0)], [], map[], {}, {}, [], false)

  /** `e` is the evidence of a round whose phases ran against an honest catalog
      and whose final load and audits saw what they left. */
  ghost predicate HonestlyBy(
    place: Place, e: RoundExecution, setup: Setup, script: Script, r: Attribution.RoundRun, elapsed: seq<Duration>,
    last: Attribution.Leg)
  {
    && RanRound(setup, script, place, e) && Conducts(setup, script, r, elapsed, last) && |r.logs| == 3
    && NoCollision(r, last) && ReadsBack(setup, script, r) && AuditsGrowth(script, r)
  }

  ghost predicate Honestly(place: Place, t: Transcript) {
    && t.outcome.Executed?
    && exists setup, script, r, elapsed, last ::
         HonestlyBy(place, t.outcome.execution, setup, script, r, elapsed, last)
  }

  lemma OneFile(i: nat)
    ensures Contention.MetadataCount([MetadataFile(i)]) == 1
  {
    var location, suffix := "root/" + Decimal(i) + ".metadata.json", ".metadata.json";
    assert location[|location| - |suffix|..] == suffix;
    assert Contention.IsMetadata(MetadataFile(i));
  }

  /** Three commits leave three more metadata objects and the last identity. */
  lemma ThreeCommits(config: RoundConfig)
    ensures var after := AfterThree(config, UNTOUCHED, STORED);
            && after.property == Some(FirstId(config, 2)) && Attribution.Persists(after)
            && Contention.MetadataCount(after.objects) == 4
    ensures Contention.MetadataCount(UNTOUCHED.objects) == 1
  {
    OneFile(0);
    OneFile(1);
    OneFile(2);
    OneFile(3);
    var a, b, c, d := [MetadataFile(0)], [MetadataFile(1)], [MetadataFile(2)], [MetadataFile(3)];
    Contention.AppendedCount(a, b);
    Contention.AppendedCount(a + b, c);
    Contention.AppendedCount(a + b + c, d);
  }

  lemma PhasesAreClosed(place: Place, elapsed: Duration, i: nat)
    requires elapsed > 0 && i < 3
    ensures PhaseOf(PassingScript(place, elapsed), i)
         == Closed(OneEntry(IdAt(place, i), Waits(elapsed)[i]), Waits(elapsed)[i])
    ensures PhaseOf(PassingScript(place, elapsed), i).Ok?
  {
    var r := OnePhaseCommitsOnce(IdAt(place, i), Waits(elapsed)[i]);
  }

  lemma ScriptIsConducted(place: Place, elapsed: Duration, r: Attribution.RoundRun, last: Attribution.Leg)
    requires elapsed > 0 && Attribution.Happens(r) && r.config == ConfigFor(place) && r.digest == SetupFor(place).digest
    requires |r.logs| == 3
    requires forall i :: 0 <= i < 3 ==> r.logs[i] == OneEntry(IdAt(place, i), Waits(elapsed)[i])
    ensures Conducts(SetupFor(place), PassingScript(place, elapsed), r, Waits(elapsed), last)
  {
    var script, waits := PassingScript(place, elapsed), Waits(elapsed);
    forall i: nat | i < 3 ensures PhaseOf(script, i) == Closed(r.logs[i], waits[i]) && PhaseOf(script, i).Ok? {
      PhasesAreClosed(place, elapsed, i);
    }
  }

  lemma NothingCollides(place: Place, r: Attribution.RoundRun, last: Attribution.Leg)
    requires |r.catalogs| == |r.logs| + 1 && r.digest == SetupFor(place).digest
    ensures NoCollision(r, last)
  {
  }

  lemma HonestRoundAt(place: Place, elapsed: Duration) returns (r: Attribution.RoundRun, last: Attribution.Leg)
    requires elapsed >= WINDOW
    ensures |r.logs| == 3 && Conducts(SetupFor(place), PassingScript(place, elapsed), r, Waits(elapsed), last)
    ensures r.catalogs != [] && r.catalogs[0] == UNTOUCHED && r.digest == SetupFor(place).digest
    ensures Attribution.FinalCatalog(r) == AfterThree(ConfigFor(place), UNTOUCHED, STORED)
  {
    var setup := SetupFor(place);
    r := SomeRoundHappens(setup.config, setup.digest, UNTOUCHED, STORED, Waits(elapsed));
    last := Attribution.Leg(Attribution.PlanOf(setup.config, 0, 0), 0, []);
    ScriptIsConducted(place, elapsed, r, last);
  }

  /** Phases of an honest round at `place`, the concurrent one of `elapsed`. */
  lemma HonestPhases(place: Place, elapsed: Duration)
    returns (w: PhaseResult, s: PhaseResult, c: PhaseResult, r: Attribution.RoundRun, last: Attribution.Leg)
    requires elapsed >= WINDOW
    ensures CommitsAt(place, w, s, c) && FromLedger(w) && FromLedger(s) && FromLedger(c)
    ensures ThroughputOf(c) == PerSecond(1, elapsed)
    ensures var setup, script := SetupFor(place), ScriptOf(w, s, c, IdAt(place, 2));
            && Conducts(setup, script, r, Waits(elapsed), last) && |r.logs| == 3
            && NoCollision(r, last) && ReadsBack(setup, script, r) && AuditsGrowth(script, r)
  {
    w, s, c := PhasesCommit(place, elapsed);
    OnePhaseThroughput(IdAt(place, 2), elapsed);
    r, last := HonestRoundAt(place, elapsed);
    ScriptSeesRound(place, elapsed, r);
    NothingCollides(place, r, last);
  }

  /** `e` is the evidence of a passing, honest round at this place, with one
      commit in a concurrent phase of `elapsed`. */
  ghost predicate RunsAt(place: Place, elapsed: Duration, e: RoundExecution) {
    && PassesAt(place, Transcribe(place, Executed(e))) && Honestly(place, Transcribe(place, Executed(e)))
    && elapsed > 0 && MetricOf(e, ConcurrentAcceptedThroughput) == Some(PerSecond(1, elapsed))
  }

  lemma PlaceRuns(place: Place, elapsed: Duration) returns (e: RoundExecution)
    requires elapsed >= WINDOW
    ensures RunsAt(place, elapsed, e)
  {
    var w, s, c, r, last := HonestPhases(place, elapsed);
    var script := ScriptOf(w, s, c, IdAt(place, 2));
    e := OutcomeOf(SetupFor(place), script);
    ScriptPasses(place, w, s, c);
    ScriptThroughput(place, w, s, c);
    ScriptIsRun(place, script);
    HonestIsShown(place, SetupFor(place), script, r, Waits(elapsed), last);
  }

  lemma HonestIsShown(
    place: Place, setup: Setup, script: Script, r: Attribution.RoundRun, elapsed: seq<Duration>, last: Attribution.Leg)
    requires RanRound(setup, script, place, OutcomeOf(setup, script)) && Conducts(setup, script, r, elapsed, last)
    requires |r.logs| == 3 && NoCollision(r, last) && ReadsBack(setup, script, r) && AuditsGrowth(script, r)
    ensures Honestly(place, Transcribe(place, Executed(OutcomeOf(setup, script))))
  {
    assert HonestlyBy(place, OutcomeOf(setup, script), setup, script, r, elapsed, last);
  }

  lemma ScriptSeesRound(place: Place, elapsed: Duration, r: Attribution.RoundRun)
    requires r.catalogs != [] && r.catalogs[0] == UNTOUCHED
    requires Attribution.FinalCatalog(r) == AfterThree(ConfigFor(place), UNTOUCHED, STORED)
    ensures ReadsBack(SetupFor(place), PassingScript(place, elapsed), r)
    ensures AuditsGrowth(PassingScript(place, elapsed), r)
  {
    ThreeCommits(ConfigFor(place));
  }

  // ---------- the sweep ----------

  function Catalogs(n: nat): seq<CatalogRun> { seq(n, i requires 0 <= i => CatalogRun(Decimal(i), Decimal(i), "1")) }

  /** One conditioning round, then a measured one per catalog. */
  function PolicyOf(n: nat): RoundPolicy { RoundPolicy(1, n) }

  function RoundsOfPlan(n: nat): seq<RoundPlan>
    requires n > 0
  {
    seq(n + 1, i requires 0 <= i => PlanAt(Catalogs(n), PolicyOf(n), i))
  }

  lemma SweepIsPlanned(n: nat)
    requires 0 < n < U32_MAX
    ensures Planned(Catalogs(n), PolicyOf(n), RoundsOfPlan(n))
  {
    DistinctCatalogs(n);
  }

  /** The first catalog swings between one and ten commits a second, the others
      make two in every round. */
  function ElapsedAt(n: nat, place: Place): (e: Duration)
    ensures e >= WINDOW
  {
    if place.catalog.catalog != Decimal(0) then 500_000_000
    else if place.repetition < n / 2 + 2 then 1_000_000_000
    else 100_000_000
  }

  lemma ScriptIsRun(place: Place, script: Script)
    requires Ledgers(script)
    ensures Produced(place, Transcribe(place, Executed(OutcomeOf(SetupFor(place), script))))
  {
    assert RanRound(SetupFor(place), script, place, OutcomeOf(SetupFor(place), script));
  }

  lemma PlaceIsRun(place: Place, elapsed: Duration)
    requires elapsed >= WINDOW
    ensures exists e :: RunsAt(place, elapsed, e)
  {
    var e := PlaceRuns(place, elapsed);
  }

  /** Some such round. */
  ghost function RunOf(place: Place, elapsed: Duration): (e: RoundExecution)
    requires elapsed >= WINDOW
    ensures RunsAt(place, elapsed, e)
  {
    PlaceIsRun(place, elapsed);
    var e :| RunsAt(place, elapsed, e);
    e
  }

  function RateOf(n: nat, j: nat, i: nat): real {
    if j != 0 then 2.0 else if i < n / 2 then 1.0 else 10.0
  }

  lemma ElapsedRate(n: nat, place: Place, j: nat, i: nat)
    requires place.catalog.catalog == Decimal(j) && place.repetition == i + 2
    ensures PerSecond(1, ElapsedAt(n, place)) == RateOf(n, j, i)
  {
    Rates();
    if j != 0 && Decimal(j) == Decimal(0) { DecimalInjective(j, 0); }
  }

  lemma SampleIs(place: Place, e: RoundExecution, rate: real)
    requires MetricOf(e, ConcurrentAcceptedThroughput) == Some(rate)
    ensures Sample(Transcribe(place, Executed(e)), ConcurrentAcceptedThroughput) == rate
  {
  }

  lemma Rates()
    ensures PerSecond(1, 1_000_000_000) == 1.0 && PerSecond(1, 100_000_000) == 10.0 && PerSecond(1, 500_000_000) == 2.0
  {
  }

  // ---------- what each catalog measured ----------

  type Conduct = Place -> RoundOutcome

  function TranscriptsBy(f: Conduct, places: seq<Place>): (r: seq<Transcript>)
    ensures |r| == |places|
  {
    seq(|places|, i requires 0 <= i < |places| => Transcribe(places[i], f(places[i])))
  }

  /** Every place is run and passes. */
  ghost predicate Passes(f: Conduct) {
    forall place: Place :: PassesAt(place, Transcribe(place, f(place)))
  }

  ghost predicate PassesAt(place: Place, t: Transcript) { Produced(place, t) && t.Passed() }

  /** Catalog `j` measures `rate(j, i)` in measured round `i`, which is
      repetition `i + 2`. */
  ghost predicate Measures(f: Conduct, rate: (nat, nat) -> real) {
    forall place: Place, j: nat, i: nat :: MeasuresAt(place, f(place), rate, j, i)
  }

  predicate MeasuresAt(place: Place, outcome: RoundOutcome, rate: (nat, nat) -> real, j: nat, i: nat) {
    place.catalog.catalog == Decimal(j) && place.repetition == i + 2 ==>
      Sample(Transcribe(place, outcome), ConcurrentAcceptedThroughput) == rate(j, i)
  }

  lemma TranscriptsAreRun(f: Conduct, places: seq<Place>)
    requires Passes(f)
    ensures Ran(places, TranscriptsBy(f, places))
    ensures forall t :: t in TranscriptsBy(f, places) ==> t.Passed()
  {
    forall i | 0 <= i < |places| ensures PassesAt(places[i], TranscriptsBy(f, places)[i]) {
      assert TranscriptsBy(f, places)[i] == Transcribe(places[i], f(places[i]));
    }
  }

  lemma TranscriptsAppend(f: Conduct, a: seq<Place>, b: seq<Place>, id: string)
    ensures MeasuredRounds(id, TranscriptsBy(f, a + b))
         == MeasuredRounds(id, TranscriptsBy(f, a)) + MeasuredRounds(id, TranscriptsBy(f, b))
  {
    var x, y := TranscriptsBy(f, a), TranscriptsBy(f, b);
    assert TranscriptsBy(f, a + b) == x + y;
    FilterAppend(RunBy(id), x, y);
    FilterAppend(OfKind(Measured), Filter(RunBy(id), x), Filter(RunBy(id), y));
  }

  lemma OwnRounds(id: string, ts: seq<Transcript>, t: Transcript)
    requires t in MeasuredRounds(id, ts)
    ensures t in ts && t.catalog.catalog == id
  {
    FilterMembers(RunBy(id), ts);
    FilterMembers(OfKind(Measured), Filter(RunBy(id), ts));
  }

  /** A catalog runs once in every measured round and is not measured in the
      conditioning round. */
  lemma RoundHasOne(f: Conduct, n: nat, i: nat, j: nat)
    requires j < n && Passes(f)
    ensures |MeasuredRounds(Decimal(j), TranscriptsBy(f, PlacesOf(PlanAt(Catalogs(n), PolicyOf(n), i))))|
         == if i == 0 then 0 else 1
  {
    var places := PlacesOf(PlanAt(Catalogs(n), PolicyOf(n), i));
    DistinctCatalogs(n);
    RoundSeatsOne(Catalogs(n), PolicyOf(n), i, j, Measured);
    TranscriptsAreRun(f, places);
    PlacesAndTranscripts(places, TranscriptsBy(f, places), Decimal(j), Measured);
  }

  lemma OwnMeasures(f: Conduct, rate: (nat, nat) -> real, places: seq<Place>, i: nat, j: nat, t: Transcript)
    requires Measures(f, rate) && forall p :: 0 <= p < |places| ==> places[p].repetition == i + 2
    requires t in MeasuredRounds(Decimal(j), TranscriptsBy(f, places))
    ensures Sample(t, ConcurrentAcceptedThroughput) == rate(j, i)
  {
    var ts := TranscriptsBy(f, places);
    OwnRounds(Decimal(j), ts, t);
    var p :| 0 <= p < |ts| && ts[p] == t;
    assert t == Transcribe(places[p], f(places[p]));
    assert MeasuresAt(places[p], f(places[p]), rate, j, i);
  }

  lemma PlacesRepeat(round: RoundPlan)
    ensures forall p :: 0 <= p < |PlacesOf(round)| ==> PlacesOf(round)[p].repetition == round.repetition
  {
  }

  lemma RoundMeasures(f: Conduct, rate: (nat, nat) -> real, k: nat, j: nat, round: RoundPlan)
    requires k > 0 && Measures(f, rate) && round.repetition == k + 1
    requires |MeasuredRounds(Decimal(j), TranscriptsBy(f, PlacesOf(round)))| == 1
    ensures RoundRated(f, rate, j, k, round)
  {
    PlacesRepeat(round);
    OwnMeasures(
      f, rate, PlacesOf(round), k - 1, j, MeasuredRounds(Decimal(j), TranscriptsBy(f, PlacesOf(round)))[0]);
  }

  lemma DistinctCatalogs(n: nat)
    ensures DistinctRuns(Catalogs(n))
  {
    forall i, j | 0 <= i < j < n ensures Catalogs(n)[i].catalog != Catalogs(n)[j].catalog {
      if Decimal(i) == Decimal(j) { DecimalInjective(i, j); }
    }
  }

  ghost predicate RatedAt(own: seq<Transcript>, rate: (nat, nat) -> real, j: nat, r: nat) {
    |own| == r && forall i :: 0 <= i < r ==> Sample(own[i], ConcurrentAcceptedThroughput) == rate(j, i)
  }

  lemma RatedNext(a: seq<Transcript>, b: seq<Transcript>, rate: (nat, nat) -> real, j: nat, r: nat)
    requires RatedAt(a, rate, j, r) && |b| == 1 && Sample(b[0], ConcurrentAcceptedThroughput) == rate(j, r)
    ensures RatedAt(a + b, rate, j, r + 1)
  {
  }

  /** Catalog `j` is not measured in the first round of a plan and measures at
      its rate in every later one. */
  ghost predicate RoundsRated(f: Conduct, rate: (nat, nat) -> real, j: nat, rounds: seq<RoundPlan>) {
    && rounds != [] && MeasuredRounds(Decimal(j), TranscriptsBy(f, PlacesOf(rounds[0]))) == []
    && forall k: nat :: 0 < k < |rounds| ==> RoundRated(f, rate, j, k, rounds[k])
  }

  ghost predicate RoundRated(f: Conduct, rate: (nat, nat) -> real, j: nat, k: nat, round: RoundPlan)
    requires k > 0
  {
    var own := MeasuredRounds(Decimal(j), TranscriptsBy(f, PlacesOf(round)));
    |own| == 1 && Sample(own[0], ConcurrentAcceptedThroughput) == rate(j, k - 1)
  }

  lemma {:induction false} MeasuresInOrder(f: Conduct, rate: (nat, nat) -> real, j: nat, rounds: seq<RoundPlan>, r: nat)
    requires RoundsRated(f, rate, j, rounds) && r < |rounds|
    ensures RatedAt(MeasuredRounds(Decimal(j), TranscriptsBy(f, Places(rounds[..r + 1]))), rate, j, r)
  {
    LastPlaces(rounds, r + 1);
    TranscriptsAppend(f, Places(rounds[..r]), PlacesOf(rounds[r]), Decimal(j));
    if r == 0 {
      assert rounds[..0] == [] && TranscriptsBy(f, Places([])) == [];
    } else {
      MeasuresInOrder(f, rate, j, rounds, r - 1);
      assert RoundRated(f, rate, j, r, rounds[r]);
      RatedNext(
        MeasuredRounds(Decimal(j), TranscriptsBy(f, Places(rounds[..r]))),
        MeasuredRounds(Decimal(j), TranscriptsBy(f, PlacesOf(rounds[r]))), rate, j, r - 1);
    }
  }

  function SamplesBy(rate: (nat, nat) -> real, n: nat, j: nat): seq<real> { seq(n, i requires 0 <= i => rate(j, i)) }

  lemma PlanIsRated(f: Conduct, rate: (nat, nat) -> real, n: nat, j: nat, rounds: seq<RoundPlan>)
    requires Planned(Catalogs(n), PolicyOf(n), rounds) && j < n && Passes(f) && Measures(f, rate)
    ensures RoundsRated(f, rate, j, rounds)
  {
    RoundHasOne(f, n, 0, j);
    forall k: nat | 0 < k < |rounds| ensures RoundRated(f, rate, j, k, rounds[k]) {
      RoundHasOne(f, n, k, j);
      RoundMeasures(f, rate, k, j, rounds[k]);
    }
  }

  lemma RatedSamples(own: seq<Transcript>, rate: (nat, nat) -> real, n: nat, j: nat)
    requires RatedAt(own, rate, j, n)
    ensures Samples(own, ConcurrentAcceptedThroughput) == SamplesBy(rate, n, j)
  {
  }

  lemma CatalogSamples(f: Conduct, rate: (nat, nat) -> real, n: nat, j: nat, rounds: seq<RoundPlan>)
    requires RoundsRated(f, rate, j, rounds) && |rounds| == n + 1
    ensures Samples(MeasuredRounds(Decimal(j), TranscriptsBy(f, Places(rounds))), ConcurrentAcceptedThroughput)
         == SamplesBy(rate, n, j)
  {
    assert rounds[..n + 1] == rounds;
    MeasuresInOrder(f, rate, j, rounds, n);
    RatedSamples(MeasuredRounds(Decimal(j), TranscriptsBy(f, Places(rounds))), rate, n, j);
  }

  // ---------- the two medians ----------

  lemma SortedIsKept(s: seq<real>)
    requires Sorted(RealLe, s)
    ensures Sort(RealLe, s) == s
  {
    RealLeIsTotal();
    SortedReals(s);
    SortedUnique(RealLe, Sort(RealLe, s), s);
  }

  lemma SummaryP50(s: seq<real>)
    requires s != []
    ensures Summary(s).quantiles["p50"] == NearestRank(Sort(RealLe, s), 0.5)
  {
    assert "p50"[1] != "p95"[1] && "p50"[1] != "p99"[1];
  }

  lemma SortedAreNonnegative(s: seq<real>)
    requires s != [] && Sorted(RealLe, s) && s[0] >= 0.0
    ensures Rejection(s).None?
  {
    forall i | 0 <= i < |s| ensures s[i] >= 0.0 {
      SortedAt(s, 0, i);
    }
  }

  lemma Reads(s: seq<real>)
    requires s != [] && |s| % 2 == 0 && Sorted(RealLe, s) && s[0] >= 0.0
    ensures Rejection(s).None?
    ensures MedianWithRange(s).value.median == (s[|s| / 2 - 1] + s[|s| / 2]) / 2.0
    ensures Summary(s).quantiles["p50"] == s[|s| / 2 - 1]
  {
    SortedAreNonnegative(s);
    SortedIsKept(s);
    SummaryP50(s);
    RankIndexOfMedian(|s|);
    assert (|s| - 1) / 2 == |s| / 2 - 1;
  }

  function SwingRate(n: nat): (nat, nat) -> real { (j: nat, i: nat) => RateOf(n, j, i) }

  /** Swinging rounds have the higher midpoint and the lower nearest rank. */
  lemma EvenMediansDiffer(n: nat, j: nat)
    requires n > 0 && n % 2 == 0
    ensures var s := SamplesBy(SwingRate(n), n, j);
            && Rejection(s).None?
            && MedianWithRange(s).value.median == (if j == 0 then 5.5 else 2.0)
            && Summary(s).quantiles["p50"] == if j == 0 then 1.0 else 2.0
  {
    var s := SamplesBy(SwingRate(n), n, j);
    assert Sorted(RealLe, s);
    Reads(s);
    assert s[n / 2 - 1] == (if j == 0 then 1.0 else 2.0) && s[n / 2] == if j == 0 then 10.0 else 2.0;
  }

  ghost predicate HonestThroughout(places: seq<Place>, transcripts: seq<Transcript>) {
    |places| == |transcripts| && forall i :: 0 <= i < |places| ==> Honestly(places[i], transcripts[i])
  }

  ghost predicate HonestEverywhere(f: Conduct) {
    forall place: Place :: Honestly(place, Transcribe(place, f(place)))
  }

  /** Every place is run honestly, passes and measures at its rate. */
  ghost predicate Swinging(f: Conduct, n: nat) { Passes(f) && HonestEverywhere(f) && Measures(f, SwingRate(n)) }

  lemma SwingConducts(n: nat) returns (f: Conduct)
    ensures Swinging(f, n)
  {
    f := (place: Place) => Executed(RunOf(place, ElapsedAt(n, place)));
    forall place: Place
      ensures PassesAt(place, Transcribe(place, f(place))) && Honestly(place, Transcribe(place, f(place)))
    {
      assert RunsAt(place, ElapsedAt(n, place), RunOf(place, ElapsedAt(n, place)));
    }
    forall place: Place, j: nat, i: nat ensures MeasuresAt(place, f(place), SwingRate(n), j, i) {
      if place.catalog.catalog == Decimal(j) && place.repetition == i + 2 {
        SampleIs(place, RunOf(place, ElapsedAt(n, place)), PerSecond(1, ElapsedAt(n, place)));
        ElapsedRate(n, place, j, i);
      }
    }
  }

  lemma HonestTranscripts(f: Conduct, places: seq<Place>)
    requires HonestEverywhere(f)
    ensures HonestThroughout(places, TranscriptsBy(f, places))
  {
    var ts := TranscriptsBy(f, places);
    forall i | 0 <= i < |places| ensures Honestly(places[i], ts[i]) {
      assert ts[i] == Transcribe(places[i], f(places[i]));
    }
  }

  // ---------- publishing the sweep ----------

  /** A publication under the canonical scenario. */
  function Canonical(): Publication { Publication(Statement(true, true, (t: Transcript) => true), CANONICAL) }

  function AggregatesOf(
    catalogs: seq<CatalogRun>, policy: RoundPolicy, transcripts: seq<Transcript>): (r: seq<CatalogAggregate>)
    requires forall j :: 0 <= j < |catalogs| ==> AggregateOf(policy, transcripts, catalogs[j]).Ok?
    ensures |r| == |catalogs|
  {
    seq(|catalogs|, j requires 0 <= j < |catalogs| => AggregateOf(policy, transcripts, catalogs[j]).value)
  }

  /** Any planned sweep in which every round passes has a result, in which
      every catalog passes. */
  lemma PassingSweep(f: Conduct, n: nat) returns (w: SweepRun)
    requires 0 < n < U32_MAX && Passes(f)
    ensures Swept(w) && w.catalogs == Catalogs(n) && w.policy == PolicyOf(n) && w.rounds == RoundsOfPlan(n)
    ensures w.transcripts == TranscriptsBy(f, Places(RoundsOfPlan(n)))
    ensures forall j :: 0 <= j < |w.catalogs| ==> w.result.aggregates[j].Passed()
  {
    var catalogs, policy, rounds := Catalogs(n), PolicyOf(n), RoundsOfPlan(n);
    var transcripts := TranscriptsBy(f, Places(rounds));
    SweepIsPlanned(n);
    TranscriptsAreRun(f, Places(rounds));
    SweepAggregates(catalogs, policy, rounds, transcripts);
    var aggregates := AggregatesOf(catalogs, policy, transcripts);
    AllPass(catalogs, policy, rounds, transcripts, aggregates);
    var ranking := AllRanked(aggregates);
    w := SweepRun(catalogs, policy, rounds, transcripts, SweepResult(aggregates, ranking, VerdictOf(aggregates)));
  }

  lemma AllRanked(aggregates: seq<CatalogAggregate>) returns (ranking: seq<RankingEntry>)
    requires forall j :: 0 <= j < |aggregates| ==> aggregates[j].Passed()
    ensures Ranks(aggregates, ranking)
  {
    NoneFail(aggregates);
    ranking := RankedEntries(RankedList(aggregates)) + UnrankedEntries([]);
  }

  lemma AllPass(
    catalogs: seq<CatalogRun>, policy: RoundPolicy, rounds: seq<RoundPlan>, transcripts: seq<Transcript>,
      aggregates: seq<CatalogAggregate>)
    requires Planned(catalogs, policy, rounds) && Ran(Places(rounds), transcripts) && |aggregates| == |catalogs|
    requires forall t :: t in transcripts ==> t.Passed()
    requires forall i :: 0 <= i < |catalogs| ==> Aggregates(policy, transcripts, catalogs[i], aggregates[i])
    ensures forall j :: 0 <= j < |catalogs| ==> aggregates[j].Passed()
  {
    JudgedAll(catalogs, policy, rounds, transcripts, aggregates);
    forall j | 0 <= j < |catalogs| ensures aggregates[j].Passed() {
      FilterMembers(RunBy(catalogs[j].catalog), transcripts);
    }
  }

  lemma NoneFail(aggregates: seq<CatalogAggregate>)
    requires forall j :: 0 <= j < |aggregates| ==> aggregates[j].Passed()
    ensures Filter(NotPassed, aggregates) == []
  {
    FilterNone(NotPassed, aggregates);
  }

  lemma RankedIsMeasurable(w: SweepRun, j: nat)
    requires Swept(w) && j < |w.catalogs| && w.result.aggregates[j].Passed()
    ensures Measurable(MeasuredRounds(w.catalogs[j].catalog, w.transcripts))
    ensures MeasuredRounds(w.catalogs[j].catalog, w.transcripts) != []
  {
    SweptFacts(w, j);
    MeasuredCount(w, j);
    PlacesAndTranscripts(Places(w.rounds), w.transcripts, w.catalogs[j].catalog, Measured);
    FilterMembers(OfKind(Measured), RoundsOf(w, j));
  }

  /** A ranked catalog is published. */
  lemma PassingIsBuildable(w: SweepRun, j: nat)
    requires Swept(w) && j < |w.catalogs| && w.result.aggregates[j].Passed()
    ensures Buildable(w, Canonical(), j)
  {
    RankedIsMeasurable(w, j);
    RankedHolds(w, j, Canonical().statement);
    CanonicalExactly(w, Canonical(), j);
  }

  lemma RankedHolds(w: SweepRun, j: nat, statement: Statement)
    requires Swept(w) && j < |w.catalogs| && w.result.aggregates[j].Passed()
    requires forall t :: statement.negotiated(t)
    ensures Holds(statement, RoundsOf(w, j), CheckHolds(ZeroRequestErrors))
    ensures Holds(statement, RoundsOf(w, j), NegotiationReady)
  {
    SweptFacts(w, j);
    ChecksMeanRanked(w, j, statement);
  }

  /** A sweep in which all catalogs pass is published without any review. */
  lemma PassingSweepIsPublished(w: SweepRun) returns (built: seq<Record>)
    requires Swept(w) && forall j :: 0 <= j < |w.catalogs| ==> w.result.aggregates[j].Passed()
    ensures Published(w, Canonical(), [], built, built) && |built| == |w.catalogs|
    ensures forall j :: 0 <= j < |built| ==> Reflects(w, j, built[j])
  {
    assert FailedCatalogs(w.result.aggregates) == {} && ReviewedIds([]) == {};
    forall j | 0 <= j < |w.catalogs| ensures Buildable(w, Canonical(), j) {
      PassingIsBuildable(w, j);
    }
    GeneratesExactly(w, Canonical(), []);
    built := Generated(Canonical(), [], w.transcripts, w.result).value;
  }

  // ---------- the rows differ ----------

  lemma PublishedKey(samples: seq<real>, r: Record)
    requires Rejection(samples).None? && DistributionOf(samples) == Ok(r.throughput)
    ensures RecordKey(r).throughput == Summary(samples).quantiles["p50"]
  {
  }

  lemma RankedKey(w: SweepRun, j: nat, samples: seq<real>)
    requires Swept(w) && j < |w.catalogs| && w.result.aggregates[j].Passed()
    requires Samples(MeasuredRounds(w.catalogs[j].catalog, w.transcripts), ConcurrentAcceptedThroughput) == samples
    ensures MedianWithRange(samples).Ok? &&
            KeyOf(w.result.aggregates[j]).throughput == MedianWithRange(samples).value.median
  {
    SweptFacts(w, j);
    MeasuredMedian(w.policy, RoundsOf(w, j), w.result.aggregates[j], ConcurrentAcceptedThroughput);
  }

  /** Swinging is ranked by the midpoint and published by the nearest rank. */
  lemma SwingKeys(w: SweepRun, n: nat, j: nat, r: Record)
    requires Swept(w) && 0 < n && n % 2 == 0 && j < n == |w.catalogs| && w.catalogs[j].catalog == Decimal(j)
    requires w.result.aggregates[j].Passed()
    requires Samples(MeasuredRounds(Decimal(j), w.transcripts), ConcurrentAcceptedThroughput) ==
             SamplesBy(SwingRate(n), n, j)
    requires DistributionOf(SamplesBy(SwingRate(n), n, j)) == Ok(r.throughput)
    ensures KeyOf(w.result.aggregates[j]).throughput == if j == 0 then 5.5 else 2.0
    ensures RecordKey(r).throughput == if j == 0 then 1.0 else 2.0
  {
    EvenMediansDiffer(n, j);
    RankedKey(w, j, SamplesBy(SwingRate(n), n, j));
    PublishedKey(SamplesBy(SwingRate(n), n, j), r);
  }

  lemma HighestFirst(aggregates: seq<CatalogAggregate>, ranking: seq<RankingEntry>, j: nat)
    requires Classified(aggregates) && Ranks(aggregates, ranking) && j < |aggregates| && aggregates[j].Passed()
    requires forall i :: 0 <= i < |aggregates| && aggregates[i] != aggregates[j] ==>
               KeyOf(aggregates[i]).throughput < KeyOf(aggregates[j]).throughput
    ensures |ranking| > 0 && ranking[0].catalog == aggregates[j].catalog
  {
    var ranked := RankedList(aggregates);
    EntriesAreListed(aggregates, ranking);
    RankedAreSorted(aggregates);
    FilterMembers(HasMeasurements, aggregates);
    SortPermutes(RanksBefore, Filter(HasMeasurements, aggregates));
    SameElements(ranked, Filter(HasMeasurements, aggregates));
    assert aggregates[j] in ranked;
    var k :| 0 <= k < |ranked| && ranked[k] == aggregates[j];
    assert k > 0 ==> Before(KeyOf(ranked[0]), KeyOf(ranked[k]));
    var i :| 0 <= i < |aggregates| && aggregates[i] == ranked[0];
  }

  lemma LowestNotFirst(records: seq<Record>, low: Record, high: Record)
    requires low in records && high in records && low.passed && high.passed
    requires RecordKey(low).throughput < RecordKey(high).throughput
    ensures |PassRows(records)| > 0 && PassRows(records)[0] != low
  {
    var rows := PassRows(records);
    RowsAreSorted(records);
    FilterMembers(IsPass, records);
    SameElements(rows, Filter(IsPass, records));
    assert high in rows;
    var k :| 0 <= k < |rows| && rows[k] == high;
    var keys := Map(RecordKey, rows);
    assert k > 0 ==> Before(keys[0], keys[k]);
  }

  /** For every even number of measured rounds some sweep of honest rounds is
      published with a matrix whose first row is not the catalog its transcript
      ranks first. */
  lemma EvenRoundsDisagree(n: nat) returns (w: SweepRun, publication: Publication, built: seq<Record>)
    requires 0 < n <= U32_MAX && n % 2 == 0
    ensures w.policy.measured == n && w.policy.conditioning > 0 && publication.specs == CANONICAL
    ensures Published(w, publication, [], built, built)
    ensures HonestThroughout(Places(w.rounds), w.transcripts) && FirstRowDiffers(built, w.result.ranking)
  {
    EvenBounds(n);
    publication := Canonical();
    w, built := PublishedSwing(n);
  }

  lemma EvenBounds(n: nat)
    requires 0 < n <= U32_MAX && n % 2 == 0
    ensures 1 < n < U32_MAX
  {
  }

  /** The first row is not the catalog ranked first. */
  predicate FirstRowDiffers(records: seq<Record>, ranking: seq<RankingEntry>) {
    && PassRows(records) != [] && ranking != []
    && PassRows(records)[0].component != ranking[0].catalog.catalog
  }

  lemma PublishedSwing(n: nat) returns (w: SweepRun, built: seq<Record>)
    requires 1 < n < U32_MAX && n % 2 == 0
    ensures w.policy == PolicyOf(n) && Published(w, Canonical(), [], built, built)
    ensures HonestThroughout(Places(w.rounds), w.transcripts) && FirstRowDiffers(built, w.result.ranking)
  {
    var f := SwingConducts(n);
    w := PassingSweep(f, n);
    HonestTranscripts(f, Places(w.rounds));
    built := PassingSweepIsPublished(w);
    SwingIsShown(w, f, n, built);
    ShownRowsDiffer(w, n, built);
  }

  predicate SwungBy(w: SweepRun, f: Conduct, n: nat) {
    && n > 0 && w.policy == PolicyOf(n) && w.catalogs == Catalogs(n) && w.rounds == RoundsOfPlan(n)
    && w.transcripts == TranscriptsBy(f, Places(w.rounds))
  }

  lemma ShownRowsDiffer(w: SweepRun, n: nat, built: seq<Record>)
    requires Swept(w) && n > 1 && Swings(n, w.result.aggregates, built)
    ensures FirstRowDiffers(built, w.result.ranking)
  {
    SweptFacts(w, 0);
    FirstRowsDiffer(n, w.result.aggregates, w.result.ranking, built);
  }

  /** What is known of each catalog of the swinging sweep. */
  ghost predicate Swings(n: nat, aggregates: seq<CatalogAggregate>, built: seq<Record>) {
    && |aggregates| == |built| == n
    && forall j :: 0 <= j < n ==> SwingsAt(j, aggregates[j], built[j])
  }

  ghost predicate SwingsAt(j: nat, a: CatalogAggregate, r: Record) {
    && a.Passed() && a.catalog.catalog == Decimal(j) && r.passed && r.component == Decimal(j)
    && KeyOf(a).throughput == (if j == 0 then 5.5 else 2.0)
    && RecordKey(r).throughput == (if j == 0 then 1.0 else 2.0)
  }

  lemma SwingIsShown(w: SweepRun, f: Conduct, n: nat, built: seq<Record>)
    requires Swept(w) && SwungBy(w, f, n) && Swinging(f, n) && n % 2 == 0 && |built| == |w.catalogs|
    requires forall j :: 0 <= j < |w.catalogs| ==> w.result.aggregates[j].Passed()
    requires forall j :: 0 <= j < |built| ==> Reflects(w, j, built[j])
    ensures Swings(n, w.result.aggregates, built)
  {
    forall j | 0 <= j < n ensures SwingsAt(j, w.result.aggregates[j], built[j]) {
      SwingIsShownAt(w, f, n, j, built[j]);
    }
  }

  lemma SwingIsShownAt(w: SweepRun, f: Conduct, n: nat, j: nat, r: Record)
    requires Swept(w) && SwungBy(w, f, n) && Swinging(f, n) && n % 2 == 0 && j < n
    requires w.result.aggregates[j].Passed() && Reflects(w, j, r)
    ensures SwingsAt(j, w.result.aggregates[j], r)
  {
    PlanIsRated(f, SwingRate(n), n, j, w.rounds);
    CatalogSamples(f, SwingRate(n), n, j, w.rounds);
    SwingKeys(w, n, j, r);
    SweptFacts(w, j);
  }

  lemma FirstRowsDiffer(n: nat, aggregates: seq<CatalogAggregate>, ranking: seq<RankingEntry>, built: seq<Record>)
    requires n > 1 && Classified(aggregates) && Ranks(aggregates, ranking) && Swings(n, aggregates, built)
    ensures FirstRowDiffers(built, ranking)
  {
    assert SwingsAt(0, aggregates[0], built[0]) && SwingsAt(1, aggregates[1], built[1]);
    forall i | 0 <= i < n && aggregates[i] != aggregates[0]
      ensures KeyOf(aggregates[i]).throughput < KeyOf(aggregates[0]).throughput
    {
      assert SwingsAt(i, aggregates[i], built[i]);
    }
    HighestFirst(aggregates, ranking, 0);
    LowestNotFirst(built, built[0], built[1]);
    OthersHaveOtherIds(built);
  }

  lemma OthersHaveOtherIds(built: seq<Record>)
    requires |built| > 1 && PassRows(built) != [] && PassRows(built)[0] != built[0]
    requires forall j :: 0 <= j < |built| ==> built[j].component == Decimal(j)
    ensures PassRows(built)[0].component != Decimal(0)
  {
    var rows := PassRows(built);
    RowsAreSorted(built);
    FilterMembers(IsPass, built);
    SameElements(rows, Filter(IsPass, built));
    assert rows[0] in rows;
    var j :| 0 <= j < |built| && built[j] == rows[0];
    if Decimal(j) == Decimal(0) { DecimalInjective(j, 0); }
  }

  // ---------- exactly the odd counts ----------

  /** Every published sweep with conditioning and `n` measured rounds shows its
      ranking. */
  ghost predicate MatrixShowsRanking(n: nat) {
    forall w, publication, review, built, records ::
      Published(w, publication, review, built, records) && w.policy.conditioning > 0 && w.policy.measured == n ==>
        RowsAgree(records, w.result.ranking)
  }

  /** The matrix can be trusted to show the ranking, row for row, if and only if
      the number of measured rounds is odd. */
  lemma RowsAgreeExactlyForOddCounts(n: nat)
    requires 0 < n <= U32_MAX
    ensures MatrixShowsRanking(n) <==> n % 2 == 1
  {
    if n % 2 == 1 {
      forall w, publication, review, built, records
        | Published(w, publication, review, built, records) && w.policy.conditioning > 0 && w.policy.measured == n
        ensures RowsAgree(records, w.result.ranking)
      {
        MatrixAgreesWithRanking(w, publication, review, built, records);
      }
    } else {
      var w, publication, built := EvenRoundsDisagree(n);
      assert !RowsAgree(built, w.result.ranking);
    }
  }
}
