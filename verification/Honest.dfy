/** End to end: a round against a catalog in which accepted commits take
    effect, conflicts never do and errors may go either way. */
module Honest {
  import opened Ordering
  import opened Identity
  import opened Ledger
  import opened Statistics
  import opened Contention
  import opened Phases
  import opened Attribution
  import opened Writers
  import opened Round
  import opened RoundLaws

  function PhaseOf(script: Script, i: nat): PhaseResult {
    if i == 0 then script.warmup else if i == 1 then script.sequential else script.concurrent
  }

  /** Phase `n` ran to completion on the catalog the earlier ones left, and failed. */
  ghost predicate Breaks(r: RoundRun, leg: Leg, result: PhaseResult)
    requires |r.catalogs| == |r.logs| + 1
  {
    var ctx := LegContext(r, leg);
    && leg.plan == PlanOf(r.config, |r.logs|, leg.now) && Completes(ctx, leg, FinalCatalog(r))
    && var s := Ending(ctx, leg, FinalCatalog(r));
    && |s.clients| == ClientCount(ctx.plan) && (forall i :: 0 <= i < |s.joined| ==> s.joined[i] < |s.clients|)
    && Gathered(ctx, s).Err? && result == Err(Gathered(ctx, s).error)
  }

  /** The phases of `script` were conducted against an honest catalog: those of
      `r` gathered their logs and were closed over them, each started only
      after the one before was closed without error, and if a further phase
      was started it broke on `last`. */
  ghost predicate Conducts(setup: Setup, script: Script, r: RoundRun, elapsed: seq<Duration>, last: Leg) {
    && Happens(r) && |elapsed| == |r.logs| && setup.config == r.config && setup.digest == r.digest
    && (forall i :: 0 <= i < |r.logs| ==> PhaseOf(script, i) == Closed(r.logs[i], elapsed[i]))
    && (forall i :: 0 <= i < |r.logs| - 1 ==> PhaseOf(script, i).Ok?)
    && (|r.logs| < 3 && (forall i :: 0 <= i < |r.logs| ==> PhaseOf(script, i).Ok?) ==>
       Breaks(r, last, PhaseOf(script, |r.logs|)))
  }

  /** SHA-256 does not collide on the identities this round used. */
  ghost predicate NoCollision(r: RoundRun, last: Leg)
    requires |r.catalogs| == |r.logs| + 1
  {
    && CollisionFree(r.digest, FinalCatalog(r).responses.Keys)
    && (|r.logs| < 3 && Completes(LegContext(r, last), last, FinalCatalog(r)) ==>
          CollisionFree(r.digest, Ending(LegContext(r, last), last, FinalCatalog(r)).issued))
  }

  /** The ways an honest phase can end without evidence: a panic, a sequence or
      counter beyond 64 bits, or a clock that did not advance. */
  predicate CutShort(result: PhaseResult) {
    result.Err? && (Interruption(result.error) || result.error == Model(ModelError.Statistics(ZeroElapsed)))
  }

  lemma ClosedCounts(log: seq<Entry>, elapsed: Duration)
    requires Closed(log, elapsed).Ok?
    ensures Closed(log, elapsed).value.0.counts == CountsOf(log) && Closed(log, elapsed).value.1 == AcceptedDigests(log)
  {
  }

  lemma ClosingStops(log: seq<Entry>, elapsed: Duration)
    ensures Closed(log, elapsed).Err? ==> CutShort(Closed(log, elapsed))
  {
  }

  /** A phase of an honest round fails only in one of those ways. */
  lemma HonestPhasesFailRarely(setup: Setup, script: Script, r: RoundRun, elapsed: seq<Duration>, last: Leg, i: nat)
    requires Conducts(setup, script, r, elapsed, last) && NoCollision(r, last)
    requires i < 3 && forall j :: 0 <= j < i ==> PhaseOf(script, j).Ok?
    ensures PhaseOf(script, i).Err? ==> CutShort(PhaseOf(script, i))
    ensures PhaseOf(script, i).Ok? ==> i < |r.logs|
  {
    if i < |r.logs| {
      ClosingStops(r.logs[i], elapsed[i]);
    } else {
      assert Breaks(r, last, PhaseOf(script, |r.logs|));
      NextPhase(r, last);
    }
  }

  lemma NotStopped(setup: Setup, script: Script, r: RoundRun, elapsed: seq<Duration>, last: Leg)
    requires Conducts(setup, script, r, elapsed, last) && NoCollision(r, last)
    requires forall i :: 0 <= i < 3 ==> !CutShort(PhaseOf(script, i))
    ensures |r.logs| == 3 && forall i :: 0 <= i < 3 ==> PhaseOf(script, i).Ok?
  {
    HonestPhasesFailRarely(setup, script, r, elapsed, last, 0);
    HonestPhasesFailRarely(setup, script, r, elapsed, last, 1);
    HonestPhasesFailRarely(setup, script, r, elapsed, last, 2);
  }

  lemma PhasesTell(setup: Setup, script: Script, r: RoundRun, elapsed: seq<Duration>, last: Leg)
    requires Conducts(setup, script, r, elapsed, last)
    requires |r.logs| == 3 && forall i :: 0 <= i < 3 ==> PhaseOf(script, i).Ok?
    ensures script.warmup.Ok? && script.sequential.Ok? && script.concurrent.Ok?
    ensures script.warmup.value.0.counts == CountsOf(r.logs[0]) && script.warmup.value.1 == AcceptedDigests(r.logs[0])
    ensures script.sequential.value.0.counts == CountsOf(r.logs[1]) &&
            script.sequential.value.1 == AcceptedDigests(r.logs[1])
    ensures script.concurrent.value.0.counts == CountsOf(r.logs[2]) &&
            script.concurrent.value.1 == AcceptedDigests(r.logs[2])
  {
    assert PhaseOf(script, 0) == script.warmup && PhaseOf(script, 1) == script.sequential &&
           PhaseOf(script, 2) == script.concurrent;
    ClosedCounts(r.logs[0], elapsed[0]);
    ClosedCounts(r.logs[1], elapsed[1]);
    ClosedCounts(r.logs[2], elapsed[2]);
  }

  lemma RoundStaysDisjoint(r: RoundRun)
    requires Happens(r) && |r.logs| == 3 && CollisionFree(r.digest, FinalCatalog(r).responses.Keys)
    ensures AcceptedDigests(r.logs[0]) !! AcceptedDigests(r.logs[1])
    ensures AcceptedDigests(r.logs[0]) + AcceptedDigests(r.logs[1]) !! AcceptedDigests(r.logs[2])
  {
    ResponsesStay(r, 2, 3);
    PhasesExtendWithoutDuplicates(r, 1);
    PhasesExtendWithoutDuplicates(r, 2);
    ThreeLogs(r);
  }

  lemma PhasesClear(setup: Setup, script: Script, r: RoundRun, elapsed: seq<Duration>, last: Leg)
    requires Conducts(setup, script, r, elapsed, last) && NoCollision(r, last)
    requires |r.logs| == 3 && forall i :: 0 <= i < 3 ==> PhaseOf(script, i).Ok?
    ensures Cleared(script, 4) && Cleared(script, 5) && Cleared(script, 6)
  {
    PhasesTell(setup, script, r, elapsed, last);
    RoundStaysDisjoint(r);
  }

  lemma ThreeLogs(r: RoundRun)
    requires |r.logs| == 3
    ensures AcceptedDigests(LogUpTo(r.logs, 1)) == AcceptedDigests(r.logs[0])
    ensures AcceptedDigests(LogUpTo(r.logs, 2)) == AcceptedDigests(r.logs[0]) + AcceptedDigests(r.logs[1])
    ensures AcceptedDigests(WholeLog(r)) ==
            AcceptedDigests(r.logs[0]) + AcceptedDigests(r.logs[1]) + AcceptedDigests(r.logs[2])
    ensures AcceptedCount(r) ==
            CountsOf(r.logs[0]).accepted + CountsOf(r.logs[1]).accepted + CountsOf(r.logs[2]).accepted
    ensures ErrorCount(r) == CountsOf(r.logs[0]).errors + CountsOf(r.logs[1]).errors + CountsOf(r.logs[2]).errors
  {
    OneMoreLog(r.logs, 0);
    OneMoreLog(r.logs, 1);
    OneMoreLog(r.logs, 2);
  }

  lemma OneMoreLog(logs: seq<seq<Entry>>, i: nat)
    requires i < |logs|
    ensures AcceptedDigests(LogUpTo(logs, i + 1)) == AcceptedDigests(LogUpTo(logs, i)) + AcceptedDigests(logs[i])
    ensures CountsOf(LogUpTo(logs, i + 1)).accepted == CountsOf(LogUpTo(logs, i)).accepted + CountsOf(logs[i]).accepted
    ensures CountsOf(LogUpTo(logs, i + 1)).errors == CountsOf(LogUpTo(logs, i)).errors + CountsOf(logs[i]).errors
  {
    var before := LogUpTo(logs, i);
    AppendDigests(before, logs[i]);
    FilterAppend(IsAccepted, before, logs[i]);
    FilterAppend(IsError, before, logs[i]);
  }

  /** Unless a writer panics, a counter leaves 64 bits or a clock stands still,
      the phases never stop an honest round: once the table is usable it
      reaches its final load, and its end if that is answered. */
  lemma HonestRoundRunsThrough(setup: Setup, script: Script, r: RoundRun, elapsed: seq<Duration>, last: Leg)
    requires Conducts(setup, script, r, elapsed, last) && NoCollision(r, last) && Through(script, 4)
    requires forall i :: 0 <= i < 3 ==> !CutShort(PhaseOf(script, i))
    ensures |r.logs| == 3 && Reach(script) == if script.load.Ok? then 8 else 7
  {
    NotStopped(setup, script, r, elapsed, last);
    PhasesClear(setup, script, r, elapsed, last);
  }

  /** The final load read the property the phases left. */
  ghost predicate ReadsBack(setup: Setup, script: Script, r: RoundRun)
    requires r.catalogs != []
  {
    script.load.Ok? && PropertyOf(setup, script.load.value) == FinalCatalog(r).property
  }

  /** The audits saw the table before and after, and each accepted commit left
      a metadata object that was not lost. */
  ghost predicate AuditsGrowth(script: Script, r: RoundRun)
    requires r.catalogs != []
  {
    && script.baseline.Ok? && script.baseline.value.metadataObjects == MetadataCount(r.catalogs[0].objects)
    && script.finalAudit.Ok? && script.finalAudit.value.metadataObjects >= MetadataCount(FinalCatalog(r).objects)
    && Persists(FinalCatalog(r))
  }

  lemma AuditedGrowth(setup: Setup, script: Script, r: RoundRun, elapsed: seq<Duration>, last: Leg)
    requires Conducts(setup, script, r, elapsed, last) && NoCollision(r, last) && AuditsGrowth(script, r)
    requires |r.logs| == 3 && forall i :: 0 <= i < 3 ==> PhaseOf(script, i).Ok?
    requires script.warmup.Ok? && script.sequential.Ok? && script.concurrent.Ok? && RequiredGrowth(script) <= U64_MAX
    ensures var g := GrowthOf(script.baseline.value.metadataObjects, script.finalAudit.value.metadataObjects,
            RequiredGrowth(script));
            g.Succeeded? && g.output.sufficient
  {
    PhasesTell(setup, script, r, elapsed, last);
    ThreeLogs(r);
    HonestGrowth(r);
  }

  lemma AttributedProperty(setup: Setup, script: Script, r: RoundRun, elapsed: seq<Duration>, last: Leg)
    requires Conducts(setup, script, r, elapsed, last) && NoCollision(r, last) && ReadsBack(setup, script, r)
    requires |r.logs| == 3 && forall i :: 0 <= i < 3 ==> PhaseOf(script, i).Ok?
    requires ErrorCount(r) == 0 && AcceptedCount(r) > 0
    ensures var p := PropertyOf(setup, script.load.value);
            && p.Some? && script.warmup.Ok? && script.sequential.Ok? && script.concurrent.Ok?
            && setup.digest(p.value) in script.warmup.value.1 + script.sequential.value.1 + script.concurrent.value.1
  {
    PhasesTell(setup, script, r, elapsed, last);
    ThreeLogs(r);
    HonestRound(r);
  }

  predicate Accounted(e: RoundExecution) {
    e.checks.warmupAccounted && e.checks.sequentialAccounted && e.checks.zeroRequestErrors &&
      e.checks.concurrentProgress
  }

  lemma AccountedCounts(setup: Setup, script: Script, r: RoundRun, elapsed: seq<Duration>, last: Leg)
    requires Conducts(setup, script, r, elapsed, last) && NoCollision(r, last) && Reach(script) == 8
    requires |r.logs| == 3 && forall i :: 0 <= i < 3 ==> PhaseOf(script, i).Ok?
    requires Accounted(OutcomeOf(setup, script))
    ensures ErrorCount(r) == 0 && AcceptedCount(r) > 0
  {
    PhasesTell(setup, script, r, elapsed, last);
    ThreeLogs(r);
    OutcomeAtEnd(setup, script);
    ChecksRead(setup, script);
  }

  /** An honest catalog is never blamed. Whatever its effects store, accounted
      phases make the round attribute the final property to an accepted
      request. */
  lemma HonestRoundIsAttributed(setup: Setup, script: Script, r: RoundRun, elapsed: seq<Duration>, last: Leg)
    requires Conducts(setup, script, r, elapsed, last) && NoCollision(r, last) && Through(script, 4)
    requires (forall i :: 0 <= i < 3 ==> !CutShort(PhaseOf(script, i))) && ReadsBack(setup, script, r)
    ensures var e := OutcomeOf(setup, script);
            && e.finalTable.Succeeded?
            && (Accounted(e) ==>
                  e.finalTable.output.attribution.propertyPresent && e.finalTable.output.attribution.belongsToAccepted)
  {
    HonestRoundRunsThrough(setup, script, r, elapsed, last);
    NotStopped(setup, script, r, elapsed, last);
    OutcomeAtEnd(setup, script);
    if Accounted(OutcomeOf(setup, script)) {
      AccountedCounts(setup, script, r, elapsed, last);
      AttributedProperty(setup, script, r, elapsed, last);
    }
  }

  /** And if each accepted commit left a metadata object, growth is sufficient. */
  lemma HonestRoundGrows(setup: Setup, script: Script, r: RoundRun, elapsed: seq<Duration>, last: Leg)
    requires Conducts(setup, script, r, elapsed, last) && NoCollision(r, last) && Through(script, 4)
    requires (forall i :: 0 <= i < 3 ==> !CutShort(PhaseOf(script, i))) && script.load.Ok? && AuditsGrowth(script, r)
    ensures Reach(script) == 8
    ensures var e := OutcomeOf(setup, script);
            RequiredGrowth(script) <= U64_MAX ==> e.metadataGrowth.Succeeded? && e.metadataGrowth.output.sufficient
  {
    HonestRoundRunsThrough(setup, script, r, elapsed, last);
    NotStopped(setup, script, r, elapsed, last);
    OutcomeAtEnd(setup, script);
    if RequiredGrowth(script) <= U64_MAX { AuditedGrowth(setup, script, r, elapsed, last); }
  }

  // ---------- such rounds exist ----------

  /** The first commit of phase `i`. */
  function FirstSlot(i: nat): Slot {
    if i == 0 then Slot(Warmup, None, 0) else if i == 1 then Slot(Sequential, None, 0)
    else Slot(Concurrent, Some(0), 0)
  }

  function FirstId(config: RoundConfig, i: nat): string { RequestIdentity(config, FirstSlot(i)) }

  /** The log of a phase whose only commit was accepted after `wait`. */
  function OneEntry(digest: Digest, wait: nat): seq<Entry> { [Entry(digest, wait, Accepted)] }

  /** The catalog after an accepted commit that stored one object. */
  function AfterCommit(before: Catalog, id: string, stored: StoredObject): Catalog {
    Applied(before, id, [stored]).(responses := before.responses[id := Accepted])
  }

  /** One client commits once, is accepted after a while, and stops. */
  function OneCommit(stored: StoredObject, wait: nat): seq<Step> {
    Committing(stored, wait) + Leaving()
  }

  function Committing(stored: StoredObject, wait: nat): seq<Step> {
    [Issue(0), Tick(wait), Apply(0, [stored]), Respond(0, Accepted)]
  }

  function Leaving(): seq<Step> { [Stop(0), Join(0)] }

  lemma Unroll(ctx: Context, s: State, steps: seq<Step>)
    requires steps != [] && Enabled(ctx, s, steps[0]) && Runs(ctx, Do(ctx, s, steps[0]), steps[1..])
    ensures Runs(ctx, s, steps) && After(ctx, s, steps) == After(ctx, Do(ctx, s, steps[0]), steps[1..])
  {
  }

  lemma {:induction false} RunsTo(ctx: Context, states: seq<State>, steps: seq<Step>)
    requires |states| == |steps| + 1
    requires forall i :: 0 <= i < |steps| ==>
             Enabled(ctx, states[i], steps[i]) && Do(ctx, states[i], steps[i]) == states[i + 1]
    ensures Runs(ctx, states[0], steps) && After(ctx, states[0], steps) == states[|steps|]
    decreases |steps|
  {
    if steps != [] {
      RunsTo(ctx, states[1..], steps[1..]);
      Unroll(ctx, states[0], steps);
    }
  }

  function OneDone(ctx: Context, now: nat, after: Catalog, wait: nat): State {
    var id := Id(ctx, 0, 0);
    State(now, after, {id}, [Client(Stopped, 1, OneEntry(ctx.digest(id), wait))], [0])
  }

  function OneAnswered(ctx: Context, now: nat, after: Catalog, wait: nat): State {
    var id := Id(ctx, 0, 0);
    State(now, after, {id}, [Client(Idle, 1, OneEntry(ctx.digest(id), wait))], [])
  }

  lemma OneCommits(ctx: Context, now: nat, before: Catalog, stored: StoredObject, wait: nat)
    requires ClientCount(ctx.plan) == 1 && MayIssue(ctx.plan, now, 0) && wait > 0
    ensures Runs(ctx, Start(ctx, now, before), Committing(stored, wait))
    ensures After(ctx, Start(ctx, now, before), Committing(stored, wait))
         == OneAnswered(ctx, now + wait, AfterCommit(before, Id(ctx, 0, 0), stored), wait)
  {
    var id := Id(ctx, 0, 0);
    var s0 := State(now, before, {}, [Client(Idle, 0, [])], []);
    var s1 := State(now, before, {id}, [Client(Waiting(now, false), 0, [])], []);
    var s2 := s1.(now := now + wait);
    var s3 := State(now + wait, Applied(before, id, [stored]), {id}, [Client(Waiting(now, true), 0, [])], []);
    assert Start(ctx, now, before) == s0;
    assert Do(ctx, s0, Issue(0)) == s1 && Do(ctx, s2, Apply(0, [stored])) == s3;
    OneAnswer(ctx, s3, wait, AfterCommit(before, id, stored));
    RunsTo(
      ctx, [s0, s1, s2, s3, OneAnswered(ctx, now + wait, AfterCommit(before, id, stored), wait)],
      Committing(stored, wait));
  }

  lemma OneAnswer(ctx: Context, s: State, wait: nat, after: Catalog)
    requires wait <= s.now && s.clients == [Client(Waiting(s.now - wait, true), 0, [])]
    requires after == s.catalog.(responses := s.catalog.responses[Id(ctx, 0, 0) := Accepted])
    ensures Enabled(ctx, s, Respond(0, Accepted))
    ensures Do(ctx, s, Respond(0, Accepted))
         == s.(clients := [Client(Idle, 1, OneEntry(ctx.digest(Id(ctx, 0, 0)), wait))], catalog := after)
  {
    assert [] + OneEntry(ctx.digest(Id(ctx, 0, 0)), wait) == OneEntry(ctx.digest(Id(ctx, 0, 0)), wait);
    assert s.catalog.late + {} == s.catalog.late;
  }

  lemma OneLeaves(ctx: Context, now: nat, after: Catalog, wait: nat)
    requires ClientCount(ctx.plan) == 1 && !MayIssue(ctx.plan, now, 1)
    ensures Runs(ctx, OneAnswered(ctx, now, after, wait), Leaving())
    ensures After(ctx, OneAnswered(ctx, now, after, wait), Leaving()) == OneDone(ctx, now, after, wait)
  {
    var s0 := OneAnswered(ctx, now, after, wait);
    var s1 := s0.(clients := [Client(Stopped, 1, OneEntry(ctx.digest(Id(ctx, 0, 0)), wait))]);
    assert Do(ctx, s0, Stop(0)) == s1;
    RunsTo(ctx, [s0, s1, OneDone(ctx, now, after, wait)], Leaving());
  }

  lemma {:induction false} RunsOn(ctx: Context, s: State, a: seq<Step>, b: seq<Step>)
    requires Runs(ctx, s, a) && Runs(ctx, After(ctx, s, a), b)
    ensures Runs(ctx, s, a + b) && After(ctx, s, a + b) == After(ctx, After(ctx, s, a), b)
    decreases |a|
  {
    if a == [] {
      assert a + b == b;
    } else {
      assert (a + b)[1..] == a[1..] + b && (a + b)[0] == a[0];
      RunsOn(ctx, Do(ctx, s, a[0]), a[1..], b);
    }
  }

  /** Each single-commit phase runs to completion and succeeds. */
  lemma OneCommitSucceeds(ctx: Context, leg: Leg, before: Catalog, stored: StoredObject, wait: nat)
    requires WellFormed(ctx) && ctx.plan == leg.plan && ClientCount(ctx.plan) == 1 && wait > 0
    requires MayIssue(ctx.plan, leg.now, 0) && !MayIssue(ctx.plan, leg.now + wait, 1)
    requires leg.steps == OneCommit(stored, wait)
    ensures Succeeds(ctx, leg, before, OneEntry(ctx.digest(Id(ctx, 0, 0)), wait),
                     AfterCommit(before, Id(ctx, 0, 0), stored))
  {
    var after := AfterCommit(before, Id(ctx, 0, 0), stored);
    OneCommits(ctx, leg.now, before, stored, wait);
    OneLeaves(ctx, leg.now + wait, after, wait);
    RunsOn(ctx, Start(ctx, leg.now, before), Committing(stored, wait), Leaving());
    OneGathered(ctx, OneDone(ctx, leg.now + wait, after, wait), OneEntry(ctx.digest(Id(ctx, 0, 0)), wait));
  }

  lemma OneGathered(ctx: Context, s: State, log: seq<Entry>)
    requires ClientCount(ctx.plan) == 1 && s.clients == [Client(Stopped, 1, log)] && s.joined == [0] && |log| == 1
    requires log[0].outcome == Accepted
    ensures Gathered(ctx, s) == Ok(log) && AllJoined(s)
  {
    var results: seq<WriterResult> := [Ok(log)];
    assert ResultsOf(s.clients, s.joined) == results;
    assert results[..0] == [] && JoinAll([]) == Joining([], None);
    assert log[..0] == [] && Project([]) == EMPTY;
    assert MergeFailure(Project([]), Project(log)).None?;
    assert [] + log == log;
    assert 0 in s.joined;
  }

  /** A round of single commits goes on with one more. */
  lemma OneMorePhase(before: RoundRun, stored: StoredObject, now: nat, wait: nat) returns (r: RoundRun)
    requires Happens(before) && |before.logs| < 3 && 0 < wait
    requires before.config.warmupCommits == 1 && before.config.sequentialCommits == 1 &&
             before.config.concurrentWriters == 1
    requires |before.logs| == 2 ==> 0 < before.config.concurrentDuration <= wait
    ensures Happens(r) && r.config == before.config && r.digest == before.digest && r.catalogs[0] == before.catalogs[0]
    ensures var id := FirstId(before.config, |before.logs|);
            && r.logs == before.logs + [OneEntry(before.digest(id), wait)]
            && FinalCatalog(r) == AfterCommit(FinalCatalog(before), id, stored)
  {
    var leg := Leg(PlanOf(before.config, |before.logs|, now), now, OneCommit(stored, wait));
    var ctx, last, id := LegContext(before, leg), FinalCatalog(before), FirstId(before.config, |before.logs|);
    assert Id(ctx, 0, 0) == id;
    OneCommitSucceeds(ctx, leg, last, stored, wait);
    RoundGoesOn(before, leg, OneEntry(before.digest(id), wait), AfterCommit(last, id, stored));
    r := Extended(before, leg, OneEntry(before.digest(id), wait), AfterCommit(last, id, stored));
  }

  /** What three such commits leave behind. */
  function AfterThree(config: RoundConfig, before: Catalog, stored: seq<StoredObject>): Catalog
    requires |stored| == 3
  {
    var warm := AfterCommit(before, FirstId(config, 0), stored[0]);
    AfterCommit(AfterCommit(warm, FirstId(config, 1), stored[1]), FirstId(config, 2), stored[2])
  }

  /** The hypotheses of the round theorems are met: a round of three accepted
      commits, each taking as long as its phase, happens against any fresh
      catalog. */
  lemma SomeRoundHappens(
    config: RoundConfig, digest: string -> Digest, untouched: Catalog, stored: seq<StoredObject>, waits: seq<nat>)
    returns (r: RoundRun)
    requires config.warmupCommits == 1 && config.sequentialCommits == 1 && config.concurrentWriters == 1
    requires |waits| == 3 && waits[0] > 0 && waits[1] > 0 && 0 < config.concurrentDuration <= waits[2]
    requires Untroubled(untouched) && |stored| == 3
    ensures Happens(r) && r.config == config && r.digest == digest && r.catalogs[0] == untouched
    ensures |r.logs| == 3 && forall i :: 0 <= i < 3 ==> r.logs[i] == OneEntry(digest(FirstId(config, i)), waits[i])
    ensures FinalCatalog(r) == AfterThree(config, untouched, stored)
    ensures AcceptedCount(r) == 3 && ErrorCount(r) == 0
  {
    var r0 := RoundRun(config, digest, [], [untouched], []);
    var r1 := OneMorePhase(r0, stored[0], 0, waits[0]);
    var r2 := OneMorePhase(r1, stored[1], waits[0], waits[1]);
    r := OneMorePhase(r2, stored[2], waits[0] + waits[1], waits[2]);
    ThreeLogs(r);
    OneCounts(digest(FirstId(config, 0)), waits[0]);
    OneCounts(digest(FirstId(config, 1)), waits[1]);
    OneCounts(digest(FirstId(config, 2)), waits[2]);
  }

  lemma OneCounts(digest: Digest, wait: nat)
    ensures CountsOf(OneEntry(digest, wait)) == RequestCounts(1, 1, 0, 0)
    ensures AcceptedDigests(OneEntry(digest, wait)) == {digest}
  {
    var log := OneEntry(digest, wait);
    assert log[..0] == [] && log[1..] == [];
    assert AcceptedDigests(log) == {} + {digest};
  }
}
