/** What every round guarantees, whatever the catalog and the store answer. */
module RoundLaws {
  import opened Ordering
  import opened Statistics
  import opened Ledger
  import opened Round

  // ---------- ownership of the fixture ----------

  predicate IsDrop(c: Call) { c.DropTable? || c.DropNamespace? }
  predicate IsCreate(c: Call) { c.CreateNamespace? || c.CreateTable? }

  function Occurrences(c: Call, calls: seq<Call>): nat {
    multiset(calls)[c]
  }

  ghost predicate Disciplined(script: Script, calls: seq<Call>) {
    var absent := script.preflight.Ok? && script.preflight.value.presence.Absent?;
    && calls != [] && calls[0] == NamespacePresence
    && ((exists c :: c in calls && (IsCreate(c) || IsDrop(c) || c.Commits?)) <==> absent)
    && (!absent ==> calls == [NamespacePresence])
    && (CreateNamespace in calls ==>
          && |calls| >= 4 && calls[|calls| - 4..] == [DropTable, TablePresence, DropNamespace, NamespacePresence]
          && Occurrences(DropTable, calls) == 1 && Occurrences(DropNamespace, calls) == 1
          && Occurrences(TablePresence, calls) == 1 && Occurrences(NamespacePresence, calls) == 2)
  }

  lemma ProgramPrefix(n: nat)
    requires n <= |PROGRAM|
    ensures forall c :: c in PROGRAM[..n] ==> !IsDrop(c) && !c.TablePresence?
    ensures n > 0 ==> PROGRAM[..n][0] == NamespacePresence && NamespacePresence !in PROGRAM[..n][1..]
  {
  }

  lemma CountNone(c: Call, s: seq<Call>)
    requires c !in s
    ensures multiset(s)[c] == 0
  {
  }

  lemma CleanupCounts(pre: seq<Call>)
    requires pre != [] && pre[0] == NamespacePresence && NamespacePresence !in pre[1..]
    requires DropTable !in pre && DropNamespace !in pre && TablePresence !in pre
    ensures var calls := pre + CLEANUP;
            && calls[|calls| - 4..] == CLEANUP
            && Occurrences(DropTable, calls) == 1 && Occurrences(DropNamespace, calls) == 1
            && Occurrences(TablePresence, calls) == 1 && Occurrences(NamespacePresence, calls) == 2
  {
    CountNone(DropTable, pre);
    CountNone(DropNamespace, pre);
    CountNone(TablePresence, pre);
    CountNone(NamespacePresence, pre[1..]);
    HeadAndTail(pre);
    assert multiset(CLEANUP) == multiset{DropTable, TablePresence, DropNamespace, NamespacePresence};
    assert multiset(pre + CLEANUP) == multiset(pre) + multiset(CLEANUP);
  }

  /** No create, commit or drop is issued unless the preflight observed the
      namespace absent; once a create is issued the four cleanup calls follow
      exactly once, in order, as the last calls of the round. */
  lemma EveryRoundIsDisciplined(script: Script)
    ensures Disciplined(script, CallsOf(script))
  {
    var n := Reach(script);
    if n == 0 {
      assert CallsOf(script) == [NamespacePresence];
    } else {
      var pre := Journal(script, n);
      ProgramPrefix(|pre|);
      StartsOwned(script, n);
      CleanupCounts(pre);
    }
  }

  lemma StartsOwned(script: Script, n: nat)
    requires 1 <= n <= 8
    ensures var calls := Journal(script, n) + CLEANUP;
            calls[0] == NamespacePresence && calls[1] == CreateNamespace && CreateNamespace in calls
  {
    var calls := Journal(script, n) + CLEANUP;
    assert calls[1] == CreateNamespace;
  }

  // ---------- classification ----------

  /** Which stages leave evidence behind. */
  lemma OutcomeShape(setup: Setup, script: Script)
    ensures var e, n := OutcomeOf(setup, script), Reach(script);
            && e.config == setup.config && e.kind == setup.kind && !e.preflight.NotAttempted?
            && (e.createNamespace.NotAttempted? <==> n < 1) && (e.createTable.NotAttempted? <==> n < 2)
            && (e.baselineAudit.NotAttempted? <==> n < 3) && (e.warmup.NotAttempted? <==> n < 4)
            && (e.sequential.NotAttempted? <==> n < 5) && (e.concurrent.NotAttempted? <==> n < 6)
            && (e.finalTable.NotAttempted? <==> n < 7) && (e.finalAudit.NotAttempted? <==> n < 8)
            && (e.metadataGrowth.NotAttempted? <==> n < 8 || script.finalAudit.Err?)
            && (e.cleanup == SKIPPED <==> n == 0)
  {
  }

  /** The label and the checks agree, and a collision is reported exactly when
      the preflight saw the namespace. */
  lemma ClassificationIsExact(setup: Setup, script: Script)
    ensures var e := OutcomeOf(setup, script);
            && (e.classification.FixtureCollision? <==> Collides(script))
            && (e.Passed() <==> e.classification.Pass?) && (e.Passed() <==> e.checks.AllPassed())
            && (e.Passed() ==> Reach(script) == 8)
  {
  }

  /** The evidence of a round that ran to its end. */
  lemma OutcomeAtEnd(setup: Setup, script: Script)
    requires Reach(script) == 8
    ensures script.warmup.Ok? && script.sequential.Ok? && script.concurrent.Ok? && script.load.Ok?
    ensures script.createTable.Ok? && script.baseline.Ok?
    ensures var e := OutcomeOf(setup, script);
            && e.warmup == Succeeded(script.warmup.value.0)
            && e.sequential == Succeeded(script.sequential.value.0)
            && e.concurrent == Succeeded(script.concurrent.value.0)
            && e.finalTable == Succeeded(FinalTableOf(setup, script.createTable.value, script.load.value,
                 script.warmup.value.1 + script.sequential.value.1 + script.concurrent.value.1, script.withinRoot))
            && (script.finalAudit.Ok? ==>
                  e.metadataGrowth == GrowthOf(script.baseline.value.metadataObjects,
                    script.finalAudit.value.metadataObjects, RequiredGrowth(script)))
  {
  }

  /** What the checks of an outcome say about its evidence. */
  lemma ChecksRead(setup: Setup, script: Script)
    ensures var e := OutcomeOf(setup, script);
            && (e.checks.warmupAccounted <==>
               e.warmup.Succeeded? && SerialAccounted(e.warmup.output, setup.config.warmupCommits))
            && (e.checks.sequentialAccounted <==>
               e.sequential.Succeeded? && SerialAccounted(e.sequential.output, setup.config.sequentialCommits))
            && (e.checks.zeroRequestErrors <==> e.concurrent.Succeeded? && e.concurrent.output.counts.errors == 0)
            && (e.checks.concurrentProgress <==> e.concurrent.Succeeded? && e.concurrent.output.counts.accepted > 0)
            && (e.checks.sequentialLatencyComplete <==>
               e.sequential.Succeeded? && LatencyComplete(e.sequential.output, setup.config.sequentialCommits))
            && (e.checks.allRequestsAccounted <==> e.concurrent.Succeeded? && AllRequestsAccounted(e.concurrent.output))
            && (e.checks.metadataPersisted ==> e.metadataGrowth.Succeeded? && e.metadataGrowth.output.sufficient)
  {
  }

  /** The three phases accounted for what they attempted. */
  predicate PhasesPass(setup: Setup, script: Script)
    requires script.warmup.Ok? && script.sequential.Ok? && script.concurrent.Ok?
  {
    && SerialAccounted(script.warmup.value.0, setup.config.warmupCommits)
    && SerialAccounted(script.sequential.value.0, setup.config.sequentialCommits)
    && LatencyComplete(script.sequential.value.0, setup.config.sequentialCommits)
    && AllRequestsAccounted(script.concurrent.value.0)
    && script.concurrent.value.0.counts.errors == 0 && script.concurrent.value.0.counts.accepted > 0
  }

  /** The final table is the created one and its property is accounted for. */
  predicate TablePasses(setup: Setup, script: Script)
    requires Through(script, 8)
  {
    var created, last := script.createTable.value, script.load.value;
    && last.formatVersion == 2 && last.tableUuid == created.tableUuid && last.location == created.location
    && script.withinRoot
    && setup.commitProperty in last.properties
    && setup.digest(last.properties[setup.commitProperty])
         in script.warmup.value.1 + script.sequential.value.1 + script.concurrent.value.1
  }

  predicate GrowthPasses(script: Script)
    requires Through(script, 8)
  {
    && script.finalAudit.Ok? && script.finalAudit.value.referencedMetadataExists && RequiredGrowth(script) <= U64_MAX
    && script.finalAudit.value.metadataObjects >= script.baseline.value.metadataObjects + RequiredGrowth(script)
  }

  predicate CleanupPasses(script: Script) {
    && script.dropTable.Ok? && script.tablePresence.Ok? && script.tablePresence.value.presence.Absent?
    && script.dropNamespace.Ok? && script.namespacePresence.Ok? && script.namespacePresence.value.presence.Absent?
  }

  /** When a round passes, in terms of what the ports answered. */
  lemma PassesExactly(setup: Setup, script: Script)
    ensures OutcomeOf(setup, script).Passed() <==>
              && Through(script, 8) && PhasesPass(setup, script) && TablePasses(setup, script)
              && GrowthPasses(script) && CleanupPasses(script)
  {
    ClassificationIsExact(setup, script);
    if Reach(script) == 8 {
      OutcomeAtEnd(setup, script);
      ChecksAtEnd(setup, script);
    }
  }

  lemma ChecksAtEnd(setup: Setup, script: Script)
    requires Reach(script) == 8
    ensures var c := OutcomeOf(setup, script).checks;
            && c.fixtureIsolated && c.setupSucceeded
            && (PhasesPass(setup, script) <==>
                  && c.warmupAccounted && c.sequentialAccounted && c.sequentialLatencyComplete && c.allRequestsAccounted
                  && c.zeroRequestErrors && c.concurrentProgress)
            && (c.finalStateAccounted <==> TablePasses(setup, script))
            && (c.metadataPersisted <==> GrowthPasses(script))
            && (c.fixtureClean <==> CleanupPasses(script))
  {
  }

  // ---------- evidence that comes from a ledger ----------

  /** The phase was closed by finishing some ledger. */
  ghost predicate FromLedger(r: PhaseResult) {
    r.Ok? ==> exists log, elapsed :: Finished(log, elapsed) == Ok(r.value)
  }

  ghost predicate Ledgers(script: Script) {
    FromLedger(script.warmup) && FromLedger(script.sequential) && FromLedger(script.concurrent)
  }

  /** Counts that add up and quantiles exactly when something was attempted. */
  ghost predicate Evidenced(p: PhaseEvidence) {
    Tallied(p.counts, p.latencyMs.all) && Rated(p)
  }

  ghost predicate Tallied(counts: RequestCounts, all: Option<Distribution>) {
    && counts.FullyAccounted() && counts.attempts <= U64_MAX
    && (all.None? <==> counts.attempts == 0)
    && (all.Some? ==> Complete(all.value) && all.value.samples == counts.attempts && all.value.minimum >= 0.0)
  }

  predicate Rated(p: PhaseEvidence) {
    p.attemptedThroughput >= 0.0 && p.acceptedThroughput >= 0.0 && p.conflictRate >= 0.0 && p.errorRate >= 0.0
  }

  lemma SummaryIsEvidenced(latencies: seq<Duration>)
    requires latencies != []
    ensures var d := LatencySummary(latencies).value;
            Complete(d) && d.samples == |latencies| && d.minimum >= 0.0
  {
    SummaryIsComplete(Map(Milliseconds, latencies));
  }

  lemma LogIsTallied(log: seq<Entry>)
    requires |log| <= U64_MAX
    ensures Tallied(CountsOf(log), LatencySummary(Latencies(log)))
  {
    EveryLogIsPartitioned(log);
    if log != [] { SummaryIsEvidenced(Latencies(log)); }
  }

  lemma LogIsRated(log: seq<Entry>, elapsed: Duration)
    requires elapsed > 0
    ensures Rated(EvidenceOf(log, elapsed))
  {
  }

  lemma LedgersAreEvidenced(r: PhaseResult)
    requires FromLedger(r) && r.Ok?
    ensures Evidenced(r.value.0)
  {
    var log, elapsed :| Finished(log, elapsed) == Ok(r.value);
    LogIsTallied(log);
    LogIsRated(log, elapsed);
  }

  lemma EvidencedIsComplete(p: PhaseEvidence, expected: nat)
    requires Evidenced(p)
    ensures SerialAccounted(p, expected) && expected > 0 ==> LatencyComplete(p, expected)
    ensures AllRequestsAccounted(p)
  {
  }

  lemma OutcomePhases(setup: Setup, script: Script)
    ensures var e := OutcomeOf(setup, script);
            && (e.sequential.Succeeded? ==> script.sequential.Ok? && e.sequential.output == script.sequential.value.0)
            && (e.concurrent.Succeeded? ==> script.concurrent.Ok? && e.concurrent.output == script.concurrent.value.0)
  {
  }

  /** For ledger evidence two of the checks are consequences of others. */
  lemma AccountedMeansComplete(setup: Setup, script: Script)
    requires Ledgers(script) && setup.config.sequentialCommits > 0
    ensures var e := OutcomeOf(setup, script);
            && (e.checks.sequentialAccounted ==> e.checks.sequentialLatencyComplete)
            && (e.concurrent.Succeeded? <==> e.checks.allRequestsAccounted)
  {
    var e := OutcomeOf(setup, script);
    OutcomePhases(setup, script);
    ChecksRead(setup, script);
    if e.sequential.Succeeded? {
      LedgersAreEvidenced(script.sequential);
      EvidencedIsComplete(e.sequential.output, setup.config.sequentialCommits);
    }
    if e.concurrent.Succeeded? {
      LedgersAreEvidenced(script.concurrent);
      EvidencedIsComplete(e.concurrent.output, 0);
    }
  }
}
