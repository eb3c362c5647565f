/** Request accounting. A ledger is the projection of a log of completed
    requests onto the sets, lists and counters that evidence is computed from. */
module Ledger {
  import opened Ordering
  import opened Statistics

  type Digest = string

  /** Nanoseconds. */
  type Duration = nat

  datatype RequestErrorKind =
    Transport | Timeout | ResponseTooLarge | UnexpectedHttp | MalformedResponse | Harness

  datatype RequestError = RequestError(kind: RequestErrorKind, httpStatus: Option<nat>)

  datatype RequestOutcome = Accepted | Conflict | Error(error: RequestError)

  datatype ModelError =
    | DuplicateRequestIdentity | CountOverflow | UnaccountedRequests | Statistics(error: StatisticsError)

  datatype RequestCounts = RequestCounts(attempts: nat, accepted: nat, conflicts: nat, errors: nat) {
    /** Both additions are checked in 64 bits. */
    predicate FullyAccounted() {
      && accepted + conflicts <= U64_MAX
      && accepted + conflicts + errors <= U64_MAX
      && accepted + conflicts + errors == attempts
    }
  }

  datatype OutcomeLatencies = OutcomeLatencies(
    all: Option<Distribution>, accepted: Option<Distribution>,
    conflicts: Option<Distribution>, errors: Option<Distribution>)

  /** `errorCounts` is published as the key-ordered listing of this map. */
  datatype PhaseEvidence = PhaseEvidence(
    elapsedMs: real, counts: RequestCounts, latencyMs: OutcomeLatencies,
    attemptedThroughput: real, acceptedThroughput: real,
    conflictRate: real, errorRate: real, errorCounts: map<RequestError, nat>)

  // ---------- logs and their projections ----------

  /** One completed request. */
  datatype Entry = Entry(digest: Digest, latency: Duration, outcome: RequestOutcome)

  predicate IsAccepted(e: Entry) { e.outcome.Accepted? }
  predicate IsConflict(e: Entry) { e.outcome.Conflict? }
  predicate IsError(e: Entry) { e.outcome.Error? }
  function LatencyOf(e: Entry): Duration { e.latency }

  function Digests(log: seq<Entry>): set<Digest> {
    if log == [] then {} else Digests(log[..|log| - 1]) + {log[|log| - 1].digest}
  }

  function AcceptedDigests(log: seq<Entry>): set<Digest> {
    if log == [] then {}
    else
      var e := log[|log| - 1];
      AcceptedDigests(log[..|log| - 1]) + (if IsAccepted(e) then {e.digest} else {})
  }

  function Lookup(m: map<RequestError, nat>, x: RequestError): nat {
    if x in m then m[x] else 0
  }

  function ErrorCounts(log: seq<Entry>): map<RequestError, nat> {
    if log == [] then map[]
    else
      var counts, e := ErrorCounts(log[..|log| - 1]), log[|log| - 1];
      if IsError(e) then counts[e.outcome.error := Lookup(counts, e.outcome.error) + 1] else counts
  }

  function Latencies(log: seq<Entry>): seq<Duration> {
    Map(LatencyOf, log)
  }

  predicate DistinctDigests(log: seq<Entry>) {
    log == [] || (DistinctDigests(log[..|log| - 1]) && log[|log| - 1].digest !in Digests(log[..|log| - 1]))
  }

  function CountsOf(log: seq<Entry>): RequestCounts {
    RequestCounts(|log|, |Filter(IsAccepted, log)|, |Filter(IsConflict, log)|, |Filter(IsError, log)|)
  }

  function Milliseconds(d: Duration): real {
    d as real / 1000000.0
  }

  function LatencySummary(latencies: seq<Duration>): Option<Distribution> {
    if latencies == [] then None else Some(Summary(Map(Milliseconds, latencies)))
  }

  function PerSecond(count: nat, elapsed: Duration): (r: real)
    requires elapsed > 0
    ensures r >= 0.0
  {
    count as real / (elapsed as real / 1000000000.0)
  }

  function Ratio(numerator: nat, denominator: nat): (r: real)
    ensures r >= 0.0
  {
    if denominator == 0 then 0.0 else numerator as real / denominator as real
  }

  function EvidenceOf(log: seq<Entry>, elapsed: Duration): PhaseEvidence
    requires elapsed > 0
  {
    var counts := CountsOf(log);
    PhaseEvidence(
      Milliseconds(elapsed), counts,
      OutcomeLatencies(
        LatencySummary(Latencies(log)), LatencySummary(Latencies(Filter(IsAccepted, log))),
        LatencySummary(Latencies(Filter(IsConflict, log))), LatencySummary(Latencies(Filter(IsError, log)))),
      PerSecond(counts.attempts, elapsed), PerSecond(counts.accepted, elapsed),
      Ratio(counts.conflicts, counts.attempts), Ratio(counts.errors, counts.attempts),
      ErrorCounts(log))
  }

  /** What finishing a ledger for `log` returns. Only an oversized log or a
      zero-length interval fails; requests are never unaccounted. */
  function Finished(log: seq<Entry>, elapsed: Duration)
    : Result<(PhaseEvidence, set<Digest>), ModelError>
  {
    if |log| > U64_MAX then Err(CountOverflow)
    else if elapsed == 0 then Err(Statistics(ZeroElapsed))
    else Ok((EvidenceOf(log, elapsed), AcceptedDigests(log)))
  }

  // ---------- the accounting invariant ----------

  ghost function Total(m: map<RequestError, nat>): nat
    decreases |m|
  {
    if m == map[] then 0 else var k :| k in m; m[k] + Total(m - {k})
  }

  lemma {:induction false} TotalRemove(m: map<RequestError, nat>, k: RequestError)
    requires k in m
    ensures Total(m) == m[k] + Total(m - {k})
    decreases |m|
  {
    var p :| p in m && Total(m) == m[p] + Total(m - {p});
    if p != k {
      TotalRemove(m - {p}, k);
      TotalRemove(m - {k}, p);
      assert m - {p} - {k} == m - {k} - {p};
    }
  }

  lemma TotalUpdate(m: map<RequestError, nat>, k: RequestError, v: nat)
    ensures Total(m[k := v]) == Total(m) - (if k in m then m[k] else 0) + v
  {
    var m' := m[k := v];
    TotalRemove(m', k);
    if k in m {
      TotalRemove(m, k);
      assert m' - {k} == m - {k};
    } else {
      assert m' - {k} == m;
    }
  }

  lemma SnocFilter(keep: Entry -> bool, log: seq<Entry>, e: Entry)
    ensures Filter(keep, log + [e]) == Filter(keep, log) + (if keep(e) then [e] else [])
  {
    FilterAppend(keep, log, [e]);
    assert [e][1..] == [];
  }

  lemma Snoc(log: seq<Entry>, e: Entry)
    ensures (log + [e])[..|log|] == log && (log + [e])[|log|] == e
  {
  }

  function HasError(x: RequestError): Entry -> bool {
    (e: Entry) => e.outcome == Error(x)
  }

  /** A counter holds the number of requests that failed that way. */
  lemma {:induction false} CountersCount(log: seq<Entry>, x: RequestError)
    ensures Lookup(ErrorCounts(log), x) == |Filter(HasError(x), log)|
    ensures x in ErrorCounts(log) <==> Filter(HasError(x), log) != []
  {
    if log != [] {
      var front, e := log[..|log| - 1], log[|log| - 1];
      assert log == front + [e];
      CountersCount(front, x);
      SnocFilter(HasError(x), front, e);
    }
  }

  lemma SnocFiltered(keep: Entry -> bool, log: seq<Entry>, e: Entry)
    ensures Latencies(Filter(keep, log + [e])) == Latencies(Filter(keep, log)) + (if keep(e) then [e.latency] else [])
  {
    SnocFilter(keep, log, e);
    MapAppend(LatencyOf, Filter(keep, log), if keep(e) then [e] else []);
  }

  lemma SnocLatencies(log: seq<Entry>, e: Entry)
    ensures Latencies(log + [e]) == Latencies(log) + [e.latency]
  {
  }

  ghost predicate Partitioned(log: seq<Entry>) {
    && multiset(Latencies(log)) == multiset(Latencies(Filter(IsAccepted, log)))
         + multiset(Latencies(Filter(IsConflict, log))) + multiset(Latencies(Filter(IsError, log)))
    && |Filter(IsAccepted, log)| + |Filter(IsConflict, log)| + |Filter(IsError, log)| == |log|
  }

  ghost predicate Accounted(log: seq<Entry>) {
    Partitioned(log) && Total(ErrorCounts(log)) == |Filter(IsError, log)|
  }

  lemma SnocPartitioned(log: seq<Entry>, e: Entry)
    requires Partitioned(log)
    ensures Partitioned(log + [e])
  {
    SnocFiltered(IsAccepted, log, e);
    SnocFiltered(IsConflict, log, e);
    SnocFiltered(IsError, log, e);
    SnocFilter(IsAccepted, log, e);
    SnocFilter(IsConflict, log, e);
    SnocFilter(IsError, log, e);
    SnocLatencies(log, e);
  }

  lemma {:induction false} EveryLogIsPartitioned(log: seq<Entry>)
    ensures Partitioned(log)
  {
    if log != [] {
      var front, e := log[..|log| - 1], log[|log| - 1];
      EveryLogIsPartitioned(front);
      SnocPartitioned(front, e);
      assert log == front + [e];
    }
  }

  lemma {:induction false} ErrorTotals(log: seq<Entry>)
    ensures Total(ErrorCounts(log)) == |Filter(IsError, log)|
  {
    if log == [] {
      assert ErrorCounts(log) == map[];
    } else {
      var front, e := log[..|log| - 1], log[|log| - 1];
      assert log == front + [e];
      ErrorTotals(front);
      SnocFilter(IsError, front, e);
      if IsError(e) {
        TotalUpdate(ErrorCounts(front), e.outcome.error, Lookup(ErrorCounts(front), e.outcome.error) + 1);
      }
    }
  }

  /** Every log keeps the linked fields consistent: the three outcome lists
      partition all latencies and the error counters sum to the error list. */
  lemma EveryLogIsAccounted(log: seq<Entry>)
    ensures Accounted(log)
  {
    EveryLogIsPartitioned(log);
    ErrorTotals(log);
  }

  lemma {:induction false} DigestMembers(log: seq<Entry>, d: Digest)
    ensures d in Digests(log) <==> exists e :: e in log && e.digest == d
    ensures d in AcceptedDigests(log) <==> exists e :: e in log && e.digest == d && IsAccepted(e)
  {
    if log != [] {
      var front, last := log[..|log| - 1], log[|log| - 1];
      DigestMembers(front, d);
      assert log == front + [last];
      assert forall e :: e in log <==> e in front || e == last;
    }
  }

  /** With distinct identities, digests count requests. */
  lemma {:induction false} DistinctDigestsCount(log: seq<Entry>)
    requires DistinctDigests(log)
    ensures |Digests(log)| == |log|
    ensures |AcceptedDigests(log)| == |Filter(IsAccepted, log)|
    ensures AcceptedDigests(log) <= Digests(log)
  {
    if log != [] {
      var front, e := log[..|log| - 1], log[|log| - 1];
      assert log == front + [e];
      DistinctDigestsCount(front);
      SnocFilter(IsAccepted, front, e);
    }
  }

  // ---------- appending logs ----------

  lemma {:induction false} AppendDigests(a: seq<Entry>, b: seq<Entry>)
    ensures Digests(a + b) == Digests(a) + Digests(b)
    ensures AcceptedDigests(a + b) == AcceptedDigests(a) + AcceptedDigests(b)
  {
    if b == [] {
      assert a + b == a;
    } else {
      AppendDigests(a, b[..|b| - 1]);
      assert (a + b)[..|a + b| - 1] == a + b[..|b| - 1];
    }
  }

  lemma AppendErrorCounts(a: seq<Entry>, b: seq<Entry>, x: RequestError)
    ensures Lookup(ErrorCounts(a + b), x) == Lookup(ErrorCounts(a), x) + Lookup(ErrorCounts(b), x)
    ensures x in ErrorCounts(a + b) <==> x in ErrorCounts(a) || x in ErrorCounts(b)
  {
    CountersCount(a, x);
    CountersCount(b, x);
    CountersCount(a + b, x);
    FilterAppend(HasError(x), a, b);
  }

  lemma {:induction false} DistinctAppend(a: seq<Entry>, b: seq<Entry>)
    requires DistinctDigests(a) && DistinctDigests(b) && Digests(a) !! Digests(b)
    ensures DistinctDigests(a + b)
  {
    if b == [] {
      assert a + b == a;
    } else {
      var front := b[..|b| - 1];
      DistinctAppend(a, front);
      AppendDigests(a, front);
      assert (a + b)[..|a + b| - 1] == a + front;
    }
  }

  // ---------- evidence forgets the order of the log ----------

  lemma LatencySummaryPermutes(a: seq<Entry>, b: seq<Entry>)
    requires multiset(a) == multiset(b)
    ensures LatencySummary(Latencies(a)) == LatencySummary(Latencies(b))
  {
    SameElements(a, b);
    MapPermutes(LatencyOf, a, b);
    MapPermutes(Milliseconds, Latencies(a), Latencies(b));
    if a != [] {
      SummaryIsPermutationInvariant(Map(Milliseconds, Latencies(a)), Map(Milliseconds, Latencies(b)));
    }
  }

  lemma FilteredSummaryPermutes(keep: Entry -> bool, a: seq<Entry>, b: seq<Entry>)
    requires multiset(a) == multiset(b)
    ensures LatencySummary(Latencies(Filter(keep, a))) == LatencySummary(Latencies(Filter(keep, b)))
    ensures |Filter(keep, a)| == |Filter(keep, b)|
  {
    FilterPermutes(keep, a, b);
    SameElements(Filter(keep, a), Filter(keep, b));
    LatencySummaryPermutes(Filter(keep, a), Filter(keep, b));
  }

  lemma ErrorCountsPermute(a: seq<Entry>, b: seq<Entry>)
    requires multiset(a) == multiset(b)
    ensures ErrorCounts(a) == ErrorCounts(b)
  {
    forall x
      ensures x in ErrorCounts(a) <==> x in ErrorCounts(b)
      ensures Lookup(ErrorCounts(a), x) == Lookup(ErrorCounts(b), x)
    {
      CountersCount(a, x);
      CountersCount(b, x);
      FilterPermutes(HasError(x), a, b);
      SameElements(Filter(HasError(x), a), Filter(HasError(x), b));
    }
    forall x | x in ErrorCounts(a) ensures ErrorCounts(a)[x] == ErrorCounts(b)[x] {
      assert Lookup(ErrorCounts(a), x) == Lookup(ErrorCounts(b), x);
    }
  }

  lemma AcceptedPermute(a: seq<Entry>, b: seq<Entry>)
    requires multiset(a) == multiset(b)
    ensures AcceptedDigests(a) == AcceptedDigests(b)
  {
    SameElements(a, b);
    forall d ensures d in AcceptedDigests(a) <==> d in AcceptedDigests(b) {
      DigestMembers(a, d);
      DigestMembers(b, d);
    }
  }

  /** Phase evidence and the accepted set depend on the log only as a multiset. */
  lemma FinishedIsPermutationInvariant(a: seq<Entry>, b: seq<Entry>, elapsed: Duration)
    requires multiset(a) == multiset(b)
    ensures Finished(a, elapsed) == Finished(b, elapsed)
  {
    SameElements(a, b);
    LatencySummaryPermutes(a, b);
    FilteredSummaryPermutes(IsAccepted, a, b);
    FilteredSummaryPermutes(IsConflict, a, b);
    FilteredSummaryPermutes(IsError, a, b);
    ErrorCountsPermute(a, b);
    AcceptedPermute(a, b);
  }

  /** Merging writer ledgers in any other join order finishes identically. */
  lemma MergeOrderIsIrrelevant(logs: seq<seq<Entry>>, joined: seq<seq<Entry>>, elapsed: Duration)
    requires multiset(logs) == multiset(joined)
    ensures Finished(Flatten(logs), elapsed) == Finished(Flatten(joined), elapsed)
  {
    FlattenPermutes(logs, joined);
    FinishedIsPermutationInvariant(Flatten(logs), Flatten(joined), elapsed);
  }

  // ---------- the mutable ledger ----------

  /** The fields of a ledger, as one value. */
  datatype Projection = Projection(
    seen: set<Digest>, all: seq<Duration>, accepted: seq<Duration>, conflicts: seq<Duration>,
    errors: seq<Duration>, errorCounts: map<RequestError, nat>, acceptedRequests: set<Digest>)

  function Recorded(p: Projection, e: Entry): Projection {
    var q := p.(seen := p.seen + {e.digest}, all := p.all + [e.latency]);
    match e.outcome
    case Accepted => q.(accepted := p.accepted + [e.latency], acceptedRequests := p.acceptedRequests + {e.digest})
    case Conflict => q.(conflicts := p.conflicts + [e.latency])
    case Error(error) =>
      q.(errors := p.errors + [e.latency], errorCounts := p.errorCounts[error := Lookup(p.errorCounts, error) + 1])
  }

  /** Why recording `e` fails. */
  function RecordFailure(p: Projection, e: Entry): Option<ModelError> {
    if e.digest in p.seen then Some(DuplicateRequestIdentity)
    else if e.outcome.Error? && Lookup(p.errorCounts, e.outcome.error) == U64_MAX then Some(CountOverflow)
    else None
  }

  /** Why merging `theirs` into `ours` fails. */
  function MergeFailure(ours: Projection, theirs: Projection): Option<ModelError> {
    if !(ours.seen !! theirs.seen) then Some(DuplicateRequestIdentity)
    else if exists x :: x in theirs.errorCounts && Lookup(ours.errorCounts, x) + theirs.errorCounts[x] > U64_MAX
      then Some(CountOverflow)
    else None
  }

  const EMPTY := Projection({}, [], [], [], [], map[], {})

  /** The ledger left by recording a log from the start. */
  function Project(log: seq<Entry>): Projection {
    if log == [] then EMPTY else Recorded(Project(log[..|log| - 1]), log[|log| - 1])
  }

  lemma {:induction false} ProjectedSets(log: seq<Entry>)
    ensures Project(log).seen == Digests(log)
    ensures Project(log).errorCounts == ErrorCounts(log)
    ensures Project(log).acceptedRequests == AcceptedDigests(log)
  {
    if log != [] { ProjectedSets(log[..|log| - 1]); }
  }

  lemma {:induction false} ProjectedLists(log: seq<Entry>)
    ensures Project(log).all == Latencies(log)
    ensures Project(log).accepted == Latencies(Filter(IsAccepted, log))
    ensures Project(log).conflicts == Latencies(Filter(IsConflict, log))
    ensures Project(log).errors == Latencies(Filter(IsError, log))
  {
    if log != [] {
      var front, e := log[..|log| - 1], log[|log| - 1];
      assert log == front + [e];
      ProjectedLists(front);
      SnocLatencies(front, e);
      SnocFiltered(IsAccepted, front, e);
      SnocFiltered(IsConflict, front, e);
      SnocFiltered(IsError, front, e);
    }
  }

  /** The ledger of a log, if no identity in it is reused. */
  function Built(log: seq<Entry>): Option<Projection> {
    if log == [] then Some(EMPTY)
    else
      var before, e := Built(log[..|log| - 1]), log[|log| - 1];
      if before.Some? && e.digest !in before.value.seen then Some(Recorded(before.value, e)) else None
  }

  lemma {:induction false} BuiltIsProject(log: seq<Entry>)
    ensures Built(log) == if DistinctDigests(log) then Some(Project(log)) else None
  {
    if log != [] {
      BuiltIsProject(log[..|log| - 1]);
      ProjectedSets(log[..|log| - 1]);
    }
  }

  /** What every ledger built by recording and merging keeps between its
      linked fields. */
  lemma LedgerInvariant(log: seq<Entry>)
    requires Built(log).Some?
    ensures var p := Built(log).value;
            && multiset(p.all) == multiset(p.accepted) + multiset(p.conflicts) + multiset(p.errors)
            && |p.seen| == |p.all| && |p.acceptedRequests| == |p.accepted| && p.acceptedRequests <= p.seen
            && Total(p.errorCounts) == |p.errors|
  {
    BuiltIsProject(log);
    ProjectedSets(log);
    ProjectedLists(log);
    EveryLogIsAccounted(log);
    DistinctDigestsCount(log);
  }

  lemma BuildOne(log: seq<Entry>, e: Entry)
    requires Built(log).Some? && e.digest !in Built(log).value.seen
    ensures Built(log + [e]) == Some(Recorded(Built(log).value, e))
  {
    Snoc(log, e);
  }

  function Merged(p: Projection, q: Projection, counts: map<RequestError, nat>): Projection {
    Projection(
      p.seen + q.seen, p.all + q.all, p.accepted + q.accepted, p.conflicts + q.conflicts, p.errors + q.errors,
      counts, p.acceptedRequests + q.acceptedRequests)
  }

  lemma MergedErrorCounts(a: seq<Entry>, b: seq<Entry>, merged: map<RequestError, nat>)
    requires merged.Keys == ErrorCounts(a).Keys + ErrorCounts(b).Keys
    requires forall x :: x in merged ==> merged[x] == Lookup(ErrorCounts(a), x) + Lookup(ErrorCounts(b), x)
    ensures merged == ErrorCounts(a + b)
  {
    var expected := ErrorCounts(a + b);
    forall x
      ensures x in merged <==> x in expected
      ensures x in merged ==> merged[x] == expected[x]
    {
      AppendErrorCounts(a, b, x);
    }
  }

  lemma MergedRecords(p: Projection, q: Projection, counts: map<RequestError, nat>, e: Entry)
    ensures var r := Recorded(Merged(p, q, counts), e); r == Merged(p, Recorded(q, e), r.errorCounts)
  {
  }

  lemma {:induction false} AppendProjects(a: seq<Entry>, b: seq<Entry>)
    ensures Project(a + b) == Merged(Project(a), Project(b), Project(a + b).errorCounts)
  {
    if b == [] {
      assert a + b == a;
    } else {
      var front, e := b[..|b| - 1], b[|b| - 1];
      AppendProjects(a, front);
      assert b == front + [e] && a + b == (a + front) + [e];
      ProjectLast(front, e);
      ProjectLast(a + front, e);
      MergedRecords(Project(a), Project(front), Project(a + front).errorCounts, e);
    }
  }

  lemma ProjectLast(log: seq<Entry>, e: Entry)
    ensures Project(log + [e]) == Recorded(Project(log), e)
  {
    assert (log + [e])[..|log|] == log;
  }

  lemma BuildMerged(a: seq<Entry>, b: seq<Entry>, merged: map<RequestError, nat>)
    requires Built(a).Some? && Built(b).Some?
    requires Built(a).value.seen !! Built(b).value.seen
    requires merged.Keys == Built(a).value.errorCounts.Keys + Built(b).value.errorCounts.Keys
    requires forall x :: x in merged ==>
               merged[x] == Lookup(Built(a).value.errorCounts, x) + Lookup(Built(b).value.errorCounts, x)
    ensures Built(a + b) == Some(Merged(Built(a).value, Built(b).value, merged))
    ensures Built(a).value.acceptedRequests !! Built(b).value.acceptedRequests
  {
    BuiltIsProject(a);
    BuiltIsProject(b);
    ProjectedSets(a);
    ProjectedSets(b);
    DistinctAppend(a, b);
    AppendProjects(a, b);
    ProjectedSets(a + b);
    MergedErrorCounts(a, b, merged);
    BuiltIsProject(a + b);
    DistinctDigestsCount(a);
    DistinctDigestsCount(b);
  }

  class RequestLedger {
    var seen: set<Digest>
    var all: seq<Duration>
    var accepted: seq<Duration>
    var conflicts: seq<Duration>
    var errors: seq<Duration>
    var errorCounts: map<RequestError, u64>
    var acceptedRequests: set<Digest>
    ghost var log: seq<Entry>

    ghost predicate Valid()
      reads this
    {
      Built(log) == Some(View())
    }

    ghost function View(): Projection
      reads this
    {
      Projection(seen, all, accepted, conflicts, errors, errorCounts, acceptedRequests)
    }

    constructor ()
      ensures Valid() && log == []
    {
      seen, all, accepted, conflicts, errors := {}, [], [], [], [];
      errorCounts, acceptedRequests, log := map[], {}, [];
    }

    method Record(digest: Digest, latency: Duration, outcome: RequestOutcome) returns (failure: Option<ModelError>)
      requires Valid()
      modifies this
      ensures failure == RecordFailure(old(View()), Entry(digest, latency, outcome))
      ensures failure.None? ==> Valid() && log == old(log) + [Entry(digest, latency, outcome)]
      ensures failure == Some(DuplicateRequestIdentity) ==> unchanged(this)
      // A saturated counter leaves the request half recorded; the caller drops the ledger.
      ensures failure == Some(CountOverflow) ==>
                && log == old(log)
                && View() == old(View()).(seen := old(seen) + {digest}, all := old(all) + [latency],
                   errors := old(errors) + [latency])
    {
      if digest in seen {
        return Some(DuplicateRequestIdentity);
      }
      ghost var entry := Entry(digest, latency, outcome);
      BuildOne(log, entry);
      failure := Classify(digest, latency, outcome);
      if failure.None? {
        log := log + [entry];
      }
    }

    /** Files one request whose identity has not been seen. */
    method Classify(digest: Digest, latency: Duration, outcome: RequestOutcome) returns (failure: Option<ModelError>)
      requires digest !in seen
      modifies this`seen, this`all, this`accepted, this`conflicts, this`errors, this`errorCounts, this`acceptedRequests
      ensures failure == RecordFailure(old(View()), Entry(digest, latency, outcome))
      ensures failure.None? ==> View() == Recorded(old(View()), Entry(digest, latency, outcome))
      ensures failure.Some? ==>
                View() == old(View()).(seen := old(seen) + {digest}, all := old(all) + [latency],
                  errors := old(errors) + [latency])
    {
      seen := seen + {digest};
      all := all + [latency];
      match outcome {
        case Accepted =>
          accepted := accepted + [latency];
          acceptedRequests := acceptedRequests + {digest};
        case Conflict =>
          conflicts := conflicts + [latency];
        case Error(error) =>
          errors := errors + [latency];
          var count := Lookup(errorCounts, error);
          if count == U64_MAX {
            return Some(CountOverflow);
          }
          errorCounts := errorCounts[error := count + 1];
      }
      return None;
    }

    method TryMerge(other: RequestLedger) returns (failure: Option<ModelError>)
      requires this != other && Valid() && other.Valid()
      modifies this
      ensures failure == MergeFailure(old(View()), other.View())
      ensures failure.Some? ==> unchanged(this)
      ensures failure.None? ==> Valid() && log == old(log) + other.log
    {
      if !(seen !! other.seen) {
        return Some(DuplicateRequestIdentity);
      }
      var fits := CountsFit(errorCounts, other.errorCounts);
      if !fits {
        return Some(CountOverflow);
      }
      var sum := AddCounts(errorCounts, other.errorCounts);
      BuildMerged(log, other.log, sum);
      // Accepted digests are seen digests, so extending the accepted set cannot collide.
      assert acceptedRequests !! other.acceptedRequests;
      acceptedRequests := acceptedRequests + other.acceptedRequests;
      seen := seen + other.seen;
      all := all + other.all;
      accepted := accepted + other.accepted;
      conflicts := conflicts + other.conflicts;
      errors := errors + other.errors;
      errorCounts := sum;
      log := log + other.log;
      return None;
    }

    method Finish(elapsed: Duration) returns (r: Result<(PhaseEvidence, set<Digest>), ModelError>)
      requires Valid()
      ensures r == Finished(log, elapsed)
      ensures r != Err(UnaccountedRequests)
    {
      FinishedFromView(log, elapsed);
      BuiltIsProject(log);
      if |all| > U64_MAX || |accepted| > U64_MAX || |conflicts| > U64_MAX || |errors| > U64_MAX {
        return Err(CountOverflow);
      }
      var counts := RequestCounts(|all|, |accepted|, |conflicts|, |errors|);
      if !counts.FullyAccounted() {
        return Err(UnaccountedRequests);
      }
      var allMs := OptionalDistribution(all);
      var acceptedMs := OptionalDistribution(accepted);
      var conflictMs := OptionalDistribution(conflicts);
      var errorMs := OptionalDistribution(errors);
      if elapsed == 0 {
        return Err(Statistics(ZeroElapsed));
      }
      var phase := PhaseEvidence(
        Milliseconds(elapsed), counts, OutcomeLatencies(allMs, acceptedMs, conflictMs, errorMs),
        PerSecond(counts.attempts, elapsed), PerSecond(counts.accepted, elapsed),
        Ratio(counts.conflicts, counts.attempts), Ratio(counts.errors, counts.attempts),
        errorCounts);
      return Ok((phase, acceptedRequests));
    }
  }

  function EvidenceFrom(p: Projection, elapsed: Duration): PhaseEvidence
    requires elapsed > 0
  {
    var counts := RequestCounts(|p.all|, |p.accepted|, |p.conflicts|, |p.errors|);
    PhaseEvidence(
      Milliseconds(elapsed), counts,
      OutcomeLatencies(LatencySummary(p.all), LatencySummary(p.accepted), LatencySummary(p.conflicts),
        LatencySummary(p.errors)),
      PerSecond(counts.attempts, elapsed), PerSecond(counts.accepted, elapsed),
      Ratio(counts.conflicts, counts.attempts), Ratio(counts.errors, counts.attempts), p.errorCounts)
  }

  lemma FinishedFromView(log: seq<Entry>, elapsed: Duration)
    ensures var p := Project(log);
            && |p.accepted| + |p.conflicts| + |p.errors| == |p.all| == |log|
            && Finished(log, elapsed) == (
                 if |p.all| > U64_MAX then Err(CountOverflow)
                 else if elapsed == 0 then Err(Statistics(ZeroElapsed))
                 else Ok((EvidenceFrom(p, elapsed), p.acceptedRequests)))
  {
    ProjectedSets(log);
    ProjectedLists(log);
    EveryLogIsPartitioned(log);
  }

  method OptionalDistribution(latencies: seq<Duration>) returns (d: Option<Distribution>)
    ensures d == LatencySummary(latencies)
  {
    if latencies == [] { return None; }
    var samples := Map(Milliseconds, latencies);
    var r := NonnegativeDistribution(samples);
    assert forall i :: 0 <= i < |samples| ==> samples[i] >= 0.0;
    assert Rejection(samples).None?;
    return Some(r.value);
  }

  /** The overflow check that runs before anything is changed. */
  method CountsFit(ours: map<RequestError, u64>, theirs: map<RequestError, u64>) returns (fits: bool)
    ensures fits <==> forall x :: x in theirs ==> Lookup(ours, x) + theirs[x] <= U64_MAX
  {
    var pending := theirs.Keys;
    while pending != {}
      invariant pending <= theirs.Keys
      invariant forall x :: x in theirs && x !in pending ==> Lookup(ours, x) + theirs[x] <= U64_MAX
    {
      var error :| error in pending;
      if Lookup(ours, error) + theirs[error] > U64_MAX {
        return false;
      }
      pending := pending - {error};
    }
    return true;
  }

  /** Adds the counters of another ledger, one key at a time. Every sum has
      been checked before, so no addition leaves the 64-bit range. */
  method AddCounts(ours: map<RequestError, u64>, theirs: map<RequestError, u64>)
    returns (sum: map<RequestError, u64>)
    requires forall x :: x in theirs ==> Lookup(ours, x) + theirs[x] <= U64_MAX
    ensures sum.Keys == ours.Keys + theirs.Keys
    ensures forall x :: x in sum ==> sum[x] == Lookup(ours, x) + Lookup(theirs, x)
  {
    sum := ours;
    var rest := theirs.Keys;
    while rest != {}
      invariant rest <= theirs.Keys
      invariant sum.Keys == ours.Keys + (theirs.Keys - rest)
      invariant forall x :: x in sum && x !in rest ==> sum[x] == Lookup(ours, x) + Lookup(theirs, x)
      invariant forall x :: x in rest ==> Lookup(sum, x) == Lookup(ours, x)
    {
      var error :| error in rest;
      sum := sum[error := Lookup(sum, error) + theirs[error]];
      rest := rest - {error};
    }
  }
}
