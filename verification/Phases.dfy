/** What whole runs of the commit phases guarantee: accounting of every issued
    commit, attribution of the final property, and metadata growth. */
module Phases {
  import opened Ordering
  import opened Ledger
  import opened Contention

  // ---------- invariant relative to the catalog a phase started from ----------

  ghost predicate Mine(ctx: Context, id: string) {
    exists c: nat, k: nat :: c < ClientCount(ctx.plan) && id == Id(ctx, c, k)
  }

  ghost predicate Extends(ctx: Context, s: State, before: Catalog) {
    && (forall id :: Known(s.catalog, id) ==> Known(before, id) || Mine(ctx, id))
    && (forall id :: id in before.responses ==>
          id in s.catalog.responses && s.catalog.responses[id] == before.responses[id])
    && (forall id :: id in s.catalog.responses ==> id in before.responses || id in s.issued)
    && before.abandoned <= s.catalog.abandoned
    && (s.catalog.abandoned == before.abandoned || exists c: nat :: c < |s.clients| && s.clients[c].status.Failed?)
  }

  predicate Over(client: Client) {
    client.status.Stopped? || client.status.Failed?
  }

  ghost predicate JoinedOk(s: State) {
    && Distinct(s.joined)
    && forall i :: 0 <= i < |s.joined| ==> s.joined[i] < |s.clients| && Over(s.clients[s.joined[i]])
  }

  ghost predicate PhaseInv(ctx: Context, s: State, before: Catalog, initial: Option<string>) {
    Inv(ctx, s, initial) && Extends(ctx, s, before) && JoinedOk(s)
  }

  lemma MineIs(ctx: Context, c: nat, k: nat)
    requires c < ClientCount(ctx.plan)
    ensures Mine(ctx, Id(ctx, c, k))
  {
  }

  lemma JoinedKept(ctx: Context, s: State, step: Step)
    requires JoinedOk(s) && Enabled(ctx, s, step)
    ensures JoinedOk(Do(ctx, s, step))
  {
  }

  lemma FailureLasts(ctx: Context, s: State, step: Step, c: nat)
    requires Enabled(ctx, s, step) && c < |s.clients| && s.clients[c].status.Failed?
    ensures c < |Do(ctx, s, step).clients| && Do(ctx, s, step).clients[c].status.Failed?
  {
  }

  /** The one request a step concerns, if any. */
  function Subject(ctx: Context, s: State, step: Step): Option<string>
    requires Enabled(ctx, s, step)
  {
    match step
    case Apply(c, _) => Some(Id(ctx, c, s.clients[c].sequence))
    case Respond(c, _) => Some(Id(ctx, c, s.clients[c].sequence))
    case Panic(c) => Some(Id(ctx, c, s.clients[c].sequence))
    case ApplyLate(id, _) => Some(id)
    case _ => None
  }

  lemma StepTouches(ctx: Context, s: State, step: Step, id: string)
    requires Enabled(ctx, s, step) && Known(Do(ctx, s, step).catalog, id) && !Known(s.catalog, id)
    ensures Subject(ctx, s, step) == Some(id) && !step.ApplyLate?
  {
  }

  lemma KnownStaysExplained(ctx: Context, s: State, step: Step, before: Catalog, id: string)
    requires |s.clients| == ClientCount(ctx.plan) && Enabled(ctx, s, step)
    requires forall x :: Known(s.catalog, x) ==> Known(before, x) || Mine(ctx, x)
    requires Known(Do(ctx, s, step).catalog, id)
    ensures Known(before, id) || Mine(ctx, id)
  {
    if !Known(s.catalog, id) {
      StepTouches(ctx, s, step, id);
      var c := match step case Apply(c, _) => c case Respond(c, _) => c case Panic(c) => c case _ => 0;
      MineIs(ctx, c, s.clients[c].sequence);
    }
  }

  lemma ResponsesGrow(ctx: Context, s: State, step: Step, id: string)
    requires ClientsOk(ctx, s) && Enabled(ctx, s, step)
    ensures var s' := Do(ctx, s, step);
            && (id in s.catalog.responses ==>
               id in s'.catalog.responses && s'.catalog.responses[id] == s.catalog.responses[id])
            && (id in s'.catalog.responses && id !in s.catalog.responses ==>
               step.Respond? && Subject(ctx, s, step) == Some(id))
            && s.issued <= s'.issued
  {
    if step.Respond? {
      assert WaitOk(ctx, s.catalog, step.client, s.clients[step.client]);
    }
  }

  lemma ExtendsKept(ctx: Context, s: State, step: Step, before: Catalog)
    requires WellFormed(ctx) && ClientsOk(ctx, s) && IssuedOk(ctx, s) && Extends(ctx, s, before) &&
             Enabled(ctx, s, step)
    ensures Extends(ctx, Do(ctx, s, step), before)
  {
    var s' := Do(ctx, s, step);
    forall id | Known(s'.catalog, id) ensures Known(before, id) || Mine(ctx, id) {
      KnownStaysExplained(ctx, s, step, before, id);
    }
    forall id | id in before.responses
      ensures id in s'.catalog.responses && s'.catalog.responses[id] == before.responses[id]
    {
      ResponsesGrow(ctx, s, step, id);
    }
    forall id | id in s'.catalog.responses ensures id in before.responses || id in s'.issued {
      ResponsesGrow(ctx, s, step, id);
      if id !in s.catalog.responses {
        assert s.clients[step.client].sequence < Begun(s.clients[step.client]);
      }
    }
    if s.catalog.abandoned != before.abandoned {
      var c: nat :| c < |s.clients| && s.clients[c].status.Failed?;
      FailureLasts(ctx, s, step, c);
    } else if step.Panic? {
      assert s'.clients[step.client].status.Failed?;
    }
  }

  /** The catalog between phases: nothing is in flight. */
  ghost predicate Settled(catalog: Catalog) {
    forall id :: id in catalog.applied ==>
      (id in catalog.responses && !catalog.responses[id].Conflict?) || id in catalog.abandoned
  }

  ghost predicate Untouched(ctx: Context, catalog: Catalog) {
    forall c: nat, k: nat :: c < ClientCount(ctx.plan) ==> !Known(catalog, Id(ctx, c, k))
  }

  lemma StartHolds(ctx: Context, now: nat, before: Catalog, initial: Option<string>)
    requires WellFormed(ctx) && CatalogOk(before, initial) && Settled(before) && Untouched(ctx, before)
    ensures PhaseInv(ctx, Start(ctx, now, before), before, initial)
  {
    var s := Start(ctx, now, before);
    forall c: nat | c < |s.clients|
      ensures LogOk(ctx, before, c, s.clients[c]) && WaitOk(ctx, before, c, s.clients[c]) &&
              FreshOk(ctx, before, c, s.clients[c])
    {
    }
    forall id | id in before.applied ensures Explained(ctx, s, id) {
    }
  }

  /** Every state of every run keeps the invariant. */
  lemma {:induction false} RunKeeps(ctx: Context, s: State, steps: seq<Step>, before: Catalog, initial: Option<string>)
    requires PhaseInv(ctx, s, before, initial) && Runs(ctx, s, steps)
    ensures PhaseInv(ctx, After(ctx, s, steps), before, initial)
    decreases |steps|
  {
    if steps != [] {
      StepKeeps(ctx, s, steps[0], initial);
      ExtendsKept(ctx, s, steps[0], before);
      JoinedKept(ctx, s, steps[0]);
      RunKeeps(ctx, Do(ctx, s, steps[0]), steps[1..], before, initial);
    }
  }

  /** The growth relation holds in every state of every run. */
  lemma {:induction false} RunGrows(ctx: Context, s: State, steps: seq<Step>, initial: Option<string>, base: nat)
    requires Inv(ctx, s, initial) && Grown(s.catalog, base) && Runs(ctx, s, steps)
    ensures Grown(After(ctx, s, steps).catalog, base)
    decreases |steps|
  {
    if steps != [] {
      StepKeeps(ctx, s, steps[0], initial);
      StepGrows(ctx, s, steps[0], initial, base);
      RunGrows(ctx, Do(ctx, s, steps[0]), steps[1..], initial, base);
    }
  }

  // ---------- client ledgers ----------

  /** Each client ledger is duplicate free, and a duplicate is only ever
      reported for an identity whose digest the ledger already holds. */
  ghost predicate LedgersOk(ctx: Context, s: State) {
    forall c: nat :: c < |s.clients| ==> LedgerOk(ctx, c, s.clients[c])
  }

  ghost predicate LedgerOk(ctx: Context, c: nat, client: Client) {
    && DistinctDigests(client.log)
    && (client.status.Failed? ==>
       Interruption(client.status.error) || client.status.error == Model(DuplicateRequestIdentity))
    && (client.status.Failed? && client.status.error == Model(DuplicateRequestIdentity) ==>
          client.status.pending && ctx.digest(Id(ctx, c, client.sequence)) in Digests(client.log))
  }

  /** What may stop a phase other than a reused identity: a panicking writer, or
      a sequence or counter that leaves 64 bits. */
  predicate Interruption(error: WorkflowError) {
    error.WriterTask? || error.SequenceOverflow? || error == Model(CountOverflow)
  }

  lemma RecordFailureKinds(p: Projection, e: Entry)
    ensures RecordFailure(p, e).None? || RecordFailure(p, e) == Some(DuplicateRequestIdentity)
         || RecordFailure(p, e) == Some(CountOverflow)
    ensures e.digest in p.seen <==> RecordFailure(p, e) == Some(DuplicateRequestIdentity)
  {
  }

  lemma AnsweredLedger(ctx: Context, c: nat, client: Client, latency: nat, outcome: RequestOutcome)
    requires DistinctDigests(client.log)
    ensures LedgerOk(ctx, c, Answered(ctx, c, client, latency, outcome))
  {
    var entry := Entry(ctx.digest(Id(ctx, c, client.sequence)), latency, outcome);
    var p := Project(client.log);
    ProjectedSets(client.log);
    RecordFailureKinds(p, entry);
    Snoc(client.log, entry);
    match RecordFailure(p, entry)
    case Some(error) => assert Answered(ctx, c, client, latency, outcome) ==
      client.(status := Failed(Model(error), true));
    case None => assert DistinctDigests(client.log + [entry]);
  }

  lemma RespondLedgers(ctx: Context, s: State, c: nat, outcome: RequestOutcome)
    requires LedgersOk(ctx, s) && Awaits(s, c) && s.clients[c].status.startedAt <= s.now
    ensures LedgersOk(ctx, Responded(ctx, s, c, outcome))
  {
    assert LedgerOk(ctx, c, s.clients[c]);
    var latency := s.now - s.clients[c].status.startedAt;
    AnsweredLedger(ctx, c, s.clients[c], latency, outcome);
    assert Responded(ctx, s, c, outcome).clients == s.clients[c := Answered(ctx, c, s.clients[c], latency, outcome)];
  }

  lemma QuietLedgers(ctx: Context, s: State, c: nat, client: Client)
    requires LedgersOk(ctx, s) && c < |s.clients|
    requires client.log == s.clients[c].log && client.sequence == s.clients[c].sequence
    requires client.status.Failed? ==> client.status.error == WriterTask
    ensures LedgersOk(ctx, s.(clients := s.clients[c := client]))
  {
    assert LedgerOk(ctx, c, s.clients[c]);
  }

  lemma LedgersKept(ctx: Context, s: State, step: Step)
    requires LedgersOk(ctx, s) && Enabled(ctx, s, step)
    ensures LedgersOk(ctx, Do(ctx, s, step))
  {
    var s' := Do(ctx, s, step);
    match step
    case Respond(c, outcome) => RespondLedgers(ctx, s, c, outcome);
    case Issue(c) => QuietLedgers(ctx, s, c, s'.clients[c]);
    case Apply(c, _) => QuietLedgers(ctx, s, c, s'.clients[c]);
    case Stop(c) => QuietLedgers(ctx, s, c, s'.clients[c]);
    case Panic(c) => QuietLedgers(ctx, s, c, s'.clients[c]);
    case _ => assert s'.clients == s.clients;
  }

  lemma {:induction false} RunKeepsLedgers(ctx: Context, s: State, steps: seq<Step>)
    requires LedgersOk(ctx, s) && Runs(ctx, s, steps)
    ensures LedgersOk(ctx, After(ctx, s, steps))
    decreases |steps|
  {
    if steps != [] {
      LedgersKept(ctx, s, steps[0]);
      RunKeepsLedgers(ctx, Do(ctx, s, steps[0]), steps[1..]);
    }
  }

  // ---------- joining ----------

  type WriterResult = Result<seq<Entry>, WorkflowError>

  datatype Joining = Joining(log: seq<Entry>, firstError: Option<WorkflowError>)

  function KeepFirst(first: Option<WorkflowError>, error: WorkflowError): Option<WorkflowError> {
    if first.Some? then first else Some(error)
  }

  function JoinOne(j: Joining, result: WriterResult): Joining {
    match result
    case Err(error) => j.(firstError := KeepFirst(j.firstError, error))
    case Ok(log) =>
      match MergeFailure(Project(j.log), Project(log))
      case Some(error) => j.(firstError := KeepFirst(j.firstError, Model(error)))
      case None => j.(log := j.log + log)
  }

  /** Merging writer results in the order they were joined. */
  function JoinAll(results: seq<WriterResult>): Joining {
    if results == [] then Joining([], None)
    else JoinOne(JoinAll(results[..|results| - 1]), results[|results| - 1])
  }

  function ResultOf(client: Client): WriterResult {
    if client.status.Failed? then Err(client.status.error) else Ok(client.log)
  }

  function ResultsOf(clients: seq<Client>, order: seq<nat>): (r: seq<WriterResult>)
    requires forall i :: 0 <= i < |order| ==> order[i] < |clients|
    ensures |r| == |order|
  {
    seq(|order|, i requires 0 <= i < |order| => ResultOf(clients[order[i]]))
  }

  /** The ledger a finished phase hands to `finish`. */
  function Gathered(ctx: Context, s: State): WriterResult
    requires |s.clients| == ClientCount(ctx.plan)
    requires forall i :: 0 <= i < |s.joined| ==> s.joined[i] < |s.clients|
  {
    if ctx.plan.Serial? then ResultOf(s.clients[0])
    else
      var j := JoinAll(ResultsOf(s.clients, s.joined));
      match j.firstError
      case Some(error) => Err(error)
      case None => Ok(j.log)
  }

  // ---------- exactly-once accounting ----------

  /** `log` records the requests `ids`, one entry each, with the answers the
      catalog gave. */
  ghost predicate Records(digest: string -> Digest, catalog: Catalog, log: seq<Entry>, ids: seq<string>) {
    && |log| == |ids| && Distinct(ids)
    && forall i :: 0 <= i < |ids| ==>
         && log[i].digest == digest(ids[i])
         && ids[i] in catalog.responses && catalog.responses[ids[i]] == log[i].outcome
  }

  function ClientIds(ctx: Context, c: nat, n: nat): (ids: seq<string>)
    ensures |ids| == n
  {
    seq(n, k requires 0 <= k < n => Id(ctx, c, k))
  }

  function OrderIds(ctx: Context, clients: seq<Client>, order: seq<nat>): seq<string>
    requires forall i :: 0 <= i < |order| ==> order[i] < |clients|
  {
    if order == [] then []
    else
      var c := order[|order| - 1];
      OrderIds(ctx, clients, order[..|order| - 1]) + ClientIds(ctx, c, clients[c].sequence)
  }

  lemma {:induction false} OrderIdsMembers(ctx: Context, clients: seq<Client>, order: seq<nat>, id: string)
    requires forall i :: 0 <= i < |order| ==> order[i] < |clients|
    ensures id in OrderIds(ctx, clients, order)
       <==> exists c: nat, k: nat :: c in order && k < clients[c].sequence && id == Id(ctx, c, k)
  {
    if order != [] {
      var front, last := order[..|order| - 1], order[|order| - 1];
      OrderIdsMembers(ctx, clients, front, id);
      assert order == front + [last];
      var own := ClientIds(ctx, last, clients[last].sequence);
      if c: nat, k: nat :| c in order && k < clients[c].sequence && id == Id(ctx, c, k) {
        if c == last { assert own[k] == id; } else { assert c in front; }
      }
      if id in own {
        var k: nat :| k < |own| && own[k] == id;
        assert last in order;
      } else if id in OrderIds(ctx, clients, front) {
        var c: nat, k: nat :| c in front && k < clients[c].sequence && id == Id(ctx, c, k);
        assert c in order;
      }
    }
  }

  lemma DistinctConcat(a: seq<string>, b: seq<string>)
    requires Distinct(a) && Distinct(b) && forall x :: x in a ==> x !in b
    ensures Distinct(a + b)
  {
    forall i, j | 0 <= i < j < |a + b| ensures (a + b)[i] != (a + b)[j] {
      if i < |a| <= j { assert a[i] in a && b[j - |a|] in b; }
    }
  }

  lemma ClientRecords(ctx: Context, s: State, c: nat)
    requires WellFormed(ctx) && ClientsOk(ctx, s) && c < |s.clients|
    ensures Records(ctx.digest, s.catalog, s.clients[c].log, ClientIds(ctx, c, s.clients[c].sequence))
  {
    var n := s.clients[c].sequence;
    assert LogOk(ctx, s.catalog, c, s.clients[c]);
    forall i, j | 0 <= i < j < n ensures ClientIds(ctx, c, n)[i] != ClientIds(ctx, c, n)[j] {
      if Id(ctx, c, i) == Id(ctx, c, j) { IdInjective(ctx, c, i, c, j); }
    }
  }

  lemma RecordsConcat(
    digest: string -> Digest, catalog: Catalog, a: seq<Entry>, aIds: seq<string>, b: seq<Entry>, bIds: seq<string>)
    requires Records(digest, catalog, a, aIds) && Records(digest, catalog, b, bIds)
    requires forall x :: x in aIds ==> x !in bIds
    ensures Records(digest, catalog, a + b, aIds + bIds)
  {
    DistinctConcat(aIds, bIds);
  }

  ghost predicate Halts(s: State, order: seq<nat>) {
    Distinct(order) && forall i :: 0 <= i < |order| ==> order[i] < |s.clients| && Over(s.clients[order[i]])
  }

  lemma JoinFront(clients: seq<Client>, order: seq<nat>)
    requires order != [] && forall i :: 0 <= i < |order| ==> order[i] < |clients|
    ensures var n := |order| - 1;
            JoinAll(ResultsOf(clients, order)) ==
              JoinOne(JoinAll(ResultsOf(clients, order[..n])), ResultOf(clients[order[n]]))
  {
    var n, r := |order| - 1, ResultsOf(clients, order);
    assert r[..n] == ResultsOf(clients, order[..n]);
  }

  lemma JoinOneMerges(j: Joining, client: Client)
    requires DistinctDigests(j.log) && DistinctDigests(client.log) && Over(client)
    requires JoinOne(j, ResultOf(client)).firstError.None?
    ensures j.firstError.None? && client.status.Stopped?
    ensures JoinOne(j, ResultOf(client)).log == j.log + client.log
    ensures DistinctDigests(j.log + client.log)
  {
    ProjectedSets(j.log);
    ProjectedSets(client.log);
    assert MergeFailure(Project(j.log), Project(client.log)).None?;
    DistinctAppend(j.log, client.log);
  }

  lemma {:induction false} JoinedLogDistinct(clients: seq<Client>, order: seq<nat>)
    requires forall i :: 0 <= i < |order| ==> order[i] < |clients| && DistinctDigests(clients[order[i]].log)
    ensures DistinctDigests(JoinAll(ResultsOf(clients, order)).log)
  {
    if order != [] {
      var front, c := order[..|order| - 1], order[|order| - 1];
      JoinedLogDistinct(clients, front);
      JoinFront(clients, order);
      var before := JoinAll(ResultsOf(clients, front)).log;
      ProjectedSets(before);
      ProjectedSets(clients[c].log);
      if Digests(before) !! Digests(clients[c].log) { DistinctAppend(before, clients[c].log); }
    }
  }

  /** A join order without a reported error merges every ledger it met. */
  lemma {:induction false} JoinRecords(ctx: Context, s: State, order: seq<nat>)
    requires WellFormed(ctx) && ClientsOk(ctx, s) && LedgersOk(ctx, s) && Halts(s, order)
    requires JoinAll(ResultsOf(s.clients, order)).firstError.None?
    ensures Records(ctx.digest, s.catalog, JoinAll(ResultsOf(s.clients, order)).log, OrderIds(ctx, s.clients, order))
    ensures forall c :: c in order ==> s.clients[c].status.Stopped?
  {
    if order != [] {
      var front, c := order[..|order| - 1], order[|order| - 1];
      JoinFront(s.clients, order);
      JoinedLogDistinct(s.clients, front);
      var before := JoinAll(ResultsOf(s.clients, front));
      JoinOneMerges(before, s.clients[c]);
      JoinRecords(ctx, s, front);
      assert forall d :: d in order ==> d in front || d == c;
      ClientRecords(ctx, s, c);
      OthersFirst(ctx, s, front, c);
      RecordsConcat(ctx.digest, s.catalog, before.log, OrderIds(ctx, s.clients, front),
        s.clients[c].log, ClientIds(ctx, c, s.clients[c].sequence));
    }
  }

  lemma OthersFirst(ctx: Context, s: State, front: seq<nat>, c: nat)
    requires WellFormed(ctx) && |s.clients| == ClientCount(ctx.plan) && c < |s.clients| && c !in front
    requires forall i :: 0 <= i < |front| ==> front[i] < |s.clients|
    ensures forall x :: x in OrderIds(ctx, s.clients, front) ==> x !in ClientIds(ctx, c, s.clients[c].sequence)
  {
    var own := ClientIds(ctx, c, s.clients[c].sequence);
    forall x | x in OrderIds(ctx, s.clients, front) ensures x !in own {
      OrderIdsMembers(ctx, s.clients, front, x);
      var d: nat, k: nat :| d in front && k < s.clients[d].sequence && x == Id(ctx, d, k);
      if x in own {
        var j: nat :| j < |own| && own[j] == x;
        IdInjective(ctx, d, k, c, j);
      }
    }
  }

  /** Every client has finished and been joined. */
  ghost predicate AllJoined(s: State) {
    forall c: nat :: c < |s.clients| ==> c in s.joined
  }

  function PhaseIds(ctx: Context, s: State): seq<string>
    requires |s.clients| == ClientCount(ctx.plan)
    requires forall i :: 0 <= i < |s.joined| ==> s.joined[i] < |s.clients|
  {
    if ctx.plan.Serial? then ClientIds(ctx, 0, s.clients[0].sequence) else OrderIds(ctx, s.clients, s.joined)
  }

  lemma JoinedIsOver(s: State, c: nat)
    requires JoinedOk(s) && AllJoined(s) && c < |s.clients|
    ensures Over(s.clients[c]) && c in s.joined
  {
    assert c in s.joined;
    var i :| 0 <= i < |s.joined| && s.joined[i] == c;
  }

  lemma GatheredRecords(ctx: Context, s: State)
    requires WellFormed(ctx) && ClientsOk(ctx, s) && LedgersOk(ctx, s) && JoinedOk(s) && AllJoined(s)
    requires Gathered(ctx, s).Ok?
    ensures forall c: nat :: c < |s.clients| ==> s.clients[c].status.Stopped?
    ensures DistinctDigests(Gathered(ctx, s).value)
    ensures Records(ctx.digest, s.catalog, Gathered(ctx, s).value, PhaseIds(ctx, s))
  {
    if ctx.plan.Serial? {
      JoinedIsOver(s, 0);
      ClientRecords(ctx, s, 0);
    } else {
      JoinRecords(ctx, s, s.joined);
      JoinedLogDistinct(s.clients, s.joined);
      forall c: nat | c < |s.clients| ensures s.clients[c].status.Stopped? {
        JoinedIsOver(s, c);
      }
    }
  }

  lemma GatheredIds(ctx: Context, s: State)
    requires |s.clients| == ClientCount(ctx.plan) && JoinedOk(s) && AllJoined(s)
    ensures forall id :: id in PhaseIds(ctx, s)
               <==> exists c: nat, k: nat :: c < |s.clients| && k < s.clients[c].sequence && id == Id(ctx, c, k)
  {
    if ctx.plan.Serial? { SerialIds(ctx, s); } else { JoinedIds(ctx, s); }
  }

  lemma SerialIds(ctx: Context, s: State)
    requires |s.clients| == 1
    ensures forall id :: id in ClientIds(ctx, 0, s.clients[0].sequence)
               <==> exists c: nat, k: nat :: c < |s.clients| && k < s.clients[c].sequence && id == Id(ctx, c, k)
  {
    var own := ClientIds(ctx, 0, s.clients[0].sequence);
    forall c: nat, k: nat | c < |s.clients| && k < s.clients[c].sequence ensures Id(ctx, c, k) in own {
      assert own[k] == Id(ctx, c, k);
    }
  }

  lemma JoinedIds(ctx: Context, s: State)
    requires JoinedOk(s) && AllJoined(s)
    ensures forall id :: id in OrderIds(ctx, s.clients, s.joined)
               <==> exists c: nat, k: nat :: c < |s.clients| && k < s.clients[c].sequence && id == Id(ctx, c, k)
  {
    forall id
      ensures id in OrderIds(ctx, s.clients, s.joined)
         <==> exists c: nat, k: nat :: c < |s.clients| && k < s.clients[c].sequence && id == Id(ctx, c, k)
    {
      OrderIdsMembers(ctx, s.clients, s.joined, id);
    }
  }

  /** A finished phase: whatever the interleaving and join order, success means
      that no commit is in flight, that exactly the issued requests are
      recorded, each once and with the catalog's answer, and that the accepted
      set is exactly the digests of the accepted requests. */
  ghost predicate Accounts(ctx: Context, s: State, log: seq<Entry>, ids: seq<string>) {
    && (forall c: nat :: c < |s.clients| ==> !s.clients[c].status.Waiting?)
    && Records(ctx.digest, s.catalog, log, ids)
    && (forall id :: id in s.issued <==> id in ids)
    && (forall d :: d in AcceptedDigests(log)
          <==> exists id :: id in s.issued && s.catalog.responses[id] == Accepted && d == ctx.digest(id))
  }

  lemma RecordedAccepted(digest: string -> Digest, catalog: Catalog, log: seq<Entry>, ids: seq<string>, d: Digest)
    requires Records(digest, catalog, log, ids)
    ensures d in AcceptedDigests(log) <==>
            exists id :: id in ids && catalog.responses[id] == Accepted && d == digest(id)
  {
    DigestMembers(log, d);
    if e :| e in log && e.digest == d && IsAccepted(e) {
      var i :| 0 <= i < |log| && log[i] == e;
      assert ids[i] in ids;
    }
    if id :| id in ids && catalog.responses[id] == Accepted && d == digest(id) {
      var i :| 0 <= i < |ids| && ids[i] == id;
      assert log[i] in log;
    }
  }

  lemma PhaseAccounting(ctx: Context, s: State)
    requires WellFormed(ctx) && ClientsOk(ctx, s) && IssuedOk(ctx, s) && LedgersOk(ctx, s) && JoinedOk(s) &&
             AllJoined(s)
    requires Gathered(ctx, s).Ok?
    ensures Accounts(ctx, s, Gathered(ctx, s).value, PhaseIds(ctx, s))
    ensures DistinctDigests(Gathered(ctx, s).value)
    ensures forall c: nat :: c < |s.clients| ==> s.clients[c].status.Stopped?
  {
    GatheredRecords(ctx, s);
    GatheredIds(ctx, s);
    var log, ids := Gathered(ctx, s).value, PhaseIds(ctx, s);
    IssuedAre(ctx, s, ids);
    forall d ensures d in AcceptedDigests(log)
          <==> exists id :: id in s.issued && s.catalog.responses[id] == Accepted && d == ctx.digest(id) {
      RecordedAccepted(ctx.digest, s.catalog, log, ids, d);
    }
  }

  lemma IssuedAre(ctx: Context, s: State, ids: seq<string>)
    requires IssuedOk(ctx, s) && forall c: nat :: c < |s.clients| ==> s.clients[c].status.Stopped?
    requires forall id :: id in ids
               <==> exists c: nat, k: nat :: c < |s.clients| && k < s.clients[c].sequence && id == Id(ctx, c, k)
    ensures forall id :: id in s.issued <==> id in ids
  {
  }

  // ---------- the join order does not matter ----------

  function LogOf(r: WriterResult): seq<Entry> { if r.Ok? then r.value else [] }
  function Holds(d: Digest): WriterResult -> bool { (r: WriterResult) => r.Ok? && d in Digests(r.value) }
  predicate IsOk(r: WriterResult) { r.Ok? }

  function AllLogs(results: seq<WriterResult>): seq<Entry> { Flatten(Map(LogOf, results)) }

  /** What merging needs, said without an order: every writer returned a
      ledger, no digest is in two of them, and no error counter of all of them
      together leaves 64 bits. */
  ghost predicate Joinable(results: seq<WriterResult>) {
    && (forall r :: r in results ==> IsOk(r))
    && (forall d :: |Filter(Holds(d), results)| <= 1)
    && (forall x :: Lookup(ErrorCounts(AllLogs(results)), x) <= U64_MAX)
  }

  lemma LogsSnoc(results: seq<WriterResult>, r: WriterResult)
    ensures AllLogs(results + [r]) == AllLogs(results) + LogOf(r)
  {
    MapAppend(LogOf, results, [r]);
    FlattenAppend(Map(LogOf, results), Map(LogOf, [r]));
    assert Map(LogOf, [r]) == [LogOf(r)];
    assert Flatten([LogOf(r)]) == LogOf(r) + Flatten([]);
  }

  lemma HoldersSnoc(results: seq<WriterResult>, r: WriterResult, d: Digest)
    ensures |Filter(Holds(d), results + [r])| == |Filter(Holds(d), results)| + (if Holds(d)(r) then 1 else 0)
  {
    FilterAppend(Holds(d), results, [r]);
    assert [r][1..] == [];
  }

  lemma {:induction false} HeldDigests(results: seq<WriterResult>, d: Digest)
    ensures d in Digests(AllLogs(results)) <==> |Filter(Holds(d), results)| > 0
  {
    if results == [] {
      assert AllLogs(results) == [];
    } else {
      var front, r := results[..|results| - 1], results[|results| - 1];
      assert results == front + [r];
      HeldDigests(front, d);
      LogsSnoc(front, r);
      AppendDigests(AllLogs(front), LogOf(r));
      HoldersSnoc(front, r, d);
    }
  }

  /** Another writer can be merged exactly when the ledgers stay joinable. */
  lemma JoinableSnoc(results: seq<WriterResult>, r: WriterResult)
    requires Joinable(results)
    ensures Joinable(results + [r]) <==> r.Ok? && MergeFailure(Project(AllLogs(results)), Project(LogOf(r))).None?
  {
    var all := AllLogs(results);
    LogsSnoc(results, r);
    ProjectedSets(all);
    ProjectedSets(LogOf(r));
    forall d
      ensures |Filter(Holds(d), results + [r])| == |Filter(Holds(d), results)| + (if Holds(d)(r) then 1 else 0)
      ensures d in Digests(all) <==> |Filter(Holds(d), results)| > 0
    {
      HoldersSnoc(results, r, d);
      HeldDigests(results, d);
    }
    forall x
      ensures Lookup(ErrorCounts(all + LogOf(r)), x) == Lookup(ErrorCounts(all), x) + Lookup(ErrorCounts(LogOf(r)), x)
    {
      AppendErrorCounts(all, LogOf(r), x);
    }
    if Joinable(results + [r]) {
      assert r in results + [r];
    } else if r.Ok? && MergeFailure(Project(all), Project(LogOf(r))).None? {
      OverflowShows(all, LogOf(r));
    }
  }

  lemma OverflowShows(a: seq<Entry>, b: seq<Entry>)
    requires MergeFailure(Project(a), Project(b)).None? && forall x :: Lookup(ErrorCounts(a), x) <= U64_MAX
    ensures forall x :: Lookup(ErrorCounts(a), x) + Lookup(ErrorCounts(b), x) <= U64_MAX
    ensures Digests(a) !! Digests(b)
  {
    ProjectedSets(a);
    ProjectedSets(b);
  }

  /** The join loop succeeds exactly on joinable results and then holds the
      logs of all of them. */
  lemma {:induction false} JoinsExactly(results: seq<WriterResult>)
    ensures JoinAll(results).firstError.None? <==> Joinable(results)
    ensures Joinable(results) ==> JoinAll(results).log == AllLogs(results)
  {
    if results == [] {
      assert AllLogs(results) == [];
    } else {
      var front, r := results[..|results| - 1], results[|results| - 1];
      assert results == front + [r];
      JoinsExactly(front);
      if Joinable(front) {
        JoinableSnoc(front, r);
        LogsSnoc(front, r);
      } else {
        NotJoinableSnoc(front, r);
      }
    }
  }

  lemma NotJoinableSnoc(results: seq<WriterResult>, r: WriterResult)
    requires !Joinable(results)
    ensures !Joinable(results + [r])
  {
    if Joinable(results + [r]) {
      LogsSnoc(results, r);
      forall s | s in results ensures IsOk(s) { assert s in results + [r]; }
      forall d ensures |Filter(Holds(d), results)| <= 1 { HoldersSnoc(results, r, d); }
      forall x ensures Lookup(ErrorCounts(AllLogs(results)), x) <= U64_MAX {
        AppendErrorCounts(AllLogs(results), LogOf(r), x);
      }
    }
  }

  lemma JoinablePermutes(a: seq<WriterResult>, b: seq<WriterResult>)
    requires multiset(a) == multiset(b) && Joinable(a)
    ensures Joinable(b)
  {
    SameElements(a, b);
    MapPermutes(LogOf, a, b);
    FlattenPermutes(Map(LogOf, a), Map(LogOf, b));
    ErrorCountsPermute(AllLogs(a), AllLogs(b));
    forall d ensures |Filter(Holds(d), b)| <= 1 {
      FilterPermutes(Holds(d), a, b);
      SameElements(Filter(Holds(d), a), Filter(Holds(d), b));
    }
  }

  /** Any other join order of the same writers succeeds as well, and finishes
      with the same evidence and the same accepted requests. */
  lemma JoinOrderIsIrrelevant(a: seq<WriterResult>, b: seq<WriterResult>, elapsed: Duration)
    requires multiset(a) == multiset(b)
    ensures JoinAll(a).firstError.None? <==> JoinAll(b).firstError.None?
    ensures JoinAll(a).firstError.None? ==> Finished(JoinAll(a).log, elapsed) == Finished(JoinAll(b).log, elapsed)
  {
    JoinsExactly(a);
    JoinsExactly(b);
    if Joinable(a) {
      JoinablePermutes(a, b);
      MapPermutes(LogOf, a, b);
      MergeOrderIsIrrelevant(Map(LogOf, a), Map(LogOf, b), elapsed);
    } else if Joinable(b) {
      JoinablePermutes(b, a);
    }
  }
}
