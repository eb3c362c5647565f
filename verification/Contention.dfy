/** The commit phases of a round as a state machine: clients issue commits
    against one table, a catalog applies and answers them in any order, and
    finished writers are joined in any order. */
module Contention {
  import opened Ordering
  import opened Identity
  import opened Ledger

  // ---------- the object store listing ----------

  datatype StoredObject = StoredObject(location: string, size: nat)

  predicate EndsWith(s: string, suffix: string) {
    |suffix| <= |s| && s[|s| - |suffix|..] == suffix
  }

  predicate IsMetadata(o: StoredObject) {
    EndsWith(o.location, ".metadata.json")
  }

  function MetadataCount(listing: seq<StoredObject>): nat {
    |Filter(IsMetadata, listing)|
  }

  // ---------- state ----------

  datatype WorkflowError =
    | Model(error: ModelError) | WriterStartChannelClosed | WriterTask | SequenceOverflow | DeadlineOverflow

  /** A serial phase issues a fixed number of commits from one client; the
      window lets each writer start commits until the deadline. */
  datatype PhasePlan =
    | Serial(name: PhaseName, attempts: nat)
    | Window(writers: nat, deadline: nat)

  datatype Context = Context(config: RoundConfig, plan: PhasePlan, digest: string -> Digest)

  function ClientCount(plan: PhasePlan): nat {
    if plan.Serial? then 1 else plan.writers
  }

  function SlotOf(plan: PhasePlan, client: nat, sequence: nat): Slot {
    match plan
    case Serial(name, _) => Slot(name, None, sequence)
    case Window(_, _) => Slot(Concurrent, Some(client), sequence)
  }

  predicate WellFormed(ctx: Context) {
    ctx.plan.Serial? ==> !ctx.plan.name.Concurrent?
  }

  function Id(ctx: Context, client: nat, sequence: nat): string {
    RequestIdentity(ctx.config, SlotOf(ctx.plan, client, sequence))
  }

  datatype Status =
    | Idle
    | Waiting(startedAt: nat, applied: bool)
    | Stopped
    | Failed(error: WorkflowError, pending: bool)

  /** `pending` failures leave the commit numbered `sequence` unrecorded. */
  datatype Client = Client(status: Status, sequence: nat, log: seq<Entry>)

  /** `late` holds requests that nobody awaits any more and that the catalog
      may still apply: failed ones, and those of a panicked writer (`abandoned`).
      `persisted` lists the requests whose effect added a metadata object, and
      `shrunk` tells that the store has lost metadata objects. */
  datatype Catalog = Catalog(
    property: Option<string>, objects: seq<StoredObject>, applied: seq<string>,
    responses: map<string, RequestOutcome>, late: set<string>, abandoned: set<string>,
    persisted: seq<string>, shrunk: bool)

  datatype State = State(
    now: nat, catalog: Catalog, issued: set<string>, clients: seq<Client>, joined: seq<nat>)

  datatype Step =
    | Tick(elapsed: nat)
    | Issue(client: nat)
    | Apply(client: nat, added: seq<StoredObject>)
    | ApplyLate(id: string, added: seq<StoredObject>)
    | Store(listing: seq<StoredObject>)
    | Respond(client: nat, outcome: RequestOutcome)
    | Stop(client: nat)
    | Panic(client: nat)
    | Join(client: nat)

  predicate MayIssue(plan: PhasePlan, now: nat, sequence: nat) {
    match plan
    case Serial(_, attempts) => sequence < attempts
    case Window(_, deadline) => now < deadline
  }

  function Start(ctx: Context, now: nat, catalog: Catalog): State {
    State(now, catalog, {}, seq(ClientCount(ctx.plan), _ => Client(Idle, 0, [])), [])
  }

  predicate Enabled(ctx: Context, s: State, step: Step) {
    match step
    case Tick(elapsed) => elapsed > 0
    case Issue(c) => c < |s.clients| && s.clients[c].status.Idle? && MayIssue(ctx.plan, s.now, s.clients[c].sequence)
    case Apply(c, added) =>
      c < |s.clients| && s.clients[c].status.Waiting? && !s.clients[c].status.applied
    case ApplyLate(id, added) => id in s.catalog.late
    case Store(listing) => true
    case Respond(c, outcome) =>
      && c < |s.clients| && s.clients[c].status.Waiting? && s.clients[c].status.startedAt <= s.now
      && (outcome.Accepted? ==> s.clients[c].status.applied)
      && (outcome.Conflict? ==> !s.clients[c].status.applied)
    case Stop(c) => c < |s.clients| && s.clients[c].status.Idle? && !MayIssue(ctx.plan, s.now, s.clients[c].sequence)
    case Panic(c) =>
      c < |s.clients| && ctx.plan.Window? && (s.clients[c].status.Idle? || s.clients[c].status.Waiting?)
    case Join(c) => c < |s.clients| && (s.clients[c].status.Stopped? || s.clients[c].status.Failed?) && c !in s.joined
  }

  function Applied(catalog: Catalog, id: string, added: seq<StoredObject>): Catalog {
    catalog.(
      property := Some(id), objects := catalog.objects + added, applied := catalog.applied + [id],
      persisted := if MetadataCount(added) >= 1 then catalog.persisted + [id] else catalog.persisted)
  }

  /** The store holds something else now: compaction, expiry, foreign writes. */
  function Restored(s: State, listing: seq<StoredObject>): State {
    s.(catalog := s.catalog.(
      objects := listing, shrunk := s.catalog.shrunk || MetadataCount(listing) < MetadataCount(s.catalog.objects)))
  }

  /** The client after its answer arrived: the ledger records it, then the
      writer's 64-bit sequence advances. */
  function Answered(ctx: Context, c: nat, client: Client, latency: nat, outcome: RequestOutcome): Client {
    var entry := Entry(ctx.digest(Id(ctx, c, client.sequence)), latency, outcome);
    match RecordFailure(Project(client.log), entry)
    case Some(error) => client.(status := Failed(Model(error), true))
    case None =>
      Client(if ctx.plan.Window? && client.sequence == U64_MAX then Failed(SequenceOverflow, false) else Idle,
             client.sequence + 1, client.log + [entry])
  }

  predicate Awaits(s: State, c: nat) {
    c < |s.clients| && s.clients[c].status.Waiting?
  }

  function Issued(ctx: Context, s: State, c: nat): State
    requires c < |s.clients|
  {
    s.(clients := s.clients[c := s.clients[c].(status := Waiting(s.now, false))],
       issued := s.issued + {Id(ctx, c, s.clients[c].sequence)})
  }

  function AppliedFor(ctx: Context, s: State, c: nat, added: seq<StoredObject>): State
    requires Awaits(s, c)
  {
    s.(clients := s.clients[c := s.clients[c].(status := s.clients[c].status.(applied := true))],
       catalog := Applied(s.catalog, Id(ctx, c, s.clients[c].sequence), added))
  }

  function AppliedLate(s: State, id: string, added: seq<StoredObject>): State {
    s.(catalog := Applied(s.catalog, id, added).(late := s.catalog.late - {id}))
  }

  function Responded(ctx: Context, s: State, c: nat, outcome: RequestOutcome): State
    requires Awaits(s, c) && s.clients[c].status.startedAt <= s.now
  {
    var client, id := s.clients[c], Id(ctx, c, s.clients[c].sequence);
    s.(clients := s.clients[c := Answered(ctx, c, client, s.now - client.status.startedAt, outcome)],
       catalog := s.catalog.(
         responses := s.catalog.responses[id := outcome],
         late := s.catalog.late + (if outcome.Error? && !client.status.applied then {id} else {})))
  }

  function Halted(s: State, c: nat): State
    requires c < |s.clients|
  {
    s.(clients := s.clients[c := s.clients[c].(status := Stopped)])
  }

  function Panicked(ctx: Context, s: State, c: nat): State
    requires c < |s.clients|
  {
    var client, id := s.clients[c], Id(ctx, c, s.clients[c].sequence);
    var waiting := client.status.Waiting?;
    s.(clients := s.clients[c := client.(status := Failed(WriterTask, waiting))],
       catalog := s.catalog.(
         abandoned := s.catalog.abandoned + (if waiting then {id} else {}),
         late := s.catalog.late + (if waiting && !client.status.applied then {id} else {})))
  }

  function Do(ctx: Context, s: State, step: Step): State
    requires Enabled(ctx, s, step)
  {
    match step
    case Tick(elapsed) => s.(now := s.now + elapsed)
    case Issue(c) => Issued(ctx, s, c)
    case Apply(c, added) => AppliedFor(ctx, s, c, added)
    case ApplyLate(id, added) => AppliedLate(s, id, added)
    case Store(listing) => Restored(s, listing)
    case Respond(c, outcome) => Responded(ctx, s, c, outcome)
    case Stop(c) => Halted(s, c)
    case Panic(c) => Panicked(ctx, s, c)
    case Join(c) => s.(joined := s.joined + [c])
  }

  // ---------- runs ----------

  predicate Runs(ctx: Context, s: State, steps: seq<Step>)
    decreases |steps|
  {
    steps == [] || (Enabled(ctx, s, steps[0]) && Runs(ctx, Do(ctx, s, steps[0]), steps[1..]))
  }

  function After(ctx: Context, s: State, steps: seq<Step>): State
    requires Runs(ctx, s, steps)
    decreases |steps|
  {
    if steps == [] then s else After(ctx, Do(ctx, s, steps[0]), steps[1..])
  }

  // ---------- invariant ----------

  /** Commits a client has begun, counting one that is in flight or was lost. */
  function Begun(client: Client): nat {
    client.sequence + (if client.status.Waiting? || (client.status.Failed? && client.status.pending) then 1 else 0)
  }

  /** Requests of this round that the catalog has dealt with or may still deal with. */
  predicate Known(catalog: Catalog, id: string) {
    id in catalog.responses || id in catalog.applied || id in catalog.late || id in catalog.abandoned
  }

  ghost predicate LogOk(ctx: Context, catalog: Catalog, c: nat, client: Client) {
    && |client.log| == client.sequence
    && forall k :: 0 <= k < client.sequence ==>
         && client.log[k].digest == ctx.digest(Id(ctx, c, k))
         && Id(ctx, c, k) in catalog.responses
         && catalog.responses[Id(ctx, c, k)] == client.log[k].outcome
  }

  ghost predicate WaitOk(ctx: Context, catalog: Catalog, c: nat, client: Client) {
    client.status.Waiting? ==>
      var id := Id(ctx, c, client.sequence);
      && id !in catalog.responses && id !in catalog.late && id !in catalog.abandoned
      && (client.status.applied <==> id in catalog.applied)
  }

  ghost predicate FreshOk(ctx: Context, catalog: Catalog, c: nat, client: Client) {
    forall k: nat :: k >= Begun(client) ==> !Known(catalog, Id(ctx, c, k))
  }

  ghost predicate IssuedOk(ctx: Context, s: State) {
    && (forall c: nat, k: nat :: c < |s.clients| ==> (Id(ctx, c, k) in s.issued <==> k < Begun(s.clients[c])))
    && (forall id :: id in s.issued ==>
       exists c: nat, k: nat :: c < |s.clients| && k < Begun(s.clients[c]) && id == Id(ctx, c, k))
  }

  ghost predicate ClientsOk(ctx: Context, s: State) {
    && |s.clients| == ClientCount(ctx.plan)
    && forall c: nat :: c < |s.clients| ==>
         && LogOk(ctx, s.catalog, c, s.clients[c])
         && WaitOk(ctx, s.catalog, c, s.clients[c])
         && FreshOk(ctx, s.catalog, c, s.clients[c])
  }

  /** An applied commit is answered, abandoned or still awaited. */
  ghost predicate Explained(ctx: Context, s: State, id: string) {
    || (id in s.catalog.responses && !s.catalog.responses[id].Conflict?)
    || id in s.catalog.abandoned
    || exists c: nat :: c < |s.clients| && s.clients[c].status.Waiting? && id == Id(ctx, c, s.clients[c].sequence)
  }

  predicate Distinct<T(==)>(s: seq<T>) {
    forall i, j :: 0 <= i < j < |s| ==> s[i] != s[j]
  }

  /** What holds of the catalog alone, relative to the state before the round. */
  ghost predicate CatalogOk(catalog: Catalog, initial: Option<string>) {
    && catalog.property == (if catalog.applied == [] then initial else Some(catalog.applied[|catalog.applied| - 1]))
    && Distinct(catalog.applied)
    && (forall id :: id in catalog.responses && catalog.responses[id].Accepted? ==> id in catalog.applied)
    && (forall id :: id in catalog.responses && catalog.responses[id].Conflict? ==>
       id !in catalog.applied && id !in catalog.late)
    && (forall id :: id in catalog.late ==>
          id !in catalog.applied &&
            ((id in catalog.responses && catalog.responses[id].Error?) || id in catalog.abandoned))
  }

  ghost predicate Inv(ctx: Context, s: State, initial: Option<string>) {
    && WellFormed(ctx)
    && ClientsOk(ctx, s)
    && IssuedOk(ctx, s)
    && CatalogOk(s.catalog, initial)
    && AllExplained(ctx, s)
  }

  lemma IdInjective(ctx: Context, c: nat, k: nat, c': nat, k': nat)
    requires WellFormed(ctx) && c < ClientCount(ctx.plan) && c' < ClientCount(ctx.plan)
    requires Id(ctx, c, k) == Id(ctx, c', k')
    ensures c == c' && k == k'
  {
    IdentityInjective(ctx.config, SlotOf(ctx.plan, c, k), SlotOf(ctx.plan, c', k'));
  }

  // ---------- every step keeps the invariant ----------

  ghost predicate DiffersOnlyAt(a: Catalog, b: Catalog, id: string) {
    forall x :: x != id ==>
      && (x in a.responses <==> x in b.responses)
      && (x in a.responses ==> a.responses[x] == b.responses[x])
      && (x in a.applied <==> x in b.applied)
      && (x in a.late <==> x in b.late)
      && (x in a.abandoned <==> x in b.abandoned)
  }

  lemma OtherClient(ctx: Context, a: Catalog, b: Catalog, c: nat, k: nat, other: nat, client: Client)
    requires WellFormed(ctx) && c < ClientCount(ctx.plan) && other < ClientCount(ctx.plan) && c != other
    requires DiffersOnlyAt(a, b, Id(ctx, c, k))
    requires LogOk(ctx, a, other, client) && WaitOk(ctx, a, other, client) && FreshOk(ctx, a, other, client)
    ensures LogOk(ctx, b, other, client) && WaitOk(ctx, b, other, client) && FreshOk(ctx, b, other, client)
  {
    forall j: nat ensures Id(ctx, other, j) != Id(ctx, c, k) {
      if Id(ctx, other, j) == Id(ctx, c, k) { IdInjective(ctx, other, j, c, k); }
    }
    forall j: nat | j >= Begun(client) ensures !Known(b, Id(ctx, other, j)) {
      assert !Known(a, Id(ctx, other, j));
    }
  }

  /** A step of one client touches only the catalog entries of its own request. */
  lemma ClientStep(ctx: Context, s: State, s': State, c: nat, client: Client)
    requires WellFormed(ctx) && ClientsOk(ctx, s) && c < |s.clients|
    requires s'.clients == s.clients[c := client]
    requires DiffersOnlyAt(s.catalog, s'.catalog, Id(ctx, c, s.clients[c].sequence))
    requires LogOk(ctx, s'.catalog, c, client) && WaitOk(ctx, s'.catalog, c, client) &&
             FreshOk(ctx, s'.catalog, c, client)
    ensures ClientsOk(ctx, s')
  {
    forall other: nat | other < |s'.clients|
      ensures LogOk(ctx, s'.catalog, other, s'.clients[other])
      ensures WaitOk(ctx, s'.catalog, other, s'.clients[other])
      ensures FreshOk(ctx, s'.catalog, other, s'.clients[other])
    {
      if other != c {
        OtherClient(ctx, s.catalog, s'.catalog, c, s.clients[c].sequence, other, s.clients[other]);
      }
    }
  }

  /** The step's client keeps its log and its claim on unissued identities. */
  lemma OwnClient(ctx: Context, s: State, catalog': Catalog, c: nat, client: Client)
    requires WellFormed(ctx) && c < |s.clients| && |s.clients| == ClientCount(ctx.plan)
    requires LogOk(ctx, s.catalog, c, s.clients[c]) && FreshOk(ctx, s.catalog, c, s.clients[c])
    requires DiffersOnlyAt(s.catalog, catalog', Id(ctx, c, s.clients[c].sequence))
    requires client.sequence == s.clients[c].sequence && client.log == s.clients[c].log
    requires Begun(client) >= Begun(s.clients[c])
    requires Begun(client) == s.clients[c].sequence ==> catalog' == s.catalog
    ensures LogOk(ctx, catalog', c, client) && FreshOk(ctx, catalog', c, client)
  {
    var n := s.clients[c].sequence;
    forall j: nat | j != n ensures Id(ctx, c, j) != Id(ctx, c, n) {
      if Id(ctx, c, j) == Id(ctx, c, n) { IdInjective(ctx, c, j, c, n); }
    }
    forall j: nat | j >= Begun(client) ensures !Known(catalog', Id(ctx, c, j)) {
      assert !Known(s.catalog, Id(ctx, c, j));
    }
  }

  lemma IssuedKept(ctx: Context, s: State, s': State)
    requires IssuedOk(ctx, s) && s'.issued == s.issued && |s'.clients| == |s.clients|
    requires forall c: nat :: c < |s.clients| ==> Begun(s'.clients[c]) == Begun(s.clients[c])
    ensures IssuedOk(ctx, s')
  {
    forall id | id in s'.issued
      ensures exists c: nat, k: nat :: c < |s'.clients| && k < Begun(s'.clients[c]) && id == Id(ctx, c, k)
    {
      var c: nat, k: nat :| c < |s.clients| && k < Begun(s.clients[c]) && id == Id(ctx, c, k);
      assert k < Begun(s'.clients[c]);
    }
  }

  lemma IssueExtends(ctx: Context, s: State, c: nat)
    requires WellFormed(ctx) && |s.clients| == ClientCount(ctx.plan) && IssuedOk(ctx, s)
    requires c < |s.clients| && s.clients[c].status.Idle?
    ensures IssuedOk(ctx, Issued(ctx, s, c))
  {
    var s' := Issued(ctx, s, c);
    var n := s.clients[c].sequence;
    forall d: nat, k: nat | d < |s'.clients| ensures Id(ctx, d, k) in s'.issued <==> k < Begun(s'.clients[d]) {
      if Id(ctx, d, k) == Id(ctx, c, n) { IdInjective(ctx, d, k, c, n); }
    }
    forall id | id in s'.issued
      ensures exists d: nat, k: nat :: d < |s'.clients| && k < Begun(s'.clients[d]) && id == Id(ctx, d, k)
    {
      if id in s.issued {
        var d: nat, k: nat :| d < |s.clients| && k < Begun(s.clients[d]) && id == Id(ctx, d, k);
        assert k < Begun(s'.clients[d]);
      } else {
        assert n < Begun(s'.clients[c]);
      }
    }
  }

  lemma IssueClients(ctx: Context, s: State, c: nat)
    requires WellFormed(ctx) && ClientsOk(ctx, s) && c < |s.clients| && s.clients[c].status.Idle?
    ensures ClientsOk(ctx, Issued(ctx, s, c))
  {
    var s' := Issued(ctx, s, c);
    assert !Known(s.catalog, Id(ctx, c, s.clients[c].sequence));
    OwnClient(ctx, s, s'.catalog, c, s'.clients[c]);
    ClientStep(ctx, s, s', c, s'.clients[c]);
  }

  ghost predicate AllExplained(ctx: Context, s: State) {
    forall id :: id in s.catalog.applied ==> Explained(ctx, s, id)
  }

  lemma IssueKeeps(ctx: Context, s: State, c: nat, initial: Option<string>)
    requires Inv(ctx, s, initial) && c < |s.clients| && s.clients[c].status.Idle?
    ensures Inv(ctx, Issued(ctx, s, c), initial)
  {
    var s' := Issued(ctx, s, c);
    IssueClients(ctx, s, c);
    IssueExtends(ctx, s, c);
    forall id | id in s'.catalog.applied ensures Explained(ctx, s', id) {
      ExplainedKept(ctx, s, s', id);
    }
  }

  lemma ExplainedKept(ctx: Context, s: State, s': State, id: string)
    requires Explained(ctx, s, id) && |s'.clients| == |s.clients|
    requires id in s.catalog.responses ==>
             id in s'.catalog.responses && s'.catalog.responses[id] == s.catalog.responses[id]
    requires s.catalog.abandoned <= s'.catalog.abandoned
    requires forall c: nat :: c < |s.clients| && s.clients[c].status.Waiting? ==>
               || (s'.clients[c].status.Waiting? && s'.clients[c].sequence == s.clients[c].sequence)
               || id != Id(ctx, c, s.clients[c].sequence)
    ensures Explained(ctx, s', id)
  {
    if !(id in s.catalog.responses && !s.catalog.responses[id].Conflict?) && id !in s.catalog.abandoned {
      var c: nat :| c < |s.clients| && s.clients[c].status.Waiting? && id == Id(ctx, c, s.clients[c].sequence);
      assert s'.clients[c].status.Waiting?;
    }
  }

  lemma AppliedCatalog(catalog: Catalog, id: string, added: seq<StoredObject>, initial: Option<string>)
    requires CatalogOk(catalog, initial)
    requires id !in catalog.applied && (id in catalog.responses ==> catalog.responses[id].Error?)
    ensures CatalogOk(Applied(catalog, id, added).(late := catalog.late - {id}), initial)
  {
  }

  lemma AppliedExplained(ctx: Context, s: State, s': State, id: string)
    requires AllExplained(ctx, s)
    requires s'.catalog.applied == s.catalog.applied + [id] && Explained(ctx, s', id)
    requires s'.catalog.responses == s.catalog.responses && s'.catalog.abandoned == s.catalog.abandoned
    requires |s'.clients| == |s.clients|
    requires forall c: nat :: c < |s.clients| ==>
               s'.clients[c].sequence == s.clients[c].sequence &&
                 (s.clients[c].status.Waiting? ==> s'.clients[c].status.Waiting?)
    ensures AllExplained(ctx, s')
  {
    forall x | x in s'.catalog.applied ensures Explained(ctx, s', x) {
      if x != id { ExplainedKept(ctx, s, s', x); }
    }
  }

  lemma ApplyClients(ctx: Context, s: State, c: nat, added: seq<StoredObject>)
    requires WellFormed(ctx) && ClientsOk(ctx, s) && Awaits(s, c)
    ensures ClientsOk(ctx, AppliedFor(ctx, s, c, added))
  {
    var s' := AppliedFor(ctx, s, c, added);
    assert WaitOk(ctx, s.catalog, c, s.clients[c]);
    OwnClient(ctx, s, s'.catalog, c, s'.clients[c]);
    ClientStep(ctx, s, s', c, s'.clients[c]);
  }

  lemma ApplyCatalog(ctx: Context, s: State, c: nat, added: seq<StoredObject>, initial: Option<string>)
    requires CatalogOk(s.catalog, initial)
    requires Awaits(s, c) && !s.clients[c].status.applied && WaitOk(ctx, s.catalog, c, s.clients[c])
    ensures CatalogOk(AppliedFor(ctx, s, c, added).catalog, initial)
  {
    var id := Id(ctx, c, s.clients[c].sequence);
    AppliedCatalog(s.catalog, id, added, initial);
    assert s.catalog.late - {id} == s.catalog.late;
  }

  lemma ApplyExplains(ctx: Context, s: State, c: nat, added: seq<StoredObject>)
    requires AllExplained(ctx, s) && Awaits(s, c)
    ensures AllExplained(ctx, AppliedFor(ctx, s, c, added))
  {
    var s' := AppliedFor(ctx, s, c, added);
    assert Awaits(s', c);
    AppliedExplained(ctx, s, s', Id(ctx, c, s.clients[c].sequence));
  }

  lemma ApplyKeeps(ctx: Context, s: State, c: nat, added: seq<StoredObject>, initial: Option<string>)
    requires Inv(ctx, s, initial)
    requires Awaits(s, c) && !s.clients[c].status.applied
    ensures Inv(ctx, AppliedFor(ctx, s, c, added), initial)
  {
    ApplyClients(ctx, s, c, added);
    IssuedKept(ctx, s, AppliedFor(ctx, s, c, added));
    ApplyCatalog(ctx, s, c, added, initial);
    ApplyExplains(ctx, s, c, added);
  }

  lemma ApplyLateClients(ctx: Context, s: State, id: string, added: seq<StoredObject>)
    requires ClientsOk(ctx, s) && id in s.catalog.late
    ensures ClientsOk(ctx, AppliedLate(s, id, added))
  {
    var s' := AppliedLate(s, id, added);
    assert Known(s.catalog, id);
    forall c: nat | c < |s.clients|
      ensures LogOk(ctx, s'.catalog, c, s.clients[c])
      ensures WaitOk(ctx, s'.catalog, c, s.clients[c])
      ensures FreshOk(ctx, s'.catalog, c, s.clients[c])
    {
      assert LogOk(ctx, s.catalog, c, s.clients[c]) && WaitOk(ctx, s.catalog, c, s.clients[c]);
      forall j: nat | j >= Begun(s.clients[c]) ensures !Known(s'.catalog, Id(ctx, c, j)) {
        assert !Known(s.catalog, Id(ctx, c, j));
      }
    }
  }

  lemma ApplyLateKeeps(ctx: Context, s: State, id: string, added: seq<StoredObject>, initial: Option<string>)
    requires Inv(ctx, s, initial) && id in s.catalog.late
    ensures Inv(ctx, AppliedLate(s, id, added), initial)
  {
    var s' := AppliedLate(s, id, added);
    ApplyLateClients(ctx, s, id, added);
    AppliedCatalog(s.catalog, id, added, initial);
    IssuedKept(ctx, s, s');
    AppliedExplained(ctx, s, s', id);
  }

  lemma AnsweredClient(ctx: Context, s: State, c: nat, outcome: RequestOutcome)
    requires WellFormed(ctx) && ClientsOk(ctx, s) && Awaits(s, c) && s.clients[c].status.startedAt <= s.now
    ensures var s' := Responded(ctx, s, c, outcome);
            && LogOk(ctx, s'.catalog, c, s'.clients[c])
            && FreshOk(ctx, s'.catalog, c, s'.clients[c])
            && Begun(s'.clients[c]) == Begun(s.clients[c])
  {
    var s' := Responded(ctx, s, c, outcome);
    var client, client' := s.clients[c], s'.clients[c];
    var n := client.sequence;
    assert LogOk(ctx, s.catalog, c, client);
    forall j: nat | j != n ensures Id(ctx, c, j) != Id(ctx, c, n) {
      if Id(ctx, c, j) == Id(ctx, c, n) { IdInjective(ctx, c, j, c, n); }
    }
    forall j: nat | j >= Begun(client') ensures !Known(s'.catalog, Id(ctx, c, j)) {
      assert !Known(s.catalog, Id(ctx, c, j));
    }
  }

  lemma RespondedCatalog(catalog: Catalog, id: string, outcome: RequestOutcome, applied: bool, initial: Option<string>)
    requires CatalogOk(catalog, initial)
    requires id !in catalog.responses && id !in catalog.late && id !in catalog.abandoned &&
             (applied <==> id in catalog.applied)
    requires (outcome.Accepted? ==> applied) && (outcome.Conflict? ==> !applied)
    ensures CatalogOk(catalog.(responses := catalog.responses[id := outcome],
                               late := catalog.late + (if outcome.Error? && !applied then {id} else {})), initial)
  {
  }

  predicate Consistent(outcome: RequestOutcome, applied: bool) {
    (outcome.Accepted? ==> applied) && (outcome.Conflict? ==> !applied)
  }

  lemma RespondClients(ctx: Context, s: State, c: nat, outcome: RequestOutcome)
    requires WellFormed(ctx) && ClientsOk(ctx, s) && Awaits(s, c) && s.clients[c].status.startedAt <= s.now
    ensures ClientsOk(ctx, Responded(ctx, s, c, outcome))
  {
    var s' := Responded(ctx, s, c, outcome);
    AnsweredClient(ctx, s, c, outcome);
    ClientStep(ctx, s, s', c, s'.clients[c]);
  }

  lemma RespondExplains(ctx: Context, s: State, c: nat, outcome: RequestOutcome)
    requires AllExplained(ctx, s) && Awaits(s, c) && s.clients[c].status.startedAt <= s.now
    requires Consistent(outcome, s.clients[c].status.applied) && WaitOk(ctx, s.catalog, c, s.clients[c])
    ensures AllExplained(ctx, Responded(ctx, s, c, outcome))
  {
    var s' := Responded(ctx, s, c, outcome);
    var id := Id(ctx, c, s.clients[c].sequence);
    forall x | x in s'.catalog.applied ensures Explained(ctx, s', x) {
      if x != id { ExplainedKept(ctx, s, s', x); }
    }
  }

  lemma RespondKeeps(ctx: Context, s: State, c: nat, outcome: RequestOutcome, initial: Option<string>)
    requires Inv(ctx, s, initial) && Awaits(s, c) && s.clients[c].status.startedAt <= s.now
    requires Consistent(outcome, s.clients[c].status.applied)
    ensures Inv(ctx, Responded(ctx, s, c, outcome), initial)
  {
    AnsweredClient(ctx, s, c, outcome);
    RespondClients(ctx, s, c, outcome);
    IssuedKept(ctx, s, Responded(ctx, s, c, outcome));
    assert WaitOk(ctx, s.catalog, c, s.clients[c]);
    RespondedCatalog(s.catalog, Id(ctx, c, s.clients[c].sequence), outcome, s.clients[c].status.applied, initial);
    RespondExplains(ctx, s, c, outcome);
  }

  lemma PanicClients(ctx: Context, s: State, c: nat)
    requires WellFormed(ctx) && ClientsOk(ctx, s) && c < |s.clients| &&
             (s.clients[c].status.Idle? || s.clients[c].status.Waiting?)
    ensures ClientsOk(ctx, Panicked(ctx, s, c))
  {
    var s' := Panicked(ctx, s, c);
    OwnClient(ctx, s, s'.catalog, c, s'.clients[c]);
    ClientStep(ctx, s, s', c, s'.clients[c]);
  }

  lemma PanicCatalog(ctx: Context, s: State, c: nat, initial: Option<string>)
    requires CatalogOk(s.catalog, initial) && c < |s.clients| && WaitOk(ctx, s.catalog, c, s.clients[c])
    ensures CatalogOk(Panicked(ctx, s, c).catalog, initial)
  {
  }

  lemma PanicExplains(ctx: Context, s: State, c: nat)
    requires AllExplained(ctx, s) && c < |s.clients|
    ensures AllExplained(ctx, Panicked(ctx, s, c))
  {
    var s' := Panicked(ctx, s, c);
    var id := Id(ctx, c, s.clients[c].sequence);
    forall x | x in s'.catalog.applied ensures Explained(ctx, s', x) {
      if x != id || !s.clients[c].status.Waiting? { ExplainedKept(ctx, s, s', x); }
    }
  }

  lemma PanicKeeps(ctx: Context, s: State, c: nat, initial: Option<string>)
    requires Inv(ctx, s, initial) && c < |s.clients| && (s.clients[c].status.Idle? || s.clients[c].status.Waiting?)
    ensures Inv(ctx, Panicked(ctx, s, c), initial)
  {
    PanicClients(ctx, s, c);
    IssuedKept(ctx, s, Panicked(ctx, s, c));
    PanicCatalog(ctx, s, c, initial);
    PanicExplains(ctx, s, c);
  }

  lemma StopKeeps(ctx: Context, s: State, c: nat, initial: Option<string>)
    requires Inv(ctx, s, initial) && c < |s.clients| && s.clients[c].status.Idle?
    ensures Inv(ctx, Halted(s, c), initial)
  {
    var s' := Halted(s, c);
    OwnClient(ctx, s, s'.catalog, c, s'.clients[c]);
    ClientStep(ctx, s, s', c, s'.clients[c]);
    IssuedKept(ctx, s, s');
    forall x | x in s'.catalog.applied ensures Explained(ctx, s', x) {
      ExplainedKept(ctx, s, s', x);
    }
  }

  lemma QuietKeeps(ctx: Context, s: State, s': State, initial: Option<string>)
    requires Inv(ctx, s, initial)
    requires s'.catalog == s.catalog && s'.issued == s.issued && s'.clients == s.clients
    ensures Inv(ctx, s', initial)
  {
    IssuedKept(ctx, s, s');
    forall x | x in s'.catalog.applied ensures Explained(ctx, s', x) {
      ExplainedKept(ctx, s, s', x);
    }
  }

  /** Nothing but growth depends on what the store holds. */
  lemma StoreKeeps(ctx: Context, s: State, listing: seq<StoredObject>, initial: Option<string>)
    requires Inv(ctx, s, initial)
    ensures Inv(ctx, Restored(s, listing), initial)
  {
    var s' := Restored(s, listing);
    forall c: nat | c < |s.clients|
      ensures LogOk(ctx, s'.catalog, c, s.clients[c])
      ensures WaitOk(ctx, s'.catalog, c, s.clients[c])
      ensures FreshOk(ctx, s'.catalog, c, s.clients[c])
    {
      assert LogOk(ctx, s.catalog, c, s.clients[c]) && WaitOk(ctx, s.catalog, c, s.clients[c]);
      forall j: nat | j >= Begun(s.clients[c]) ensures !Known(s'.catalog, Id(ctx, c, j)) {
        assert !Known(s.catalog, Id(ctx, c, j));
      }
    }
    IssuedKept(ctx, s, s');
    forall x | x in s'.catalog.applied ensures Explained(ctx, s', x) {
      ExplainedKept(ctx, s, s', x);
    }
  }

  lemma StepKeeps(ctx: Context, s: State, step: Step, initial: Option<string>)
    requires Inv(ctx, s, initial) && Enabled(ctx, s, step)
    ensures Inv(ctx, Do(ctx, s, step), initial)
  {
    match step
    case Issue(c) => IssueKeeps(ctx, s, c, initial);
    case Apply(c, added) => ApplyKeeps(ctx, s, c, added, initial);
    case ApplyLate(id, added) => ApplyLateKeeps(ctx, s, id, added, initial);
    case Respond(c, outcome) => RespondKeeps(ctx, s, c, outcome, initial);
    case Panic(c) => PanicKeeps(ctx, s, c, initial);
    case Stop(c) => StopKeeps(ctx, s, c, initial);
    case Store(listing) => StoreKeeps(ctx, s, listing, initial);
    case _ => QuietKeeps(ctx, s, Do(ctx, s, step), initial);
  }

  // ---------- metadata growth ----------

  /** As long as the store lost nothing, it holds one more metadata object for
      every request whose effect added one. */
  ghost predicate Grown(catalog: Catalog, base: nat) {
    && Distinct(catalog.persisted)
    && (forall id :: id in catalog.persisted ==> id in catalog.applied)
    && (!catalog.shrunk ==> MetadataCount(catalog.objects) >= base + |catalog.persisted|)
  }

  lemma AppendedCount(a: seq<StoredObject>, b: seq<StoredObject>)
    ensures MetadataCount(a + b) == MetadataCount(a) + MetadataCount(b)
  {
    FilterAppend(IsMetadata, a, b);
  }

  lemma AppliedGrows(catalog: Catalog, id: string, added: seq<StoredObject>, base: nat)
    requires Grown(catalog, base) && id !in catalog.applied
    ensures Grown(Applied(catalog, id, added), base)
  {
    AppendedCount(catalog.objects, added);
  }

  /** Every step keeps the growth relation, whatever the effects store. */
  lemma StepGrows(ctx: Context, s: State, step: Step, initial: Option<string>, base: nat)
    requires Inv(ctx, s, initial) && Enabled(ctx, s, step) && Grown(s.catalog, base)
    ensures Grown(Do(ctx, s, step).catalog, base)
  {
    match step
    case Apply(c, added) =>
      assert WaitOk(ctx, s.catalog, c, s.clients[c]);
      AppliedGrows(s.catalog, Id(ctx, c, s.clients[c].sequence), added, base);
    case ApplyLate(id, added) => AppliedGrows(s.catalog, id, added, base);
    case _ =>
  }
}
