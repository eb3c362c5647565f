/** Rounds against an honest catalog: no identity is ever reported twice, the
    final property belongs to an accepted request, and metadata growth covers
    every accepted commit. */
module Attribution {
  import opened Ordering
  import opened Identity
  import opened Ledger
  import opened Contention
  import opened Phases

  // ---------- no duplicate is ever reported ----------

  /** SHA-256 does not collide on these identities. */
  ghost predicate CollisionFree(digest: string -> Digest, ids: set<string>) {
    forall x, y :: x in ids && y in ids && digest(x) == digest(y) ==> x == y
  }

  /** Only identities of the clients in `order` have been merged so far. */
  ghost predicate MergedFrom(ctx: Context, clients: seq<Client>, order: seq<nat>, log: seq<Entry>)
    requires forall i :: 0 <= i < |order| ==> order[i] < |clients|
  {
    forall d :: d in Digests(log) ==>
      exists c: nat, k: nat :: c in order && k < clients[c].sequence && d == ctx.digest(Id(ctx, c, k))
  }

  lemma OwnDigests(ctx: Context, s: State, c: nat, d: Digest)
    requires ClientsOk(ctx, s) && c < |s.clients| && d in Digests(s.clients[c].log)
    ensures exists k: nat :: k < s.clients[c].sequence && d == ctx.digest(Id(ctx, c, k))
  {
    var client := s.clients[c];
    assert LogOk(ctx, s.catalog, c, client);
    DigestMembers(client.log, d);
    var e :| e in client.log && e.digest == d;
    var k: nat :| k < |client.log| && client.log[k] == e;
    assert d == ctx.digest(Id(ctx, c, k));
  }

  lemma {:induction false} JoinedDigests(ctx: Context, s: State, order: seq<nat>)
    requires ClientsOk(ctx, s) && forall i :: 0 <= i < |order| ==> order[i] < |s.clients|
    ensures MergedFrom(ctx, s.clients, order, JoinAll(ResultsOf(s.clients, order)).log)
  {
    if order != [] {
      var front, c := order[..|order| - 1], order[|order| - 1];
      JoinedDigests(ctx, s, front);
      JoinFront(s.clients, order);
      var before := JoinAll(ResultsOf(s.clients, front)).log;
      var now := JoinAll(ResultsOf(s.clients, order)).log;
      AppendDigests(before, s.clients[c].log);
      assert forall d :: d in front ==> d in order;
      forall d | d in Digests(now)
        ensures exists e: nat, k: nat :: e in order && k < s.clients[e].sequence && d == ctx.digest(Id(ctx, e, k))
      {
        if d in Digests(before) {
          var e: nat, k: nat :| e in front && k < s.clients[e].sequence && d == ctx.digest(Id(ctx, e, k));
          assert e in order;
        } else {
          OwnDigests(ctx, s, c, d);
          assert c in order;
        }
      }
    }
  }

  ghost predicate Sound(ctx: Context, s: State) {
    && WellFormed(ctx) && ClientsOk(ctx, s) && IssuedOk(ctx, s) && LedgersOk(ctx, s)
    && CollisionFree(ctx.digest, s.issued)
  }

  lemma SameSlot(ctx: Context, s: State, c: nat, k: nat, c': nat, k': nat)
    requires Sound(ctx, s) && c < |s.clients| && c' < |s.clients|
    requires k < Begun(s.clients[c]) && k' < Begun(s.clients[c'])
    requires ctx.digest(Id(ctx, c, k)) == ctx.digest(Id(ctx, c', k'))
    ensures c == c' && k == k'
  {
    assert Id(ctx, c, k) in s.issued && Id(ctx, c', k') in s.issued;
    IdInjective(ctx, c, k, c', k');
  }

  lemma ClientReportsNoDuplicate(ctx: Context, s: State, c: nat)
    requires Sound(ctx, s) && c < |s.clients|
    ensures ResultOf(s.clients[c]) != Err(Model(DuplicateRequestIdentity))
  {
    var client := s.clients[c];
    assert LedgerOk(ctx, c, client);
    if ResultOf(client) == Err(Model(DuplicateRequestIdentity)) {
      var d := ctx.digest(Id(ctx, c, client.sequence));
      OwnDigests(ctx, s, c, d);
      var k: nat :| k < client.sequence && d == ctx.digest(Id(ctx, c, k));
      SameSlot(ctx, s, c, k, c, client.sequence);
      assert false;
    }
  }

  lemma MergeReportsNoDuplicate(ctx: Context, s: State, front: seq<nat>, c: nat, merged: seq<Entry>)
    requires Sound(ctx, s) && c < |s.clients| && c !in front
    requires forall i :: 0 <= i < |front| ==> front[i] < |s.clients|
    requires MergedFrom(ctx, s.clients, front, merged)
    ensures Digests(merged) !! Digests(s.clients[c].log)
  {
    forall d | d in Digests(merged) ensures d !in Digests(s.clients[c].log) {
      if d in Digests(s.clients[c].log) {
        OwnDigests(ctx, s, c, d);
        var k: nat :| k < s.clients[c].sequence && d == ctx.digest(Id(ctx, c, k));
        var e: nat, j: nat :| e in front && j < s.clients[e].sequence && d == ctx.digest(Id(ctx, e, j));
        SameSlot(ctx, s, c, k, e, j);
        assert false;
      }
    }
  }

  lemma {:induction false} JoinReportsNoDuplicate(ctx: Context, s: State, order: seq<nat>)
    requires Sound(ctx, s) && Distinct(order) && forall i :: 0 <= i < |order| ==> order[i] < |s.clients|
    ensures JoinAll(ResultsOf(s.clients, order)).firstError != Some(Model(DuplicateRequestIdentity))
  {
    if order != [] {
      var front, c := order[..|order| - 1], order[|order| - 1];
      JoinReportsNoDuplicate(ctx, s, front);
      JoinFront(s.clients, order);
      ClientReportsNoDuplicate(ctx, s, c);
      JoinedDigests(ctx, s, front);
      var merged := JoinAll(ResultsOf(s.clients, front)).log;
      MergeReportsNoDuplicate(ctx, s, front, c, merged);
      ProjectedSets(merged);
      ProjectedSets(s.clients[c].log);
    }
  }

  /** With a collision-free digest no record and no writer merge of any run
      ever reports a reused identity. */
  lemma PhaseReportsNoDuplicate(ctx: Context, s: State)
    requires Sound(ctx, s) && JoinedOk(s)
    ensures Gathered(ctx, s) != Err(Model(DuplicateRequestIdentity))
  {
    if ctx.plan.Serial? { ClientReportsNoDuplicate(ctx, s, 0); } else { JoinReportsNoDuplicate(ctx, s, s.joined); }
  }

  lemma MergeFailureKinds(ours: Projection, theirs: Projection)
    ensures MergeFailure(ours, theirs).None? || MergeFailure(ours, theirs) == Some(DuplicateRequestIdentity)
         || MergeFailure(ours, theirs) == Some(CountOverflow)
  {
  }

  lemma {:induction false} JoinFailureKinds(ctx: Context, s: State, order: seq<nat>)
    requires LedgersOk(ctx, s) && forall i :: 0 <= i < |order| ==> order[i] < |s.clients|
    ensures var first := JoinAll(ResultsOf(s.clients, order)).firstError;
            first.Some? ==> Interruption(first.value) || first.value == Model(DuplicateRequestIdentity)
  {
    if order != [] {
      var front, c := order[..|order| - 1], order[|order| - 1];
      JoinFailureKinds(ctx, s, front);
      JoinFront(s.clients, order);
      assert LedgerOk(ctx, c, s.clients[c]);
      MergeFailureKinds(Project(JoinAll(ResultsOf(s.clients, front)).log), Project(s.clients[c].log));
    }
  }

  /** With a collision-free digest a phase fails only because a writer panicked
      or a sequence or counter left 64 bits. */
  lemma PhaseFailsRarely(ctx: Context, s: State)
    requires Sound(ctx, s) && JoinedOk(s) && Gathered(ctx, s).Err?
    ensures Interruption(Gathered(ctx, s).error)
  {
    PhaseReportsNoDuplicate(ctx, s);
    if ctx.plan.Serial? {
      assert LedgerOk(ctx, 0, s.clients[0]);
    } else {
      JoinFailureKinds(ctx, s, s.joined);
    }
  }

  // ---------- whole rounds ----------

  /** One phase of a round: its plan, the time it starts and the steps taken. */
  datatype Leg = Leg(plan: PhasePlan, now: nat, steps: seq<Step>)

  function Begin(ctx: Context, leg: Leg, before: Catalog): State {
    Start(ctx, leg.now, before)
  }

  ghost predicate Completes(ctx: Context, leg: Leg, before: Catalog) {
    Runs(ctx, Begin(ctx, leg, before), leg.steps) && AllJoined(Ending(ctx, leg, before))
  }

  function Ending(ctx: Context, leg: Leg, before: Catalog): State
    requires Runs(ctx, Begin(ctx, leg, before), leg.steps)
  {
    After(ctx, Begin(ctx, leg, before), leg.steps)
  }

  /** Between phases `log` tells everything the catalog answered: nothing is in
      flight or abandoned, and `ids` are the recorded requests. */
  ghost predicate Told(
    digest: string -> Digest, catalog: Catalog, log: seq<Entry>, ids: seq<string>, initial: Option<string>) {
    && CatalogOk(catalog, initial) && Settled(catalog) && catalog.abandoned == {}
    && Records(digest, catalog, log, ids)
    && forall id :: id in catalog.responses ==> id in ids
  }

  lemma ToldKnows(
    digest: string -> Digest, catalog: Catalog, log: seq<Entry>, ids: seq<string>, initial: Option<string>)
    requires Told(digest, catalog, log, ids, initial)
    ensures forall id :: Known(catalog, id) <==> id in ids
  {
    forall id ensures Known(catalog, id) <==> id in ids {
      if id in ids {
        var i :| 0 <= i < |ids| && ids[i] == id;
        assert id in catalog.responses;
      }
    }
  }

  lemma LegHolds(ctx: Context, leg: Leg, before: Catalog, initial: Option<string>)
    requires WellFormed(ctx) && CatalogOk(before, initial) && Settled(before) && Untouched(ctx, before)
    requires Completes(ctx, leg, before)
    ensures PhaseInv(ctx, Ending(ctx, leg, before), before, initial)
    ensures LedgersOk(ctx, Ending(ctx, leg, before))
  {
    var s := Begin(ctx, leg, before);
    StartHolds(ctx, leg.now, before, initial);
    RunKeeps(ctx, s, leg.steps, before, initial);
    RunKeepsLedgers(ctx, s, leg.steps);
  }

  /** Every completed run of a phase, whatever the interleaving, the join order
      and the answers: success accounts for every issued commit exactly once;
      with a collision-free digest failure is a panic or an overflow, never a
      reused identity. */
  lemma EveryPhase(ctx: Context, leg: Leg, before: Catalog, initial: Option<string>)
    requires WellFormed(ctx) && CatalogOk(before, initial) && Settled(before) && Untouched(ctx, before)
    requires Completes(ctx, leg, before)
    ensures var s := Ending(ctx, leg, before);
            && |s.clients| == ClientCount(ctx.plan) && JoinedOk(s)
            && match Gathered(ctx, s)
               case Ok(log) => Accounts(ctx, s, log, PhaseIds(ctx, s)) && DistinctDigests(log)
               case Err(error) => CollisionFree(ctx.digest, s.issued) ==> Interruption(error)
  {
    var s := Ending(ctx, leg, before);
    LegHolds(ctx, leg, before, initial);
    if Gathered(ctx, s).Ok? {
      PhaseAccounting(ctx, s);
    } else if CollisionFree(ctx.digest, s.issued) {
      PhaseFailsRarely(ctx, s);
    }
  }

  lemma RecordsStay(digest: string -> Digest, a: Catalog, b: Catalog, log: seq<Entry>, ids: seq<string>)
    requires Records(digest, a, log, ids)
    requires forall id :: id in a.responses ==> id in b.responses && b.responses[id] == a.responses[id]
    ensures Records(digest, b, log, ids)
  {
  }

  lemma LegSettles(ctx: Context, s: State, before: Catalog, initial: Option<string>)
    requires PhaseInv(ctx, s, before, initial)
    requires before.abandoned == {} && forall c: nat :: c < |s.clients| ==> s.clients[c].status.Stopped?
    ensures Settled(s.catalog) && s.catalog.abandoned == {}
  {
    forall id | id in s.catalog.applied
      ensures (id in s.catalog.responses && !s.catalog.responses[id].Conflict?) || id in s.catalog.abandoned
    {
      assert Explained(ctx, s, id);
    }
  }

  lemma OwnIds(ctx: Context, s: State, ids: seq<string>)
    requires IssuedOk(ctx, s) && |s.clients| == ClientCount(ctx.plan) && forall id :: id in s.issued <==> id in ids
    ensures forall id :: id in ids ==> Mine(ctx, id)
  {
    forall id | id in ids ensures Mine(ctx, id) {
      assert id in s.issued;
    }
  }

  /** A successful phase extends what has been told by exactly its own requests. */
  lemma LegTells(ctx: Context, leg: Leg, before: Catalog, log: seq<Entry>, ids: seq<string>, initial: Option<string>)
    requires WellFormed(ctx) && Told(ctx.digest, before, log, ids, initial) && Untouched(ctx, before)
    requires Completes(ctx, leg, before)
    ensures PhaseInv(ctx, Ending(ctx, leg, before), before, initial)
    ensures var s := Ending(ctx, leg, before);
            Gathered(ctx, s).Ok? ==>
              && Told(ctx.digest, s.catalog, log + Gathered(ctx, s).value, ids + PhaseIds(ctx, s), initial)
              && (forall id :: id in PhaseIds(ctx, s) ==> Mine(ctx, id))
  {
    var s := Ending(ctx, leg, before);
    LegHolds(ctx, leg, before, initial);
    if Gathered(ctx, s).Ok? {
      var more, own := Gathered(ctx, s).value, PhaseIds(ctx, s);
      PhaseAccounting(ctx, s);
      OwnIds(ctx, s, own);
      LegSettles(ctx, s, before, initial);
      RecordsStay(ctx.digest, before, s.catalog, log, ids);
      ToldKnows(ctx.digest, before, log, ids, initial);
      forall x | x in ids ensures x !in own {
        assert Known(before, x);
      }
      RecordsConcat(ctx.digest, s.catalog, log, ids, more, own);
    }
  }

  // ---------- phases do not share identities ----------

  ghost predicate Tagged(config: RoundConfig, id: string, names: set<PhaseName>) {
    exists slot :: WellPlaced(slot) && slot.phase in names && id == RequestIdentity(config, slot)
  }

  function NameOf(plan: PhasePlan): PhaseName {
    if plan.Serial? then plan.name else Concurrent
  }

  lemma MineIsTagged(ctx: Context, id: string, names: set<PhaseName>)
    requires WellFormed(ctx) && Mine(ctx, id) && NameOf(ctx.plan) in names
    ensures Tagged(ctx.config, id, names)
  {
    var c: nat, k: nat :| c < ClientCount(ctx.plan) && id == Id(ctx, c, k);
    assert WellPlaced(SlotOf(ctx.plan, c, k));
  }

  lemma OtherPhaseUntouched(ctx: Context, catalog: Catalog, names: set<PhaseName>)
    requires WellFormed(ctx) && NameOf(ctx.plan) !in names
    requires forall id :: Known(catalog, id) ==> Tagged(ctx.config, id, names)
    ensures Untouched(ctx, catalog)
  {
    forall c: nat, k: nat | c < ClientCount(ctx.plan) ensures !Known(catalog, Id(ctx, c, k)) {
      var id := Id(ctx, c, k);
      if Known(catalog, id) {
        var slot :| WellPlaced(slot) && slot.phase in names && id == RequestIdentity(ctx.config, slot);
        IdentityInjective(ctx.config, slot, SlotOf(ctx.plan, c, k));
        assert false;
      }
    }
  }

  /** What a round has established once the phases in `names` have succeeded. */
  ghost predicate Reached(
    config: RoundConfig, digest: string -> Digest, catalog: Catalog, log: seq<Entry>, ids: seq<string>,
    names: set<PhaseName>, initial: Option<string>)
  {
    && Told(digest, catalog, log, ids, initial)
    && forall id :: id in ids ==> Tagged(config, id, names)
  }

  lemma TaggedMore(config: RoundConfig, id: string, names: set<PhaseName>, more: set<PhaseName>)
    requires Tagged(config, id, names) && names <= more
    ensures Tagged(config, id, more)
  {
    var slot :| WellPlaced(slot) && slot.phase in names && id == RequestIdentity(config, slot);
    assert slot.phase in more;
  }

  /** Any further phase starts untouched and, if it succeeds, is told too. */
  lemma PhaseReached(
    ctx: Context, leg: Leg, catalog: Catalog, log: seq<Entry>, ids: seq<string>,
    names: set<PhaseName>, initial: Option<string>)
    requires WellFormed(ctx) && Reached(ctx.config, ctx.digest, catalog, log, ids, names, initial)
    requires NameOf(ctx.plan) !in names && Completes(ctx, leg, catalog)
    ensures PhaseInv(ctx, Ending(ctx, leg, catalog), catalog, initial)
    ensures var s := Ending(ctx, leg, catalog);
            Gathered(ctx, s).Ok? ==>
              Reached(ctx.config, ctx.digest, s.catalog, log + Gathered(ctx, s).value, ids + PhaseIds(ctx, s),
                names + {NameOf(ctx.plan)}, initial)
  {
    ToldKnows(ctx.digest, catalog, log, ids, initial);
    OtherPhaseUntouched(ctx, catalog, names);
    LegTells(ctx, leg, catalog, log, ids, initial);
    var s := Ending(ctx, leg, catalog);
    if Gathered(ctx, s).Ok? {
      var all := names + {NameOf(ctx.plan)};
      forall id | id in ids + PhaseIds(ctx, s) ensures Tagged(ctx.config, id, all) {
        if id in ids { TaggedMore(ctx.config, id, names, all); } else { MineIsTagged(ctx, id, all); }
      }
    }
  }

  // ---------- consequences ----------

  function AcceptedIds(log: seq<Entry>, ids: seq<string>): seq<string>
    requires |log| == |ids|
  {
    if log == [] then []
    else
      var n := |log| - 1;
      AcceptedIds(log[..n], ids[..n]) + (if IsAccepted(log[n]) then [ids[n]] else [])
  }

  lemma {:induction false} AcceptedIdsCount(
    digest: string -> Digest, catalog: Catalog, log: seq<Entry>, ids: seq<string>)
    requires Records(digest, catalog, log, ids)
    ensures |AcceptedIds(log, ids)| == |Filter(IsAccepted, log)|
    ensures Distinct(AcceptedIds(log, ids))
    ensures forall x :: x in AcceptedIds(log, ids) ==>
            x in ids && x in catalog.responses && catalog.responses[x].Accepted?
  {
    if log != [] {
      var n := |log| - 1;
      assert Distinct(ids[..n]);
      AcceptedIdsCount(digest, catalog, log[..n], ids[..n]);
      assert log == log[..n] + [log[n]];
      SnocFilter(IsAccepted, log[..n], log[n]);
      assert ids[n] !in ids[..n];
      DistinctConcat(AcceptedIds(log[..n], ids[..n]), if IsAccepted(log[n]) then [ids[n]] else []);
    }
  }

  lemma {:induction false} DistinctFits(a: seq<string>, b: seq<string>)
    requires Distinct(a) && forall x :: x in a ==> x in b
    ensures |a| <= |b|
  {
    if a != [] {
      var n := |a| - 1;
      assert a[n] in b;
      var k :| 0 <= k < |b| && b[k] == a[n];
      var rest := b[..k] + b[k + 1..];
      forall x | x in a[..n] ensures x in rest {
        assert x in a && x != a[n];
        var j :| 0 <= j < |b| && b[j] == x;
        if j < k { assert rest[j] == x; } else { assert rest[j - 1] == x; }
      }
      assert Distinct(a[..n]);
      DistinctFits(a[..n], rest);
    }
  }

  lemma AcceptedWereApplied(
    digest: string -> Digest, catalog: Catalog, log: seq<Entry>, ids: seq<string>, initial: Option<string>)
    requires Told(digest, catalog, log, ids, initial)
    ensures CountsOf(log).accepted <= |catalog.applied|
  {
    AcceptedIdsCount(digest, catalog, log, ids);
    DistinctFits(AcceptedIds(log, ids), catalog.applied);
  }

  /** Each accepted commit added a metadata object and none was lost. Failed
      and late requests may take effect without adding any. */
  ghost predicate Persists(catalog: Catalog) {
    && !catalog.shrunk
    && forall id :: id in catalog.responses && catalog.responses[id].Accepted? ==> id in catalog.persisted
  }

  /** Then metadata grows by at least the number of accepted commits. */
  lemma GrowthCoversAccepted(
    digest: string -> Digest, catalog: Catalog, log: seq<Entry>, ids: seq<string>, base: nat)
    requires Records(digest, catalog, log, ids) && Grown(catalog, base) && Persists(catalog)
    ensures MetadataCount(catalog.objects) >= base + CountsOf(log).accepted
  {
    AcceptedIdsCount(digest, catalog, log, ids);
    DistinctFits(AcceptedIds(log, ids), catalog.persisted);
  }

  lemma ErrorRecorded(digest: string -> Digest, catalog: Catalog, log: seq<Entry>, ids: seq<string>, id: string)
    requires Records(digest, catalog, log, ids) && id in ids && catalog.responses[id].Error?
    ensures CountsOf(log).errors > 0
  {
    var i :| 0 <= i < |ids| && ids[i] == id;
    FilterMembers(IsError, log);
    assert log[i] in Filter(IsError, log);
  }

  /** The property is the last applied request: accepted, or answered with an
      error although it took effect. */
  lemma PropertyIsExplained(
    digest: string -> Digest, catalog: Catalog, log: seq<Entry>, ids: seq<string>, initial: Option<string>)
    requires Told(digest, catalog, log, ids, initial)
    ensures catalog.applied == [] ==> catalog.property == initial && CountsOf(log).accepted == 0
    ensures catalog.applied != [] ==>
              && catalog.property.Some? && catalog.property.value in ids
              && !catalog.responses[catalog.property.value].Conflict?
  {
    AcceptedWereApplied(digest, catalog, log, ids, initial);
    if catalog.applied != [] {
      var last := catalog.applied[|catalog.applied| - 1];
      assert last in catalog.applied;
    }
  }

  /** Without request errors, at least one acceptance fixes the final property
      to an accepted request for good: nothing is left that could still apply. */
  lemma PropertyIsAccepted(
    digest: string -> Digest, catalog: Catalog, log: seq<Entry>, ids: seq<string>, initial: Option<string>)
    requires Told(digest, catalog, log, ids, initial)
    requires CountsOf(log).errors == 0 && CountsOf(log).accepted > 0
    ensures catalog.property.Some? && digest(catalog.property.value) in AcceptedDigests(log)
    ensures catalog.late == {}
  {
    PropertyIsExplained(digest, catalog, log, ids, initial);
    NothingFailed(digest, catalog, log, ids, initial);
    var id := catalog.property.value;
    assert catalog.responses[id] == Accepted;
    RecordedAccepted(digest, catalog, log, ids, digest(id));
  }

  lemma NothingFailed(
    digest: string -> Digest, catalog: Catalog, log: seq<Entry>, ids: seq<string>, initial: Option<string>)
    requires Told(digest, catalog, log, ids, initial) && CountsOf(log).errors == 0
    ensures catalog.late == {} && forall id :: id in ids ==> !catalog.responses[id].Error?
  {
    forall id | id in ids ensures !catalog.responses[id].Error? {
      if catalog.responses[id].Error? { ErrorRecorded(digest, catalog, log, ids, id); }
    }
  }

  /** The accepted sets of two phases never collide. */
  lemma PhasesStayDisjoint(
    digest: string -> Digest, catalog: Catalog, a: seq<Entry>, b: seq<Entry>, aIds: seq<string>, bIds: seq<string>)
    requires |a| == |aIds| && |b| == |bIds| && Records(digest, catalog, a + b, aIds + bIds)
    requires CollisionFree(digest, set id | id in aIds + bIds)
    ensures AcceptedDigests(a) !! AcceptedDigests(b)
  {
    var ids := aIds + bIds;
    forall i, j | 0 <= i < |a| && 0 <= j < |b| ensures a[i].digest != b[j].digest {
      assert ids[i] in ids && ids[|a| + j] in ids && ids[i] != ids[|a| + j];
      assert (a + b)[i].digest == digest(ids[i]) && (a + b)[|a| + j].digest == digest(ids[|a| + j]);
    }
    forall d | d in AcceptedDigests(a) ensures d !in AcceptedDigests(b) {
      DigestMembers(a, d);
      DigestMembers(b, d);
      var x :| x in a && x.digest == d;
      var i :| 0 <= i < |a| && a[i] == x;
    }
  }

  // ---------- the phases of a round ----------

  /** The table right after creation: nothing of this round has happened. */
  predicate Untroubled(catalog: Catalog) {
    && catalog.applied == [] && catalog.responses == map[] && catalog.late == {} && catalog.abandoned == {}
    && catalog.persisted == [] && !catalog.shrunk
  }

  /** Running `leg` on `before` to completion succeeds with `log` and leaves `next`. */
  ghost predicate Succeeds(ctx: Context, leg: Leg, before: Catalog, log: seq<Entry>, next: Catalog) {
    && ctx.plan == leg.plan && WellFormed(ctx) && Completes(ctx, leg, before)
    && var s := Ending(ctx, leg, before);
    && |s.clients| == ClientCount(ctx.plan)
    && (forall i :: 0 <= i < |s.joined| ==> s.joined[i] < |s.clients|)
    && Gathered(ctx, s) == Ok(log) && s.catalog == next
  }

  /** The phases of a round that have succeeded so far, with the catalogs
      between them. */
  datatype RoundRun = RoundRun(
    config: RoundConfig, digest: string -> Digest, legs: seq<Leg>, catalogs: seq<Catalog>, logs: seq<seq<Entry>>)

  /** Warmup, sequential, then a window of writers. */
  function PlanOf(config: RoundConfig, i: nat, now: nat): PhasePlan {
    if i == 0 then Serial(Warmup, config.warmupCommits)
    else if i == 1 then Serial(Sequential, config.sequentialCommits)
    else Window(config.concurrentWriters, now + config.concurrentDuration)
  }

  function LegContext(r: RoundRun, leg: Leg): Context {
    Context(r.config, leg.plan, r.digest)
  }

  ghost predicate PhaseHappens(r: RoundRun, i: nat)
    requires i < |r.legs| == |r.logs| && |r.catalogs| == |r.logs| + 1
  {
    && r.legs[i].plan == PlanOf(r.config, i, r.legs[i].now)
    && Succeeds(LegContext(r, r.legs[i]), r.legs[i], r.catalogs[i], r.logs[i], r.catalogs[i + 1])
  }

  /** A round in which these phases have succeeded, one after the other. */
  ghost predicate Happens(r: RoundRun) {
    && |r.legs| == |r.logs| <= 3 && |r.catalogs| == |r.logs| + 1 && Untroubled(r.catalogs[0])
    && forall i :: 0 <= i < |r.legs| ==> PhaseHappens(r, i)
  }

  /** The phases that precede phase `i` of a round, and what they recorded. */
  function Names(i: nat): set<PhaseName> {
    if i == 0 then {} else if i == 1 then {Warmup} else if i == 2 then {Warmup, Sequential}
      else {Warmup, Sequential, Concurrent}
  }

  function LogUpTo(logs: seq<seq<Entry>>, i: nat): seq<Entry>
    requires i <= |logs|
  {
    if i == 0 then [] else LogUpTo(logs, i - 1) + logs[i - 1]
  }

  function WholeLog(r: RoundRun): seq<Entry> {
    LogUpTo(r.logs, |r.logs|)
  }

  ghost predicate ReachedBy(r: RoundRun, i: nat, ids: seq<string>)
    requires i < |r.catalogs| && i <= |r.logs|
  {
    Reached(r.config, r.digest, r.catalogs[i], LogUpTo(r.logs, i), ids, Names(i), r.catalogs[0].property)
  }

  lemma NameStep(config: RoundConfig, i: nat, now: nat)
    requires i < 3
    ensures var name := NameOf(PlanOf(config, i, now)); name !in Names(i) && Names(i + 1) == Names(i) + {name}
  {
  }

  lemma NextReached(r: RoundRun, i: nat, ids: seq<string>) returns (next: seq<string>)
    requires |r.legs| == |r.logs| <= 3 && |r.catalogs| == |r.logs| + 1
    requires i < |r.logs| && ReachedBy(r, i, ids) && PhaseHappens(r, i)
    ensures ReachedBy(r, i + 1, next)
  {
    var leg, log := r.legs[i], LogUpTo(r.logs, i);
    var ctx := LegContext(r, leg);
    NameStep(r.config, i, leg.now);
    PhaseReached(ctx, leg, r.catalogs[i], log, ids, Names(i), r.catalogs[0].property);
    next := ids + PhaseIds(ctx, Ending(ctx, leg, r.catalogs[i]));
  }

  lemma {:induction false} PhasesReached(r: RoundRun, i: nat) returns (ids: seq<string>)
    requires Happens(r) && i <= |r.logs|
    ensures ReachedBy(r, i, ids)
  {
    if i == 0 {
      ids := [];
    } else {
      var before := PhasesReached(r, i - 1);
      ids := NextReached(r, i - 1, before);
    }
  }

  lemma NarrowCollisions(digest: string -> Digest, catalog: Catalog, log: seq<Entry>, ids: seq<string>)
    requires Records(digest, catalog, log, ids) && CollisionFree(digest, catalog.responses.Keys)
    ensures CollisionFree(digest, set id | id in ids)
  {
    forall id | id in ids ensures id in catalog.responses {
      var i :| 0 <= i < |ids| && ids[i] == id;
    }
  }

  /** The phase after any number of successful ones: it starts with none of its
      identities used, succeeds with accepted requests that no earlier phase
      accepted, or fails because of a panic or an overflow. */
  lemma NextPhase(r: RoundRun, leg: Leg)
    requires Happens(r) && |r.logs| < 3 && leg.plan == PlanOf(r.config, |r.logs|, leg.now)
    requires Completes(LegContext(r, leg), leg, r.catalogs[|r.logs|])
    ensures var ctx := LegContext(r, leg);
            var s := Ending(ctx, leg, r.catalogs[|r.logs|]);
            && |s.clients| == ClientCount(ctx.plan) && JoinedOk(s)
            && r.catalogs[|r.logs|].responses.Keys <= s.catalog.responses.Keys
            && match Gathered(ctx, s)
               case Ok(log) =>
                 && Accounts(ctx, s, log, PhaseIds(ctx, s))
                 && (CollisionFree(r.digest, s.catalog.responses.Keys) ==>
                    AcceptedDigests(WholeLog(r)) !! AcceptedDigests(log))
               case Err(error) => CollisionFree(r.digest, s.issued) ==> Interruption(error)
  {
    var n, ctx := |r.logs|, LegContext(r, leg);
    var before, initial := r.catalogs[n], r.catalogs[0].property;
    var ids := PhasesReached(r, n);
    NameStep(r.config, n, leg.now);
    PhaseReached(ctx, leg, before, WholeLog(r), ids, Names(n), initial);
    ToldKnows(ctx.digest, before, WholeLog(r), ids, initial);
    OtherPhaseUntouched(ctx, before, Names(n));
    EveryPhase(ctx, leg, before, initial);
    var s := Ending(ctx, leg, before);
    if Gathered(ctx, s).Ok? && CollisionFree(r.digest, s.catalog.responses.Keys) {
      var log, own := Gathered(ctx, s).value, PhaseIds(ctx, s);
      NarrowCollisions(r.digest, s.catalog, WholeLog(r) + log, ids + own);
      PhasesStayDisjoint(r.digest, s.catalog, WholeLog(r), log, ids, own);
    }
  }

  function Extended(r: RoundRun, leg: Leg, log: seq<Entry>, next: Catalog): RoundRun {
    r.(legs := r.legs + [leg], logs := r.logs + [log], catalogs := r.catalogs + [next])
  }

  /** A successful next phase makes a longer round. */
  lemma RoundGoesOn(r: RoundRun, leg: Leg, log: seq<Entry>, next: Catalog)
    requires Happens(r) && |r.logs| < 3 && leg.plan == PlanOf(r.config, |r.logs|, leg.now)
    requires Succeeds(LegContext(r, leg), leg, r.catalogs[|r.logs|], log, next)
    ensures Happens(Extended(r, leg, log, next))
  {
    var x := Extended(r, leg, log, next);
    forall i | 0 <= i < |x.legs| ensures PhaseHappens(x, i) {
      if i < |r.legs| { assert PhaseHappens(r, i); }
    }
  }

  function Shortened(r: RoundRun, n: nat): RoundRun
    requires n <= |r.legs| == |r.logs| && |r.catalogs| == |r.logs| + 1
  {
    r.(legs := r.legs[..n], logs := r.logs[..n], catalogs := r.catalogs[..n + 1])
  }

  lemma RoundBegins(r: RoundRun, n: nat)
    requires Happens(r) && n <= |r.logs|
    ensures Happens(Shortened(r, n)) && WholeLog(Shortened(r, n)) == LogUpTo(r.logs, n)
  {
    var x := Shortened(r, n);
    forall i | 0 <= i < |x.legs| ensures PhaseHappens(x, i) {
      assert PhaseHappens(r, i);
    }
    LogPrefix(r.logs, n, n);
  }

  lemma {:induction false} LogPrefix(logs: seq<seq<Entry>>, n: nat, i: nat)
    requires i <= n <= |logs|
    ensures LogUpTo(logs[..n], i) == LogUpTo(logs, i)
  {
    if i > 0 { LogPrefix(logs, n, i - 1); }
  }

  /** However far a round got, no phase accepted a request of an earlier one. */
  lemma PhasesExtendWithoutDuplicates(r: RoundRun, i: nat)
    requires Happens(r) && i < |r.logs| && CollisionFree(r.digest, r.catalogs[i + 1].responses.Keys)
    ensures AcceptedDigests(LogUpTo(r.logs, i)) !! AcceptedDigests(r.logs[i])
  {
    RoundBegins(r, i);
    assert PhaseHappens(r, i);
    NextPhase(Shortened(r, i), r.legs[i]);
  }

  lemma {:induction false} ResponsesStay(r: RoundRun, i: nat, j: nat)
    requires Happens(r) && i <= j <= |r.logs|
    ensures r.catalogs[i].responses.Keys <= r.catalogs[j].responses.Keys
    decreases j
  {
    if i < j {
      ResponsesStay(r, i, j - 1);
      RoundBegins(r, j - 1);
      assert PhaseHappens(r, j - 1);
      NextPhase(Shortened(r, j - 1), r.legs[j - 1]);
    }
  }

  // ---------- what the phases leave behind ----------

  lemma LegGrows(ctx: Context, leg: Leg, before: Catalog, initial: Option<string>, base: nat)
    requires WellFormed(ctx) && CatalogOk(before, initial) && Settled(before) && Untouched(ctx, before)
    requires Completes(ctx, leg, before) && Grown(before, base)
    ensures Grown(Ending(ctx, leg, before).catalog, base)
  {
    StartHolds(ctx, leg.now, before, initial);
    RunGrows(ctx, Begin(ctx, leg, before), leg.steps, initial, base);
  }

  lemma {:induction false} PhasesGrow(r: RoundRun, i: nat)
    requires Happens(r) && i <= |r.logs|
    ensures Grown(r.catalogs[i], MetadataCount(r.catalogs[0].objects))
  {
    if i > 0 {
      PhasesGrow(r, i - 1);
      var ids := PhasesReached(r, i - 1);
      var leg := r.legs[i - 1];
      assert PhaseHappens(r, i - 1);
      NameStep(r.config, i - 1, leg.now);
      ToldKnows(r.digest, r.catalogs[i - 1], LogUpTo(r.logs, i - 1), ids, r.catalogs[0].property);
      OtherPhaseUntouched(LegContext(r, leg), r.catalogs[i - 1], Names(i - 1));
      LegGrows(LegContext(r, leg), leg, r.catalogs[i - 1], r.catalogs[0].property,
        MetadataCount(r.catalogs[0].objects));
    }
  }

  function AcceptedCount(r: RoundRun): nat { CountsOf(WholeLog(r)).accepted }
  function ErrorCount(r: RoundRun): nat { CountsOf(WholeLog(r)).errors }
  function FinalCatalog(r: RoundRun): Catalog
    requires r.catalogs != []
  {
    r.catalogs[|r.catalogs| - 1]
  }

  /** Every interleaved run of the phases, whatever the effects store: without
      request errors and with one acceptance the final property belongs to an
      accepted request and cannot change later. */
  lemma HonestRound(r: RoundRun)
    requires Happens(r) && ErrorCount(r) == 0 && AcceptedCount(r) > 0
    ensures FinalCatalog(r).property.Some?
    ensures r.digest(FinalCatalog(r).property.value) in AcceptedDigests(WholeLog(r))
    ensures FinalCatalog(r).late == {}
  {
    var ids := PhasesReached(r, |r.logs|);
    PropertyIsAccepted(r.digest, FinalCatalog(r), WholeLog(r), ids, r.catalogs[0].property);
  }

  /** If each accepted commit added a metadata object and none was lost, growth
      covers the accepted commits, errors or not. */
  lemma HonestGrowth(r: RoundRun)
    requires Happens(r) && Persists(FinalCatalog(r))
    ensures MetadataCount(FinalCatalog(r).objects) >= MetadataCount(r.catalogs[0].objects) + AcceptedCount(r)
  {
    var ids := PhasesReached(r, |r.logs|);
    PhasesGrow(r, |r.logs|);
    GrowthCoversAccepted(r.digest, FinalCatalog(r), WholeLog(r), ids, MetadataCount(r.catalogs[0].objects));
  }
}
