/** The engine event protocol: the order of stages and the traces a child
    process may print. */
module EngineEvents {
  import opened Ordering

  datatype EngineStage =
    | VerifyRuntime | InitializeCatalog | PreflightFixture | CreateNamespace | CreateTable | AppendInitial
    | ReadInitial | EvolveSchema | AppendEvolved | ReadEvolved | ObserveFinalTable

  const ORDER: seq<EngineStage> := [
    VerifyRuntime, InitializeCatalog, PreflightFixture, CreateNamespace, CreateTable, AppendInitial,
    ReadInitial, EvolveSchema, AppendEvolved, ReadEvolved, ObserveFinalTable]

  const STAGES: nat := 11

  datatype Category = Runtime | Connector | Catalog | Data

  datatype RowRead = RowRead(rows: nat, bytes: nat, sha256: string)

  /** Observations of runtimes and tables stay uninterpreted. */
  datatype Event =
    | RuntimeReady(runtime: string)
    | CatalogReady
    | FixturePreflight(absent: bool)
    | NamespaceReady(listedExactly: bool)
    | TableReady(table: string)
    | InitialAppended(snapshots: nat)
    | InitialRead(read: RowRead)
    | SchemaEvolved(table: string)
    | EvolvedAppended(snapshots: nat)
    | EvolvedRead(read: RowRead)
    | FinalTable(table: string)
    | Completed
    | Failed(stage: EngineStage, category: Category)

  function SuccessfulStage(e: Event): Option<EngineStage> {
    match e
    case RuntimeReady(_) => Some(VerifyRuntime)
    case CatalogReady => Some(InitializeCatalog)
    case FixturePreflight(_) => Some(PreflightFixture)
    case NamespaceReady(_) => Some(CreateNamespace)
    case TableReady(_) => Some(CreateTable)
    case InitialAppended(_) => Some(AppendInitial)
    case InitialRead(_) => Some(ReadInitial)
    case SchemaEvolved(_) => Some(EvolveSchema)
    case EvolvedAppended(_) => Some(AppendEvolved)
    case EvolvedRead(_) => Some(ReadEvolved)
    case FinalTable(_) => Some(ObserveFinalTable)
    case Completed | Failed(_, _) => None
  }

  // ---------- well-formed traces ----------

  /** The stages in order, none of them a collision. */
  predicate Progress(events: seq<Event>) {
    |events| <= STAGES
    && forall i :: 0 <= i < |events| ==>
         SuccessfulStage(events[i]) == Some(ORDER[i]) && events[i] != FixturePreflight(false)
  }

  /** How a trace may end after `n` successful stages. */
  predicate Ends(n: nat, last: Event) {
    match last
    case Failed(stage, _) => n < STAGES && ORDER[n] == stage
    case Completed => n == STAGES
    case FixturePreflight(absent) => !absent && n < STAGES && ORDER[n] == PreflightFixture
    case _ => false
  }

  predicate WellFormedTrace(events: seq<Event>) {
    events != [] && Progress(events[..|events| - 1]) && Ends(|events| - 1, events[|events| - 1])
  }

  /** The collision event can only stand third. */
  lemma CollisionIsThird(n: nat)
    requires n < STAGES
    ensures ORDER[n] == PreflightFixture <==> n == 2
  {
  }

  // ---------- the accepting automaton ----------

  datatype ProtocolFailure =
    StdoutTooLarge | EventLineTooLarge | MalformedEvent | TooManyEvents | OutOfOrder | PostTerminal | MissingTerminal

  const MAXIMUM_EVENTS: nat := 32

  /** What the decoder keeps about the events it has seen. */
  datatype Acceptor = Acceptor(events: seq<Event>, failure: Option<ProtocolFailure>, nextStage: nat, terminal: bool)

  const FRESH := Acceptor([], None, 0, false)

  function FailWith(a: Acceptor, kind: ProtocolFailure): Acceptor {
    if a.failure.None? then a.(failure := Some(kind)) else a
  }

  predicate Expects(a: Acceptor, stage: EngineStage) {
    a.nextStage < STAGES && ORDER[a.nextStage] == stage
  }

  function Accept(a: Acceptor, e: Event): Acceptor {
    if a.terminal then FailWith(a, PostTerminal)
    else if |a.events| >= MAXIMUM_EVENTS then FailWith(a, TooManyEvents)
    else match e
      case Failed(stage, _) =>
        if !Expects(a, stage) then FailWith(a, OutOfOrder) else a.(terminal := true, events := a.events + [e])
      case Completed =>
        if a.nextStage != STAGES then FailWith(a, OutOfOrder) else a.(terminal := true, events := a.events + [e])
      case _ =>
        if !Expects(a, SuccessfulStage(e).value) then FailWith(a, OutOfOrder)
        else a.(nextStage := a.nextStage + 1, terminal := e == FixturePreflight(false), events := a.events + [e])
  }

  /** Events after a failure are never looked at. */
  function Feed(a: Acceptor, e: Event): Acceptor {
    if a.failure.Some? then a else Accept(a, e)
  }

  function FeedAll(a: Acceptor, events: seq<Event>): Acceptor {
    if events == [] then a else Feed(FeedAll(a, events[..|events| - 1]), events[|events| - 1])
  }

  function Close(a: Acceptor): Acceptor {
    if a.failure.None? && !a.terminal then FailWith(a, MissingTerminal) else a
  }

  /** Without a failure everything fed has been kept, and the automaton is
      either under way or has just read a proper end. */
  ghost predicate Tracks(a: Acceptor, events: seq<Event>) {
    a.failure.None? ==>
      && a.events == events
      && (!a.terminal ==> Progress(events) && a.nextStage == |events|)
      && (a.terminal ==> WellFormedTrace(events))
  }

  lemma ProgressStep(events: seq<Event>, e: Event)
    requires Progress(events) && |events| < STAGES && SuccessfulStage(e) == Some(ORDER[|events|]) &&
             e != FixturePreflight(false)
    ensures Progress(events + [e])
  {
  }

  lemma EndStep(events: seq<Event>, e: Event)
    requires Progress(events) && Ends(|events|, e)
    ensures WellFormedTrace(events + [e])
  {
    assert (events + [e])[..|events|] == events;
  }

  lemma FeedTracks(a: Acceptor, events: seq<Event>, e: Event)
    requires Tracks(a, events)
    ensures Tracks(Feed(a, e), events + [e])
  {
    if a.failure.None? && !a.terminal && Feed(a, e).failure.None? {
      if Feed(a, e).terminal { EndStep(events, e); } else { ProgressStep(events, e); }
    }
  }

  lemma {:induction false} AcceptorTracks(events: seq<Event>)
    ensures Tracks(FeedAll(FRESH, events), events)
  {
    if events != [] {
      var front := events[..|events| - 1];
      AcceptorTracks(front);
      FeedTracks(FeedAll(FRESH, front), front, events[|events| - 1]);
      assert events == front + [events[|events| - 1]];
    }
  }

  lemma FeedProgress(a: Acceptor, e: Event)
    requires a.failure.None? && !a.terminal && |a.events| == a.nextStage < STAGES
    requires SuccessfulStage(e) == Some(ORDER[a.nextStage]) && e != FixturePreflight(false)
    ensures Feed(a, e) == Acceptor(a.events + [e], None, a.nextStage + 1, false)
  {
  }

  lemma LastOfProgress(events: seq<Event>, n: nat)
    requires Progress(events) && n == |events| - 1
    ensures Progress(events[..n]) && SuccessfulStage(events[n]) == Some(ORDER[n]) &&
            events[n] != FixturePreflight(false)
  {
  }

  lemma {:induction false} ProgressIsAccepted(events: seq<Event>)
    requires Progress(events)
    ensures FeedAll(FRESH, events) == Acceptor(events, None, |events|, false)
  {
    if events != [] {
      var n := |events| - 1;
      LastOfProgress(events, n);
      ProgressIsAccepted(events[..n]);
      FeedProgress(FeedAll(FRESH, events[..n]), events[n]);
      assert events == events[..n] + [events[n]];
    }
  }

  /** The decoder accepts exactly the well-formed traces. */
  lemma AcceptsExactlyTheTraces(events: seq<Event>)
    ensures Close(FeedAll(FRESH, events)).failure.None? <==> WellFormedTrace(events)
    ensures WellFormedTrace(events) ==> Close(FeedAll(FRESH, events)).events == events
  {
    AcceptorTracks(events);
    if WellFormedTrace(events) {
      var front, e := events[..|events| - 1], events[|events| - 1];
      ProgressIsAccepted(front);
      assert events == front + [e];
    }
  }

  /** The event limit of 32 is never what rejects a stream. */
  lemma {:induction false} NeverTooMany(events: seq<Event>)
    ensures FeedAll(FRESH, events).failure != Some(TooManyEvents)
    ensures FeedAll(FRESH, events).failure.None? ==> |FeedAll(FRESH, events).events| <= 12
  {
    if events != [] {
      NeverTooMany(events[..|events| - 1]);
      AcceptorTracks(events);
    }
  }

  lemma FeedKeeps(a: Acceptor, e: Event)
    ensures Feed(a, e).events == a.events || (a.failure.None? && Feed(a, e).events == a.events + [e])
  {
  }

  lemma Extend(front: seq<Event>, events: seq<Event>, kept: seq<Event>)
    requires events != [] && front == events[..|events| - 1]
    requires kept <= front || kept == front + [events[|events| - 1]]
    ensures kept <= events
  {
  }

  /** What was kept is always a prefix of what was fed. */
  lemma {:induction false} KeepsAPrefix(events: seq<Event>)
    ensures FeedAll(FRESH, events).events <= events
  {
    if events != [] {
      var front, e := events[..|events| - 1], events[|events| - 1];
      KeepsAPrefix(front);
      AcceptorTracks(front);
      FeedKeeps(FeedAll(FRESH, front), e);
      Extend(front, events, FeedAll(FRESH, events).events);
    }
  }
}
