/** The two engine runners: DuckDB, which collects events in a vector, and
    Spark, which prints them. Both walk the same stages. */
module EngineRuns {
  import opened Ordering
  import opened EngineEvents
  import opened EngineDecoder

  datatype Engine = DuckDb | Spark

  /** What the engine and the catalog answered, `None` standing for any error. */
  datatype Answers = Answers(
    runtime: Option<string>,
    catalogLoads: bool,
    absent: Option<bool>,
    namespaceCreated: bool, namespaceListings: Option<nat>,
    tableCreated: bool, table: Option<string>,
    initialAppended: bool, initialSnapshots: Option<nat>,
    initialRead: Option<RowRead>,
    schemaEvolved: bool, evolvedTable: Option<string>,
    evolvedAppended: bool, evolvedSnapshots: Option<nat>,
    evolvedRead: Option<RowRead>,
    finalTable: Option<string>)

  function CategoryOf(stage: EngineStage): Category {
    match stage
    case VerifyRuntime => Runtime
    case InitializeCatalog | CreateTable | EvolveSchema | ObserveFinalTable => Connector
    case PreflightFixture | CreateNamespace => Catalog
    case AppendInitial | ReadInitial | AppendEvolved | ReadEvolved => Data
  }

  // ---------- what a run prints ----------

  /** The success event of a stage, if the stage succeeds. DuckDB never fails
      to initialise its catalog, and reads an unanswered preflight as occupied. */
  function Succeeds(engine: Engine, a: Answers, stage: EngineStage): Option<Event> {
    match stage
    case VerifyRuntime => if a.runtime.Some? then Some(RuntimeReady(a.runtime.value)) else None
    case InitializeCatalog => if engine.DuckDb? || a.catalogLoads then Some(CatalogReady) else None
    case PreflightFixture =>
      if a.absent.Some? then Some(FixturePreflight(a.absent.value))
      else if engine.DuckDb? then Some(FixturePreflight(false)) else None
    case CreateNamespace => if a.namespaceCreated && a.namespaceListings == Some(1) then Some(NamespaceReady(true))
      else None
    case CreateTable => if a.tableCreated && a.table.Some? then Some(TableReady(a.table.value)) else None
    case AppendInitial =>
      if a.initialAppended && a.initialSnapshots.Some? then Some(InitialAppended(a.initialSnapshots.value)) else None
    case ReadInitial => if a.initialRead.Some? then Some(InitialRead(a.initialRead.value)) else None
    case EvolveSchema => if a.schemaEvolved && a.evolvedTable.Some? then Some(SchemaEvolved(a.evolvedTable.value))
      else None
    case AppendEvolved =>
      if a.evolvedAppended && a.evolvedSnapshots.Some? then Some(EvolvedAppended(a.evolvedSnapshots.value)) else None
    case ReadEvolved => if a.evolvedRead.Some? then Some(EvolvedRead(a.evolvedRead.value)) else None
    case ObserveFinalTable => if a.finalTable.Some? then Some(FinalTable(a.finalTable.value)) else None
  }

  datatype Run = Run(exit: nat, events: seq<Event>, mutations: seq<EngineStage>)

  const MUTATING: seq<EngineStage> := [CreateNamespace, CreateTable, AppendInitial, EvolveSchema, AppendEvolved]

  /** How many mutating statements have been issued once `n` stages were begun. */
  function Issued(n: nat): (count: nat)
    ensures count <= 5
  {
    if n <= 3 then 0 else if n == 4 then 1 else if n == 5 then 2 else if n <= 7 then 3 else if n == 8 then 4 else 5
  }

  /** Every stage so far succeeded, in order, with the event printed for it. */
  predicate Cleared(engine: Engine, a: Answers, events: seq<Event>) {
    && |events| <= STAGES
    && forall i :: 0 <= i < |events| ==>
       Succeeds(engine, a, ORDER[i]) == Some(events[i]) && events[i] != FixturePreflight(false)
  }

  /** How a run may stop after clearing `n` stages. */
  predicate Stops(engine: Engine, a: Answers, n: nat, exit: nat, last: Event) {
    if n >= STAGES then exit == 0 && last == Completed
    else
      match Succeeds(engine, a, ORDER[n])
      case None => exit == 2 && last == Failed(ORDER[n], CategoryOf(ORDER[n]))
      case Some(event) => exit == 3 && last == event == FixturePreflight(false)
  }

  /** `r` is the run of `engine` under these answers: the stages up to the
      first that does not succeed, and one closing event. */
  predicate Emits(engine: Engine, a: Answers, r: Run) {
    && r.events != []
    && var n := |r.events| - 1;
    && Cleared(engine, a, r.events[..n]) && Stops(engine, a, n, r.exit, r.events[n])
    && r.mutations == MUTATING[..Issued(n + 1)]
  }

  // ---------- the programs ----------

  lemma Clears(engine: Engine, a: Answers, events: seq<Event>, stage: EngineStage, event: Event)
    requires Cleared(engine, a, events) && |events| < STAGES && ORDER[|events|] == stage
    requires Succeeds(engine, a, stage) == Some(event) && event != FixturePreflight(false)
    ensures Cleared(engine, a, events + [event])
  {
  }

  lemma Closes(engine: Engine, a: Answers, events: seq<Event>, exit: nat, last: Event)
    requires Cleared(engine, a, events) && Stops(engine, a, |events|, exit, last)
    ensures Emits(engine, a, Run(exit, events + [last], MUTATING[..Issued(|events| + 1)]))
  {
    assert (events + [last])[..|events|] == events;
  }

  /** DuckDB collects its events in a vector. */
  method RunDuckDb(a: Answers) returns (r: Run)
    ensures Emits(DuckDb, a, r)
  {
    var events: seq<Event> := [];
    if a.runtime.None? { r := DuckDbFailed(a, events, [], VerifyRuntime, Runtime); return; }
    Clears(DuckDb, a, events, VerifyRuntime, RuntimeReady(a.runtime.value));
    events := events + [RuntimeReady(a.runtime.value)];
    Clears(DuckDb, a, events, InitializeCatalog, CatalogReady);
    r := DuckDbPreflight(a, events + [CatalogReady]);
  }

  method DuckDbPreflight(a: Answers, events: seq<Event>) returns (r: Run)
    requires Cleared(DuckDb, a, events) && |events| == 2
    ensures Emits(DuckDb, a, r)
  {
    var absent := a.absent == Some(true);
    if !absent {
      Closes(DuckDb, a, events, 3, FixturePreflight(false));
      return Run(3, events + [FixturePreflight(false)], []);
    }
    Clears(DuckDb, a, events, PreflightFixture, FixturePreflight(true));
    r := DuckDbCreate(a, events + [FixturePreflight(true)]);
  }

  method DuckDbFailed(
    a: Answers, events: seq<Event>, mutations: seq<EngineStage>, stage: EngineStage, category: Category)
    returns (r: Run)
    requires Cleared(DuckDb, a, events) && |events| < STAGES && ORDER[|events|] == stage &&
             category == CategoryOf(stage)
    requires Succeeds(DuckDb, a, stage).None? && mutations == MUTATING[..Issued(|events| + 1)]
    ensures Emits(DuckDb, a, r)
  {
    Closes(DuckDb, a, events, 2, Failed(stage, category));
    return Run(2, events + [Failed(stage, category)], mutations);
  }

  method DuckDbCreate(a: Answers, before: seq<Event>) returns (r: Run)
    requires Cleared(DuckDb, a, before) && |before| == 3
    ensures Emits(DuckDb, a, r)
  {
    var events, mutations := before, [CreateNamespace];
    if !a.namespaceCreated || a.namespaceListings != Some(1) {
      r := DuckDbFailed(a, events, mutations, CreateNamespace, Catalog);
      return;
    }
    Clears(DuckDb, a, events, CreateNamespace, NamespaceReady(true));
    events := events + [NamespaceReady(true)];
    mutations := mutations + [CreateTable];
    if !a.tableCreated || a.table.None? { r := DuckDbFailed(a, events, mutations, CreateTable, Connector); return; }
    Clears(DuckDb, a, events, CreateTable, TableReady(a.table.value));
    events := events + [TableReady(a.table.value)];
    r := DuckDbLoad(a, events, mutations);
  }

  method DuckDbLoad(a: Answers, before: seq<Event>, touched: seq<EngineStage>) returns (r: Run)
    requires Cleared(DuckDb, a, before) && |before| == 5 && touched == MUTATING[..2]
    ensures Emits(DuckDb, a, r)
  {
    var events, mutations := before, touched + [AppendInitial];
    if !a.initialAppended || a.initialSnapshots.None? {
      r := DuckDbFailed(a, events, mutations, AppendInitial, Data);
      return;
    }
    Clears(DuckDb, a, events, AppendInitial, InitialAppended(a.initialSnapshots.value));
    events := events + [InitialAppended(a.initialSnapshots.value)];
    if a.initialRead.None? { r := DuckDbFailed(a, events, mutations, ReadInitial, Data); return; }
    Clears(DuckDb, a, events, ReadInitial, InitialRead(a.initialRead.value));
    r := DuckDbEvolve(a, events + [InitialRead(a.initialRead.value)], mutations);
  }

  method DuckDbEvolve(a: Answers, before: seq<Event>, touched: seq<EngineStage>) returns (r: Run)
    requires Cleared(DuckDb, a, before) && |before| == 7 && touched == MUTATING[..3]
    ensures Emits(DuckDb, a, r)
  {
    var events, mutations := before, touched + [EvolveSchema];
    if !a.schemaEvolved || a.evolvedTable.None? {
      r := DuckDbFailed(a, events, mutations, EvolveSchema, Connector);
      return;
    }
    Clears(DuckDb, a, events, EvolveSchema, SchemaEvolved(a.evolvedTable.value));
    events := events + [SchemaEvolved(a.evolvedTable.value)];
    mutations := mutations + [AppendEvolved];
    if !a.evolvedAppended || a.evolvedSnapshots.None? {
      r := DuckDbFailed(a, events, mutations, AppendEvolved, Data);
      return;
    }
    Clears(DuckDb, a, events, AppendEvolved, EvolvedAppended(a.evolvedSnapshots.value));
    events := events + [EvolvedAppended(a.evolvedSnapshots.value)];
    r := DuckDbConclude(a, events, mutations);
  }

  method DuckDbConclude(a: Answers, before: seq<Event>, mutations: seq<EngineStage>) returns (r: Run)
    requires Cleared(DuckDb, a, before) && |before| == 9 && mutations == MUTATING
    ensures Emits(DuckDb, a, r)
  {
    var events := before;
    assert MUTATING[..5] == MUTATING;
    if a.evolvedRead.None? { r := DuckDbFailed(a, events, mutations, ReadEvolved, Data); return; }
    Clears(DuckDb, a, events, ReadEvolved, EvolvedRead(a.evolvedRead.value));
    events := events + [EvolvedRead(a.evolvedRead.value)];
    if a.finalTable.None? { r := DuckDbFailed(a, events, mutations, ObserveFinalTable, Connector); return; }
    Clears(DuckDb, a, events, ObserveFinalTable, FinalTable(a.finalTable.value));
    events := events + [FinalTable(a.finalTable.value)];
    Closes(DuckDb, a, events, 0, Completed);
    return Run(0, events + [Completed], mutations);
  }

  const COLLISION_EXIT: nat := 3
  const FAILURE_EXIT: nat := 2

  /** The Spark runner prints each event as it happens. */
  class SparkRunner {
    var printed: seq<Event>
    var mutations: seq<EngineStage>

    constructor ()
      ensures printed == [] && mutations == []
    {
      printed, mutations := [], [];
    }

    method Emit(event: Event)
      modifies this`printed
      ensures printed == old(printed) + [event]
    {
      printed := printed + [event];
    }

    method Fail(a: Answers, stage: EngineStage, category: Category) returns (exit: nat)
      requires Cleared(Spark, a, printed) && |printed| < STAGES && ORDER[|printed|] == stage &&
               category == CategoryOf(stage)
      requires Succeeds(Spark, a, stage).None? && mutations == MUTATING[..Issued(|printed| + 1)]
      modifies this`printed
      ensures exit == FAILURE_EXIT && Emits(Spark, a, Run(exit, printed, mutations))
    {
      Closes(Spark, a, printed, 2, Failed(stage, category));
      Emit(Failed(stage, category));
      return FAILURE_EXIT;
    }

    method RunSpark(a: Answers) returns (exit: nat)
      requires printed == [] && mutations == []
      modifies this
      ensures Emits(Spark, a, Run(exit, printed, mutations))
    {
      if a.runtime.None? { exit := Fail(a, VerifyRuntime, Runtime); return; }
      Clears(Spark, a, printed, VerifyRuntime, RuntimeReady(a.runtime.value));
      Emit(RuntimeReady(a.runtime.value));
      if !a.catalogLoads { exit := Fail(a, InitializeCatalog, Connector); return; }
      Clears(Spark, a, printed, InitializeCatalog, CatalogReady);
      Emit(CatalogReady);
      if a.absent.None? { exit := Fail(a, PreflightFixture, Catalog); return; }
      if !a.absent.value {
        Closes(Spark, a, printed, 3, FixturePreflight(false));
        Emit(FixturePreflight(false));
        return COLLISION_EXIT;
      }
      Clears(Spark, a, printed, PreflightFixture, FixturePreflight(true));
      Emit(FixturePreflight(true));
      exit := Create(a);
    }

    method Create(a: Answers) returns (exit: nat)
      requires Cleared(Spark, a, printed) && |printed| == 3 && mutations == []
      modifies this
      ensures Emits(Spark, a, Run(exit, printed, mutations))
    {
      mutations := [CreateNamespace];
      if !a.namespaceCreated || a.namespaceListings != Some(1) { exit := Fail(a, CreateNamespace, Catalog); return; }
      Clears(Spark, a, printed, CreateNamespace, NamespaceReady(true));
      Emit(NamespaceReady(true));
      mutations := mutations + [CreateTable];
      if !a.tableCreated || a.table.None? { exit := Fail(a, CreateTable, Connector); return; }
      Clears(Spark, a, printed, CreateTable, TableReady(a.table.value));
      Emit(TableReady(a.table.value));
      exit := Load(a);
    }

    method Load(a: Answers) returns (exit: nat)
      requires Cleared(Spark, a, printed) && |printed| == 5 && mutations == MUTATING[..2]
      modifies this
      ensures Emits(Spark, a, Run(exit, printed, mutations))
    {
      mutations := mutations + [AppendInitial];
      if !a.initialAppended || a.initialSnapshots.None? { exit := Fail(a, AppendInitial, Data); return; }
      Clears(Spark, a, printed, AppendInitial, InitialAppended(a.initialSnapshots.value));
      Emit(InitialAppended(a.initialSnapshots.value));
      if a.initialRead.None? { exit := Fail(a, ReadInitial, Data); return; }
      Clears(Spark, a, printed, ReadInitial, InitialRead(a.initialRead.value));
      Emit(InitialRead(a.initialRead.value));
      exit := Evolve(a);
    }

    method Evolve(a: Answers) returns (exit: nat)
      requires Cleared(Spark, a, printed) && |printed| == 7 && mutations == MUTATING[..3]
      modifies this
      ensures Emits(Spark, a, Run(exit, printed, mutations))
    {
      mutations := mutations + [EvolveSchema];
      if !a.schemaEvolved || a.evolvedTable.None? { exit := Fail(a, EvolveSchema, Connector); return; }
      Clears(Spark, a, printed, EvolveSchema, SchemaEvolved(a.evolvedTable.value));
      Emit(SchemaEvolved(a.evolvedTable.value));
      mutations := mutations + [AppendEvolved];
      if !a.evolvedAppended || a.evolvedSnapshots.None? { exit := Fail(a, AppendEvolved, Data); return; }
      Clears(Spark, a, printed, AppendEvolved, EvolvedAppended(a.evolvedSnapshots.value));
      Emit(EvolvedAppended(a.evolvedSnapshots.value));
      exit := Conclude(a);
    }

    method Conclude(a: Answers) returns (exit: nat)
      requires Cleared(Spark, a, printed) && |printed| == 9 && mutations == MUTATING
      modifies this`printed
      ensures Emits(Spark, a, Run(exit, printed, mutations))
    {
      assert MUTATING[..5] == MUTATING;
      if a.evolvedRead.None? { exit := Fail(a, ReadEvolved, Data); return; }
      Clears(Spark, a, printed, ReadEvolved, EvolvedRead(a.evolvedRead.value));
      Emit(EvolvedRead(a.evolvedRead.value));
      if a.finalTable.None? { exit := Fail(a, ObserveFinalTable, Connector); return; }
      Clears(Spark, a, printed, ObserveFinalTable, FinalTable(a.finalTable.value));
      Emit(FinalTable(a.finalTable.value));
      Closes(Spark, a, printed, 0, Completed);
      Emit(Completed);
      return 0;
    }
  }

  // ---------- one automaton for both engines ----------

  function ExitOf(last: Event): nat {
    match last
    case Completed => 0
    case FixturePreflight(_) => 3
    case _ => 2
  }

  /** The traces of one engine. Both share the automaton; a namespace is only
      announced once listed exactly, failures carry the category of their
      stage, and DuckDB cannot fail to initialise its catalog or to preflight. */
  ghost predicate Emittable(engine: Engine, events: seq<Event>) {
    && WellFormedTrace(events)
    && NamespaceReady(false) !in events
    && FailsProperly(engine, events[|events| - 1])
  }

  predicate FailsProperly(engine: Engine, last: Event) {
    last.Failed? ==>
      && last.category == CategoryOf(last.stage)
      && (engine.DuckDb? ==> !last.stage.InitializeCatalog? && !last.stage.PreflightFixture?)
  }

  /** What every run keeps: a trace of its engine, the exit code of its last
      event, and mutations exactly when the preflight found the fixture absent. */
  ghost predicate Conforms(engine: Engine, r: Run) {
    && Emittable(engine, r.events)
    && r.exit == ExitOf(r.events[|r.events| - 1])
    && (r.mutations != [] <==> FixturePreflight(true) in r.events)
  }

  lemma AnswersTheStage(engine: Engine, a: Answers, stage: EngineStage)
    ensures var answer := Succeeds(engine, a, stage);
            && (answer.Some? ==> SuccessfulStage(answer.value) == Some(stage) && answer.value != NamespaceReady(false))
            && (answer.None? && engine.DuckDb? ==> !stage.InitializeCatalog? && !stage.PreflightFixture?)
  {
  }

  lemma ClearedIsProgress(engine: Engine, a: Answers, events: seq<Event>)
    requires Cleared(engine, a, events)
    ensures Progress(events) && NamespaceReady(false) !in events
    ensures FixturePreflight(true) in events <==> |events| > 2
  {
    forall i | 0 <= i < |events|
      ensures SuccessfulStage(events[i]) == Some(ORDER[i]) && events[i] != FixturePreflight(false) &&
              events[i] != NamespaceReady(false)
    {
      AnswersTheStage(engine, a, ORDER[i]);
    }
    if |events| > 2 {
      CollisionIsThird(2);
      assert events[2].FixturePreflight?;
    }
    if FixturePreflight(true) in events {
      var i :| 0 <= i < |events| && events[i] == FixturePreflight(true);
      CollisionIsThird(i);
    }
  }

  lemma StopsAtTheEnd(engine: Engine, a: Answers, n: nat, exit: nat, last: Event)
    requires n <= STAGES && Stops(engine, a, n, exit, last)
    ensures Ends(n, last) && FailsProperly(engine, last) && exit == ExitOf(last)
    ensures last != FixturePreflight(true) && last != NamespaceReady(false)
  {
    if n < STAGES { AnswersTheStage(engine, a, ORDER[n]); }
  }

  /** Every DuckDB and every Spark run is a trace of the shared automaton. */
  lemma EveryRunConforms(engine: Engine, a: Answers, r: Run)
    requires Emits(engine, a, r)
    ensures Conforms(engine, r)
  {
    var n := |r.events| - 1;
    var front, last := r.events[..n], r.events[n];
    ClearedIsProgress(engine, a, front);
    StopsAtTheEnd(engine, a, n, r.exit, last);
    assert r.events == front + [last];
    MutatesOnceOwned(n, last);
  }

  lemma MutatesOnceOwned(n: nat, last: Event)
    requires n <= STAGES && Ends(n, last)
    ensures MUTATING[..Issued(n + 1)] != [] <==> n > 2
  {
  }

  // ---------- and every such trace is some run ----------

  /** Answers that make an engine print `t`. */
  function Answering(t: seq<Event>): Answers {
    Answers(
      if |t| > 0 && t[0].RuntimeReady? then Some(t[0].runtime) else None,
      |t| > 1 && t[1].CatalogReady?,
      if |t| > 2 && t[2].FixturePreflight? then Some(t[2].absent) else None,
      true, if |t| > 3 && t[3].NamespaceReady? then Some(1) else None,
      true, if |t| > 4 && t[4].TableReady? then Some(t[4].table) else None,
      true, if |t| > 5 && t[5].InitialAppended? then Some(t[5].snapshots) else None,
      if |t| > 6 && t[6].InitialRead? then Some(t[6].read) else None,
      true, if |t| > 7 && t[7].SchemaEvolved? then Some(t[7].table) else None,
      true, if |t| > 8 && t[8].EvolvedAppended? then Some(t[8].snapshots) else None,
      if |t| > 9 && t[9].EvolvedRead? then Some(t[9].read) else None,
      if |t| > 10 && t[10].FinalTable? then Some(t[10].table) else None)
  }

  /** Stage `i` answers with the i-th event when that is its own success, and
      fails otherwise, except where DuckDB cannot fail. */
  lemma AnswersBack(engine: Engine, t: seq<Event>, i: nat)
    requires i < STAGES && NamespaceReady(false) !in t
    ensures AnswersOwn(engine, t, i)
  {
    if i <= 2 {
      AnswersFirst(engine, t, i);
    } else if i <= 5 {
      AnswersCreation(engine, t, i);
    } else if i <= 8 {
      AnswersEvolution(engine, t, i);
    } else {
      AnswersEnd(engine, t, i);
    }
  }

  predicate AnswersOwn(engine: Engine, t: seq<Event>, i: nat)
    requires i < STAGES
  {
    var answer, own := Succeeds(engine, Answering(t), ORDER[i]), i < |t| && SuccessfulStage(t[i]) == Some(ORDER[i]);
    && (own ==> answer == Some(t[i]))
    && (!own && (engine.Spark? || (i != 1 && i != 2)) ==> answer.None?)
  }

  lemma AnswersFirst(engine: Engine, t: seq<Event>, i: nat)
    requires i <= 2
    ensures AnswersOwn(engine, t, i)
  {
    if i == 0 { } else if i == 1 { } else { }
  }

  lemma AnswersCreation(engine: Engine, t: seq<Event>, i: nat)
    requires 3 <= i <= 5 && NamespaceReady(false) !in t
    ensures AnswersOwn(engine, t, i)
  {
    assert i < |t| ==> t[i] in t;
    if i == 3 { } else if i == 4 { } else { }
  }

  lemma AnswersEvolution(engine: Engine, t: seq<Event>, i: nat)
    requires 6 <= i <= 8
    ensures AnswersOwn(engine, t, i)
  {
    if i == 6 { } else if i == 7 { } else { }
  }

  lemma AnswersEnd(engine: Engine, t: seq<Event>, i: nat)
    requires 9 <= i < STAGES
    ensures AnswersOwn(engine, t, i)
  {
    if i == 9 { } else { }
  }

  lemma AnswersAlong(engine: Engine, t: seq<Event>, n: nat)
    requires Emittable(engine, t) && n == |t| - 1
    ensures Cleared(engine, Answering(t), t[..n])
  {
    forall i | 0 <= i < n ensures Succeeds(engine, Answering(t), ORDER[i]) == Some(t[..n][i]) {
      assert SuccessfulStage(t[..n][i]) == Some(ORDER[i]);
      AnswersBack(engine, t, i);
    }
  }

  lemma AnswersAtTheEnd(engine: Engine, t: seq<Event>, n: nat)
    requires Emittable(engine, t) && n == |t| - 1
    ensures Stops(engine, Answering(t), n, ExitOf(t[n]), t[n])
  {
    if n < STAGES {
      AnswersBack(engine, t, n);
      CollisionIsThird(n);
      assert ORDER[1] == InitializeCatalog;
    }
  }

  /** The traces of an engine are exactly the emittable ones. */
  lemma EmitsExactlyTheTraces(engine: Engine, t: seq<Event>)
    ensures Emittable(engine, t) <==> exists a, r :: Emits(engine, a, r) && r.events == t
  {
    if Emittable(engine, t) {
      var n := |t| - 1;
      AnswersAlong(engine, t, n);
      AnswersAtTheEnd(engine, t, n);
      Closes(engine, Answering(t), t[..n], ExitOf(t[n]), t[n]);
      assert t == t[..n] + [t[n]];
    }
    if a, r :| Emits(engine, a, r) && r.events == t {
      EveryRunConforms(engine, a, r);
    }
  }

  // ---------- when the engines coincide ----------

  lemma StopsAlike(engine: Engine, a: Answers, r: Run, s: Run)
    requires Emits(engine, a, r) && Emits(engine, a, s)
    ensures |r.events| >= |s.events|
  {
    ClearedAt(engine, a, s, |r.events| - 1);
  }

  lemma ClearedAt(engine: Engine, a: Answers, r: Run, i: nat)
    requires Emits(engine, a, r)
    ensures i < |r.events| - 1 ==>
              i < STAGES && Succeeds(engine, a, ORDER[i]) == Some(r.events[i]) && r.events[i] != FixturePreflight(false)
  {
    var n := |r.events| - 1;
    if i < n { assert r.events[..n][i] == r.events[i]; }
  }

  /** The answers determine the run. */
  lemma EmitsOnce(engine: Engine, a: Answers, r: Run, s: Run)
    requires Emits(engine, a, r) && Emits(engine, a, s)
    ensures r == s
  {
    StopsAlike(engine, a, r, s);
    StopsAlike(engine, a, s, r);
    forall i | 0 <= i < |r.events| - 1 ensures r.events[i] == s.events[i] {
      ClearedAt(engine, a, r, i);
      ClearedAt(engine, a, s, i);
    }
  }

  predicate Alike(a: Answers) { a.runtime.None? || (a.catalogLoads && a.absent.Some?) }

  lemma AlikeAnswers(a: Answers, r: Run)
    requires Alike(a) && Emits(DuckDb, a, r)
    ensures Emits(Spark, a, r)
  {
    ClearedAt(DuckDb, a, r, 0);
    assert ORDER[0] == VerifyRuntime;
    if a.runtime.Some? {
      forall stage ensures Succeeds(Spark, a, stage) == Succeeds(DuckDb, a, stage) {
      }
    }
  }

  lemma DifferingAnswers(a: Answers, r: Run)
    requires !Alike(a) && Emits(DuckDb, a, r)
    ensures !Emits(Spark, a, r)
  {
    var k: nat := if a.catalogLoads then 2 else 1;
    assert ORDER[0] == VerifyRuntime && ORDER[1] == InitializeCatalog && ORDER[2] == PreflightFixture;
    assert Succeeds(Spark, a, ORDER[k]).None? && Succeeds(DuckDb, a, ORDER[k]).Some?;
    if Emits(Spark, a, r) { ClearedAt(Spark, a, r, k); }
  }

  /** Given the same answers, DuckDB and Spark run alike if and only if the
      runtime failed, or the catalog loads and the preflight is answered. */
  lemma EnginesCoincide(a: Answers, duck: Run, spark: Run)
    requires Emits(DuckDb, a, duck) && Emits(Spark, a, spark)
    ensures duck == spark <==> a.runtime.None? || (a.catalogLoads && a.absent.Some?)
  {
    if Alike(a) {
      AlikeAnswers(a, duck);
      EmitsOnce(Spark, a, duck, spark);
    } else {
      DifferingAnswers(a, duck);
    }
  }

  // ---------- what the parent concludes ----------

  /** The parent process reads back the whole run from standard output: the
      exit code tells the same as the capture, and cleanup is authorised
      exactly when something may have been touched. */
  lemma ParentAgrees(
    engine: Engine, a: Answers, r: Run, encode: Encoder, parse: Parser, lines: seq<Line>, chunks: seq<string>)
    requires Codec(encode, parse, lines) && forall i :: 0 <= i < |lines| ==> Printable(encode, lines[i])
    requires Emits(engine, a, r) && EventsIn(lines) == r.events
    requires chunks != [] && Flatten(chunks) == Output(encode, lines) && |Flatten(chunks)| <= MAXIMUM_STDOUT_BYTES
    ensures var capture := Captured(parse, chunks);
            && capture.failure.None? && capture.events == r.events
            && (capture.Completed() <==> r.exit == 0)
            && (capture.EngineFailed() <==> r.exit == 2)
            && (capture.FixtureCollision() <==> r.exit == 3)
            && (capture.CleanupAuthorized() <==> r.mutations != [])
  {
    EveryRunConforms(engine, a, r);
    CaptureIsTheTrace(encode, parse, lines, chunks);
    DrainedIsPushed(parse, START, chunks);
  }

  /** Beyond the output limit it need not: for every run of either engine that
      may have touched something there is chatter around its events, and two
      ways to cut the output, such that the parent may clean up after one and
      not after the other. */
  lemma ParentMayMissOwnership(engine: Engine, a: Answers, r: Run, encode: Encoder, parse: Parser)
    returns (lines: seq<Line>, seen: seq<string>, missed: seq<string>)
    requires Emits(engine, a, r) && r.mutations != [] && Serves(encode, parse, r.events)
    requires |r.events| > 3 && Bytes(encode, r.events[..3]) < READ_BUFFER
    ensures EventsIn(lines) == r.events
    ensures Codec(encode, parse, lines) && forall i :: 0 <= i < |lines| ==> Printable(encode, lines[i])
    ensures Cuts(seen, Output(encode, lines)) && Cuts(missed, Output(encode, lines))
    ensures Captured(parse, seen).CleanupAuthorized() && !Captured(parse, missed).CleanupAuthorized()
  {
    EveryRunConforms(engine, a, r);
    lines, seen, missed := CleanupDependsOnCuts(encode, parse, r.events);
  }
}
