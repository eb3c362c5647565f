/** The loops that drive the commit phases: one client issuing commits, and the
    joining of writer ledgers in completion order. */
module Writers {
  import opened Ordering
  import opened Identity
  import opened Ledger
  import opened Contention
  import opened Phases

  /** What the clock and the catalog do to one commit. */
  datatype Attempt = Attempt(startedAt: nat, latency: nat, outcome: RequestOutcome)

  /** The client reached by living through `script` from `client`, in the
      transitions of the phase state machine. */
  function Lives(ctx: Context, c: nat, client: Client, script: seq<Attempt>): Client
    decreases |script|
  {
    if script == [] || !client.status.Idle? || !MayIssue(ctx.plan, script[0].startedAt, client.sequence) then client
    else Lives(ctx, c, Answered(ctx, c, client, script[0].latency, script[0].outcome), script[1..])
  }

  const NEWBORN := Client(Idle, 0, [])

  lemma LivesOn(ctx: Context, c: nat, client: Client, script: seq<Attempt>, i: nat)
    requires i < |script| && client.status.Idle? && MayIssue(ctx.plan, script[i].startedAt, client.sequence)
    ensures Lives(ctx, c, client, script[i..])
         == Lives(ctx, c, Answered(ctx, c, client, script[i].latency, script[i].outcome), script[i + 1..])
  {
    assert script[i..][1..] == script[i + 1..];
  }

  /** Records the answer to commit `sequence` of client `c`, as the phase
      machine's client does. */
  method RecordAttempt(ctx: Context, c: nat, sequence: nat, attempt: Attempt, ledger: RequestLedger)
    returns (failure: Option<ModelError>)
    requires ledger.Valid()
    modifies ledger
    ensures var next := Answered(ctx, c, Client(Idle, sequence, old(ledger.log)), attempt.latency, attempt.outcome);
            match failure
            case Some(error) => next.status == Failed(Model(error), true)
            case None =>
              && ledger.Valid() && next.log == ledger.log && next.sequence == sequence + 1
              && next.status == if ctx.plan.Window? && sequence == U64_MAX then Failed(SequenceOverflow, false)
                 else Idle
  {
    BuiltIsProject(ledger.log);
    var identity := RequestIdentity(ctx.config, SlotOf(ctx.plan, c, sequence));
    failure := ledger.Record(ctx.digest(identity), attempt.latency, attempt.outcome);
  }

  /** Closes a ledger into the evidence of its phase. */
  method CloseLedger(
    ledger: RequestLedger, elapsed: Duration) returns (r: Result<(PhaseEvidence, set<Digest>), WorkflowError>)
    requires ledger.Valid()
    ensures r == Closed(ledger.log, elapsed)
  {
    var finished := ledger.Finish(elapsed);
    r := match finished case Ok(evidence) => Ok(evidence) case Err(error) => Err(Model(error));
  }

  /** A serial phase: a fixed number of commits, each answered before the next. */
  method RunSerialPhase(ctx: Context, script: seq<Attempt>, elapsed: Duration)
    returns (r: Result<(PhaseEvidence, set<Digest>), WorkflowError>)
    requires ctx.plan.Serial? && |script| == ctx.plan.attempts
    ensures r == match ResultOf(Lives(ctx, 0, NEWBORN, script))
                 case Err(error) => Err(error)
                 case Ok(log) => Closed(log, elapsed)
  {
    var ledger := new RequestLedger();
    ghost var client := NEWBORN;
    assert script[0..] == script;
    for sequence := 0 to |script|
      invariant ledger.Valid() && fresh(ledger)
      invariant client == Client(Idle, sequence, ledger.log)
      invariant Lives(ctx, 0, NEWBORN, script) == Lives(ctx, 0, client, script[sequence..])
    {
      LivesOn(ctx, 0, client, script, sequence);
      var failure := RecordAttempt(ctx, 0, sequence, script[sequence], ledger);
      client := Answered(ctx, 0, client, script[sequence].latency, script[sequence].outcome);
      if failure.Some? {
        return Err(Model(failure.value));
      }
    }
    r := CloseLedger(ledger, elapsed);
  }

  function Closed(log: seq<Entry>, elapsed: Duration): Result<(PhaseEvidence, set<Digest>), WorkflowError> {
    match Finished(log, elapsed)
    case Ok(evidence) => Ok(evidence)
    case Err(error) => Err(Model(error))
  }

  /** One concurrent writer: commits until the clock reaches the deadline. */
  method RunWriter(ctx: Context, writer: nat, script: seq<Attempt>) returns (r: Result<RequestLedger, WorkflowError>)
    requires ctx.plan.Window? && script != [] && script[|script| - 1].startedAt >= ctx.plan.deadline
    ensures match ResultOf(Lives(ctx, writer, NEWBORN, script))
            case Err(error) => r == Err(error)
            case Ok(log) => r.Ok? && fresh(r.value) && r.value.Valid() && r.value.log == log
  {
    var ledger := new RequestLedger();
    var sequence := 0;
    ghost var client := NEWBORN;
    assert script[0..] == script;
    while true
      invariant 0 <= sequence < |script| && sequence <= U64_MAX
      invariant ledger.Valid() && fresh(ledger)
      invariant client == Client(Idle, sequence, ledger.log)
      invariant Lives(ctx, writer, NEWBORN, script) == Lives(ctx, writer, client, script[sequence..])
      decreases |script| - sequence
    {
      if script[sequence].startedAt >= ctx.plan.deadline {
        break;
      }
      LivesOn(ctx, writer, client, script, sequence);
      var failure := RecordAttempt(ctx, writer, sequence, script[sequence], ledger);
      client := Answered(ctx, writer, client, script[sequence].latency, script[sequence].outcome);
      if failure.Some? {
        return Err(Model(failure.value));
      }
      if sequence == U64_MAX {
        return Err(SequenceOverflow);
      }
      sequence := sequence + 1;
    }
    return Ok(ledger);
  }

  /** What a joined writer told. */
  ghost function Report(result: Result<RequestLedger, WorkflowError>): WriterResult
    reads if result.Ok? then {result.value} else {}
  {
    match result case Ok(ledger) => Ok(ledger.log) case Err(error) => Err(error)
  }

  ghost function Reports(joined: seq<Result<RequestLedger, WorkflowError>>): (r: seq<WriterResult>)
    reads set i | 0 <= i < |joined| && joined[i].Ok? :: joined[i].value
    ensures |r| == |joined|
  {
    seq(|joined|, i requires 0 <= i < |joined|
                    reads set i | 0 <= i < |joined| && joined[i].Ok? :: joined[i].value
                    => Report(joined[i]))
  }

  /** The joined ledgers are intact and hold what they reported. */
  ghost predicate Tells(joined: seq<Result<RequestLedger, WorkflowError>>, told: seq<WriterResult>)
    reads set i | 0 <= i < |joined| && joined[i].Ok? :: joined[i].value
  {
    && |told| == |joined|
    && forall i :: 0 <= i < |joined| ==>
         match joined[i]
         case Ok(ledger) => ledger.Valid() && told[i] == Ok(ledger.log)
         case Err(error) => told[i] == Err(error)
  }

  /** Merges one finished writer. Only the first error survives; a failed merge
      leaves the merged ledger as it was. */
  method JoinWriter(
    merged: RequestLedger, result: Result<RequestLedger, WorkflowError>, firstError: Option<WorkflowError>)
    returns (first: Option<WorkflowError>)
    requires merged.Valid() && (result.Ok? ==> result.value != merged && result.value.Valid())
    modifies merged
    ensures merged.Valid()
    ensures Joining(merged.log, first) == JoinOne(Joining(old(merged.log), firstError), old(Report(result)))
  {
    first := firstError;
    match result {
      case Ok(ledger) =>
        BuiltIsProject(merged.log);
        BuiltIsProject(ledger.log);
        var failure := merged.TryMerge(ledger);
        if failure.Some? && first.None? {
          first := Some(Model(failure.value));
        }
      case Err(error) =>
        if first.None? {
          first := Some(error);
        }
    }
  }

  lemma JoinsNext(told: seq<WriterResult>, k: nat)
    requires k < |told|
    ensures JoinAll(told[..k + 1]) == JoinOne(JoinAll(told[..k]), told[k])
  {
    assert told[..k + 1][..k] == told[..k];
  }

  /** Joins the writers in whatever order they finished. */
  method JoinWriters(joined: seq<Result<RequestLedger, WorkflowError>>, elapsed: Duration)
    returns (r: Result<(PhaseEvidence, set<Digest>), WorkflowError>)
    requires forall i :: 0 <= i < |joined| && joined[i].Ok? ==> joined[i].value.Valid()
    ensures var j := JoinAll(Reports(joined));
            r == match j.firstError
                 case Some(error) => Err(error)
                 case None => Closed(j.log, elapsed)
  {
    var merged := new RequestLedger();
    var firstError: Option<WorkflowError> := None;
    ghost var told := Reports(joined);
    assert Tells(joined, told);
    for next := 0 to |joined|
      invariant fresh(merged) && merged.Valid() && Tells(joined, told)
      invariant JoinAll(told[..next]) == Joining(merged.log, firstError)
    {
      JoinsNext(told, next);
      firstError := JoinWriter(merged, joined[next], firstError);
    }
    assert told[..|joined|] == told;
    if firstError.Some? {
      return Err(firstError.value);
    }
    r := CloseLedger(merged, elapsed);
  }

  // ---------- every run of the phase machine is made of such loops ----------

  lemma {:induction false} LivesSnoc(ctx: Context, c: nat, client: Client, script: seq<Attempt>, a: Attempt)
    requires var end := Lives(ctx, c, client, script); end.status.Idle? && end.sequence == client.sequence + |script|
    ensures var end := Lives(ctx, c, client, script);
            Lives(ctx, c, client, script + [a])
            == if MayIssue(ctx.plan, a.startedAt, end.sequence) then Answered(ctx, c, end, a.latency, a.outcome)
              else end
    decreases |script|
  {
    if script == [] {
      assert [a][1..] == [] && [] + [a] == [a];
      var next := Answered(ctx, c, client, a.latency, a.outcome);
      assert Lives(ctx, c, next, []) == next;
    } else {
      LivesBound(ctx, c, client, script);
      assert (script + [a])[1..] == script[1..] + [a] && (script + [a])[0] == script[0];
      LivesSnoc(ctx, c, Answered(ctx, c, client, script[0].latency, script[0].outcome), script[1..], a);
    }
  }

  /** A client that used up its script took every attempt of it. */
  lemma {:induction false} LivesBound(ctx: Context, c: nat, client: Client, script: seq<Attempt>)
    ensures Lives(ctx, c, client, script).sequence <= client.sequence + |script|
    ensures script != [] && Lives(ctx, c, client, script).sequence == client.sequence + |script| ==>
              && client.status.Idle? && MayIssue(ctx.plan, script[0].startedAt, client.sequence)
              && Answered(ctx, c, client, script[0].latency, script[0].outcome).sequence == client.sequence + 1
    decreases |script|
  {
    if script != [] && client.status.Idle? && MayIssue(ctx.plan, script[0].startedAt, client.sequence) {
      LivesBound(ctx, c, Answered(ctx, c, client, script[0].latency, script[0].outcome), script[1..]);
    }
  }

  predicate Panicked(client: Client) {
    client.status.Failed? && client.status.error == WriterTask
  }

  /** `script` leads a newborn client here. */
  predicate Follows(ctx: Context, c: nat, client: Client, script: seq<Attempt>) {
    var end := Lives(ctx, c, NEWBORN, script);
    if Panicked(client) then true
    else if client.status.Failed? then end == client
    else
      && end == Client(Idle, client.sequence, client.log) && |script| == client.sequence
      && (client.status.Waiting? ==> MayIssue(ctx.plan, client.status.startedAt, client.sequence))
  }

  ghost predicate Scripted(ctx: Context, s: State) {
    forall c: nat :: c < |s.clients| ==> HasScript(ctx, c, s.clients[c])
  }

  ghost predicate HasScript(ctx: Context, c: nat, client: Client) {
    exists script :: Follows(ctx, c, client, script)
  }

  lemma AnsweredShape(ctx: Context, c: nat, client: Client, latency: nat, outcome: RequestOutcome)
    ensures var next := Answered(ctx, c, client, latency, outcome);
            && next == Answered(ctx, c, Client(Idle, client.sequence, client.log), latency, outcome)
            && (next.status.Failed? || (next.status.Idle? && next.sequence == client.sequence + 1))
  {
  }

  lemma FollowsOn(ctx: Context, c: nat, next: Client, script: seq<Attempt>)
    requires Lives(ctx, c, NEWBORN, script) == next
    requires next.status.Failed? || (next.status.Idle? && next.sequence == |script|)
    ensures HasScript(ctx, c, next)
  {
    assert Follows(ctx, c, next, script);
  }

  lemma RespondFollows(ctx: Context, c: nat, client: Client, latency: nat, outcome: RequestOutcome)
    requires HasScript(ctx, c, client) && client.status.Waiting?
    ensures HasScript(ctx, c, Answered(ctx, c, client, latency, outcome))
  {
    var script :| Follows(ctx, c, client, script);
    var a := Attempt(client.status.startedAt, latency, outcome);
    LivesSnoc(ctx, c, NEWBORN, script, a);
    AnsweredShape(ctx, c, client, latency, outcome);
    FollowsOn(ctx, c, Answered(ctx, c, client, latency, outcome), script + [a]);
  }

  lemma QuietFollows(ctx: Context, c: nat, client: Client, client': Client)
    requires HasScript(ctx, c, client) && !client.status.Failed?
    requires client'.sequence == client.sequence && client'.log == client.log
    requires client'.status.Failed? ==> client'.status.error == WriterTask
    requires client'.status.Waiting? ==> MayIssue(ctx.plan, client'.status.startedAt, client'.sequence)
    ensures HasScript(ctx, c, client')
  {
    var script :| Follows(ctx, c, client, script);
    assert Follows(ctx, c, client', script);
  }

  lemma WaitingMayIssue(ctx: Context, c: nat, client: Client)
    requires HasScript(ctx, c, client) && client.status.Waiting?
    ensures MayIssue(ctx.plan, client.status.startedAt, client.sequence)
  {
    var script :| Follows(ctx, c, client, script);
  }

  lemma RespondScripts(ctx: Context, s: State, c: nat, outcome: RequestOutcome)
    requires Scripted(ctx, s) && Awaits(s, c) && s.clients[c].status.startedAt <= s.now
    ensures Scripted(ctx, Responded(ctx, s, c, outcome))
  {
    assert HasScript(ctx, c, s.clients[c]);
    RespondFollows(ctx, c, s.clients[c], s.now - s.clients[c].status.startedAt, outcome);
  }

  lemma QuietScripts(ctx: Context, s: State, s': State, c: nat)
    requires Scripted(ctx, s) && c < |s.clients| && !s.clients[c].status.Failed?
    requires |s'.clients| == |s.clients| && s'.clients == s.clients[c := s'.clients[c]]
    requires s'.clients[c].sequence == s.clients[c].sequence && s'.clients[c].log == s.clients[c].log
    requires s'.clients[c].status.Failed? ==> s'.clients[c].status.error == WriterTask
    requires s'.clients[c].status.Waiting? ==>
             MayIssue(ctx.plan, s'.clients[c].status.startedAt, s'.clients[c].sequence)
    ensures Scripted(ctx, s')
  {
    assert HasScript(ctx, c, s.clients[c]);
    QuietFollows(ctx, c, s.clients[c], s'.clients[c]);
  }

  lemma StepKeepsScripts(ctx: Context, s: State, step: Step)
    requires Scripted(ctx, s) && Enabled(ctx, s, step)
    ensures Scripted(ctx, Do(ctx, s, step))
  {
    var s' := Do(ctx, s, step);
    match step
    case Respond(c, outcome) => RespondScripts(ctx, s, c, outcome);
    case Issue(c) => QuietScripts(ctx, s, s', c);
    case Apply(c, _) =>
      assert HasScript(ctx, c, s.clients[c]);
      WaitingMayIssue(ctx, c, s.clients[c]);
      QuietScripts(ctx, s, s', c);
    case Stop(c) => QuietScripts(ctx, s, s', c);
    case Panic(c) => QuietScripts(ctx, s, s', c);
    case _ => assert s'.clients == s.clients;
  }

  lemma {:induction false} RunKeepsScripts(ctx: Context, s: State, steps: seq<Step>)
    requires Scripted(ctx, s) && Runs(ctx, s, steps)
    ensures Scripted(ctx, After(ctx, s, steps))
    decreases |steps|
  {
    if steps != [] {
      StepKeepsScripts(ctx, s, steps[0]);
      RunKeepsScripts(ctx, Do(ctx, s, steps[0]), steps[1..]);
    }
  }

  lemma StartIsScripted(ctx: Context, now: nat, before: Catalog)
    ensures Scripted(ctx, Start(ctx, now, before))
  {
    forall c: nat | c < ClientCount(ctx.plan) ensures HasScript(ctx, c, NEWBORN) {
      assert Follows(ctx, c, NEWBORN, []);
    }
  }

  /** In every interleaved run, a finished writer that did not panic returns
      what the sequential writer loop returns for some script of its own. */
  lemma WritersAreLoops(
    ctx: Context, now: nat, before: Catalog, steps: seq<Step>, c: nat) returns (script: seq<Attempt>)
    requires ctx.plan.Window? && Runs(ctx, Start(ctx, now, before), steps)
    requires var s := After(ctx, Start(ctx, now, before), steps);
             c < |s.clients| && Over(s.clients[c]) && !Panicked(s.clients[c])
    ensures script != [] && script[|script| - 1].startedAt >= ctx.plan.deadline
    ensures var s := After(ctx, Start(ctx, now, before), steps);
            ResultOf(s.clients[c]) == ResultOf(Lives(ctx, c, NEWBORN, script))
  {
    StartIsScripted(ctx, now, before);
    RunKeepsScripts(ctx, Start(ctx, now, before), steps);
    var client := After(ctx, Start(ctx, now, before), steps).clients[c];
    assert HasScript(ctx, c, client);
    var lived :| Follows(ctx, c, client, lived);
    var last := Attempt(ctx.plan.deadline, 0, Accepted);
    script := lived + [last];
    if client.status.Stopped? {
      LivesSnoc(ctx, c, NEWBORN, lived, last);
    } else {
      StoppedStays(ctx, c, NEWBORN, lived, last);
    }
  }

  lemma {:induction false} StoppedStays(ctx: Context, c: nat, client: Client, script: seq<Attempt>, a: Attempt)
    requires !Lives(ctx, c, client, script).status.Idle?
    ensures Lives(ctx, c, client, script + [a]) == Lives(ctx, c, client, script)
    decreases |script|
  {
    if script != [] && client.status.Idle? && MayIssue(ctx.plan, script[0].startedAt, client.sequence) {
      assert (script + [a])[1..] == script[1..] + [a];
      StoppedStays(ctx, c, Answered(ctx, c, client, script[0].latency, script[0].outcome), script[1..], a);
    }
  }
}
