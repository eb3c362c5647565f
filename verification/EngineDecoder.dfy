/** Decoding the events a child engine prints among its other output. Bytes
    are characters here; `parse` stands for the JSON decoder of one payload. */
module EngineDecoder {
  import opened Ordering
  import opened EngineEvents

  const PREFIX: string := "CATALOG_BENCH_EVENT "
  const MAXIMUM_EVENT_BYTES: nat := 16 * 1024
  const MAXIMUM_STDOUT_BYTES: nat := 1024 * 1024

  type Parser = string -> Option<Event>

  predicate StartsWith(s: string, prefix: string) {
    |prefix| <= |s| && s[..|prefix|] == prefix
  }

  datatype Decoding = Decoding(line: string, acceptor: Acceptor, observed: nat) {
    predicate Failed() { acceptor.failure.Some? }
  }

  const START := Decoding("", FRESH, 0)

  function FinishLine(parse: Parser, d: Decoding): Decoding {
    if d.Failed() || !StartsWith(d.line, PREFIX) then d
    else
      match parse(d.line[|PREFIX|..])
      case None => d.(acceptor := FailWith(d.acceptor, MalformedEvent))
      case Some(e) => d.(acceptor := Accept(d.acceptor, e))
  }

  /** One byte; the second result tells that the rest of the chunk is dropped. */
  function PushByte(parse: Parser, d: Decoding, byte: char): (Decoding, bool) {
    if byte == '\n' then (FinishLine(parse, d).(line := ""), false)
    else if |d.line| < MAXIMUM_EVENT_BYTES then (d.(line := d.line + [byte]), false)
    else (d.(acceptor := FailWith(d.acceptor, EventLineTooLarge)), true)
  }

  function PushBytes(parse: Parser, d: Decoding, bytes: string): Decoding
    decreases |bytes|
  {
    if bytes == "" then d
    else
      var (next, stop) := PushByte(parse, d, bytes[0]);
      if stop then next else PushBytes(parse, next, bytes[1..])
  }

  function Observed(d: Decoding, count: nat): Decoding {
    d.(observed := if d.observed + count > U64_MAX then U64_MAX else d.observed + count)
  }

  function Push(parse: Parser, d: Decoding, bytes: string): Decoding {
    var seen := Observed(d, |bytes|);
    if seen.observed > MAXIMUM_STDOUT_BYTES then seen.(acceptor := FailWith(d.acceptor, StdoutTooLarge))
    else if d.Failed() then seen
    else PushBytes(parse, seen, bytes)
  }

  function PushAll(parse: Parser, d: Decoding, chunks: seq<string>): Decoding
    decreases |chunks|
  {
    if chunks == [] then d else PushAll(parse, Push(parse, d, chunks[0]), chunks[1..])
  }

  const READ_BUFFER: nat := 8 * 1024

  /** The reader pushes what each read returned and stops at the first failure. */
  function Drained(parse: Parser, d: Decoding, chunks: seq<string>): Decoding
    decreases |chunks|
  {
    if chunks == [] || Push(parse, d, chunks[0]).Failed()
    then (if chunks == [] then d else Push(parse, d, chunks[0]))
    else Drained(parse, Push(parse, d, chunks[0]), chunks[1..])
  }

  datatype Capture = Capture(events: seq<Event>, failure: Option<ProtocolFailure>, observed: nat) {
    predicate CleanupAuthorized() { FixturePreflight(true) in events }
    predicate FixtureCollision() { failure.None? && events != [] && events[|events| - 1] == FixturePreflight(false) }
    predicate Completed() { failure.None? && events != [] && events[|events| - 1].Completed? }
    predicate EngineFailed() { failure.None? && events != [] && events[|events| - 1].Failed? }
  }

  function Finish(parse: Parser, d: Decoding): Capture {
    var ended := if !d.Failed() && d.line != "" then FinishLine(parse, d) else d;
    var closed := Close(ended.acceptor);
    Capture(closed.events, closed.failure, d.observed)
  }

  // ---------- the mutable decoder ----------

  class EventDecoder {
    const parse: Parser
    var line: string
    var events: seq<Event>
    var failure: Option<ProtocolFailure>
    var observed: nat
    var nextStage: nat
    var terminal: bool

    ghost function View(): Decoding
      reads this
    {
      Decoding(line, Acceptor(events, failure, nextStage, terminal), observed)
    }

    constructor (parse: Parser)
      ensures this.parse == parse && View() == START
    {
      this.parse := parse;
      line, events, failure, observed, nextStage, terminal := "", [], None, 0, 0, false;
    }

    method Fail(kind: ProtocolFailure)
      modifies this`failure
      ensures View() == old(View()).(acceptor := FailWith(old(View()).acceptor, kind))
    {
      if failure.None? { failure := Some(kind); }
    }

    method AcceptEvent(event: Event)
      modifies this`failure, this`terminal, this`nextStage, this`events
      ensures View() == old(View()).(acceptor := Accept(old(View()).acceptor, event))
    {
      if terminal { Fail(PostTerminal); return; }
      if |events| >= MAXIMUM_EVENTS { Fail(TooManyEvents); return; }
      if event.Failed? || event.Completed? {
        AcceptEnd(event);
      } else {
        AcceptStage(event);
      }
    }

    /** The stage that must succeed or fail next. */
    function Expected(): Option<EngineStage>
      reads this
    {
      if nextStage < STAGES then Some(ORDER[nextStage]) else None
    }

    /** An event that ends the run. */
    method AcceptEnd(event: Event)
      requires (event.Failed? || event.Completed?) && !terminal && |events| < MAXIMUM_EVENTS
      modifies this`failure, this`terminal, this`events
      ensures View() == old(View()).(acceptor := Accept(old(View()).acceptor, event))
    {
      if event.Failed? && Expected() != Some(event.stage) { Fail(OutOfOrder); return; }
      if event.Completed? && nextStage != STAGES { Fail(OutOfOrder); return; }
      terminal := true;
      events := events + [event];
    }

    /** An event that clears a stage. */
    method AcceptStage(event: Event)
      requires SuccessfulStage(event).Some? && !terminal && |events| < MAXIMUM_EVENTS
      modifies this`failure, this`terminal, this`nextStage, this`events
      ensures View() == old(View()).(acceptor := Accept(old(View()).acceptor, event))
    {
      if SuccessfulStage(event) != Expected() { Fail(OutOfOrder); return; }
      nextStage := nextStage + 1;
      terminal := event == FixturePreflight(false);
      events := events + [event];
    }

    method EndLine()
      modifies this`failure, this`terminal, this`nextStage, this`events
      ensures View() == FinishLine(parse, old(View()))
    {
      if failure.Some? || !StartsWith(line, PREFIX) { return; }
      var event := parse(line[|PREFIX|..]);
      if event.None? { Fail(MalformedEvent); return; }
      AcceptEvent(event.value);
    }

    method PushChunk(bytes: string)
      modifies this
      ensures View() == Push(parse, old(View()), bytes)
    {
      observed := if observed + |bytes| > U64_MAX then U64_MAX else observed + |bytes|;
      if observed > MAXIMUM_STDOUT_BYTES { Fail(StdoutTooLarge); return; }
      if failure.Some? { return; }
      ghost var start := View();
      assert bytes[0..] == bytes;
      for i := 0 to |bytes|
        invariant PushBytes(parse, start, bytes) == PushBytes(parse, View(), bytes[i..])
      {
        assert bytes[i..][1..] == bytes[i + 1..];
        if bytes[i] == '\n' {
          EndLine();
          line := "";
        } else if |line| < MAXIMUM_EVENT_BYTES {
          line := line + [bytes[i]];
        } else {
          Fail(EventLineTooLarge);
          return;
        }
      }
    }

    method DrainStdout(chunks: seq<string>)
      modifies this
      ensures View() == Drained(parse, old(View()), chunks)
    {
      ghost var start := View();
      assert chunks[0..] == chunks;
      for i := 0 to |chunks|
        invariant Drained(parse, start, chunks) == Drained(parse, View(), chunks[i..])
      {
        assert chunks[i..][1..] == chunks[i + 1..];
        PushChunk(chunks[i]);
        if failure.Some? { return; }
      }
    }

    method FinishCapture() returns (capture: Capture)
      modifies this
      ensures capture == Finish(parse, old(View()))
    {
      if failure.None? && line != "" { EndLine(); }
      if failure.None? && !terminal { Fail(MissingTerminal); }
      return Capture(events, failure, observed);
    }
  }

  // ---------- how the output is cut into chunks ----------

  /** Equal in everything a capture can show. */
  ghost predicate Alike(a: Decoding, b: Decoding) {
    a.acceptor == b.acceptor && a.observed == b.observed && (a.Failed() || a.line == b.line)
  }

  lemma {:induction false} FailedStays(parse: Parser, d: Decoding, bytes: string)
    requires d.Failed()
    ensures PushBytes(parse, d, bytes).acceptor == d.acceptor && PushBytes(parse, d, bytes).observed == d.observed
    decreases |bytes|
  {
    if bytes != "" {
      var (next, stop) := PushByte(parse, d, bytes[0]);
      if !stop { FailedStays(parse, next, bytes[1..]); }
    }
  }

  lemma {:induction false} ObservedStays(parse: Parser, d: Decoding, bytes: string)
    ensures PushBytes(parse, d, bytes).observed == d.observed
    decreases |bytes|
  {
    if bytes != "" {
      var (next, stop) := PushByte(parse, d, bytes[0]);
      if !stop { ObservedStays(parse, next, bytes[1..]); }
    }
  }

  /** The byte count does not influence how bytes are decoded. */
  lemma {:induction false} CountIsIndependent(parse: Parser, d: Decoding, bytes: string, n: nat)
    ensures PushBytes(parse, d.(observed := n), bytes) == PushBytes(parse, d, bytes).(observed := n)
    decreases |bytes|
  {
    if bytes != "" {
      var (next, stop) := PushByte(parse, d, bytes[0]);
      assert PushByte(parse, d.(observed := n), bytes[0]) == (next.(observed := n), stop);
      if !stop { CountIsIndependent(parse, next, bytes[1..], n); }
    }
  }

  lemma {:induction false} BytesSplit(parse: Parser, d: Decoding, a: string, b: string)
    ensures var m := PushBytes(parse, d, a);
            Alike(PushBytes(parse, d, a + b), if m.Failed() then m else PushBytes(parse, m, b))
    decreases |a|
  {
    if a == "" {
      assert a + b == b;
      if d.Failed() { FailedStays(parse, d, b); }
    } else {
      assert (a + b)[0] == a[0] && (a + b)[1..] == a[1..] + b;
      var (next, stop) := PushByte(parse, d, a[0]);
      if !stop { BytesSplit(parse, next, a[1..], b); }
    }
  }

  lemma AlikeFinish(parse: Parser, a: Decoding, b: Decoding)
    requires Alike(a, b)
    ensures Finish(parse, a) == Finish(parse, b)
  {
  }

  lemma AlikePush(parse: Parser, a: Decoding, b: Decoding, bytes: string)
    requires Alike(a, b)
    ensures Alike(Push(parse, a, bytes), Push(parse, b, bytes))
  {
  }

  lemma {:induction false} AlikePushAll(parse: Parser, a: Decoding, b: Decoding, chunks: seq<string>)
    requires Alike(a, b)
    ensures Alike(PushAll(parse, a, chunks), PushAll(parse, b, chunks))
    decreases |chunks|
  {
    if chunks != [] {
      AlikePush(parse, a, b, chunks[0]);
      AlikePushAll(parse, Push(parse, a, chunks[0]), Push(parse, b, chunks[0]), chunks[1..]);
    }
  }

  lemma ChunksSplit(parse: Parser, d: Decoding, a: string, b: string)
    requires d.observed + |a| + |b| <= MAXIMUM_STDOUT_BYTES
    ensures Alike(Push(parse, Push(parse, d, a), b), Push(parse, d, a + b))
  {
    var n := d.observed + |a| + |b|;
    if !d.Failed() {
      var m := PushBytes(parse, d, a);
      BytesSplit(parse, d, a, b);
      CountIsIndependent(parse, d, a, d.observed + |a|);
      CountIsIndependent(parse, d, a + b, n);
      ObservedStays(parse, d, a);
      ObservedStays(parse, d, a + b);
      if !m.Failed() { CountIsIndependent(parse, m, b, n); }
    }
  }

  lemma {:induction false} PushedTogether(parse: Parser, d: Decoding, chunks: seq<string>)
    requires chunks != [] && d.observed + |Flatten(chunks)| <= MAXIMUM_STDOUT_BYTES
    ensures Alike(PushAll(parse, d, chunks), Push(parse, d, Flatten(chunks)))
    decreases |chunks|
  {
    if |chunks| == 1 {
      assert Flatten(chunks[1..]) == "";
      assert Flatten(chunks) == chunks[0];
      assert PushAll(parse, d, chunks) == PushAll(parse, Push(parse, d, chunks[0]), []);
    } else {
      var d' := Push(parse, d, chunks[0]);
      assert d'.observed == d.observed + |chunks[0]| by {
        ObservedStays(parse, Observed(d, |chunks[0]|), chunks[0]);
      }
      PushedTogether(parse, d', chunks[1..]);
      ChunksSplit(parse, d, chunks[0], Flatten(chunks[1..]));
    }
  }

  /** Up to the output limit, the capture does not depend on how the pipe cut
      the output into chunks. */
  lemma ChunkingIsIrrelevant(parse: Parser, chunks: seq<string>)
    requires chunks != [] && |Flatten(chunks)| <= MAXIMUM_STDOUT_BYTES
    ensures Finish(parse, PushAll(parse, START, chunks)) == Finish(parse, Push(parse, START, Flatten(chunks)))
  {
    PushedTogether(parse, START, chunks);
    AlikeFinish(parse, PushAll(parse, START, chunks), Push(parse, START, Flatten(chunks)));
  }

  lemma FittingChunk(parse: Parser, d: Decoding, bytes: string)
    requires !d.Failed() && d.observed + |bytes| <= MAXIMUM_STDOUT_BYTES
    ensures Push(parse, d, bytes) == PushBytes(parse, d, bytes).(observed := d.observed + |bytes|)
  {
    var n := d.observed + |bytes|;
    var seen := d.(observed := n);
    CountIsIndependent(parse, d, bytes, n);
    assert Observed(d, |bytes|) == seen && n <= MAXIMUM_STDOUT_BYTES;
  }

  // ---------- printing and decoding ----------

  /** A line of child output: engine chatter or an event. */
  datatype Line = Chatter(text: string) | Printed(event: Event)

  type Encoder = Event -> string

  /** The printed events read back from their one-line encodings. */
  predicate Codec(encode: Encoder, parse: Parser, lines: seq<Line>) {
    forall i :: 0 <= i < |lines| && lines[i].Printed? ==> Decodes(encode, parse, lines[i].event)
  }

  predicate Decodes(encode: Encoder, parse: Parser, e: Event) {
    parse(encode(e)) == Some(e) && '\n' !in encode(e)
  }

  function TextOf(encode: Encoder, l: Line): string {
    match l
    case Chatter(text) => text
    case Printed(e) => PREFIX + encode(e)
  }

  predicate Printable(encode: Encoder, l: Line) {
    && |TextOf(encode, l)| <= MAXIMUM_EVENT_BYTES
    && (l.Chatter? ==> '\n' !in l.text && !StartsWith(l.text, PREFIX))
  }

  function Output(encode: Encoder, lines: seq<Line>): string {
    if lines == [] then "" else Output(encode, lines[..|lines| - 1]) + (TextOf(encode, lines[|lines| - 1]) + "\n")
  }

  function EventsIn(lines: seq<Line>): seq<Event> {
    if lines == [] then []
    else EventsIn(lines[..|lines| - 1]) + (if lines[|lines| - 1].Printed? then [lines[|lines| - 1].event] else [])
  }

  /** A newline-free text that fits is collected byte by byte. */
  lemma {:induction false} CollectsText(parse: Parser, d: Decoding, text: string)
    requires '\n' !in text && |d.line| + |text| <= MAXIMUM_EVENT_BYTES
    ensures PushBytes(parse, d, text) == d.(line := d.line + text)
    decreases |text|
  {
    if text == "" {
      assert d.line + text == d.line;
    } else {
      assert text[0] in text;
      var next := d.(line := d.line + [text[0]]);
      CollectsText(parse, next, text[1..]);
      assert d.line + [text[0]] + text[1..] == d.line + text;
    }
  }

  lemma EndsLine(parse: Parser, d: Decoding, text: string)
    requires !d.Failed() && d.line == "" && '\n' !in text && |text| <= MAXIMUM_EVENT_BYTES
    ensures Alike(PushBytes(parse, d, text + "\n"), FinishLine(parse, d.(line := text)).(line := ""))
  {
    CollectsText(parse, d, text);
    assert "" + text == text;
    BytesSplit(parse, d, text, "\n");
    var m := d.(line := text);
    assert "\n"[1..] == "";
    assert PushBytes(parse, m, "\n") == PushBytes(parse, FinishLine(parse, m).(line := ""), "");
  }

  lemma LineIsFed(encode: Encoder, parse: Parser, d: Decoding, l: Line)
    requires (l.Printed? ==> Decodes(encode, parse, l.event)) && Printable(encode, l) && !d.Failed() && d.line == ""
    ensures var d' := PushBytes(parse, d, TextOf(encode, l) + "\n");
            && d'.acceptor == (if l.Printed? then Feed(d.acceptor, l.event) else d.acceptor)
            && (!d'.Failed() ==> d'.line == "")
  {
    var text := TextOf(encode, l);
    if l.Printed? {
      assert StartsWith(text, PREFIX) && text[|PREFIX|..] == encode(l.event);
      NoNewline(encode(l.event));
    }
    EndsLine(parse, d, text);
  }

  lemma NoNewline(payload: string)
    requires '\n' !in payload
    ensures '\n' !in PREFIX + payload
  {
  }

  lemma {:induction false} OutputIsFed(encode: Encoder, parse: Parser, lines: seq<Line>)
    requires Codec(encode, parse, lines) && forall i :: 0 <= i < |lines| ==> Printable(encode, lines[i])
    ensures var d := PushBytes(parse, START, Output(encode, lines));
            d.acceptor == FeedAll(FRESH, EventsIn(lines)) && (!d.Failed() ==> d.line == "")
  {
    if lines != [] {
      var front, l := lines[..|lines| - 1], lines[|lines| - 1];
      OutputIsFed(encode, parse, front);
      var d := PushBytes(parse, START, Output(encode, front));
      BytesSplit(parse, START, Output(encode, front), TextOf(encode, l) + "\n");
      if !d.Failed() { LineIsFed(encode, parse, d, l); }
      LastEvent(EventsIn(front), l);
    }
  }

  lemma LastEvent(events: seq<Event>, l: Line)
    ensures FeedAll(FRESH, events + (if l.Printed? then [l.event] else []))
         == if l.Printed? then Feed(FeedAll(FRESH, events), l.event) else FeedAll(FRESH, events)
  {
    if l.Printed? {
      assert (events + [l.event])[..|events|] == events;
    } else {
      assert events + [] == events;
    }
  }

  /** Whatever chatter surrounds the events and however the pipe cuts the
      output, the capture is what the automaton makes of the printed events. */
  lemma CaptureIsTheTrace(encode: Encoder, parse: Parser, lines: seq<Line>, chunks: seq<string>)
    requires Codec(encode, parse, lines) && forall i :: 0 <= i < |lines| ==> Printable(encode, lines[i])
    requires chunks != [] && Flatten(chunks) == Output(encode, lines) && |Flatten(chunks)| <= MAXIMUM_STDOUT_BYTES
    ensures var capture, closed := Finish(parse, PushAll(parse, START, chunks)), Close(FeedAll(FRESH, EventsIn(lines)));
            && capture.events == closed.events && capture.failure == closed.failure
            && (capture.failure.None? <==> WellFormedTrace(EventsIn(lines)))
            && (capture.failure.None? ==> capture.events == EventsIn(lines))
  {
    var all := Flatten(chunks);
    ChunkingIsIrrelevant(parse, chunks);
    OutputIsFed(encode, parse, lines);
    FittingChunk(parse, START, all);
    AcceptsExactlyTheTraces(EventsIn(lines));
  }

  // ---------- output beyond the limit ----------

  /** `chunks` is one way the pipe may hand over `text`: each read returns
      between one byte and a full buffer. */
  ghost predicate Cuts(chunks: seq<string>, text: string) {
    Flatten(chunks) == text && forall i :: 0 <= i < |chunks| ==> 0 < |chunks[i]| <= READ_BUFFER
  }

  function Captured(parse: Parser, chunks: seq<string>): Capture {
    Finish(parse, Drained(parse, START, chunks))
  }

  function Kept(parse: Parser, chunks: seq<string>): seq<Event> { Captured(parse, chunks).events }

  /** The events decoded from a text, without the output limit. */
  function Decoded(parse: Parser, text: string): seq<Event> { PushBytes(parse, START, text).acceptor.events }

  lemma {:induction false} FailedPushAll(parse: Parser, d: Decoding, chunks: seq<string>)
    requires d.Failed()
    ensures PushAll(parse, d, chunks).acceptor == d.acceptor
    decreases |chunks|
  {
    if chunks != [] { FailedPushAll(parse, Push(parse, d, chunks[0]), chunks[1..]); }
  }

  /** Reading on after a failure would change nothing but the byte count. */
  lemma {:induction false} DrainedIsPushed(parse: Parser, d: Decoding, chunks: seq<string>)
    ensures Drained(parse, d, chunks).acceptor == PushAll(parse, d, chunks).acceptor
    ensures !Drained(parse, d, chunks).Failed() ==> Drained(parse, d, chunks) == PushAll(parse, d, chunks)
    decreases |chunks|
  {
    if chunks != [] {
      var next := Push(parse, d, chunks[0]);
      if next.Failed() { FailedPushAll(parse, next, chunks[1..]); } else { DrainedIsPushed(parse, next, chunks[1..]); }
    }
  }

  lemma {:induction false} PushAllAppend(parse: Parser, d: Decoding, a: seq<string>, b: seq<string>)
    ensures PushAll(parse, d, a + b) == PushAll(parse, PushAll(parse, d, a), b)
    decreases |a|
  {
    if a == [] {
      assert a + b == b;
    } else {
      assert (a + b)[0] == a[0] && (a + b)[1..] == a[1..] + b;
      PushAllAppend(parse, Push(parse, d, a[0]), a[1..], b);
    }
  }

  lemma FittingReads(parse: Parser, chunks: seq<string>)
    requires |Flatten(chunks)| <= MAXIMUM_STDOUT_BYTES
    ensures PushAll(parse, START, chunks).acceptor == PushBytes(parse, START, Flatten(chunks)).acceptor
    ensures PushAll(parse, START, chunks).observed == |Flatten(chunks)|
  {
    if chunks != [] {
      PushedTogether(parse, START, chunks);
      FittingChunk(parse, START, Flatten(chunks));
    }
  }

  /** The read that crosses the limit is dropped whole. */
  lemma KeptUpTo(parse: Parser, chunks: seq<string>, k: nat)
    requires k < |chunks|
    requires |Flatten(chunks[..k])| <= MAXIMUM_STDOUT_BYTES < |Flatten(chunks[..k])| + |chunks[k]|
    ensures Kept(parse, chunks) == Decoded(parse, Flatten(chunks[..k])) && Captured(parse, chunks).failure.Some?
  {
    var m := PushAll(parse, START, chunks[..k]);
    FittingReads(parse, chunks[..k]);
    assert chunks == chunks[..k] + chunks[k..] && chunks[k..][0] == chunks[k];
    PushAllAppend(parse, START, chunks[..k], chunks[k..]);
    FailedPushAll(parse, Push(parse, m, chunks[k]), chunks[k..][1..]);
    DrainedIsPushed(parse, START, chunks);
  }

  lemma NextRead(chunks: seq<string>, k: nat)
    requires k < |chunks|
    ensures Flatten(chunks[..k + 1]) == Flatten(chunks[..k]) + chunks[k]
  {
    assert chunks[..k + 1] == chunks[..k] + [chunks[k]];
    FlattenAppend(chunks[..k], [chunks[k]]);
    assert Flatten([chunks[k]]) == chunks[k] + Flatten([]);
  }

  lemma {:induction false} CrossingRead(chunks: seq<string>, n: nat) returns (k: nat)
    requires n <= |chunks| && |Flatten(chunks[..n])| > MAXIMUM_STDOUT_BYTES
    ensures k < n && |Flatten(chunks[..k])| <= MAXIMUM_STDOUT_BYTES < |Flatten(chunks[..k])| + |chunks[k]|
  {
    NextRead(chunks, n - 1);
    if |Flatten(chunks[..n - 1])| > MAXIMUM_STDOUT_BYTES { k := CrossingRead(chunks, n - 1); } else { k := n - 1; }
  }

  lemma FlattenPrefix(chunks: seq<string>, k: nat)
    requires k <= |chunks|
    ensures |Flatten(chunks[..k])| <= |Flatten(chunks)| &&
            Flatten(chunks[..k]) == Flatten(chunks)[..|Flatten(chunks[..k])|]
  {
    assert chunks == chunks[..k] + chunks[k..];
    FlattenAppend(chunks[..k], chunks[k..]);
  }

  /** However a long text is cut, the reader keeps what one of the last 8192
      prefixes within the limit decodes to. */
  lemma KeptIsAPrefix(parse: Parser, chunks: seq<string>, text: string) returns (length: nat)
    requires Cuts(chunks, text) && |text| > MAXIMUM_STDOUT_BYTES
    ensures MAXIMUM_STDOUT_BYTES - READ_BUFFER < length <= MAXIMUM_STDOUT_BYTES
    ensures Kept(parse, chunks) == Decoded(parse, text[..length])
  {
    assert chunks[..|chunks|] == chunks;
    var k := CrossingRead(chunks, |chunks|);
    length := |Flatten(chunks[..k])|;
    FlattenPrefix(chunks, k);
    KeptUpTo(parse, chunks, k);
  }

  // Every such prefix is attained.

  function Pieces(text: string): seq<string>
    decreases |text|
  {
    if text == "" then []
    else if |text| <= READ_BUFFER then [text]
    else [text[..READ_BUFFER]] + Pieces(text[READ_BUFFER..])
  }

  lemma {:induction false} PiecesCut(text: string)
    ensures Cuts(Pieces(text), text)
    decreases |text|
  {
    if |text| > READ_BUFFER {
      var rest := text[READ_BUFFER..];
      PiecesCut(rest);
      assert ([text[..READ_BUFFER]] + Pieces(rest))[1..] == Pieces(rest);
      assert text == text[..READ_BUFFER] + rest;
    } else if text != "" {
      assert Flatten([text]) == text + Flatten([]);
    }
  }

  function CutAt(text: string, length: nat): seq<string>
    requires length <= MAXIMUM_STDOUT_BYTES < |text|
  {
    Pieces(text[..length]) + ([text[length..MAXIMUM_STDOUT_BYTES + 1]] + Pieces(text[MAXIMUM_STDOUT_BYTES + 1..]))
  }

  lemma CutsJoin(a: seq<string>, x: string, b: seq<string>, y: string)
    requires Cuts(a, x) && Cuts(b, y)
    ensures Cuts(a + b, x + y)
  {
    FlattenAppend(a, b);
  }

  lemma CutAtCuts(parse: Parser, text: string, length: nat)
    requires MAXIMUM_STDOUT_BYTES - READ_BUFFER < length <= MAXIMUM_STDOUT_BYTES < |text|
    ensures Cuts(CutAt(text, length), text)
    ensures Kept(parse, CutAt(text, length)) == Decoded(parse, text[..length])
  {
    var limit := MAXIMUM_STDOUT_BYTES + 1;
    var first, crossing, rest := text[..length], text[length..limit], text[limit..];
    PiecesCut(first);
    PiecesCut(rest);
    assert Flatten([crossing]) == crossing + Flatten([]);
    CutsJoin([crossing], crossing, Pieces(rest), rest);
    CutsJoin(Pieces(first), first, [crossing] + Pieces(rest), crossing + rest);
    assert first + (crossing + rest) == text;
    var chunks, k := CutAt(text, length), |Pieces(first)|;
    assert chunks[..k] == Pieces(first) && chunks[k] == crossing;
    KeptUpTo(parse, chunks, k);
  }

  lemma ByteExtends(parse: Parser, d: Decoding, byte: char)
    ensures d.acceptor.events <= PushByte(parse, d, byte).0.acceptor.events
  {
    if byte == '\n' && !d.Failed() && StartsWith(d.line, PREFIX) && parse(d.line[|PREFIX|..]).Some? {
      FeedKeeps(d.acceptor, parse(d.line[|PREFIX|..]).value);
    }
  }

  lemma {:induction false} BytesExtend(parse: Parser, d: Decoding, bytes: string)
    ensures d.acceptor.events <= PushBytes(parse, d, bytes).acceptor.events
    decreases |bytes|
  {
    if bytes != "" {
      var (next, stop) := PushByte(parse, d, bytes[0]);
      ByteExtends(parse, d, bytes[0]);
      if !stop { BytesExtend(parse, next, bytes[1..]); }
    }
  }

  lemma DecodedGrows(parse: Parser, text: string, a: nat, b: nat)
    requires a <= b <= |text|
    ensures Decoded(parse, text[..a]) <= Decoded(parse, text[..b])
  {
    assert text[..b] == text[..a] + text[a..b];
    BytesSplit(parse, START, text[..a], text[a..b]);
    BytesExtend(parse, PushBytes(parse, START, text[..a]), text[a..b]);
  }

  /** Every way to cut `text` keeps the same events. */
  ghost predicate CutsAgree(parse: Parser, text: string) {
    forall a, b :: Cuts(a, text) && Cuts(b, text) ==> Kept(parse, a) == Kept(parse, b)
  }

  /** Nothing is decoded from the last buffer before the limit. */
  predicate Quiet(parse: Parser, text: string)
    requires |text| > MAXIMUM_STDOUT_BYTES
  {
    Decoded(parse, text[..MAXIMUM_STDOUT_BYTES - READ_BUFFER + 1]) == Decoded(parse, text[..MAXIMUM_STDOUT_BYTES])
  }

  lemma ShortCutsAgree(parse: Parser, text: string, chunks: seq<string>)
    requires Cuts(chunks, text) && |text| <= MAXIMUM_STDOUT_BYTES
    ensures Kept(parse, chunks) == Finish(parse, Push(parse, START, text)).events
  {
    DrainedIsPushed(parse, START, chunks);
    if chunks == [] {
      assert text == "";
    } else {
      PushedTogether(parse, START, chunks);
      AlikeFinish(parse, PushAll(parse, START, chunks), Push(parse, START, text));
    }
  }

  lemma LongCutsAgree(parse: Parser, text: string, chunks: seq<string>)
    requires Cuts(chunks, text) && |text| > MAXIMUM_STDOUT_BYTES && Quiet(parse, text)
    ensures Kept(parse, chunks) == Decoded(parse, text[..MAXIMUM_STDOUT_BYTES])
  {
    var length := KeptIsAPrefix(parse, chunks, text);
    DecodedGrows(parse, text, MAXIMUM_STDOUT_BYTES - READ_BUFFER + 1, length);
    DecodedGrows(parse, text, length, MAXIMUM_STDOUT_BYTES);
  }

  /** The events kept do not depend on how the pipe cut the output if and only
      if the output fits the limit, or no event is decoded from the last buffer
      before the limit. */
  lemma CutsAgreeExactly(parse: Parser, text: string)
    ensures CutsAgree(parse, text) <==> |text| <= MAXIMUM_STDOUT_BYTES || Quiet(parse, text)
  {
    if |text| <= MAXIMUM_STDOUT_BYTES {
      forall a | Cuts(a, text) ensures Kept(parse, a) == Finish(parse, Push(parse, START, text)).events {
        ShortCutsAgree(parse, text, a);
      }
    } else if Quiet(parse, text) {
      forall a | Cuts(a, text) ensures Kept(parse, a) == Decoded(parse, text[..MAXIMUM_STDOUT_BYTES]) {
        LongCutsAgree(parse, text, a);
      }
    } else {
      CutAtCuts(parse, text, MAXIMUM_STDOUT_BYTES - READ_BUFFER + 1);
      CutAtCuts(parse, text, MAXIMUM_STDOUT_BYTES);
    }
  }

  // Outputs whose cutting decides over cleanup.

  function Silence(n: nat): seq<Line> { seq(n, i => Chatter("")) }

  function EventLines(events: seq<Event>): (lines: seq<Line>)
    ensures |lines| == |events|
  {
    seq(|events|, i requires 0 <= i < |events| => Printed(events[i]))
  }

  /** A child that prints `events` after `n` empty lines. */
  function Session(n: nat, events: seq<Event>): seq<Line> { Silence(n) + EventLines(events) }

  lemma LastLine(encode: Encoder, lines: seq<Line>, l: Line)
    ensures Output(encode, lines + [l]) == Output(encode, lines) + (TextOf(encode, l) + "\n")
  {
    assert (lines + [l])[..|lines|] == lines;
  }

  lemma LastLineEvent(lines: seq<Line>, l: Line)
    ensures EventsIn(lines + [l]) == EventsIn(lines) + if l.Printed? then [l.event] else []
  {
    assert (lines + [l])[..|lines|] == lines;
  }

  lemma {:induction false} SilenceIsShort(encode: Encoder, n: nat)
    ensures |Output(encode, Silence(n))| == n && EventsIn(Silence(n)) == []
  {
    if n > 0 {
      SilenceIsShort(encode, n - 1);
      OneMoreLine(encode, n - 1);
    }
  }

  lemma OneMoreLine(encode: Encoder, n: nat)
    ensures |Output(encode, Silence(n + 1))| == |Output(encode, Silence(n))| + 1
    ensures EventsIn(Silence(n + 1)) == EventsIn(Silence(n))
  {
    assert Silence(n + 1) == Silence(n) + [Chatter("")];
    LastLine(encode, Silence(n), Chatter(""));
    LastLineEvent(Silence(n), Chatter(""));
  }

  /** The bytes of the event lines of a session. */
  function Bytes(encode: Encoder, events: seq<Event>): nat {
    if events == [] then 0
    else Bytes(encode, events[..|events| - 1]) + |PREFIX| + |encode(events[|events| - 1])| + 1
  }

  lemma SessionShape(n: nat, events: seq<Event>)
    requires events != []
    ensures Session(n, events) == Session(n, events[..|events| - 1]) + [Printed(events[|events| - 1])]
  {
    var k := |events| - 1;
    assert EventLines(events) == EventLines(events[..k]) + [Printed(events[k])];
  }

  lemma SessionNext(encode: Encoder, n: nat, events: seq<Event>)
    requires events != []
    ensures var front, last := Session(n, events[..|events| - 1]), Printed(events[|events| - 1]);
            Output(encode, Session(n, events)) == Output(encode, front) + (TextOf(encode, last) + "\n")
  {
    SessionShape(n, events);
    LastLine(encode, Session(n, events[..|events| - 1]), Printed(events[|events| - 1]));
  }

  lemma {:induction false} SessionEvents(encode: Encoder, n: nat, events: seq<Event>)
    ensures EventsIn(Session(n, events)) == events
  {
    if events == [] {
      assert Session(n, []) == Silence(n);
      SilenceIsShort(encode, n);
    } else {
      SessionEvents(encode, n, events[..|events| - 1]);
      EventsNext(n, events);
    }
  }

  lemma EventsNext(n: nat, events: seq<Event>)
    requires events != [] && EventsIn(Session(n, events[..|events| - 1])) == events[..|events| - 1]
    ensures EventsIn(Session(n, events)) == events
  {
    var front, last := events[..|events| - 1], events[|events| - 1];
    SessionShape(n, events);
    LastLineEvent(Session(n, front), Printed(last));
    assert events == front + [last];
  }

  lemma {:induction false} SessionBytes(encode: Encoder, n: nat, events: seq<Event>)
    ensures |Output(encode, Session(n, events))| == n + Bytes(encode, events)
  {
    if events == [] {
      assert Session(n, []) == Silence(n);
      SilenceIsShort(encode, n);
    } else {
      SessionBytes(encode, n, events[..|events| - 1]);
      SessionNext(encode, n, events);
    }
  }

  lemma Regroup(a: string, b: string, c: string)
    ensures (a + b) + c == a + (b + c)
  {
  }

  /** A longer session goes on where a shorter one stopped. */
  lemma {:induction false} SessionGoesOn(encode: Encoder, n: nat, events: seq<Event>, k: nat) returns (rest: string)
    requires k <= |events|
    ensures Output(encode, Session(n, events)) == Output(encode, Session(n, events[..k])) + rest
    decreases |events|
  {
    if k == |events| {
      rest := "";
      assert events[..k] == events;
    } else {
      var front, last := events[..|events| - 1], TextOf(encode, Printed(events[|events| - 1])) + "\n";
      var more := SessionGoesOn(encode, n, front, k);
      rest := more + last;
      SessionNext(encode, n, events);
      assert front[..k] == events[..k];
      Regroup(Output(encode, Session(n, events[..k])), more, last);
    }
  }

  /** The codec serves these events: each fits a line and reads back. */
  predicate Serves(encode: Encoder, parse: Parser, events: seq<Event>) {
    forall i :: 0 <= i < |events| ==> ServesOne(encode, parse, events[i])
  }

  predicate ServesOne(encode: Encoder, parse: Parser, e: Event) {
    Decodes(encode, parse, e) && Printable(encode, Printed(e))
  }

  lemma SessionIsLegal(encode: Encoder, parse: Parser, n: nat, events: seq<Event>)
    requires Serves(encode, parse, events)
    ensures Codec(encode, parse, Session(n, events))
    ensures forall i :: 0 <= i < |Session(n, events)| ==> Printable(encode, Session(n, events)[i])
  {
    var lines := Session(n, events);
    forall i | 0 <= i < |lines|
      ensures Printable(encode, lines[i]) && (lines[i].Printed? ==> Decodes(encode, parse, lines[i].event))
    {
      if i >= n { assert lines[i] == Printed(events[i - n]) && ServesOne(encode, parse, events[i - n]); }
    }
  }

  /** Sessions under way decode to their events. */
  lemma SessionIsDecoded(encode: Encoder, parse: Parser, n: nat, events: seq<Event>)
    requires Serves(encode, parse, events) && Progress(events)
    ensures Decoded(parse, Output(encode, Session(n, events))) == events
  {
    SessionIsLegal(encode, parse, n, events);
    SessionEvents(encode, n, events);
    OutputIsFed(encode, parse, Session(n, events));
    ProgressIsAccepted(events);
  }

  /** A trace that owns its fixture says so third and goes on. */
  lemma OwnedIsThird(events: seq<Event>)
    requires WellFormedTrace(events) && FixturePreflight(true) in events
    ensures |events| > 3 && events[2] == FixturePreflight(true) && Progress(events[..3])
  {
    var front := events[..|events| - 1];
    var k :| 0 <= k < |events| && events[k] == FixturePreflight(true);
    assert front[k] == events[k];
    CollisionIsThird(k);
    assert forall i :: 0 <= i < 3 ==> events[..3][i] == front[i];
  }

  /** A reading of a session that keeps its first `k` events. */
  lemma SessionCut(encode: Encoder, parse: Parser, n: nat, events: seq<Event>, k: nat) returns (chunks: seq<string>)
    requires k <= |events| && Serves(encode, parse, events[..k]) && Progress(events[..k])
    requires n + Bytes(encode, events) > MAXIMUM_STDOUT_BYTES
    requires MAXIMUM_STDOUT_BYTES - READ_BUFFER < n + Bytes(encode, events[..k]) <= MAXIMUM_STDOUT_BYTES
    ensures Cuts(chunks, Output(encode, Session(n, events))) && Kept(parse, chunks) == events[..k]
  {
    var text, part := Output(encode, Session(n, events)), Output(encode, Session(n, events[..k]));
    var rest := SessionGoesOn(encode, n, events, k);
    SessionBytes(encode, n, events);
    SessionBytes(encode, n, events[..k]);
    SessionIsDecoded(encode, parse, n, events[..k]);
    chunks := PrefixCut(parse, part, rest);
  }

  lemma PrefixCut(parse: Parser, part: string, rest: string) returns (chunks: seq<string>)
    requires MAXIMUM_STDOUT_BYTES - READ_BUFFER < |part| <= MAXIMUM_STDOUT_BYTES < |part + rest|
    ensures Cuts(chunks, part + rest) && Kept(parse, chunks) == Decoded(parse, part)
  {
    var text := part + rest;
    chunks := CutAt(text, |part|);
    CutAtCuts(parse, text, |part|);
    assert text[..|part|] == part;
  }

  lemma {:induction false} MoreBytes(encode: Encoder, events: seq<Event>, k: nat)
    requires k < |events|
    ensures Bytes(encode, events[..k]) < Bytes(encode, events)
    decreases |events|
  {
    var front := events[..|events| - 1];
    if k < |front| {
      assert front[..k] == events[..k];
      MoreBytes(encode, front, k);
    } else {
      assert front == events[..k];
    }
  }

  /** Whatever the codec, a child that owns its fixture and whose first three
      lines fit a read buffer can print its run among chatter such that two
      legal readings disagree: after one the parent may clean up the fixture,
      after the other it may not. */
  lemma CleanupDependsOnCuts(encode: Encoder, parse: Parser, events: seq<Event>)
    returns (lines: seq<Line>, a: seq<string>, b: seq<string>)
    requires WellFormedTrace(events) && FixturePreflight(true) in events && Serves(encode, parse, events)
    requires |events| > 3 && Bytes(encode, events[..3]) < READ_BUFFER
    ensures Codec(encode, parse, lines) && forall i :: 0 <= i < |lines| ==> Printable(encode, lines[i])
    ensures EventsIn(lines) == events
    ensures Cuts(a, Output(encode, lines)) && Cuts(b, Output(encode, lines))
    ensures Captured(parse, a).CleanupAuthorized() && !Captured(parse, b).CleanupAuthorized()
  {
    OwnedIsThird(events);
    var n := MAXIMUM_STDOUT_BYTES - Bytes(encode, events[..3]);
    lines := Session(n, events);
    SessionIsLegal(encode, parse, n, events);
    SessionEvents(encode, n, events);
    MoreBytes(encode, events, 3);
    a := SessionCut(encode, parse, n, events, 3);
    assert events[..3][2] == FixturePreflight(true);
    assert events[..0] == [];
    b := SessionCut(encode, parse, n, events, 0);
  }
}
