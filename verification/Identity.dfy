/** Request identities: the strings written into the contended table property. */
module Identity {
  import opened Ordering

  datatype RoundKind = Conditioning | Measured

  datatype PhaseName = Warmup | Sequential | Concurrent

  datatype RoundConfig = RoundConfig(
    catalog: string, fixtureId: string, repetition: nat,
    warmupCommits: nat, sequentialCommits: nat, concurrentWriters: nat, concurrentDuration: nat)

  /** The position of one commit inside a round. Serial phases have no writer. */
  datatype Slot = Slot(phase: PhaseName, writer: Option<nat>, sequence: nat)

  predicate WellPlaced(slot: Slot) {
    slot.phase.Concurrent? <==> slot.writer.Some?
  }

  function Digit(d: nat): char
    requires d < 10
  {
    '0' + d as char
  }

  function Decimal(n: nat): (r: string)
    ensures |r| > 0
  {
    if n < 10 then [Digit(n)] else Decimal(n / 10) + [Digit(n % 10)]
  }

  function PhaseLabel(phase: PhaseName): (r: string)
    ensures |r| > 0
  {
    match phase
    case Warmup => "warmup"
    case Sequential => "sequential"
    case Concurrent => "concurrent"
  }

  function Root(config: RoundConfig): string {
    config.catalog + "/" + config.fixtureId + "/" + Decimal(config.repetition) + "/"
  }

  function SlotLabel(slot: Slot): string {
    PhaseLabel(slot.phase)
      + (match slot.writer case None => "" case Some(w) => "/" + Decimal(w))
      + "/" + Decimal(slot.sequence)
  }

  function RequestIdentity(config: RoundConfig, slot: Slot): (r: string)
    ensures |r| > 0
  {
    Root(config) + SlotLabel(slot)
  }

  lemma {:induction false} DecimalInjective(a: nat, b: nat)
    requires Decimal(a) == Decimal(b)
    ensures a == b
  {
    var s, t := Decimal(a), Decimal(b);
    if a >= 10 && b >= 10 {
      assert s[..|s| - 1] == Decimal(a / 10) && t[..|t| - 1] == Decimal(b / 10);
      DecimalInjective(a / 10, b / 10);
      assert s[|s| - 1] == Digit(a % 10) && t[|t| - 1] == Digit(b % 10);
    } else {
      assert |Decimal(a / 10)| > 0 && |Decimal(b / 10)| > 0;
      assert s[|s| - 1] == Digit(a % 10) && t[|t| - 1] == Digit(b % 10);
    }
  }

  lemma {:induction false} DecimalHasNoSlash(n: nat)
    ensures '/' !in Decimal(n)
  {
    if n >= 10 { DecimalHasNoSlash(n / 10); }
  }

  lemma CancelPrefix(p: string, a: string, b: string)
    requires p + a == p + b
    ensures a == b
  {
    assert (p + a)[|p|..] == a && (p + b)[|p|..] == b;
  }

  /** A slash-free segment is delimited by the first slash after it. */
  lemma SplitAtSlash(a: string, x: string, b: string, y: string)
    requires '/' !in a && '/' !in b
    requires a + "/" + x == b + "/" + y
    ensures a == b && x == y
  {
    var l, r := a + "/" + x, b + "/" + y;
    assert l[|a|] == '/' && r[|b|] == '/';
    assert |a| == |b|;
    assert l[..|a|] == a && r[..|b|] == b;
    assert l[|a| + 1..] == x && r[|b| + 1..] == y;
  }

  lemma SerialLabel(phase: PhaseName, a: nat, b: nat)
    requires SlotLabel(Slot(phase, None, a)) == SlotLabel(Slot(phase, None, b))
    ensures a == b
  {
    var prefix := PhaseLabel(phase) + "" + "/";
    CancelPrefix(prefix, Decimal(a), Decimal(b));
    DecimalInjective(a, b);
  }

  lemma WriterLabel(phase: PhaseName, w: nat, n: nat)
    ensures SlotLabel(Slot(phase, Some(w), n)) == PhaseLabel(phase) + ("/" + (Decimal(w) + "/" + Decimal(n)))
  {
    Associate(PhaseLabel(phase), "/" + Decimal(w), "/" + Decimal(n));
  }

  lemma ConcurrentLabel(phase: PhaseName, w: nat, a: nat, v: nat, b: nat)
    requires SlotLabel(Slot(phase, Some(w), a)) == SlotLabel(Slot(phase, Some(v), b))
    ensures w == v && a == b
  {
    var x, y := Decimal(w) + "/" + Decimal(a), Decimal(v) + "/" + Decimal(b);
    WriterLabel(phase, w, a);
    WriterLabel(phase, v, b);
    CancelPrefix(PhaseLabel(phase), "/" + x, "/" + y);
    CancelPrefix("/", x, y);
    DecimalHasNoSlash(w);
    DecimalHasNoSlash(v);
    SplitAtSlash(Decimal(w), Decimal(a), Decimal(v), Decimal(b));
    DecimalInjective(w, v);
    DecimalInjective(a, b);
  }

  lemma PhaseShows(slot: Slot)
    ensures |SlotLabel(slot)| > 0
    ensures SlotLabel(slot)[0] == match slot.phase case Warmup => 'w' case Sequential => 's' case Concurrent => 'c'
  {
    assert SlotLabel(slot)[0] == PhaseLabel(slot.phase)[0];
  }

  /** Within a round, distinct (phase, writer, sequence) slots have distinct identities. */
  lemma IdentityInjective(config: RoundConfig, a: Slot, b: Slot)
    requires WellPlaced(a) && WellPlaced(b)
    requires RequestIdentity(config, a) == RequestIdentity(config, b)
    ensures a == b
  {
    CancelPrefix(Root(config), SlotLabel(a), SlotLabel(b));
    PhaseShows(a);
    PhaseShows(b);
    match a.writer {
      case None => SerialLabel(a.phase, a.sequence, b.sequence);
      case Some(w) => ConcurrentLabel(a.phase, w, a.sequence, b.writer.value, b.sequence);
    }
  }
}
