/** The deterministic rows an engine writes and must read back. */
module RowOracle {
  import opened Ordering
  import opened Identity

  const MAXIMUM_GENERATED_ROWS: nat := 100_000
  const MAXIMUM_SPARK_LONG: nat := 0x7FFF_FFFF_FFFF_FFFF

  datatype Batch = Batch(idStart: nat, rows: nat)

  datatype Generators = Generators(multiplier: nat, offset: nat, modulus: nat, categoryPrefix: string,
    notePrefix: string)

  datatype Read = Read(columns: seq<string>, rows: nat)

  datatype Scenario = Scenario(
    fields: seq<string>, evolvedField: string, generators: Generators,
    initial: Batch, evolved: Batch, initialRead: Read, evolvedRead: Read)

  datatype Violation =
    | EmptyBatch | BatchesNotContiguous | TooManyRows | IdentifierExceedsLong
    | EvolvedFieldExists | InitialColumns | EvolvedColumns | InitialRowCount | EvolvedRowCount | AmountExceedsLong

  // ---------- validation ----------

  function FinalIdentifier(s: Scenario): int {
    s.evolved.idStart + s.evolved.rows - 1
  }

  method ValidateBatches(initial: Batch, evolved: Batch) returns (violation: Option<Violation>)
    ensures violation.None? <==>
              && initial.rows > 0 && evolved.rows > 0 && initial.idStart + initial.rows == evolved.idStart
              && initial.rows + evolved.rows <= MAXIMUM_GENERATED_ROWS
              && evolved.idStart + evolved.rows - 1 <= MAXIMUM_SPARK_LONG
  {
    var batches, decoded := [initial, evolved], [];
    for i := 0 to |batches|
      invariant decoded == batches[..i]
      invariant forall k :: 0 <= k < i ==> batches[k].rows > 0
    {
      if batches[i].rows == 0 {
        assert i == 0 || i == 1;
        return Some(EmptyBatch);
      }
      decoded := decoded + [batches[i]];
    }
    assert decoded == batches && batches[0].rows > 0 && batches[1].rows > 0;
    if decoded[0].idStart + decoded[0].rows != decoded[1].idStart { return Some(BatchesNotContiguous); }
    var finalIdentifier := decoded[1].idStart + decoded[1].rows - 1;
    if decoded[0].rows + decoded[1].rows > MAXIMUM_GENERATED_ROWS { return Some(TooManyRows); }
    if finalIdentifier > MAXIMUM_SPARK_LONG { return Some(IdentifierExceedsLong); }
    return None;
  }

  function ValidateRelations(s: Scenario): Option<Violation> {
    var evolvedColumns := s.fields + [s.evolvedField];
    if s.evolvedField in s.fields then Some(EvolvedFieldExists)
    else if s.initialRead.columns != s.fields then Some(InitialColumns)
    else if s.evolvedRead.columns != evolvedColumns then Some(EvolvedColumns)
    else if s.initialRead.rows != s.initial.rows then Some(InitialRowCount)
    else if s.evolvedRead.rows != s.initial.rows + s.evolved.rows then Some(EvolvedRowCount)
    else if FinalIdentifier(s) * s.generators.multiplier + s.generators.offset > MAXIMUM_SPARK_LONG
      then Some(AmountExceedsLong)
    else None
  }

  /** A scenario that passes validation. */
  ghost predicate Validated(s: Scenario) {
    && s.initial.rows > 0 && s.evolved.rows > 0 && s.initial.idStart + s.initial.rows == s.evolved.idStart
    && s.initial.rows + s.evolved.rows <= MAXIMUM_GENERATED_ROWS && FinalIdentifier(s) <= MAXIMUM_SPARK_LONG
    && s.generators.modulus > 0 && ValidateRelations(s).None?
  }

  // ---------- generation ----------

  datatype Cell = Long(value: int) | Text(text: string) | Null

  type Row = seq<Cell>

  function Amount(g: Generators, id: nat): nat {
    id * g.multiplier + g.offset
  }

  function Base(g: Generators, id: nat): (r: Row)
    requires g.modulus > 0
    ensures |r| == 3
  {
    [Long(id), Text(g.categoryPrefix + Decimal(id % g.modulus)), Long(Amount(g, id))]
  }

  function Note(g: Generators, id: nat): Cell {
    Text(g.notePrefix + Decimal(id))
  }

  function InitialRows(s: Scenario, includeEvolved: bool): (r: seq<Row>)
    requires s.generators.modulus > 0
    ensures |r| == s.initial.rows
  {
    seq(s.initial.rows, i requires 0 <= i => Base(s.generators, s.initial.idStart + i) +
      (if includeEvolved then [Null] else []))
  }

  function EvolvedRows(s: Scenario): (r: seq<Row>)
    requires s.generators.modulus > 0
    ensures |r| == s.evolved.rows
  {
    seq(s.evolved.rows, i requires 0 <= i =>
      Base(s.generators, s.evolved.idStart + i) + [Note(s.generators, s.evolved.idStart + i)])
  }

  function GeneratedRows(s: Scenario, includeEvolved: bool): seq<Row>
    requires s.generators.modulus > 0
  {
    InitialRows(s, includeEvolved) + (if includeEvolved then EvolvedRows(s) else [])
  }

  function Last(s: Scenario, includeEvolved: bool, i: nat): (r: Row)
    ensures |r| == if includeEvolved then 1 else 0
  {
    if !includeEvolved then [] else if i < s.initial.rows then [Null] else [Note(s.generators, s.initial.idStart + i)]
  }

  /** Row `i` in closed form: ids run on from the first batch into the second. */
  lemma GeneratedAt(s: Scenario, includeEvolved: bool, i: nat)
    requires Validated(s) && i < |GeneratedRows(s, includeEvolved)|
    ensures GeneratedRows(s, includeEvolved)[i] ==
            Base(s.generators, s.initial.idStart + i) + Last(s, includeEvolved, i)
  {
  }

  /** What each append writes. */
  function AppendedRows(s: Scenario, evolved: bool): seq<Row>
    requires s.generators.modulus > 0
  {
    if evolved then GeneratedRows(s, true)[s.initial.rows..] else GeneratedRows(s, false)
  }

  // ---------- the table after both appends ----------

  /** Adding a column leaves it null in the rows already written. */
  function Widened(rows: seq<Row>): (r: seq<Row>)
    ensures |r| == |rows|
  {
    seq(|rows|, i requires 0 <= i < |rows| => rows[i] + [Null])
  }

  lemma WidenedInitial(s: Scenario)
    requires s.generators.modulus > 0
    ensures Widened(InitialRows(s, false)) == InitialRows(s, true)
  {
    var narrow, wide := InitialRows(s, false), InitialRows(s, true);
    forall i | 0 <= i < s.initial.rows ensures narrow[i] + [Null] == wide[i] {
      var row := Base(s.generators, s.initial.idStart + i);
      assert row + [] == row;
      assert narrow[i] == row + [];
    }
  }

  /** The two appends, the first widened by the schema change, are the rows the
      evolved read expects. */
  lemma AppendsMakeTheEvolvedRows(s: Scenario)
    requires s.generators.modulus > 0
    ensures Widened(AppendedRows(s, false)) + AppendedRows(s, true) == GeneratedRows(s, true)
  {
    WidenedInitial(s);
    assert GeneratedRows(s, true)[..s.initial.rows] == InitialRows(s, true);
    assert GeneratedRows(s, false) == InitialRows(s, false);
  }

  function IdOf(r: Row): int {
    if r != [] && r[0].Long? then r[0].value else 0
  }

  lemma RowIds(s: Scenario, evolved: bool, i: nat)
    requires Validated(s) && i < |GeneratedRows(s, evolved)|
    ensures IdOf(GeneratedRows(s, evolved)[i]) == s.initial.idStart + i
  {
    GeneratedAt(s, evolved, i);
  }

  predicate ById(a: Row, b: Row) { IdOf(a) <= IdOf(b) }

  lemma ByIdIsTotal()
    ensures Total(ById)
  {
  }

  lemma GeneratedInOrder(s: Scenario, evolved: bool)
    requires Validated(s)
    ensures Sorted(ById, GeneratedRows(s, evolved))
    ensures AntisymmetricOn(ById, GeneratedRows(s, evolved))
  {
    var rows := GeneratedRows(s, evolved);
    forall i, j | 0 <= i < j < |rows| ensures ById(rows[i], rows[j]) {
      RowIds(s, evolved, i);
      RowIds(s, evolved, j);
    }
    forall x, y | x in rows && y in rows && ById(x, y) && ById(y, x) ensures x == y {
      var i :| 0 <= i < |rows| && rows[i] == x;
      var j :| 0 <= j < |rows| && rows[j] == y;
      RowIds(s, evolved, i);
      RowIds(s, evolved, j);
    }
  }

  /** Ordering by id recovers the generated rows from any storage order. */
  lemma OrderingRecoversGeneration(s: Scenario, evolved: bool, stored: seq<Row>)
    requires Validated(s) && multiset(stored) == multiset(GeneratedRows(s, evolved))
    ensures Sort(ById, stored) == GeneratedRows(s, evolved)
  {
    var rows := GeneratedRows(s, evolved);
    ByIdIsTotal();
    GeneratedInOrder(s, evolved);
    SortPermutes(ById, stored);
    SortSorts(ById, stored);
    SortedUnique(ById, rows, Sort(ById, stored));
  }

  lemma AmountGrows(g: Generators, a: nat, b: nat)
    requires a <= b
    ensures Amount(g, a) <= Amount(g, b)
  {
    var d := b - a;
    assert b * g.multiplier == a * g.multiplier + d * g.multiplier;
    assert d * g.multiplier >= 0;
  }

  lemma IdsFit(s: Scenario, id: nat)
    requires Validated(s) && id <= FinalIdentifier(s)
    ensures id <= MAXIMUM_SPARK_LONG && Amount(s.generators, id) <= MAXIMUM_SPARK_LONG
  {
    AmountGrows(s.generators, id, FinalIdentifier(s));
  }

  /** Every id and amount of a validated scenario fits a Spark LONG. */
  lemma EveryLongFits(s: Scenario, evolved: bool)
    requires Validated(s)
    ensures forall r: Row, c: Cell :: r in GeneratedRows(s, evolved) && c in r && c.Long? ==>
            0 <= c.value <= MAXIMUM_SPARK_LONG
  {
    var rows := GeneratedRows(s, evolved);
    forall i | 0 <= i < |rows| ensures forall c: Cell :: c in rows[i] && c.Long? ==>
      0 <= c.value <= MAXIMUM_SPARK_LONG {
      var id := s.initial.idStart + i;
      IdsFit(s, id);
      GeneratedAt(s, evolved, i);
    }
  }

  // ---------- reading back ----------

  function Expected(s: Scenario, evolved: bool): Read {
    if evolved then s.evolvedRead else s.initialRead
  }

  /** After either append the table holds what the canonical read expects: as
      many rows, and the generated rows once ordered by id. The rows are as wide
      as the read's columns exactly when the table has the three generated
      ones, which validation does not ask for. */
  lemma ReadsMatchTheScenario(s: Scenario, evolved: bool, stored: seq<Row>)
    requires Validated(s)
    requires multiset(stored) ==
               multiset(if evolved then Widened(AppendedRows(s, false)) + AppendedRows(s, true)
                 else AppendedRows(s, false))
    ensures |stored| == Expected(s, evolved).rows
    ensures Sort(ById, stored) == GeneratedRows(s, evolved)
    ensures |s.fields| == 3 <==> forall r :: r in stored ==> |r| == |Expected(s, evolved).columns|
  {
    if evolved { AppendsMakeTheEvolvedRows(s); }
    assert AppendedRows(s, false) == GeneratedRows(s, false);
    OrderingRecoversGeneration(s, evolved, stored);
    SameElements(stored, GeneratedRows(s, evolved));
    RowsAreWide(s, evolved);
    ReadCounts(s, evolved);
    assert stored[0] in stored;
  }

  lemma ReadCounts(s: Scenario, evolved: bool)
    requires Validated(s)
    ensures |GeneratedRows(s, evolved)| == Expected(s, evolved).rows
    ensures |Expected(s, evolved).columns| == |s.fields| + if evolved then 1 else 0
  {
  }

  lemma RowsAreWide(s: Scenario, evolved: bool)
    requires Validated(s)
    ensures forall r :: r in GeneratedRows(s, evolved) ==> |r| == if evolved then 4 else 3
  {
    var rows := GeneratedRows(s, evolved);
    forall i | 0 <= i < |rows| ensures |rows[i]| == if evolved then 4 else 3 {
      GeneratedAt(s, evolved, i);
    }
  }

  /** Validation lets other tables through: this one has four columns, so the
      three generated cells of a row do not fill it. */
  lemma SomeTableIsWider() returns (s: Scenario)
    ensures Validated(s) && |s.fields| == 4
    ensures forall r :: r in AppendedRows(s, false) ==> |r| != |Expected(s, false).columns|
  {
    var fields := ["id", "category", "amount", "region"];
    s := Scenario(
      fields, "note", Generators(1, 0, 1, "c", "n"), Batch(0, 1), Batch(1, 1), Read(fields, 1),
      Read(fields + ["note"], 2));
    assert Validated(s) by {
      assert "note"[0] != "id"[0] && "note"[0] != "category"[0] && "note"[0] != "amount"[0] && "note"[0] != "region"[0];
    }
    forall r | r in AppendedRows(s, false) ensures |r| == 3 {
      var i :| 0 <= i < |AppendedRows(s, false)| && AppendedRows(s, false)[i] == r;
      GeneratedAt(s, false, i);
    }
  }
}
