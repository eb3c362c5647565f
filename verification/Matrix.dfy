/** The rendered commit matrix: an order recomputed from published records,
    independently of the transcript ranking. */
module Matrix {
  import opened Ordering
  import opened Statistics
  import opened Identity
  import opened Metrics
  import opened Schedule
  import opened Aggregate
  import opened Sweep
  import opened Bundle

  // ---------- the rendered order ----------

  function P50(d: Distribution): Option<real> {
    if "p50" in d.quantiles then Some(d.quantiles["p50"]) else None
  }

  function RecordKey(r: Record): RankKey {
    RankKey(if P50(r.throughput).Some? then P50(r.throughput).value else 0.0,
            if P50(r.latency).Some? then P50(r.latency).value else 0.0, r.component)
  }

  predicate RowBefore(a: Record, b: Record) { Before(RecordKey(a), RecordKey(b)) }
  predicate NameBefore(a: Record, b: Record) { StringLe(a.name, b.name) }
  predicate IsPass(r: Record) { r.passed }
  predicate IsNotPass(r: Record) { !r.passed }
  predicate Renderable(r: Record) { P50(r.throughput).Some? && P50(r.latency).Some? }

  function PassRows(records: seq<Record>): seq<Record> {
    Sort(RowBefore, Filter(IsPass, records))
  }

  /** Pass rows are numbered; the others follow in the order of their names. */
  datatype Row = Ranked(rank: nat, component: string) | Unranked(component: string)

  function RowsOf(records: seq<Record>): seq<Row> {
    var passing, others := PassRows(records), Sort(NameBefore, Filter(IsNotPass, records));
    seq(|passing|, i requires 0 <= i < |passing| => Row.Ranked(i + 1, passing[i].component))
      + seq(|others|, i requires 0 <= i < |others| => Unranked(others[i].component))
  }

  /** Selects, sorts and numbers the rows; a pass record without a p50 cannot
      be rendered. */
  method RenderOrder(records: seq<Record>) returns (rows: Option<seq<Row>>)
    ensures rows.None? <==> exists r :: r in records && r.passed && !Renderable(r)
    ensures rows.Some? ==> rows.value == RowsOf(records)
  {
    var kept := SelectPassing(records);
    if kept.None? { return None; }
    var passing := Sort(RowBefore, kept.value);
    var listed: seq<Row> := [];
    for index := 0 to |passing|
      invariant listed == seq(index, i requires 0 <= i < index => Row.Ranked(i + 1, passing[i].component))
    {
      listed := listed + [Row.Ranked(index + 1, passing[index].component)];
    }
    var others := Sort(NameBefore, Filter(IsNotPass, records));
    var rest: seq<Row> := [];
    for index := 0 to |others|
      invariant rest == seq(index, i requires 0 <= i < index => Unranked(others[i].component))
    {
      rest := rest + [Unranked(others[index].component)];
    }
    return Some(listed + rest);
  }

  method SelectPassing(records: seq<Record>) returns (kept: Option<seq<Record>>)
    ensures kept.None? <==> exists r :: r in records && r.passed && !Renderable(r)
    ensures kept.Some? ==> kept.value == Filter(IsPass, records)
  {
    var passing: seq<Record> := [];
    for i := 0 to |records|
      invariant passing == Filter(IsPass, records[..i])
      invariant forall k :: 0 <= k < i && records[k].passed ==> Renderable(records[k])
    {
      assert records[..i + 1] == records[..i] + [records[i]];
      FilterAppend(IsPass, records[..i], [records[i]]);
      if records[i].passed {
        if !Renderable(records[i]) {
          assert records[i] in records;
          return None;
        }
        passing := passing + [records[i]];
      }
    }
    assert records[..|records|] == records;
    return Some(passing);
  }

  // ---------- two estimators, one order ----------

  /** For an odd number of samples the published p50 is the ranked median. */
  lemma OddMediansAgree(samples: seq<real>)
    requires |samples| % 2 == 1 && Rejection(samples).None?
    ensures MedianWithRange(samples).Ok? && MedianWithRange(samples).value.median == Summary(samples).quantiles["p50"]
  {
    MedianAgreesWithP50(Sort(RealLe, samples));
  }

  /** Then a record sorts by the same key as its aggregate is ranked by. */
  lemma KeysAgree(w: SweepRun, j: nat, r: Record)
    requires Swept(w) && j < |w.catalogs| && w.policy.measured % 2 == 1 && w.result.aggregates[j].Passed()
    requires Reflects(w, j, r)
    ensures RecordKey(r) == KeyOf(w.result.aggregates[j])
  {
    var rounds, a := MeasuredRounds(w.catalogs[j].catalog, w.transcripts), w.result.aggregates[j];
    SweptFacts(w, j);
    MeasuredCount(w, j);
    MeasuredMedian(w.policy, RoundsOf(w, j), a, ConcurrentAcceptedThroughput);
    MeasuredMedian(w.policy, RoundsOf(w, j), a, SequentialP50);
    OddKey(Samples(rounds, ConcurrentAcceptedThroughput), r.throughput, Score(a).median);
    OddKey(Samples(rounds, SequentialP50), r.latency, Measure(a, SequentialP50).median);
  }

  lemma MeasuredMedian(policy: RoundPolicy, mine: seq<Transcript>, a: CatalogAggregate, m: Metric)
    requires FairlyJudged(policy, mine, a) && a.Passed()
    ensures MedianWithRange(Samples(Filter(OfKind(Measured), mine), m)) == Ok(Measure(a, m))
  {
  }

  lemma OddKey(samples: seq<real>, d: Distribution, median: real)
    requires |samples| % 2 == 1 && DistributionOf(samples) == Ok(d)
    requires MedianWithRange(samples).Ok? && MedianWithRange(samples).value.median == median
    ensures P50(d) == Some(median)
  {
    OddMediansAgree(samples);
  }

  lemma BeforeIsAntisymmetric(s: seq<RankKey>)
    ensures AntisymmetricOn(Before, s)
  {
    forall x, y | x in s && y in s && Before(x, y) && Before(y, x) ensures x == y {
      StringLeTotal(x.id, y.id);
    }
  }

  lemma RowsAreSorted(records: seq<Record>)
    ensures Sorted(Before, Map(RecordKey, PassRows(records)))
    ensures multiset(PassRows(records)) == multiset(Filter(IsPass, records))
  {
    RowBeforeIsTotal();
    var kept := Filter(IsPass, records);
    SortSorts(RowBefore, kept);
    SortPermutes(RowBefore, kept);
    var rows := PassRows(records);
    forall i, j | 0 <= i < j < |rows| ensures Before(Map(RecordKey, rows)[i], Map(RecordKey, rows)[j]) {
      assert RowBefore(rows[i], rows[j]);
    }
  }

  lemma RowBeforeIsTotal()
    ensures Total(RowBefore)
  {
    forall x: Record, y: Record ensures RowBefore(x, y) || RowBefore(y, x) {
      StringLeTotal(RecordKey(x).id, RecordKey(y).id);
    }
    forall x: Record, y: Record, z: Record | RowBefore(x, y) && RowBefore(y, z) ensures RowBefore(x, z) {
      BeforeTransitive(RecordKey(x), RecordKey(y), RecordKey(z));
    }
  }

  ghost predicate Mirrors(built: seq<Record>, aggregates: seq<CatalogAggregate>) {
    && |built| == |aggregates|
    && forall j :: 0 <= j < |built| ==>
         && (built[j].passed <==> HasMeasurements(aggregates[j]))
         && (built[j].passed ==> RecordKey(built[j]) == KeyOf(aggregates[j]))
  }

  lemma {:induction false} KeptKeys(built: seq<Record>, aggregates: seq<CatalogAggregate>)
    requires Mirrors(built, aggregates)
    ensures Map(RecordKey, Filter(IsPass, built)) == Map(KeyOf, Filter(HasMeasurements, aggregates))
  {
    if built != [] {
      KeptKeys(built[1..], aggregates[1..]);
      var b, a := Filter(IsPass, built[1..]), Filter(HasMeasurements, aggregates[1..]);
      if built[0].passed {
        MapAppend(RecordKey, [built[0]], b);
        MapAppend(KeyOf, [aggregates[0]], a);
        assert Map(RecordKey, [built[0]]) == Map(KeyOf, [aggregates[0]]);
      } else {
        assert Filter(IsPass, built) == b && Filter(HasMeasurements, aggregates) == a;
      }
    }
  }

  lemma RankedKeys(aggregates: seq<CatalogAggregate>)
    requires Classified(aggregates)
    ensures Sorted(Before, Map(KeyOf, RankedList(aggregates)))
    ensures multiset(Map(KeyOf, RankedList(aggregates))) == multiset(Map(KeyOf, Filter(HasMeasurements, aggregates)))
  {
    RankedAreSorted(aggregates);
    SortPermutes(RanksBefore, Filter(HasMeasurements, aggregates));
    MapPermutes(KeyOf, RankedList(aggregates), Filter(HasMeasurements, aggregates));
  }

  lemma RowKeys(records: seq<Record>, built: seq<Record>)
    requires multiset(records) == multiset(built)
    ensures multiset(Map(RecordKey, PassRows(records))) == multiset(Map(RecordKey, Filter(IsPass, built)))
  {
    RowsAreSorted(records);
    FilterPermutes(IsPass, records, built);
    MapPermutes(RecordKey, PassRows(records), Filter(IsPass, built));
  }

  /** Sorting the same keys twice, from differently ordered inputs, gives the
      same rows. */
  lemma SameRows(records: seq<Record>, built: seq<Record>, aggregates: seq<CatalogAggregate>)
    requires Mirrors(built, aggregates) && Classified(aggregates) && multiset(records) == multiset(built)
    ensures Map(RecordKey, PassRows(records)) == Map(KeyOf, RankedList(aggregates))
  {
    RowsAreSorted(records);
    RowKeys(records, built);
    KeptKeys(built, aggregates);
    RankedKeys(aggregates);
    BeforeIsAntisymmetric(Map(RecordKey, PassRows(records)));
    SortedUnique(Before, Map(RecordKey, PassRows(records)), Map(KeyOf, RankedList(aggregates)));
  }

  // ---------- records of a whole sweep ----------

  /** The bundle of a sweep was generated, its records listed in any file
      order. */
  ghost predicate Published(
    w: SweepRun, publication: Publication, review: seq<FailureReview>, built: seq<Record>, records: seq<Record>) {
    && Swept(w) && Generated(publication, review, w.transcripts, w.result) == Ok(built)
    && multiset(records) == multiset(built)
  }

  /** The pass rows are the ranked entries, row for row. */
  ghost predicate RowsAgree(records: seq<Record>, ranking: seq<RankingEntry>) {
    var rows := PassRows(records);
    && (forall i :: 0 <= i < |rows| ==>
          && i < |ranking| && ranking[i].disposition.Ranked? && ranking[i].disposition.rank == i + 1
          && rows[i].component == ranking[i].catalog.catalog
          && RecordKey(rows[i]).throughput == ranking[i].disposition.score.median)
    && (forall i :: |rows| <= i < |ranking| ==> ranking[i].disposition.NotRanked?)
  }

  lemma RecordMirrors(w: SweepRun, r: Record, j: nat)
    requires Swept(w) && j < |w.catalogs| && w.policy.measured % 2 == 1 && Reflects(w, j, r)
    ensures r.passed <==> HasMeasurements(w.result.aggregates[j])
    ensures r.passed ==> RecordKey(r) == KeyOf(w.result.aggregates[j])
  {
    SweptFacts(w, j);
    if r.passed { KeysAgree(w, j, r); }
  }

  /** With an odd number of measured rounds the rendered matrix, which sorts by
      nearest-rank medians of published records in any file order, shows the
      transcript ranking row for row. */
  lemma MatrixAgreesWithRanking(
    w: SweepRun, publication: Publication, review: seq<FailureReview>, built: seq<Record>, records: seq<Record>)
    requires Published(w, publication, review, built, records) && w.policy.measured % 2 == 1
    ensures RowsAgree(records, w.result.ranking)
  {
    SweptFacts(w, 0);
    GeneratedReflects(w, publication, review);
    forall j | 0 <= j < |w.catalogs|
      ensures built[j].passed <==> HasMeasurements(w.result.aggregates[j])
      ensures built[j].passed ==> RecordKey(built[j]) == KeyOf(w.result.aggregates[j])
    {
      RecordMirrors(w, built[j], j);
    }
    SameRows(records, built, w.result.aggregates);
    RowsAreRanking(records, w.result);
  }

  lemma RowsAreRanking(records: seq<Record>, s: SweepResult)
    requires Map(RecordKey, PassRows(records)) == Map(KeyOf, RankedList(s.aggregates))
    requires Ranks(s.aggregates, s.ranking)
    ensures RowsAgree(records, s.ranking)
  {
    EntriesAreListed(s.aggregates, s.ranking);
    var rows, ranked := PassRows(records), RankedList(s.aggregates);
    assert |rows| == |Map(RecordKey, rows)| == |ranked|;
    forall i | 0 <= i < |rows|
      ensures rows[i].component == ranked[i].catalog.catalog && RecordKey(rows[i]).throughput == Score(ranked[i]).median
    {
      assert Map(RecordKey, rows)[i] == Map(KeyOf, ranked)[i];
    }
    forall i | |rows| <= i < |s.ranking| ensures s.ranking[i].disposition.NotRanked? {
      assert s.ranking[|ranked| + (i - |ranked|)].disposition.NotRanked?;
    }
  }
}
