/** Distributions, quantiles and moments of repeated measurements, over exact
    reals. A `Distribution` carries the population variance where the program
    publishes its square root. */
module Statistics {
  import opened Ordering

  datatype StatisticsError = EmptySamples | NegativeSample(index: nat) | ZeroElapsed

  datatype Distribution = Distribution(
    samples: nat, minimum: real, maximum: real, mean: real, variance: real,
    quantiles: map<string, real>)

  datatype MedianRange = MedianRange(samples: nat, minimum: real, median: real, maximum: real)

  // ---------- two-pass moments: the simple form ----------

  function Sum(s: seq<real>): (r: real) {
    if s == [] then 0.0 else Sum(s[..|s| - 1]) + s[|s| - 1]
  }

  function Square(x: real): (r: real)
    ensures r >= 0.0
  {
    x * x
  }

  function SquaredDeviation(s: seq<real>, centre: real): (r: real)
    ensures r >= 0.0
  {
    if s == [] then 0.0
    else SquaredDeviation(s[..|s| - 1], centre) + Square(s[|s| - 1] - centre)
  }

  function Mean(s: seq<real>): (r: real)
    requires s != []
  {
    Sum(s) / |s| as real
  }

  function Variance(s: seq<real>): (r: real)
    requires s != []
    ensures r >= 0.0
  {
    SquaredDeviation(s, Mean(s)) / |s| as real
  }

  function Shift(total: real, n: real, a: real, b: real): real {
    (a - b) * (2.0 * total - n * (a + b))
  }

  lemma RecentreOne(total: real, n: real, x: real, a: real, b: real)
    ensures Shift(total, n, a, b) + Square(x - b) == Shift(total + x, n + 1.0, a, b) + Square(x - a)
  {
    var c := 2.0 * x - (a + b);
    assert Square(x - b) - Square(x - a) == (a - b) * c;
    assert 2.0 * (total + x) - (n + 1.0) * (a + b) == (2.0 * total - n * (a + b)) + c;
  }

  /** Moving the centre of a sum of squares. */
  lemma {:induction false} Recentre(s: seq<real>, a: real, b: real)
    ensures SquaredDeviation(s, b) == SquaredDeviation(s, a) + Shift(Sum(s), |s| as real, a, b)
  {
    if s != [] {
      var front, x := s[..|s| - 1], s[|s| - 1];
      Recentre(front, a, b);
      RecentreOne(Sum(front), |front| as real, x, a, b);
      assert |s| as real == |front| as real + 1.0;
    }
  }

  function NextMean(mean: real, sample: real, count: nat): real {
    mean + (sample - mean) / (count + 1) as real
  }

  function Cross(x: real, m: real, m': real): real {
    (x - m) * (x - m')
  }

  function Scaled(m: real, n: real): real {
    m * n
  }

  lemma WelfordAlgebra(total: real, n: real, m: real, x: real, m': real)
    requires Scaled(m, n) == total && Scaled(m', n + 1.0) == total + x
    ensures Shift(total, n, m, m') + Square(x - m') == Cross(x, m, m')
  {
    // n * (m - m') == m' - x, so the recentring term collapses.
    assert n * (m - m') == m' - x;
    assert 2.0 * total - n * (m + m') == n * (m - m');
    assert (m - m') * (m' - x) + (x - m') * (x - m') == (x - m) * (x - m');
  }

  lemma MeanStep(total: real, n: real, m: real, x: real, m': real)
    requires n >= 0.0 && Scaled(m, n) == total && m' == m + (x - m) / (n + 1.0)
    ensures Scaled(m', n + 1.0) == total + x
  {
    var d := (x - m) / (n + 1.0);
    assert d * (n + 1.0) == x - m;
    assert m' * (n + 1.0) == m * n + m + d * (n + 1.0);
  }

  ghost predicate Centred(s: seq<real>, m: real) {
    Scaled(m, |s| as real) == Sum(s)
  }

  lemma DeviationStep(s: seq<real>, x: real, m: real, m': real)
    requires Shift(Sum(s), |s| as real, m, m') + Square(x - m') == Cross(x, m, m')
    ensures SquaredDeviation(s + [x], m') == SquaredDeviation(s, m) + Cross(x, m, m')
  {
    Recentre(s, m, m');
    assert (s + [x])[..|s|] == s;
  }

  lemma NextSum(s: seq<real>, x: real)
    ensures Sum(s + [x]) == Sum(s) + x && |s + [x]| as real == |s| as real + 1.0
  {
    assert (s + [x])[..|s|] == s;
  }

  lemma NextMeanScaled(s: seq<real>, x: real, m: real, m': real)
    requires Centred(s, m) && m' == NextMean(m, x, |s|)
    ensures Scaled(m', |s| as real + 1.0) == Sum(s) + x
  {
    assert (|s| + 1) as real == |s| as real + 1.0;
    MeanStep(Sum(s), |s| as real, m, x, m');
  }

  lemma CentredStep(s: seq<real>, x: real, m: real, m': real)
    requires Centred(s, m) && m' == NextMean(m, x, |s|)
    ensures Centred(s + [x], m')
    ensures Shift(Sum(s), |s| as real, m, m') + Square(x - m') == Cross(x, m, m')
  {
    NextSum(s, x);
    NextMeanScaled(s, x, m, m');
    WelfordAlgebra(Sum(s), |s| as real, m, x, m');
  }

  /** The single-pass accumulator. */
  datatype Running = Running(count: nat, mean: real, deviation: real)

  function Advance(r: Running, sample: real): Running {
    var mean := NextMean(r.mean, sample, r.count);
    Running(r.count + 1, mean, r.deviation + Cross(sample, r.mean, mean))
  }

  function Welford(s: seq<real>): (r: Running)
    ensures r.count == |s|
  {
    if s == [] then Running(0, 0.0, 0.0) else Advance(Welford(s[..|s| - 1]), s[|s| - 1])
  }

  lemma AdvanceStep(s: seq<real>, x: real, r: Running, r': Running)
    requires r.count == |s| && Centred(s, r.mean) && r.deviation == SquaredDeviation(s, r.mean)
    requires r' == Advance(r, x)
    ensures Centred(s + [x], r'.mean)
    ensures r'.deviation == SquaredDeviation(s + [x], r'.mean)
  {
    CentredStep(s, x, r.mean, r'.mean);
    DeviationStep(s, x, r.mean, r'.mean);
  }

  /** The accumulator holds the two-pass mean and squared deviation. */
  lemma {:induction false} WelfordIsTwoPass(s: seq<real>)
    ensures Centred(s, Welford(s).mean)
    ensures Welford(s).deviation == SquaredDeviation(s, Welford(s).mean)
  {
    if s != [] {
      var front, x := s[..|s| - 1], s[|s| - 1];
      WelfordIsTwoPass(front);
      AdvanceStep(front, x, Welford(front), Welford(s));
      assert s == front + [x];
    }
  }

  lemma MeanIsUnique(s: seq<real>, m: real)
    requires s != [] && Centred(s, m)
    ensures m == Mean(s)
  {
    var n := |s| as real;
    assert n != 0.0;
    assert (m * n) / n == m;
  }

  /** Single-pass population moments. The loop reaches exactly the two-pass
      mean and variance, and clamping at zero never changes the result. */
  method PopulationMoments(samples: seq<real>) returns (mean: real, variance: real)
    requires samples != []
    ensures mean == Mean(samples) && variance == Variance(samples)
  {
    var count, squaredDeviation := 0, 0.0;
    mean := 0.0;
    while count < |samples|
      invariant 0 <= count <= |samples|
      invariant Running(count, mean, squaredDeviation) == Welford(samples[..count])
    {
      var sample := samples[count];
      Prefix(samples, count);
      count := count + 1;
      var delta := sample - mean;
      mean := mean + delta / count as real;
      squaredDeviation := squaredDeviation + delta * (sample - mean);
    }
    assert samples[..count] == samples;
    WelfordIsTwoPass(samples);
    MeanIsUnique(samples, mean);
    variance := squaredDeviation / count as real;
    if variance < 0.0 { variance := 0.0; }
  }

  lemma Prefix(s: seq<real>, k: nat)
    requires k < |s|
    ensures Welford(s[..k + 1]) == Advance(Welford(s[..k]), s[k])
  {
    assert s[..k + 1][..k] == s[..k];
  }

  // ---------- nearest-rank quantiles ----------

  function Ceil(x: real): (r: int)
    ensures r as real >= x && (r - 1) as real < x
  {
    -((0.0 - x).Floor)
  }

  function RankIndex(n: nat, probability: real): (k: nat)
    requires n > 0
    ensures k < n
  {
    var c := Ceil(probability * n as real);
    var rank := if c < 0 then 0 else c;
    var index := if rank == 0 then 0 else rank - 1;
    if index < n then index else n - 1
  }

  function NearestRank(sorted: seq<real>, probability: real): (r: real)
    requires sorted != []
  {
    sorted[RankIndex(|sorted|, probability)]
  }

  function CountAtMost(s: seq<real>, v: real): (r: nat)
    ensures r <= |s|
  {
    |Filter(x => x <= v, s)|
  }

  lemma CountPermutes(a: seq<real>, b: seq<real>, v: real)
    requires multiset(a) == multiset(b)
    ensures CountAtMost(a, v) == CountAtMost(b, v)
  {
    FilterPermutes(x => x <= v, a, b);
    SameElements(Filter(x => x <= v, a), Filter(x => x <= v, b));
  }

  lemma {:induction false} FilterAll<T(!new)>(keep: T -> bool, s: seq<T>)
    requires forall x :: x in s ==> keep(x)
    ensures Filter(keep, s) == s
  {
    if s != [] {
      assert s == [s[0]] + s[1..] && s[0] in s;
      FilterAll(keep, s[1..]);
      assert Filter(keep, s) == [s[0]] + Filter(keep, s[1..]);
    }
  }

  lemma {:induction false} FilterNone<T(!new)>(keep: T -> bool, s: seq<T>)
    requires forall x :: x in s ==> !keep(x)
    ensures Filter(keep, s) == []
  {
    if s != [] {
      assert s[0] in s;
      FilterNone(keep, s[1..]);
      assert Filter(keep, s) == Filter(keep, s[1..]);
    }
  }

  /** In a sorted list, everything up to `i` is at most its i-th element... */
  lemma CountAtLeastIndex(s: seq<real>, i: nat)
    requires Sorted(RealLe, s) && i < |s|
    ensures CountAtMost(s, s[i]) >= i + 1
  {
    var keep := x => x <= s[i];
    assert s == s[..i + 1] + s[i + 1..];
    FilterAppend(keep, s[..i + 1], s[i + 1..]);
    forall x | x in s[..i + 1] ensures keep(x) {
      var j :| 0 <= j <= i && s[j] == x;
      assert j < i ==> RealLe(s[j], s[i]);
    }
    FilterAll(keep, s[..i + 1]);
  }

  /** ... and a smaller value counts only elements before `i`. */
  lemma CountBelowIndex(s: seq<real>, i: nat, w: real)
    requires Sorted(RealLe, s) && i < |s| && w < s[i]
    ensures CountAtMost(s, w) <= i
  {
    var keep := x => x <= w;
    assert s == s[..i] + s[i..];
    FilterAppend(keep, s[..i], s[i..]);
    forall x | x in s[i..] ensures !keep(x) {
      var j :| i <= j < |s| && s[j] == x;
      assert i < j ==> RealLe(s[i], s[j]);
    }
    FilterNone(keep, s[i..]);
  }

  /** `v` is the quantile at a target count: the least sample with at least
      that many samples at or below it. */
  ghost predicate IsQuantile(samples: seq<real>, target: real, v: real) {
    && v in samples
    && CountAtMost(samples, v) as real >= target
    && forall w :: w in samples && w < v ==> (CountAtMost(samples, w) as real) < target
  }

  function Share(p: real, n: nat): real {
    p * n as real
  }

  lemma ShareIsMonotone(n: nat, p: real, q: real)
    requires 0.0 <= p <= q
    ensures 0.0 <= Share(p, n) <= Share(q, n)
  {
  }

  lemma RankIndexBrackets(n: nat, p: real)
    requires n > 0 && 0.0 < p <= 1.0
    ensures RankIndex(n, p) as real < Share(p, n) <= (RankIndex(n, p) + 1) as real
  {
    var target := p * n as real;
    assert 0.0 < target <= n as real;
    assert Ceil(target) >= 1;
    assert Ceil(target) <= n;
  }

  lemma IndexIsQuantile(s: seq<real>, target: real, k: nat)
    requires Sorted(RealLe, s) && k < |s|
    requires k as real < target <= (k + 1) as real
    ensures IsQuantile(s, target, s[k])
  {
    CountAtLeastIndex(s, k);
    forall w | w in s && w < s[k]
      ensures (CountAtMost(s, w) as real) < target
    {
      CountBelowIndex(s, k, w);
    }
  }

  lemma QuantilePermutes(a: seq<real>, b: seq<real>, target: real, v: real)
    requires multiset(a) == multiset(b) && IsQuantile(a, target, v)
    ensures IsQuantile(b, target, v)
  {
    SameElements(a, b);
    CountPermutes(a, b, v);
    forall w | w in b && w < v
      ensures (CountAtMost(b, w) as real) < target
    {
      CountPermutes(a, b, w);
      assert w in a;
    }
  }

  lemma SortedReals(samples: seq<real>)
    ensures Sorted(RealLe, Sort(RealLe, samples))
    ensures multiset(Sort(RealLe, samples)) == multiset(samples)
    ensures forall x :: x in samples <==> x in Sort(RealLe, samples)
  {
    RealLeIsTotal();
    SortSorts(RealLe, samples);
    SortPermutes(RealLe, samples);
    SameElements(Sort(RealLe, samples), samples);
  }

  lemma NearestRankIsQuantile(samples: seq<real>, p: real)
    requires samples != [] && 0.0 < p <= 1.0
    ensures IsQuantile(samples, Share(p, |samples|), NearestRank(Sort(RealLe, samples), p))
  {
    var s := Sort(RealLe, samples);
    SortedReals(samples);
    var k, target := RankIndex(|s|, p), Share(p, |s|);
    RankIndexBrackets(|s|, p);
    IndexIsQuantile(s, target, k);
    QuantilePermutes(s, samples, target, s[k]);
  }

  lemma RankIndexMonotone(n: nat, p: real, q: real)
    requires n > 0 && 0.0 < p <= q <= 1.0
    ensures RankIndex(n, p) <= RankIndex(n, q)
  {
    RankIndexBrackets(n, p);
    RankIndexBrackets(n, q);
    ShareIsMonotone(n, p, q);
  }

  lemma SortedAt(s: seq<real>, i: nat, j: nat)
    requires Sorted(RealLe, s) && i <= j < |s|
    ensures s[i] <= s[j]
  {
    assert i < j ==> RealLe(s[i], s[j]);
  }

  // ---------- summaries ----------

  function FirstNegative(samples: seq<real>): (k: nat)
    ensures k <= |samples|
    ensures forall i :: 0 <= i < k ==> samples[i] >= 0.0
    ensures k < |samples| ==> samples[k] < 0.0
  {
    if samples == [] then 0
    else if samples[0] < 0.0 then 0
    else
      var rest := FirstNegative(samples[1..]);
      assert forall i :: 1 <= i <= rest ==> samples[i] == samples[1..][i - 1];
      rest + 1
  }

  /** The error a sample list is rejected with, if any. */
  function Rejection(samples: seq<real>): Option<StatisticsError> {
    if samples == [] then Some(EmptySamples)
    else if FirstNegative(samples) < |samples| then Some(NegativeSample(FirstNegative(samples)))
    else None
  }

  method SortedNonnegative(samples: seq<real>) returns (r: Result<seq<real>, StatisticsError>)
    ensures r == match Rejection(samples)
                 case Some(error) => Err(error)
                 case None => Ok(Sort(RealLe, samples))
  {
    if samples == [] { return Err(EmptySamples); }
    var pushed: seq<real> := [];
    for index := 0 to |samples|
      invariant pushed == samples[..index]
      invariant forall i :: 0 <= i < index ==> samples[i] >= 0.0
    {
      if samples[index] < 0.0 {
        assert FirstNegative(samples) == index;
        return Err(NegativeSample(index));
      }
      pushed := pushed + [samples[index]];
    }
    assert pushed == samples;
    r := Ok(Sort(RealLe, pushed));
  }

  /** What a nonempty nonnegative sample list is summarised as. */
  function Summary(samples: seq<real>): (d: Distribution)
    requires samples != []
  {
    var s := Sort(RealLe, samples);
    Distribution(|s|, s[0], s[|s| - 1], Mean(s), Variance(s),
      map["p50" := NearestRank(s, 0.5), "p95" := NearestRank(s, 0.95), "p99" := NearestRank(s, 0.99)])
  }

  method NonnegativeDistribution(samples: seq<real>) returns (r: Result<Distribution, StatisticsError>)
    ensures r == match Rejection(samples)
                 case Some(error) => Err(error)
                 case None => Ok(Summary(samples))
  {
    var attempt := SortedNonnegative(samples);
    match attempt {
      case Err(error) => r := Err(error);
      case Ok(sorted) =>
        var mean, variance := PopulationMoments(sorted);
        r := Ok(Distribution(|sorted|, sorted[0], sorted[|sorted| - 1], mean, variance,
          map["p50" := NearestRank(sorted, 0.5), "p95" := NearestRank(sorted, 0.95),
            "p99" := NearestRank(sorted, 0.99)]));
    }
  }

  ghost predicate Complete(d: Distribution) {
    && "p50" in d.quantiles && "p95" in d.quantiles && "p99" in d.quantiles
    && d.minimum <= d.quantiles["p50"] <= d.quantiles["p95"] <= d.quantiles["p99"] <= d.maximum
  }

  lemma QuantilesAreOrdered(s: seq<real>)
    requires s != [] && Sorted(RealLe, s)
    ensures s[0] <= NearestRank(s, 0.5) <= NearestRank(s, 0.95) <= NearestRank(s, 0.99) <= s[|s| - 1]
  {
    RankIndexMonotone(|s|, 0.5, 0.95);
    RankIndexMonotone(|s|, 0.95, 0.99);
    SortedAt(s, 0, RankIndex(|s|, 0.5));
    SortedAt(s, RankIndex(|s|, 0.5), RankIndex(|s|, 0.95));
    SortedAt(s, RankIndex(|s|, 0.95), RankIndex(|s|, 0.99));
    SortedAt(s, RankIndex(|s|, 0.99), |s| - 1);
  }

  lemma SummaryRange(samples: seq<real>)
    requires samples != []
    ensures var d := Summary(samples);
            && d.minimum in samples && d.maximum in samples
            && forall x :: x in samples ==> d.minimum <= x <= d.maximum
  {
    var s := Sort(RealLe, samples);
    SortedReals(samples);
    assert s[0] in s && s[|s| - 1] in s;
    forall x | x in samples ensures s[0] <= x <= s[|s| - 1] {
      assert x in s;
      var i :| 0 <= i < |s| && s[i] == x;
      SortedAt(s, 0, i);
      SortedAt(s, i, |s| - 1);
    }
  }

  /** Every summary carries the three quantiles of the original samples, in
      order, between the attained minimum and maximum. */
  lemma SummaryIsComplete(samples: seq<real>)
    requires samples != []
    ensures var d := Summary(samples);
            && d.samples == |samples| && Complete(d)
            && IsQuantile(samples, Share(0.5, |samples|), d.quantiles["p50"])
            && IsQuantile(samples, Share(0.95, |samples|), d.quantiles["p95"])
            && IsQuantile(samples, Share(0.99, |samples|), d.quantiles["p99"])
            && d.minimum in samples && d.maximum in samples
            && forall x :: x in samples ==> d.minimum <= x <= d.maximum
  {
    NearestRankIsQuantile(samples, 0.5);
    NearestRankIsQuantile(samples, 0.95);
    NearestRankIsQuantile(samples, 0.99);
    SortedReals(samples);
    QuantilesAreOrdered(Sort(RealLe, samples));
    SummaryRange(samples);
  }

  /** A summary depends on the samples only as a multiset. */
  lemma SummaryIsPermutationInvariant(a: seq<real>, b: seq<real>)
    requires a != [] && multiset(a) == multiset(b)
    ensures b != [] && Summary(a) == Summary(b)
  {
    SameElements(a, b);
    RealLeIsTotal();
    SortIsPermutationInvariant(RealLe, a, b);
  }

  // ---------- median with range ----------

  function MedianOf(sorted: seq<real>): (r: real)
    requires sorted != []
  {
    var middle := |sorted| / 2;
    if |sorted| % 2 == 0 then (sorted[middle - 1] + sorted[middle]) / 2.0 else sorted[middle]
  }

  function MedianWithRange(samples: seq<real>): (r: Result<MedianRange, StatisticsError>) {
    match Rejection(samples)
    case Some(error) => Err(error)
    case None =>
      var s := Sort(RealLe, samples);
      Ok(MedianRange(|s|, s[0], MedianOf(s), s[|s| - 1]))
  }

  lemma RankIndexOfMedian(n: nat)
    requires n > 0
    ensures RankIndex(n, 0.5) == (n - 1) / 2
  {
    RankIndexBrackets(n, 0.5);
    var k := RankIndex(n, 0.5);
    assert 2 * k < n <= 2 * (k + 1);
  }

  /** The published p50 and the ranked median are two estimators. They agree
      exactly when the sample count is odd or the two middle samples coincide. */
  lemma MedianAgreesWithP50(sorted: seq<real>)
    requires sorted != []
    ensures MedianOf(sorted) == NearestRank(sorted, 0.5)
       <==> |sorted| % 2 == 1 || sorted[|sorted| / 2 - 1] == sorted[|sorted| / 2]
  {
    RankIndexOfMedian(|sorted|);
    var n := |sorted|;
    if n % 2 == 1 { assert (n - 1) / 2 == n / 2; } else { assert (n - 1) / 2 == n / 2 - 1; }
  }

  lemma MedianIsNonnegative(samples: seq<real>)
    requires samples != [] && forall x :: x in samples ==> x >= 0.0
    ensures MedianWithRange(samples).Ok?
    ensures var m := MedianWithRange(samples).value;
            m.samples == |samples| && 0.0 <= m.minimum <= m.median <= m.maximum
  {
    var s := Sort(RealLe, samples);
    SortedReals(samples);
    assert s[0] in s;
    assert forall i :: 0 <= i < |samples| ==> samples[i] in samples;
    var middle := |s| / 2;
    if |s| % 2 == 0 {
      SortedAt(s, 0, middle - 1);
      SortedAt(s, middle - 1, middle);
    } else {
      SortedAt(s, 0, middle);
    }
    SortedAt(s, middle, |s| - 1);
  }
}
