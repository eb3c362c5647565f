/** The rotate-left round schedule and its balance. */
module Schedule {
  import opened Ordering
  import opened Identity
  import opened Arithmetic

  datatype CatalogRun = CatalogRun(catalog: string, name: string, version: string)

  datatype RoundPlan = RoundPlan(repetition: nat, kind: RoundKind, catalogs: seq<CatalogRun>)

  datatype RoundPolicy = RoundPolicy(conditioning: nat, measured: nat)

  datatype PolicyError = NoCatalogs | RoundCountOverflow | UnbalancedMeasuredRounds

  function Rotate<T>(s: seq<T>, offset: nat): (r: seq<T>)
    requires offset <= |s|
  {
    s[offset..] + s[..offset]
  }

  function KindOf(policy: RoundPolicy, index: nat): RoundKind {
    if index < policy.conditioning then Conditioning else Measured
  }

  function PlanAt(catalogs: seq<CatalogRun>, policy: RoundPolicy, index: nat): RoundPlan
    requires catalogs != []
  {
    RoundPlan(index + 1, KindOf(policy, index), Rotate(catalogs, index % |catalogs|))
  }

  method ScheduleRounds(catalogs: seq<CatalogRun>, policy: RoundPolicy) returns (r: Result<seq<RoundPlan>, PolicyError>)
    ensures r.Err? <==> catalogs == [] || policy.conditioning + policy.measured > U32_MAX
    ensures catalogs == [] ==> r == Err(NoCatalogs)
    ensures catalogs != [] && r.Err? ==> r == Err(RoundCountOverflow)
    ensures r.Ok? ==>
              && |r.value| == policy.conditioning + policy.measured
              && forall i :: 0 <= i < |r.value| ==> r.value[i] == PlanAt(catalogs, policy, i)
  {
    if catalogs == [] { return Err(NoCatalogs); }
    var total := policy.conditioning + policy.measured;
    if total > U32_MAX { return Err(RoundCountOverflow); }
    var rounds: seq<RoundPlan> := [];
    for index := 0 to total
      invariant |rounds| == index
      invariant forall i :: 0 <= i < index ==> rounds[i] == PlanAt(catalogs, policy, i)
    {
      var offset := index % |catalogs|;
      var kind := if index < policy.conditioning then Conditioning else Measured;
      rounds := rounds + [RoundPlan(index + 1, kind, catalogs[offset..] + catalogs[..offset])];
    }
    return Ok(rounds);
  }

  lemma RotationPermutes<T>(s: seq<T>, offset: nat)
    requires offset <= |s|
    ensures multiset(Rotate(s, offset)) == multiset(s)
  {
    assert s == s[..offset] + s[offset..];
  }

  /** Position `p` of round `i` holds the catalog `i + p` places along. */
  lemma PositionOf(catalogs: seq<CatalogRun>, policy: RoundPolicy, i: nat, p: nat)
    requires p < |catalogs|
    ensures |PlanAt(catalogs, policy, i).catalogs| == |catalogs|
    ensures PlanAt(catalogs, policy, i).catalogs[p] == catalogs[(i + p) % |catalogs|]
  {
    var n := |catalogs|;
    var offset := i % n;
    ModAdds(i, p, n);
    if offset + p >= n { Wraps(offset + p, n); } else { Unique(offset + p, n, 0, offset + p); }
  }

  /** The round of a block of `n` that puts catalog `j` at position `p`. */
  lemma MeetingRound(start: nat, n: nat, p: nat, j: nat) returns (i: nat)
    requires p < n && j < n
    ensures start <= i < start + n && (i + p) % n == j
  {
    var here := (start + p) % n;
    var step := if j >= here then j - here else j + n - here;
    i := start + step;
    ModAdds(start + p, step, n);
    assert i + p == (start + p) + step;
    if j >= here { Unique(here + step, n, 0, j); } else { Wraps(here + step, n); }
  }

  lemma MeetingIsUnique(a: nat, b: nat, n: nat, p: nat)
    requires p < n && a <= b < a + n && (a + p) % n == (b + p) % n
    ensures a == b
  {
    var x, y, m := (a + p) / n, (b + p) / n, (a + p) % n;
    assert a + p == n * x + m && b + p == n * y + m;
    Scale(n, x, y);
    Scale(n, y, x);
  }

  ghost predicate DistinctRuns(catalogs: seq<CatalogRun>) {
    forall i, j :: 0 <= i < j < |catalogs| ==> catalogs[i].catalog != catalogs[j].catalog
  }

  /** Round `i` of the measured block puts `catalog` at position `p`. */
  predicate Occupies(catalogs: seq<CatalogRun>, policy: RoundPolicy, i: nat, p: nat, catalog: CatalogRun)
    requires p < |catalogs|
  {
    && policy.conditioning <= i < policy.conditioning + policy.measured
    && PlanAt(catalogs, policy, i).kind.Measured?
    && p < |PlanAt(catalogs, policy, i).catalogs| && PlanAt(catalogs, policy, i).catalogs[p] == catalog
  }

  /** Round `i` is the only measured round with `catalog` at position `p`. */
  ghost predicate OccupiesOnce(catalogs: seq<CatalogRun>, policy: RoundPolicy, i: nat, p: nat, catalog: CatalogRun)
    requires p < |catalogs|
  {
    Occupies(catalogs, policy, i, p, catalog) && forall k: nat :: Occupies(catalogs, policy, k, p, catalog) ==> k == i
  }

  ghost predicate Balanced(catalogs: seq<CatalogRun>, policy: RoundPolicy, p: nat)
    requires p < |catalogs|
  {
    forall j: nat :: j < |catalogs| ==> Meets(catalogs, policy, p, catalogs[j])
  }

  ghost predicate Meets(catalogs: seq<CatalogRun>, policy: RoundPolicy, p: nat, catalog: CatalogRun)
    requires p < |catalogs|
  {
    exists i: nat :: OccupiesOnce(catalogs, policy, i, p, catalog)
  }

  lemma SquareCell(catalogs: seq<CatalogRun>, policy: RoundPolicy, p: nat, j: nat) returns (i: nat)
    requires DistinctRuns(catalogs) && policy.measured == |catalogs| && p < |catalogs| && j < |catalogs|
    ensures OccupiesOnce(catalogs, policy, i, p, catalogs[j])
  {
    var n := |catalogs|;
    i := MeetingRound(policy.conditioning, n, p, j);
    PositionOf(catalogs, policy, i, p);
    forall k: nat | Occupies(catalogs, policy, k, p, catalogs[j]) ensures k == i {
      PositionOf(catalogs, policy, k, p);
      assert (k + p) % n == j;
      if k <= i { MeetingIsUnique(k, i, n, p); } else { MeetingIsUnique(i, k, n, p); }
    }
  }

  /** Every round runs every catalog exactly once. */
  lemma EveryRoundIsAPermutation(catalogs: seq<CatalogRun>, policy: RoundPolicy, i: nat)
    requires catalogs != []
    ensures multiset(PlanAt(catalogs, policy, i).catalogs) == multiset(catalogs)
  {
    RotationPermutes(catalogs, i % |catalogs|);
  }

  lemma TooManyRounds(catalogs: seq<CatalogRun>, policy: RoundPolicy)
    requires catalogs != [] && policy.measured > |catalogs|
    ensures !Balanced(catalogs, policy, 0)
  {
    // A catalog returns to the head of the order after |catalogs| rounds.
    var n, start := |catalogs|, policy.conditioning;
    var j := start % n;
    PositionOf(catalogs, policy, start, 0);
    PositionOf(catalogs, policy, start + n, 0);
    FullTurn(start, n);
    assert Occupies(catalogs, policy, start, 0, catalogs[j]) && Occupies(catalogs, policy, start + n, 0, catalogs[j]);
    assert !Meets(catalogs, policy, 0, catalogs[j]);
  }

  lemma TooFewRounds(catalogs: seq<CatalogRun>, policy: RoundPolicy)
    requires DistinctRuns(catalogs) && policy.measured < |catalogs|
    ensures !Balanced(catalogs, policy, 0)
  {
    var n, end := |catalogs|, policy.conditioning + policy.measured;
    var j := end % n;
    forall i: nat ensures !Occupies(catalogs, policy, i, 0, catalogs[j]) {
      PositionOf(catalogs, policy, i, 0);
      if Occupies(catalogs, policy, i, 0, catalogs[j]) {
        assert i % n == j;
        MeetingIsUnique(i, end, n, 0);
      }
    }
    assert !Meets(catalogs, policy, 0, catalogs[j]);
  }

  lemma SquareIsBalanced(catalogs: seq<CatalogRun>, policy: RoundPolicy, p: nat)
    requires DistinctRuns(catalogs) && policy.measured == |catalogs| && p < |catalogs|
    ensures Balanced(catalogs, policy, p)
  {
    forall j: nat | j < |catalogs| ensures Meets(catalogs, policy, p, catalogs[j]) {
      var i := SquareCell(catalogs, policy, p, j);
      assert OccupiesOnce(catalogs, policy, i, p, catalogs[j]);
    }
  }

  /** The measured block is a Latin square, each catalog in each position in
      exactly one round, if and only if there is one measured round per
      catalog. The number of conditioning rounds does not matter. */
  lemma LatinSquare(catalogs: seq<CatalogRun>, policy: RoundPolicy)
    requires catalogs != [] && DistinctRuns(catalogs)
    ensures policy.measured == |catalogs| <==> forall p: nat :: p < |catalogs| ==> Balanced(catalogs, policy, p)
  {
    if policy.measured == |catalogs| {
      forall p: nat | p < |catalogs| ensures Balanced(catalogs, policy, p) {
        SquareIsBalanced(catalogs, policy, p);
      }
    } else if policy.measured < |catalogs| {
      TooFewRounds(catalogs, policy);
    } else {
      TooManyRounds(catalogs, policy);
    }
  }
}
