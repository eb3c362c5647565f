/** Results, options and the total-order sorting that the statistics, the
    ranking and the row oracle share. */
module Ordering {

  datatype Option<+T> = None | Some(value: T)

  datatype Result<+T, +E> = Ok(value: T) | Err(error: E)

  const U32_MAX: int := 0xFFFF_FFFF
  const U64_MAX: int := 0xFFFF_FFFF_FFFF_FFFF

  type u64 = x: int | 0 <= x <= U64_MAX

  // ---------- sorting ----------

  ghost predicate Total<T(!new)>(le: (T, T) -> bool) {
    && (forall x, y :: le(x, y) || le(y, x))
    && (forall x, y, z :: le(x, y) && le(y, z) ==> le(x, z))
  }

  ghost predicate AntisymmetricOn<T(!new)>(le: (T, T) -> bool, s: seq<T>) {
    forall x, y :: x in s && y in s && le(x, y) && le(y, x) ==> x == y
  }

  ghost predicate Sorted<T(!new)>(le: (T, T) -> bool, s: seq<T>) {
    forall i, j :: 0 <= i < j < |s| ==> le(s[i], s[j])
  }

  function Insert<T>(le: (T, T) -> bool, x: T, s: seq<T>): (r: seq<T>)
    ensures |r| == |s| + 1
  {
    if s == [] || le(x, s[0]) then [x] + s else [s[0]] + Insert(le, x, s[1..])
  }

  /** The ordering that Rust's `sort_by` leaves behind. */
  function Sort<T>(le: (T, T) -> bool, s: seq<T>): (r: seq<T>)
    ensures |r| == |s|
  {
    if s == [] then [] else Insert(le, s[0], Sort(le, s[1..]))
  }

  lemma {:induction false} InsertPermutes<T>(le: (T, T) -> bool, x: T, s: seq<T>)
    ensures multiset(Insert(le, x, s)) == multiset{x} + multiset(s)
  {
    if s != [] && !le(x, s[0]) {
      InsertPermutes(le, x, s[1..]);
      assert s == [s[0]] + s[1..];
    }
  }

  lemma {:induction false} SortPermutes<T>(le: (T, T) -> bool, s: seq<T>)
    ensures multiset(Sort(le, s)) == multiset(s)
  {
    if s != [] {
      SortPermutes(le, s[1..]);
      InsertPermutes(le, s[0], Sort(le, s[1..]));
      assert s == [s[0]] + s[1..];
    }
  }

  lemma {:induction false} InsertSorts<T(!new)>(le: (T, T) -> bool, x: T, s: seq<T>)
    requires Total(le) && Sorted(le, s)
    ensures Sorted(le, Insert(le, x, s))
  {
    if s != [] && !le(x, s[0]) {
      InsertSorts(le, x, s[1..]);
      var rest := Insert(le, x, s[1..]);
      InsertPermutes(le, x, s[1..]);
      forall j | 0 <= j < |rest| ensures le(s[0], rest[j]) {
        assert rest[j] in multiset(rest);
        assert rest[j] == x || rest[j] in s[1..];
      }
    }
  }

  lemma {:induction false} SortSorts<T(!new)>(le: (T, T) -> bool, s: seq<T>)
    requires Total(le)
    ensures Sorted(le, Sort(le, s))
  {
    if s != [] {
      SortSorts(le, s[1..]);
      InsertSorts(le, s[0], Sort(le, s[1..]));
    }
  }

  lemma SameElements<T>(a: seq<T>, b: seq<T>)
    requires multiset(a) == multiset(b)
    ensures forall x :: x in a <==> x in b
    ensures |a| == |b|
  {
    forall x ensures x in a <==> x in b {
      assert x in a <==> x in multiset(a);
      assert x in b <==> x in multiset(b);
    }
    assert |multiset(a)| == |multiset(b)|;
  }

  lemma HeadAndTail<T>(s: seq<T>)
    requires s != []
    ensures multiset(s) == multiset{s[0]} + multiset(s[1..])
  {
    assert s == [s[0]] + s[1..];
  }

  lemma SplitAt<T>(s: seq<T>, k: nat)
    requires k < |s|
    ensures s == s[..k] + ([s[k]] + s[k + 1..])
  {
  }

  lemma Cancel<T>(x: T, m: multiset<T>, n: multiset<T>)
    requires multiset{x} + m == multiset{x} + n
    ensures m == n
  {
    assert m == (multiset{x} + m) - multiset{x};
    assert n == (multiset{x} + n) - multiset{x};
  }

  lemma Without<T>(s: seq<T>, k: nat)
    requires k < |s|
    ensures multiset(s) == multiset{s[k]} + multiset(s[..k] + s[k + 1..])
  {
    var left, right := s[..k], s[k + 1..];
    SplitAt(s, k);
    assert multiset([s[k]] + right) == multiset{s[k]} + multiset(right);
    assert multiset(s) == multiset(left) + multiset([s[k]] + right);
  }

  /** Matches the head of one sequence with its place in a permutation of it. */
  lemma Extract<T>(a: seq<T>, b: seq<T>) returns (k: nat)
    requires a != [] && multiset(a) == multiset(b)
    ensures k < |b| && b[k] == a[0]
    ensures multiset(a[1..]) == multiset(b[..k] + b[k + 1..])
  {
    SameElements(a, b);
    assert a[0] in b;
    k :| 0 <= k < |b| && b[k] == a[0];
    HeadAndTail(a);
    Without(b, k);
    Cancel(a[0], multiset(a[1..]), multiset(b[..k] + b[k + 1..]));
  }

  lemma Associate<T>(a: seq<T>, b: seq<T>, c: seq<T>)
    ensures (a + b) + c == a + (b + c)
  {
  }

  /** A multiset has one sorted listing: sorting forgets the original order. */
  lemma {:induction false} SortedUnique<T(!new)>(le: (T, T) -> bool, a: seq<T>, b: seq<T>)
    requires Sorted(le, a) && Sorted(le, b)
    requires multiset(a) == multiset(b)
    requires AntisymmetricOn(le, a)
    ensures a == b
  {
    SameElements(a, b);
    if a != [] {
      FirstAgree(le, a, b);
      HeadAndTail(a);
      HeadAndTail(b);
      assert forall x :: x in a[1..] ==> x in a;
      Cancel(a[0], multiset(a[1..]), multiset(b[1..]));
      SortedUnique(le, a[1..], b[1..]);
      SplitAt(a, 0);
      SplitAt(b, 0);
    }
  }

  lemma FirstAgree<T(!new)>(le: (T, T) -> bool, a: seq<T>, b: seq<T>)
    requires a != [] && b != [] && Sorted(le, a) && Sorted(le, b)
    requires forall x :: x in a <==> x in b
    requires AntisymmetricOn(le, a)
    ensures a[0] == b[0]
  {
    assert a[0] in b && b[0] in a;
    var i :| 0 <= i < |b| && b[i] == a[0];
    var j :| 0 <= j < |a| && a[j] == b[0];
    assert i > 0 ==> le(b[0], b[i]);
    assert j > 0 ==> le(a[0], a[j]);
  }

  /** Permuted inputs sort to the same sequence. */
  lemma SortIsPermutationInvariant<T(!new)>(le: (T, T) -> bool, a: seq<T>, b: seq<T>)
    requires Total(le) && multiset(a) == multiset(b) && AntisymmetricOn(le, a)
    ensures Sort(le, a) == Sort(le, b)
  {
    SortPermutes(le, a);
    SortPermutes(le, b);
    SortSorts(le, a);
    SortSorts(le, b);
    SameElements(Sort(le, a), a);
    SortedUnique(le, Sort(le, a), Sort(le, b));
  }

  // ---------- the two element orders ----------

  predicate RealLe(x: real, y: real) {
    x <= y
  }

  lemma RealLeIsTotal()
    ensures Total(RealLe)
    ensures forall s: seq<real> :: AntisymmetricOn(RealLe, s)
  {
  }

  /** Lexicographic comparison of identifiers, as `str::cmp` orders them. */
  predicate StringLe(a: string, b: string) {
    if a == [] then true
    else if b == [] then false
    else if a[0] != b[0] then a[0] < b[0]
    else StringLe(a[1..], b[1..])
  }

  lemma {:induction false} StringLeTotal(a: string, b: string)
    ensures StringLe(a, b) || StringLe(b, a)
    ensures StringLe(a, b) && StringLe(b, a) ==> a == b
  {
    if a != [] && b != [] && a[0] == b[0] {
      StringLeTotal(a[1..], b[1..]);
      assert a == [a[0]] + a[1..] && b == [b[0]] + b[1..];
    }
  }

  lemma {:induction false} StringLeTransitive(a: string, b: string, c: string)
    requires StringLe(a, b) && StringLe(b, c)
    ensures StringLe(a, c)
  {
    if a != [] && a[0] == b[0] && b[0] == c[0] {
      StringLeTransitive(a[1..], b[1..], c[1..]);
    }
  }

  // ---------- small sequence tools ----------

  function Map<A, B>(f: A -> B, s: seq<A>): (r: seq<B>)
    ensures |r| == |s|
    ensures forall i :: 0 <= i < |s| ==> r[i] == f(s[i])
  {
    seq(|s|, i requires 0 <= i < |s| => f(s[i]))
  }

  function Filter<T(!new)>(keep: T -> bool, s: seq<T>): (r: seq<T>)
    ensures |r| <= |s|
  {
    if s == [] then [] else (if keep(s[0]) then [s[0]] else []) + Filter(keep, s[1..])
  }

  lemma {:induction false} FilterMembers<T(!new)>(keep: T -> bool, s: seq<T>)
    ensures forall x :: x in Filter(keep, s) <==> x in s && keep(x)
  {
    if s != [] {
      FilterMembers(keep, s[1..]);
      assert s == [s[0]] + s[1..];
    }
  }

  function Flatten<T>(parts: seq<seq<T>>): (r: seq<T>) {
    if parts == [] then [] else parts[0] + Flatten(parts[1..])
  }

  lemma MapAppend<A, B>(f: A -> B, a: seq<A>, b: seq<A>)
    ensures Map(f, a + b) == Map(f, a) + Map(f, b)
  {
  }

  lemma {:induction false} FilterAppend<T(!new)>(keep: T -> bool, a: seq<T>, b: seq<T>)
    ensures Filter(keep, a + b) == Filter(keep, a) + Filter(keep, b)
  {
    if a == [] {
      assert a + b == b;
    } else {
      var head := if keep(a[0]) then [a[0]] else [];
      assert (a + b)[1..] == a[1..] + b && (a + b)[0] == a[0];
      FilterAppend(keep, a[1..], b);
      Associate(head, Filter(keep, a[1..]), Filter(keep, b));
    }
  }

  lemma {:induction false} FlattenAppend<T>(a: seq<seq<T>>, b: seq<seq<T>>)
    ensures Flatten(a + b) == Flatten(a) + Flatten(b)
  {
    if a == [] {
      assert a + b == b;
    } else {
      FlattenAppend(a[1..], b);
      assert (a + b)[1..] == a[1..] + b && (a + b)[0] == a[0];
      Associate(a[0], Flatten(a[1..]), Flatten(b));
    }
  }

  lemma {:induction false} FlattenSplit<T>(parts: seq<seq<T>>, k: nat)
    requires k < |parts|
    ensures multiset(Flatten(parts)) == multiset(parts[k]) + multiset(Flatten(parts[..k] + parts[k + 1..]))
  {
    if k == 0 {
      assert parts[..0] + parts[1..] == parts[1..];
    } else {
      FlattenSplit(parts[1..], k - 1);
      var rest := parts[..k] + parts[k + 1..];
      assert rest[0] == parts[0];
      assert rest[1..] == parts[1..][..k - 1] + parts[1..][k..];
    }
  }

  /** Concatenating the parts in another order keeps the multiset of elements. */
  lemma {:induction false} FlattenPermutes<T>(a: seq<seq<T>>, b: seq<seq<T>>)
    requires multiset(a) == multiset(b)
    ensures multiset(Flatten(a)) == multiset(Flatten(b))
  {
    if a == [] {
      SameElements(a, b);
    } else {
      var k := Extract(a, b);
      FlattenSplit(b, k);
      FlattenPermutes(a[1..], b[..k] + b[k + 1..]);
    }
  }

  lemma {:induction false} MapPermutes<A, B>(f: A -> B, a: seq<A>, b: seq<A>)
    requires multiset(a) == multiset(b)
    ensures multiset(Map(f, a)) == multiset(Map(f, b))
  {
    if a == [] {
      SameElements(a, b);
    } else {
      var k := Extract(a, b);
      MapPermutes(f, a[1..], b[..k] + b[k + 1..]);
      HeadAndTail(Map(f, a));
      assert Map(f, a)[1..] == Map(f, a[1..]);
      Without(Map(f, b), k);
      assert Map(f, b)[..k] + Map(f, b)[k + 1..] == Map(f, b[..k] + b[k + 1..]);
    }
  }

  lemma FilterWithout<T(!new)>(keep: T -> bool, s: seq<T>, k: nat)
    requires k < |s|
    ensures multiset(Filter(keep, s))
         == multiset(if keep(s[k]) then [s[k]] else []) + multiset(Filter(keep, s[..k] + s[k + 1..]))
  {
    var left, right := s[..k], s[k + 1..];
    var x, z := Filter(keep, left), Filter(keep, right);
    var y := if keep(s[k]) then [s[k]] else [];
    FilterOne(keep, s[k], right);
    FilterAppend(keep, left, right);
    FilterAppend(keep, left, [s[k]] + right);
    SplitAt(s, k);
    Reorder(x, y, z);
  }

  lemma Reorder<T>(x: seq<T>, y: seq<T>, z: seq<T>)
    ensures multiset(x + (y + z)) == multiset(y) + multiset(x + z)
  {
    assert multiset(x + (y + z)) == multiset(x) + multiset(y + z);
  }

  lemma FilterOne<T(!new)>(keep: T -> bool, x: T, rest: seq<T>)
    ensures Filter(keep, [x] + rest) == (if keep(x) then [x] else []) + Filter(keep, rest)
  {
    assert ([x] + rest)[1..] == rest;
  }

  lemma {:induction false} FilterPermutes<T(!new)>(keep: T -> bool, a: seq<T>, b: seq<T>)
    requires multiset(a) == multiset(b)
    ensures multiset(Filter(keep, a)) == multiset(Filter(keep, b))
  {
    if a == [] {
      SameElements(a, b);
    } else {
      var k := Extract(a, b);
      FilterPermutes(keep, a[1..], b[..k] + b[k + 1..]);
      FilterWithout(keep, b, k);
      FilterWithout(keep, a, 0);
      assert a[..0] + a[1..] == a[1..];
    }
  }
}
