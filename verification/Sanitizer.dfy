/** The JSON sanitizer and the pointers it reports (sections 3 and 4 of RFC
    6901). Key and text policies stay uninterpreted. */
module Sanitizer {
  import opened Ordering
  import opened Identity

  datatype Json =
    | JNull | JBool(value: bool) | JNumber(digits: string) | JString(text: string)
    | JArray(items: seq<Json>) | JObject(members: seq<Member>)
  datatype Member = Member(key: string, value: Json)

  /** `rewrite` gives the replacement of a string that must not be published. */
  datatype Policy = Policy(sensitiveKey: string -> bool, rewrite: string -> Option<string>)

  type Path = seq<string>

  // ---------- pointers ----------

  function EscapeChar(c: char): (r: string)
    ensures 0 < |r| <= 2 && '/' !in r
  {
    if c == '~' then "~0" else if c == '/' then "~1" else [c]
  }

  function Escape(segment: string): (r: string) {
    if segment == "" then "" else EscapeChar(segment[0]) + Escape(segment[1..])
  }

  /** Section 4 of RFC 6901: `~1` stands for a slash and `~0` for a tilde. */
  function Unescape(s: string): string {
    if s == "" then ""
    else if |s| >= 2 && s[0] == '~' && s[1] == '1' then "/" + Unescape(s[2..])
    else if |s| >= 2 && s[0] == '~' && s[1] == '0' then "~" + Unescape(s[2..])
    else [s[0]] + Unescape(s[1..])
  }

  lemma {:induction false} UnescapeEscape(segment: string)
    ensures Unescape(Escape(segment)) == segment
    ensures '/' !in Escape(segment)
  {
    if segment != "" {
      UnescapeEscape(segment[1..]);
      var head, rest := EscapeChar(segment[0]), Escape(segment[1..]);
      assert segment == [segment[0]] + segment[1..];
      if |head| == 2 { assert (head + rest)[2..] == rest; } else { assert (head + rest)[1..] == rest; }
    }
  }

  function Render(path: Path): string {
    if path == [] then "" else "/" + Escape(path[0]) + Render(path[1..])
  }

  function SegmentLength(s: string): (n: nat)
    ensures n <= |s| && '/' !in s[..n] && (n < |s| ==> s[n] == '/')
  {
    if s == "" || s[0] == '/' then 0
    else
      var n := SegmentLength(s[1..]);
      assert s[..n + 1] == [s[0]] + s[1..][..n];
      n + 1
  }

  /** Reading a pointer back into its reference tokens. */
  function ReadPointer(s: string): Option<Path>
    decreases |s|
  {
    if s == "" then Some([])
    else if s[0] != '/' then None
    else
      var n := SegmentLength(s[1..]);
      match ReadPointer(s[1 + n..])
      case None => None
      case Some(rest) => Some([Unescape(s[1..1 + n])] + rest)
  }

  lemma {:induction false} SegmentIs(segment: string, rest: string)
    requires '/' !in segment && (rest == "" || rest[0] == '/')
    ensures SegmentLength(segment + rest) == |segment|
  {
    if segment == "" {
      assert segment + rest == rest;
    } else {
      assert segment[0] in segment;
      SegmentIs(segment[1..], rest);
      assert (segment + rest)[1..] == segment[1..] + rest;
    }
  }

  lemma ReadsSegment(segment: string, rest: string)
    requires '/' !in segment && (rest == "" || rest[0] == '/') && ReadPointer(rest).Some?
    ensures ReadPointer("/" + segment + rest) == Some([Unescape(segment)] + ReadPointer(rest).value)
  {
    var s := "/" + segment + rest;
    SegmentIs(segment, rest);
    assert s[1..] == segment + rest;
    assert s[1..1 + |segment|] == segment && s[1 + |segment|..] == rest;
  }

  /** Every path reads back from its pointer, so pointers are injective. */
  lemma {:induction false} ReadRendered(path: Path)
    ensures ReadPointer(Render(path)) == Some(path)
    ensures Render(path) == "" || Render(path)[0] == '/'
  {
    if path != [] {
      ReadRendered(path[1..]);
      UnescapeEscape(path[0]);
      ReadsSegment(Escape(path[0]), Render(path[1..]));
      assert path == [path[0]] + path[1..];
    }
  }

  lemma RenderInjective(p: Path, q: Path)
    requires Render(p) == Render(q)
    ensures p == q
  {
    ReadRendered(p);
    ReadRendered(q);
  }

  // ---------- resolving a path in a document ----------

  function FindMember(members: seq<Member>, key: string): Option<Json> {
    if members == [] then None
    else if members[|members| - 1].key == key then Some(members[|members| - 1].value)
    else FindMember(members[..|members| - 1], key)
  }

  function FindItem(items: seq<Json>, token: string): Option<Json> {
    if items == [] then None
    else if Decimal(|items| - 1) == token then Some(items[|items| - 1])
    else FindItem(items[..|items| - 1], token)
  }

  function Child(v: Json, token: string): Option<Json> {
    match v
    case JObject(members) => FindMember(members, token)
    case JArray(items) => FindItem(items, token)
    case _ => None
  }

  function Resolve(v: Json, path: Path): Option<Json>
    decreases |path|
  {
    if path == [] then Some(v)
    else match Child(v, path[0]) case None => None case Some(c) => Resolve(c, path[1..])
  }

  predicate DistinctKeys(members: seq<Member>) {
    forall i, j :: 0 <= i < j < |members| ==> members[i].key != members[j].key
  }

  /** Object keys are unique throughout, as the JSON map type keeps them. */
  predicate WellFormed(v: Json) {
    match v
    case JObject(members) => DistinctKeys(members) && forall i :: 0 <= i < |members| ==> WellFormed(members[i].value)
    case JArray(items) => forall i :: 0 <= i < |items| ==> WellFormed(items[i])
    case _ => true
  }

  lemma {:induction false} FoundMember(members: seq<Member>, i: nat)
    requires DistinctKeys(members) && i < |members|
    ensures FindMember(members, members[i].key) == Some(members[i].value)
  {
    if i < |members| - 1 {
      var front := members[..|members| - 1];
      assert front[i] == members[i];
      FoundMember(front, i);
    }
  }

  lemma {:induction false} MemberAt(members: seq<Member>, key: string) returns (i: nat)
    requires FindMember(members, key).Some?
    ensures i < |members| && members[i].key == key && FindMember(members, key).value == members[i].value
  {
    if members[|members| - 1].key == key { i := |members| - 1; } else { i := MemberAt(members[..|members| - 1], key); }
  }

  lemma {:induction false} FoundItem(items: seq<Json>, i: nat)
    requires i < |items|
    ensures FindItem(items, Decimal(i)) == Some(items[i])
  {
    if i < |items| - 1 {
      if Decimal(|items| - 1) == Decimal(i) { DecimalInjective(|items| - 1, i); }
      FoundItem(items[..|items| - 1], i);
    }
  }

  lemma {:induction false} ItemAt(items: seq<Json>, token: string) returns (i: nat)
    requires FindItem(items, token).Some?
    ensures i < |items| && Decimal(i) == token && FindItem(items, token).value == items[i]
  {
    if Decimal(|items| - 1) == token { i := |items| - 1; } else { i := ItemAt(items[..|items| - 1], token); }
  }

  // ---------- sanitizing ----------

  const REDACTED := "<redacted>"

  function Sanitized(policy: Policy, v: Json): Json {
    match v
    case JObject(members) =>
      JObject(seq(|members|, i requires 0 <= i < |members| =>
        Member(members[i].key, if policy.sensitiveKey(members[i].key) then JString(REDACTED)
          else Sanitized(policy, members[i].value))))
    case JArray(items) => JArray(seq(|items|, i requires 0 <= i < |items| => Sanitized(policy, items[i])))
    case JString(text) => if policy.rewrite(text).Some? then JString(policy.rewrite(text).value) else v
    case _ => v
  }

  function Under(token: string, paths: seq<Path>): (r: seq<Path>)
    ensures |r| == |paths|
  {
    seq(|paths|, i requires 0 <= i < |paths| => [token] + paths[i])
  }

  /** The redacted paths, in the order they are reported. */
  function Redactions(policy: Policy, v: Json): seq<Path>
    decreases v, 1
  {
    match v
    case JString(text) => if policy.rewrite(text).Some? then [[]] else []
    case _ => Flatten(Parts(policy, v))
  }

  /** The reports of each child, in order. */
  function Parts(policy: Policy, v: Json): seq<seq<Path>>
    decreases v, 0
  {
    match v
    case JObject(members) =>
      seq(|members|, i requires 0 <= i < |members| =>
        if policy.sensitiveKey(members[i].key) then [[members[i].key]]
          else Under(members[i].key, Redactions(policy, members[i].value)))
    case JArray(items) => seq(|items|, i requires 0 <= i < |items| => Under(Decimal(i), Redactions(policy, items[i])))
    case _ => []
  }

  lemma {:induction false} FlattenMembers(parts: seq<seq<Path>>, p: Path)
    ensures p in Flatten(parts) <==> exists i :: 0 <= i < |parts| && p in parts[i]
  {
    if parts != [] {
      FlattenMembers(parts[1..], p);
      if i :| 0 <= i < |parts| && p in parts[i] {
        if i > 0 { assert parts[1..][i - 1] == parts[i]; }
      }
    }
  }

  // ---------- reports resolve in the output ----------

  predicate IsContainer(v: Json) { v.JObject? || v.JArray? }

  function Size(v: Json): nat {
    match v case JObject(members) => |members| case JArray(items) => |items| case _ => 0
  }

  function TokenAt(v: Json, i: nat): string
    requires i < Size(v)
  {
    if v.JObject? then v.members[i].key else Decimal(i)
  }

  function ChildAt(v: Json, i: nat): (c: Json)
    requires i < Size(v)
    ensures c < v
  {
    if v.JObject? then v.members[i].value else v.items[i]
  }

  predicate Hidden(policy: Policy, v: Json, i: nat)
    requires i < Size(v)
  {
    v.JObject? && policy.sensitiveKey(v.members[i].key)
  }

  lemma PartAt(policy: Policy, v: Json, i: nat)
    requires i < Size(v)
    ensures |Parts(policy, v)| == Size(v)
    ensures Parts(policy, v)[i] ==
              if Hidden(policy, v, i) then [[TokenAt(v, i)]]
                else Under(TokenAt(v, i), Redactions(policy, ChildAt(v, i)))
  {
  }

  lemma ChildIs(v: Json, i: nat)
    requires WellFormed(v) && i < Size(v)
    ensures Child(v, TokenAt(v, i)) == Some(ChildAt(v, i)) && WellFormed(ChildAt(v, i))
  {
    if v.JObject? { FoundMember(v.members, i); } else { FoundItem(v.items, i); }
  }

  lemma SanitizedShape(policy: Policy, v: Json)
    requires WellFormed(v) && IsContainer(v)
    ensures IsContainer(Sanitized(policy, v)) && Size(Sanitized(policy, v)) == Size(v)
    ensures forall i :: 0 <= i < Size(v) ==>
              && TokenAt(Sanitized(policy, v), i) == TokenAt(v, i)
              && ChildAt(Sanitized(policy, v), i) == if Hidden(policy, v, i) then JString(REDACTED)
                 else Sanitized(policy, ChildAt(v, i))
  {
  }

  lemma SanitizedChild(policy: Policy, v: Json, i: nat)
    requires WellFormed(v) && i < Size(v)
    ensures Child(Sanitized(policy, v), TokenAt(v, i))
         == Some(if Hidden(policy, v, i) then JString(REDACTED) else Sanitized(policy, ChildAt(v, i)))
  {
    SanitizedShape(policy, v);
    var out := Sanitized(policy, v);
    if v.JObject? {
      assert DistinctKeys(out.members);
      FoundMember(out.members, i);
    } else {
      FoundItem(out.items, i);
    }
  }

  /** A reported path of a container lies in one child. */
  lemma ReportedBelow(policy: Policy, v: Json, p: Path) returns (i: nat)
    requires IsContainer(v) && p in Redactions(policy, v)
    ensures i < Size(v) && p != [] && p[0] == TokenAt(v, i)
    ensures if Hidden(policy, v, i) then p == [TokenAt(v, i)] else p[1..] in Redactions(policy, ChildAt(v, i))
  {
    FlattenMembers(Parts(policy, v), p);
    i :| 0 <= i < |Parts(policy, v)| && p in Parts(policy, v)[i];
    assert |Parts(policy, v)| == Size(v);
    PartAt(policy, v, i);
    if !Hidden(policy, v, i) {
      var inner := Redactions(policy, ChildAt(v, i));
      var k :| 0 <= k < |inner| && Under(TokenAt(v, i), inner)[k] == p;
      assert p[1..] == inner[k];
    }
  }

  lemma ReportedAbove(policy: Policy, v: Json, i: nat, p: Path)
    requires i < Size(v)
    requires if Hidden(policy, v, i) then p == [] else p in Redactions(policy, ChildAt(v, i))
    ensures [TokenAt(v, i)] + p in Redactions(policy, v)
  {
    PartAt(policy, v, i);
    FlattenMembers(Parts(policy, v), [TokenAt(v, i)] + p);
    if !Hidden(policy, v, i) {
      var inner := Redactions(policy, ChildAt(v, i));
      var k :| 0 <= k < |inner| && inner[k] == p;
      assert Under(TokenAt(v, i), inner)[k] == [TokenAt(v, i)] + p;
    } else {
      assert [TokenAt(v, i)] + [] == [TokenAt(v, i)];
    }
  }

  /** Every reported pointer resolves, in the original and in the output, and
      in the output it names a replacement string. */
  lemma {:induction false} ReportsResolve(policy: Policy, v: Json, p: Path)
    requires WellFormed(v) && p in Redactions(policy, v)
    ensures Resolve(v, p).Some? && Resolve(Sanitized(policy, v), p).Some? &&
            Resolve(Sanitized(policy, v), p).value.JString?
    decreases v
  {
    if IsContainer(v) {
      var i := ReportedBelow(policy, v, p);
      ChildIs(v, i);
      SanitizedChild(policy, v, i);
      if !Hidden(policy, v, i) { ReportsResolve(policy, ChildAt(v, i), p[1..]); }
    }
  }

  // ---------- reports cover every change ----------

  predicate IsPrefix(p: Path, q: Path) { |p| <= |q| && q[..|p|] == p }

  lemma ChildOf(v: Json, token: string) returns (i: nat)
    requires Child(v, token).Some?
    ensures i < Size(v) && TokenAt(v, i) == token && ChildAt(v, i) == Child(v, token).value
  {
    if v.JObject? { i := MemberAt(v.members, token); } else { i := ItemAt(v.items, token); }
  }

  lemma {:induction false} UnreportedIsUnchanged(policy: Policy, v: Json)
    requires Redactions(policy, v) == []
    ensures Sanitized(policy, v) == v
    decreases v
  {
    if IsContainer(v) {
      forall i | 0 <= i < Size(v) ensures !Hidden(policy, v, i) && Sanitized(policy, ChildAt(v, i)) == ChildAt(v, i) {
        QuietChild(policy, v, i);
        UnreportedIsUnchanged(policy, ChildAt(v, i));
      }
      if v.JObject? {
        var out := Sanitized(policy, v);
        assert forall i :: 0 <= i < Size(v) ==>
               out.members[i] == Member(v.members[i].key, Sanitized(policy, ChildAt(v, i)));
        assert forall i :: 0 <= i < Size(v) ==> out.members[i] == v.members[i];
        assert out.members == v.members;
      } else {
        var out := Sanitized(policy, v);
        assert forall i :: 0 <= i < Size(v) ==> out.items[i] == Sanitized(policy, ChildAt(v, i));
        assert out.items == v.items;
      }
    }
  }

  lemma QuietChild(policy: Policy, v: Json, i: nat)
    requires i < Size(v) && Redactions(policy, v) == []
    ensures !Hidden(policy, v, i) && Redactions(policy, ChildAt(v, i)) == []
  {
    if Hidden(policy, v, i) {
      ReportedAbove(policy, v, i, []);
    } else {
      var inner := Redactions(policy, ChildAt(v, i));
      if inner != [] { ReportedAbove(policy, v, i, inner[0]); }
    }
  }

  /** Outside the reported subtrees the output is the sanitized original. */
  lemma {:induction false} OutsideReports(policy: Policy, v: Json, path: Path)
    requires WellFormed(v) && Resolve(v, path).Some?
    ensures Covered(policy, v, path)
         || Resolve(Sanitized(policy, v), path) == Some(Sanitized(policy, Resolve(v, path).value))
    decreases |path|
  {
    if path != [] {
      var i := ChildOf(v, path[0]);
      ChildIs(v, i);
      SanitizedChild(policy, v, i);
      if Hidden(policy, v, i) {
        HiddenCovers(policy, v, i, path);
      } else {
        OutsideReports(policy, ChildAt(v, i), path[1..]);
        if Covered(policy, ChildAt(v, i), path[1..]) { InnerCovers(policy, v, i, path); }
      }
    }
  }

  /** The path leads into a reported subtree. */
  predicate Covered(policy: Policy, v: Json, path: Path) {
    exists r :: r in Redactions(policy, v) && IsPrefix(r, path)
  }

  lemma HiddenCovers(policy: Policy, v: Json, i: nat, path: Path)
    requires i < Size(v) && Hidden(policy, v, i) && path != [] && path[0] == TokenAt(v, i)
    ensures Covered(policy, v, path)
  {
    ReportedAbove(policy, v, i, []);
    assert IsPrefix([path[0]] + [], path);
  }

  lemma InnerCovers(policy: Policy, v: Json, i: nat, path: Path)
    requires i < Size(v) && !Hidden(policy, v, i) && path != [] && path[0] == TokenAt(v, i)
    requires Covered(policy, ChildAt(v, i), path[1..])
    ensures Covered(policy, v, path)
  {
    var r :| r in Redactions(policy, ChildAt(v, i)) && IsPrefix(r, path[1..]);
    ReportedAbove(policy, v, i, r);
    assert path == [path[0]] + path[1..];
    PrefixCons(path[0], r, path[1..]);
  }

  lemma PrefixCons(token: string, p: Path, q: Path)
    ensures IsPrefix(p, q) ==> IsPrefix([token] + p, [token] + q)
  {
    assert IsPrefix(p, q) ==> ([token] + q)[..|p| + 1] == [token] + q[..|p|];
  }

  /** A report of a subtree is a report of the document, or hidden by one. */
  lemma {:induction false} ReportsExtend(policy: Policy, v: Json, path: Path, r: Path) returns (q: Path)
    requires WellFormed(v) && Resolve(v, path).Some? && r in Redactions(policy, Resolve(v, path).value)
    ensures q in Redactions(policy, v) && (q == path + r || IsPrefix(q, path))
    decreases |path|
  {
    if path == [] {
      q := r;
      assert path + r == r;
    } else {
      var token, rest := path[0], path[1..];
      var i := ChildOf(v, token);
      ChildIs(v, i);
      assert path == [token] + rest;
      if Hidden(policy, v, i) {
        ReportedAbove(policy, v, i, []);
        q := [token] + [];
      } else {
        var inner := ReportsExtend(policy, ChildAt(v, i), rest, r);
        ReportedAbove(policy, v, i, inner);
        q := [token] + inner;
        PrefixCons(token, inner, rest);
        Associate([token], rest, r);
      }
    }
  }

  /** A node that changed is reported itself, or lies below or above a report. */
  lemma ReportsCoverChanges(policy: Policy, v: Json, path: Path)
    requires WellFormed(v) && Resolve(v, path).Some? && Resolve(Sanitized(policy, v), path) != Resolve(v, path)
    ensures exists r :: r in Redactions(policy, v) && (IsPrefix(r, path) || IsPrefix(path, r))
  {
    OutsideReports(policy, v, path);
    if !exists r :: r in Redactions(policy, v) && IsPrefix(r, path) {
      var node := Resolve(v, path).value;
      var inner := Redactions(policy, node);
      if inner == [] { UnreportedIsUnchanged(policy, node); }
      var q := ReportsExtend(policy, v, path, inner[0]);
      assert (path + inner[0])[..|path|] == path;
    }
  }

  // ---------- reports are pairwise distinct ----------

  predicate DistinctPaths(paths: seq<Path>) {
    forall i, j :: 0 <= i < j < |paths| ==> paths[i] != paths[j]
  }

  lemma {:induction false} FlattenDistinct(parts: seq<seq<Path>>)
    requires forall i :: 0 <= i < |parts| ==> DistinctPaths(parts[i])
    requires forall i, j, p :: 0 <= i < j < |parts| && p in parts[i] ==> p !in parts[j]
    ensures DistinctPaths(Flatten(parts))
  {
    if parts != [] {
      var rest := Flatten(parts[1..]);
      FlattenDistinct(parts[1..]);
      forall p | p in parts[0] ensures p !in rest {
        FlattenMembers(parts[1..], p);
      }
      forall i, j | 0 <= i < j < |parts[0]| + |rest| ensures (parts[0] + rest)[i] != (parts[0] + rest)[j] {
        if i < |parts[0]| <= j { assert parts[0][i] in parts[0] && rest[j - |parts[0]|] in rest; }
      }
    }
  }

  lemma TokensDiffer(v: Json, i: nat, j: nat)
    requires WellFormed(v) && i < j < Size(v)
    ensures TokenAt(v, i) != TokenAt(v, j)
  {
    if v.JArray? && Decimal(i) == Decimal(j) { DecimalInjective(i, j); }
  }

  lemma PartStartsWith(policy: Policy, v: Json, i: nat, p: Path)
    requires i < Size(v) && p in Parts(policy, v)[i]
    ensures p != [] && p[0] == TokenAt(v, i)
  {
    PartAt(policy, v, i);
  }

  /** No pointer is reported twice, so deduplication never drops one. */
  lemma {:induction false} ReportsAreDistinct(policy: Policy, v: Json)
    requires WellFormed(v)
    ensures DistinctPaths(Redactions(policy, v))
    decreases v
  {
    if IsContainer(v) {
      var parts := Parts(policy, v);
      forall i | 0 <= i < Size(v) ensures DistinctPaths(parts[i]) {
        PartAt(policy, v, i);
        ChildIs(v, i);
        ReportsAreDistinct(policy, ChildAt(v, i));
        UnderDistinct(TokenAt(v, i), Redactions(policy, ChildAt(v, i)));
      }
      forall i, j, p | 0 <= i < j < Size(v) && p in parts[i] ensures p !in parts[j] {
        TokensDiffer(v, i, j);
        PartStartsWith(policy, v, i, p);
        if p in parts[j] { PartStartsWith(policy, v, j, p); }
      }
      FlattenDistinct(parts);
    }
  }

  lemma UnderDistinct(token: string, paths: seq<Path>)
    requires DistinctPaths(paths)
    ensures DistinctPaths(Under(token, paths))
  {
    var u := Under(token, paths);
    forall i, j | 0 <= i < j < |u| ensures u[i] != u[j] {
      assert u[i][1..] == paths[i] && u[j][1..] == paths[j];
    }
  }

  // ---------- the program ----------

  function Rendered(pointer: string, paths: seq<Path>): (r: seq<string>)
    ensures |r| == |paths|
  {
    seq(|paths|, i requires 0 <= i < |paths| => pointer + Render(paths[i]))
  }

  lemma RenderedAppend(pointer: string, a: seq<Path>, b: seq<Path>)
    ensures Rendered(pointer, a + b) == Rendered(pointer, a) + Rendered(pointer, b)
  {
  }

  lemma RenderedUnder(pointer: string, token: string, paths: seq<Path>)
    ensures Rendered(pointer, Under(token, paths)) == Rendered(pointer + "/" + Escape(token), paths)
  {
    var u, l, r := Under(token, paths), Rendered(pointer, Under(token, paths)),
      Rendered(pointer + "/" + Escape(token), paths);
    forall i | 0 <= i < |paths| ensures l[i] == r[i] {
      assert u[i][0] == token && u[i][1..] == paths[i];
      Associate(pointer, "/" + Escape(token), Render(paths[i]));
      Associate(pointer, "/", Escape(token));
    }
  }

  lemma NextPart(policy: Policy, v: Json, i: nat)
    requires i < Size(v)
    ensures |Parts(policy, v)| == Size(v)
    ensures Flatten(Parts(policy, v)[..i + 1]) == Flatten(Parts(policy, v)[..i]) + Parts(policy, v)[i]
  {
    FlattenNext(Parts(policy, v), i);
  }

  lemma FlattenNext<T>(parts: seq<seq<T>>, i: nat)
    requires i < |parts|
    ensures Flatten(parts[..i + 1]) == Flatten(parts[..i]) + parts[i]
  {
    assert parts[..i + 1] == parts[..i] + [parts[i]];
    FlattenAppend(parts[..i], [parts[i]]);
    assert Flatten([parts[i]]) == parts[i] + Flatten([]);
  }

  /** Rewrites the document and appends one pointer per redaction. */
  method SanitizeValue(policy: Policy, v: Json, pointer: string) returns (out: Json, found: seq<string>)
    ensures out == Sanitized(policy, v)
    ensures found == Rendered(pointer, Redactions(policy, v))
    decreases v, 1
  {
    match v {
      case JObject(members) => out, found := SanitizeObject(policy, v, pointer);
      case JArray(items) => out, found := SanitizeArray(policy, v, pointer);
      case JString(text) =>
        var replacement := policy.rewrite(text);
        if replacement.Some? {
          assert pointer + Render([]) == pointer;
          return JString(replacement.value), [pointer];
        }
        return v, [];
      case _ =>
        return v, [];
    }
  }

  method SanitizeObject(policy: Policy, v: Json, pointer: string) returns (out: Json, found: seq<string>)
    requires v.JObject?
    ensures out == Sanitized(policy, v)
    ensures found == Rendered(pointer, Redactions(policy, v))
    decreases v, 0
  {
    var members: seq<Member> := [];
    found := [];
    for i := 0 to |v.members|
      invariant members == Sanitized(policy, v).members[..i]
      invariant found == Rendered(pointer, Flatten(Parts(policy, v)[..i]))
    {
      var key := v.members[i].key;
      NextReport(policy, v, i, pointer);
      var childPointer := pointer + "/" + Escape(key);
      if policy.sensitiveKey(key) {
        members := members + [Member(key, JString(REDACTED))];
        found := found + [childPointer];
      } else {
        var child, more := SanitizeValue(policy, v.members[i].value, childPointer);
        members := members + [Member(key, child)];
        found := found + more;
      }
    }
    assert Parts(policy, v)[..|v.members|] == Parts(policy, v);
    return JObject(members), found;
  }

  method SanitizeArray(policy: Policy, v: Json, pointer: string) returns (out: Json, found: seq<string>)
    requires v.JArray?
    ensures out == Sanitized(policy, v)
    ensures found == Rendered(pointer, Redactions(policy, v))
    decreases v, 0
  {
    var items: seq<Json> := [];
    found := [];
    for i := 0 to |v.items|
      invariant items == Sanitized(policy, v).items[..i]
      invariant found == Rendered(pointer, Flatten(Parts(policy, v)[..i]))
    {
      NextItem(policy, v, i, pointer);
      var child, more := SanitizeValue(policy, v.items[i], pointer + "/" + Decimal(i));
      items := items + [child];
      found := found + more;
    }
    assert Parts(policy, v)[..|v.items|] == Parts(policy, v);
    return JArray(items), found;
  }

  /** Item `i` of an array adds itself and its pointers. */
  lemma NextItem(policy: Policy, v: Json, i: nat, pointer: string)
    requires v.JArray? && i < |v.items|
    ensures |Parts(policy, v)| == |v.items| == |Sanitized(policy, v).items|
    ensures Sanitized(policy, v).items[..i + 1] ==
            Sanitized(policy, v).items[..i] + [Sanitized(policy, v.items[i])]
    ensures Rendered(pointer, Flatten(Parts(policy, v)[..i + 1])) ==
            Rendered(pointer, Flatten(Parts(policy, v)[..i]))
              + Rendered(pointer + "/" + Decimal(i), Redactions(policy, v.items[i]))
  {
    NextReport(policy, v, i, pointer);
    PlainIndex(i);
  }

  /** The pointers that child `i` adds to the report. */
  lemma NextReport(policy: Policy, v: Json, i: nat, pointer: string)
    requires i < Size(v)
    ensures |Parts(policy, v)| == Size(v)
    ensures Rendered(pointer, Flatten(Parts(policy, v)[..i + 1])) == Rendered(pointer, Flatten(Parts(policy, v)[..i]))
              + (if Hidden(policy, v, i) then [pointer + "/" + Escape(TokenAt(v, i))]
                 else Rendered(pointer + "/" + Escape(TokenAt(v, i)), Redactions(policy, ChildAt(v, i))))
  {
    NextPart(policy, v, i);
    PartAt(policy, v, i);
    RenderedAppend(pointer, Flatten(Parts(policy, v)[..i]), Parts(policy, v)[i]);
    OnePath(pointer, TokenAt(v, i));
    RenderedUnder(pointer, TokenAt(v, i), Redactions(policy, ChildAt(v, i)));
  }

  lemma OnePath(pointer: string, key: string)
    ensures Rendered(pointer, [[key]]) == [pointer + "/" + Escape(key)]
  {
    assert [key][1..] == [] && Render([]) == "";
    assert Render([key]) == "/" + Escape(key) + "";
    assert "/" + Escape(key) + "" == "/" + Escape(key);
    Associate(pointer, "/", Escape(key));
  }

  /** Digits need no escaping. */
  lemma {:induction false} PlainText(s: string)
    requires '/' !in s && '~' !in s
    ensures Escape(s) == s
  {
    if s != "" {
      assert s[0] in s;
      PlainText(s[1..]);
      assert s == [s[0]] + s[1..];
    }
  }

  lemma {:induction false} NoTilde(n: nat)
    ensures '~' !in Decimal(n)
  {
    if n >= 10 { NoTilde(n / 10); }
  }

  lemma PlainIndex(i: nat)
    ensures Escape(Decimal(i)) == Decimal(i)
  {
    DecimalHasNoSlash(i);
    NoTilde(i);
    PlainText(Decimal(i));
  }

  // ---------- the published report ----------

  /** Section 4 of RFC 6901: what a pointer names in a document. */
  function ResolvePointer(v: Json, pointer: string): Option<Json> {
    match ReadPointer(pointer) case None => None case Some(path) => Resolve(v, path)
  }

  function Pointers(policy: Policy, v: Json): seq<string> { Rendered("", Redactions(policy, v)) }

  lemma PointerAt(policy: Policy, v: Json, i: nat)
    requires i < |Redactions(policy, v)|
    ensures |Pointers(policy, v)| == |Redactions(policy, v)|
    ensures ReadPointer(Pointers(policy, v)[i]) == Some(Redactions(policy, v)[i])
  {
    var path := Redactions(policy, v)[i];
    assert Pointers(policy, v)[i] == "" + Render(path) == Render(path);
    ReadRendered(path);
  }

  /** Every reported pointer names a node of the original, and in the output it
      names a replacement string. */
  lemma PointersResolve(policy: Policy, v: Json, pointer: string)
    requires WellFormed(v) && pointer in Pointers(policy, v)
    ensures ResolvePointer(v, pointer).Some?
    ensures ResolvePointer(Sanitized(policy, v), pointer).Some? &&
            ResolvePointer(Sanitized(policy, v), pointer).value.JString?
  {
    var i :| 0 <= i < |Pointers(policy, v)| && Pointers(policy, v)[i] == pointer;
    PointerAt(policy, v, i);
    ReportsResolve(policy, v, Redactions(policy, v)[i]);
  }

  predicate DistinctStrings(s: seq<string>) {
    forall i, j :: 0 <= i < j < |s| ==> s[i] != s[j]
  }

  lemma PointersAreDistinct(policy: Policy, v: Json)
    requires WellFormed(v)
    ensures DistinctStrings(Pointers(policy, v))
  {
    var pointers := Pointers(policy, v);
    ReportsAreDistinct(policy, v);
    forall i, j | 0 <= i < j < |pointers| ensures pointers[i] != pointers[j] {
      PointerAt(policy, v, i);
      PointerAt(policy, v, j);
    }
  }

  /** Drops repeated neighbours. */
  function Dedup(s: seq<string>): seq<string> {
    if |s| <= 1 then s
    else if s[0] == s[1] then Dedup(s[1..])
    else [s[0]] + Dedup(s[1..])
  }

  lemma {:induction false} DedupKeeps(s: seq<string>)
    requires DistinctStrings(s)
    ensures Dedup(s) == s
  {
    if |s| > 1 {
      DedupKeeps(s[1..]);
      assert s == [s[0]] + s[1..];
    }
  }

  lemma StringOrderIsTotal()
    ensures Total(StringLe)
  {
    forall x, y ensures StringLe(x, y) || StringLe(y, x) { StringLeTotal(x, y); }
    forall x, y, z | StringLe(x, y) && StringLe(y, z) ensures StringLe(x, z) { StringLeTransitive(x, y, z); }
  }

  lemma DistinctPermutes(a: seq<string>, b: seq<string>)
    requires multiset(a) == multiset(b) && DistinctStrings(a)
    ensures DistinctStrings(b)
  {
    forall i, j | 0 <= i < j < |b| ensures b[i] != b[j] {
      DistinctCount(a, b[i]);
      Without(b, i);
      assert (b[..i] + b[i + 1..])[j - 1] == b[j];
      assert b[j] in b[..i] + b[i + 1..];
      assert multiset(b)[b[i]] <= 1;
    }
  }

  lemma {:induction false} DistinctCount(a: seq<string>, x: string)
    requires DistinctStrings(a)
    ensures multiset(a)[x] <= 1
  {
    if a != [] {
      DistinctCount(a[1..], x);
      HeadAndTail(a);
      if a[0] == x { assert x !in a[1..]; }
    }
  }

  /** The sanitized document with its sorted report: each redaction once, each
      pointer resolving to its replacement. Deduplication drops nothing. */
  method SanitizeJson(policy: Policy, v: Json) returns (out: Json, redactions: seq<string>)
    requires WellFormed(v)
    ensures out == Sanitized(policy, v)
    ensures multiset(redactions) == multiset(Pointers(policy, v))
    ensures Sorted(StringLe, redactions) && DistinctStrings(redactions)
    ensures forall s :: s in redactions ==>
              ResolvePointer(v, s).Some? && ResolvePointer(out, s).Some? && ResolvePointer(out, s).value.JString?
  {
    var found;
    out, found := SanitizeValue(policy, v, "");
    var sorted := Sort(StringLe, found);
    redactions := Dedup(sorted);
    PointersAreDistinct(policy, v);
    StringOrderIsTotal();
    SortSorts(StringLe, found);
    SortPermutes(StringLe, found);
    DistinctPermutes(found, sorted);
    DedupKeeps(sorted);
    SameElements(found, sorted);
    forall s | s in redactions
      ensures ResolvePointer(v, s).Some? && ResolvePointer(out, s).Some? && ResolvePointer(out, s).value.JString?
    {
      PointersResolve(policy, v, s);
    }
  }
}
