/** The exact-output check of an engine bundle: the files generated against
    the tree found on disk. */
module OutputTree {
  import opened Ordering

  type Path = seq<string>

  datatype Kind = Directory | File

  datatype Node = RegularFile | Special | Dir(entries: seq<Entry>)
  datatype Entry = Entry(name: string, node: Node)

  datatype TreeError = NotRegular | DuplicateEntry

  // ---------- paths in a tree ----------

  function Find(entries: seq<Entry>, name: string): Option<Node> {
    if entries == [] then None
    else if entries[|entries| - 1].name == name then Some(entries[|entries| - 1].node)
    else Find(entries[..|entries| - 1], name)
  }

  function NodeAt(entries: seq<Entry>, path: Path): Option<Node>
    decreases |path|
  {
    if path == [] then Some(Dir(entries))
    else
      match Find(entries, path[0])
      case None => None
      case Some(node) =>
        if |path| == 1 then Some(node) else if node.Dir? then NodeAt(node.entries, path[1..]) else None
  }

  predicate Named(entries: seq<Entry>, name: string) { Find(entries, name).Some? }

  /** Names are unique and everything is a regular file or a directory. */
  predicate Clean(entries: seq<Entry>)
    decreases entries
  {
    forall i :: 0 <= i < |entries| ==>
      && !Named(entries[..i], entries[i].name)
      && !entries[i].node.Special?
      && (entries[i].node.Dir? ==> Clean(entries[i].node.entries))
  }

  function KindOf(node: Node): Kind {
    if node.Dir? then Directory else File
  }

  predicate Under(prefix: Path, p: Path) {
    |p| > |prefix| && p[..|prefix|] == prefix
  }

  /** What `p` names inside the directory at `prefix` holding `entries`. */
  function Below(prefix: Path, entries: seq<Entry>, p: Path): Option<Node> {
    if Under(prefix, p) then NodeAt(entries, p[|prefix|..]) else None
  }

  lemma Deeper(prefix: Path, name: string, p: Path)
    ensures Under(prefix + [name], p) ==> Under(prefix, p) && p[|prefix|] == name
  {
    var relative := prefix + [name];
    assert relative[|prefix|] == name && relative[..|prefix|] == prefix;
    if Under(relative, p) {
      assert p[..|relative|][..|prefix|] == p[..|prefix|];
      assert p[..|relative|][|prefix|] == p[|prefix|];
    }
  }

  lemma BelowStep(prefix: Path, entries: seq<Entry>, i: nat, p: Path)
    requires i < |entries| && !Named(entries[..i], entries[i].name)
    ensures var e := entries[i];
            Below(prefix, entries[..i + 1], p) ==
            if p == prefix + [e.name] then Some(e.node)
            else if e.node.Dir? && Under(prefix + [e.name], p) then Below(prefix + [e.name], e.node.entries, p)
            else Below(prefix, entries[..i], p)
    ensures Under(prefix + [entries[i].name], p) || p == prefix + [entries[i].name] ==>
            Below(prefix, entries[..i], p).None?
  {
    var e := entries[i];
    assert entries[..i + 1][..i] == entries[..i];
    Deeper(prefix, e.name, p);
    assert (prefix + [e.name])[..|prefix|] == prefix && (prefix + [e.name])[|prefix|..] == [e.name];
    if Under(prefix, p) {
      var q := p[|prefix|..];
      assert p == prefix + q && q[0] == p[|prefix|];
      if q[0] == e.name {
        assert p[..|prefix| + 1] == prefix + [e.name];
        assert p[|prefix| + 1..] == q[1..];
        if |q| == 1 { assert p == prefix + [e.name]; }
      }
    }
  }

  // ---------- walking the tree ----------

  /** `m` is `before` plus everything below `prefix`. */
  ghost predicate Walked(before: map<Path, Kind>, prefix: Path, entries: seq<Entry>, m: map<Path, Kind>) {
    && (forall p :: p in m <==> p in before || Below(prefix, entries, p).Some?)
    && (forall p :: p in before ==> p in m && m[p] == before[p])
    && (forall p :: p in m && p !in before ==>
       Below(prefix, entries, p).Some? && m[p] == KindOf(Below(prefix, entries, p).value))
  }

  /** Nothing below `prefix` has been entered yet. */
  ghost predicate Unvisited(before: map<Path, Kind>, prefix: Path) {
    forall p :: p in before ==> !Under(prefix, p)
  }

  /** The recursive listing. It succeeds exactly on clean trees and then holds
      every path of the tree with its kind. */
  method CollectOutputEntries(prefix: Path, entries: seq<Entry>, before: map<Path, Kind>)
    returns (r: Result<map<Path, Kind>, TreeError>)
    requires Unvisited(before, prefix)
    ensures r.Ok? <==> Clean(entries)
    ensures r.Ok? ==> Walked(before, prefix, entries, r.value)
    decreases entries
  {
    var m := before;
    for i := 0 to |entries|
      invariant Clean(entries[..i])
      invariant Walked(before, prefix, entries[..i], m)
    {
      var e := entries[i];
      var relative := prefix + [e.name];
      CleanStep(entries, i);
      if e.node.Special? { NotCleanStep(entries, i); return Err(NotRegular); }
      NamedIsBelow(prefix, entries[..i], e.name);
      assert !Under(prefix, prefix) && Under(prefix, relative) && relative !in before;
      if relative in m { NotCleanStep(entries, i); return Err(DuplicateEntry); }
      var here := m[relative := KindOf(e.node)];
      if e.node.Dir? {
        FreshBelow(before, prefix, entries, i, m);
        var deeper := CollectOutputEntries(relative, e.node.entries, here);
        if deeper.Err? { NotCleanStep(entries, i); return deeper; }
        WalkedDir(before, prefix, entries, i, m, deeper.value);
        m := deeper.value;
      } else {
        WalkedFile(before, prefix, entries, i, m);
        m := here;
      }
    }
    assert entries[..|entries|] == entries;
    return Ok(m);
  }

  lemma CleanStep(entries: seq<Entry>, i: nat)
    requires i < |entries| && Clean(entries[..i])
    ensures Clean(entries[..i + 1]) <==>
              && !Named(entries[..i], entries[i].name) && !entries[i].node.Special?
              && (entries[i].node.Dir? ==> Clean(entries[i].node.entries))
  {
    var s := entries[..i + 1];
    assert forall k :: 0 <= k <= i ==> s[k] == entries[k] && s[..k] == entries[..k];
    assert forall k :: 0 <= k < i ==> entries[..i][k] == entries[k] && entries[..i][..k] == entries[..k];
  }

  lemma NotCleanStep(entries: seq<Entry>, i: nat)
    requires i < |entries| && !Clean(entries[..i + 1])
    ensures !Clean(entries)
  {
    var s := entries[..i + 1];
    assert forall k :: 0 <= k <= i ==> s[k] == entries[k] && s[..k] == entries[..k];
  }

  lemma NamedIsBelow(prefix: Path, entries: seq<Entry>, name: string)
    ensures Below(prefix, entries, prefix + [name]).Some? <==> Named(entries, name)
  {
    var p := prefix + [name];
    assert p[..|prefix|] == prefix && p[|prefix|..] == [name];
  }

  lemma FreshBelow(before: map<Path, Kind>, prefix: Path, entries: seq<Entry>, i: nat, m: map<Path, Kind>)
    requires i < |entries| && Unvisited(before, prefix) && Walked(before, prefix, entries[..i], m)
    requires !Named(entries[..i], entries[i].name)
    ensures Unvisited(m[prefix + [entries[i].name] := KindOf(entries[i].node)], prefix + [entries[i].name])
  {
    var relative := prefix + [entries[i].name];
    forall p | p in m ensures !Under(relative, p) {
      BelowStep(prefix, entries, i, p);
      Deeper(prefix, entries[i].name, p);
    }
    Deeper(prefix, entries[i].name, relative);
  }

  lemma WalkedFile(before: map<Path, Kind>, prefix: Path, entries: seq<Entry>, i: nat, m: map<Path, Kind>)
    requires i < |entries| && Walked(before, prefix, entries[..i], m) && !entries[i].node.Dir?
    requires !Named(entries[..i], entries[i].name) && prefix + [entries[i].name] !in before
    ensures Walked(before, prefix, entries[..i + 1], m[prefix + [entries[i].name] := File])
  {
    forall p ensures Below(prefix, entries[..i + 1], p) ==
                       if p == prefix + [entries[i].name] then Some(entries[i].node)
                         else Below(prefix, entries[..i], p) {
      BelowStep(prefix, entries, i, p);
    }
  }

  lemma WalkedDir(
    before: map<Path, Kind>, prefix: Path, entries: seq<Entry>, i: nat, m: map<Path, Kind>, deeper: map<Path, Kind>)
    requires i < |entries| && Walked(before, prefix, entries[..i], m) && entries[i].node.Dir?
    requires !Named(entries[..i], entries[i].name) && Unvisited(before, prefix)
    requires var relative := prefix + [entries[i].name];
             relative !in before && Walked(m[relative := Directory], relative, entries[i].node.entries, deeper)
    ensures Walked(before, prefix, entries[..i + 1], deeper)
  {
    var e := entries[i];
    var relative := prefix + [e.name];
    forall p
      ensures p in deeper <==> p in before || Below(prefix, entries[..i + 1], p).Some?
      ensures p in before ==> p in deeper && deeper[p] == before[p]
      ensures p in deeper && p !in before ==>
                Below(prefix, entries[..i + 1], p).Some? &&
                  deeper[p] == KindOf(Below(prefix, entries[..i + 1], p).value)
    {
      BelowStep(prefix, entries, i, p);
      Deeper(prefix, e.name, p);
    }
  }

  // ---------- the expected entries ----------

  predicate Above(p: Path, file: Path) {
    p != [] && Under(p, file)
  }

  ghost predicate Leads(files: seq<Path>, p: Path) {
    exists f :: f in files && Above(p, f)
  }

  /** Every file, and every directory on the way to one. */
  ghost predicate Expects(files: seq<Path>, m: map<Path, Kind>) {
    && (forall p :: p in m <==> p in files || Leads(files, p))
    && (forall p :: p in m && m[p].File? ==> p in files)
    && (forall p :: p in m && m[p].Directory? ==> Leads(files, p))
  }

  method ExpectedOutputEntries(files: seq<Path>) returns (m: map<Path, Kind>)
    requires forall i :: 0 <= i < |files| ==> files[i] != []
    ensures Expects(files, m)
  {
    m := map[];
    for i := 0 to |files|
      invariant Expects(files[..i], m)
    {
      var before, file := m, files[i];
      m := m[file := File];
      FileEntered(before, file);
      var length := |file| - 1;
      while length != 0
        invariant 0 <= length < |file|
        invariant ParentsDone(before, file, length, m)
      {
        ParentEntered(before, file, length, m);
        m := m[file[..length] := Directory];
        length := length - 1;
      }
      ExpectsStep(files, i, before, m);
    }
    assert files[..|files|] == files;
  }

  lemma FileEntered(before: map<Path, Kind>, file: Path)
    requires file != []
    ensures ParentsDone(before, file, |file| - 1, before[file := File])
  {
  }

  lemma ParentEntered(before: map<Path, Kind>, file: Path, n: nat, m: map<Path, Kind>)
    requires 0 < n < |file| && ParentsDone(before, file, n, m)
    ensures ParentsDone(before, file, n - 1, m[file[..n] := Directory])
  {
    var parent, m' := file[..n], m[file[..n] := Directory];
    forall p ensures (Above(p, file) && |p| > n - 1) <==> (Above(p, file) && |p| > n) || p == parent {
      if Above(p, file) && |p| == n { assert p == parent; }
    }
  }

  /** The parents of `file` longer than `n` have been entered. */
  ghost predicate ParentsDone(before: map<Path, Kind>, file: Path, n: nat, m: map<Path, Kind>) {
    && (forall p :: p in m <==> p in before || p == file || (Above(p, file) && |p| > n))
    && (forall p :: p in m ==>
          if Above(p, file) && |p| > n then m[p].Directory?
          else if p == file then m[p].File?
          else p in before && m[p] == before[p])
  }

  lemma LeadsStep(files: seq<Path>, i: nat, p: Path)
    requires i < |files|
    ensures p in files[..i + 1] <==> p in files[..i] || p == files[i]
    ensures Leads(files[..i + 1], p) <==> Leads(files[..i], p) || Above(p, files[i])
  {
    var file, done, more := files[i], files[..i], files[..i + 1];
    assert more == done + [file];
    assert file in more && forall f :: f in done ==> f in more;
    if Leads(done, p) {
      var f :| f in done && Above(p, f);
      assert f in more;
    }
  }

  lemma ExpectsStep(files: seq<Path>, i: nat, before: map<Path, Kind>, m: map<Path, Kind>)
    requires i < |files| && Expects(files[..i], before) && ParentsDone(before, files[i], 0, m)
    ensures Expects(files[..i + 1], m)
  {
    forall p
      ensures p in m <==> p in files[..i + 1] || Leads(files[..i + 1], p)
      ensures p in m && m[p].File? ==> p in files[..i + 1]
      ensures p in m && m[p].Directory? ==> Leads(files[..i + 1], p)
    {
      LeadsStep(files, i, p);
    }
  }

  // ---------- when the two agree ----------

  ghost predicate PrefixFree(files: seq<Path>) {
    forall f, g :: f in files && g in files ==> f != [] && !Above(f, g)
  }

  ghost predicate NoEmptyDirectory(entries: seq<Entry>) {
    forall p :: p != [] && NodeAt(entries, p).Some? && NodeAt(entries, p).value.Dir? ==>
      NodeAt(entries, p).value.entries != []
  }

  ghost predicate SameFiles(entries: seq<Entry>, files: seq<Path>) {
    forall p :: p in files <==> p != [] && NodeAt(entries, p) == Some(RegularFile)
  }

  /** Going down a path in two steps. */
  lemma {:induction false} NodeAtAppend(entries: seq<Entry>, p: Path, q: Path)
    requires p != [] && q != []
    ensures NodeAt(entries, p + q) ==
              if NodeAt(entries, p).Some? && NodeAt(entries, p).value.Dir?
              then NodeAt(NodeAt(entries, p).value.entries, q)
              else None
    decreases |p|
  {
    assert (p + q)[0] == p[0] && (p + q)[1..] == p[1..] + q;
    var first := Find(entries, p[0]);
    if |p| == 1 {
      assert p[1..] + q == q;
    } else if first.Some? && first.value.Dir? {
      NodeAtAppend(first.value.entries, p[1..], q);
    }
  }

  lemma {:induction false} FoundIsEntry(entries: seq<Entry>, name: string)
    requires Clean(entries) && Find(entries, name).Some?
    ensures exists i :: 0 <= i < |entries| && entries[i].name == name && Find(entries, name).value == entries[i].node
  {
    var n := |entries| - 1;
    if entries[n].name != name {
      CleanFront(entries);
      FoundIsEntry(entries[..n], name);
    }
  }

  lemma CleanFront(entries: seq<Entry>)
    requires Clean(entries) && entries != []
    ensures Clean(entries[..|entries| - 1])
  {
    var n := |entries| - 1;
    assert forall k :: 0 <= k < n ==> entries[..n][k] == entries[k] && entries[..n][..k] == entries[..k];
  }

  /** A clean tree without empty directories has a file below every directory. */
  lemma {:induction false} HasFile(entries: seq<Entry>) returns (q: Path)
    requires entries != [] && Clean(entries) && NoEmptyDirectory(entries)
    ensures q != [] && NodeAt(entries, q) == Some(RegularFile)
    decreases entries
  {
    var last := entries[|entries| - 1];
    var here := [last.name];
    assert NodeAt(entries, here) == Some(last.node);
    if last.node.Dir? {
      forall p | p != [] ensures NodeAt(last.node.entries, p) == NodeAt(entries, here + p) {
        NodeAtAppend(entries, here, p);
      }
      var rest := HasFile(last.node.entries);
      q := here + rest;
    } else {
      q := here;
    }
  }

  lemma {:induction false} CleanBelow(entries: seq<Entry>, p: Path)
    requires Clean(entries) && NodeAt(entries, p).Some?
    ensures !NodeAt(entries, p).value.Special?
    ensures NodeAt(entries, p).value.Dir? ==> Clean(NodeAt(entries, p).value.entries)
    decreases |p|
  {
    if p != [] {
      FoundIsEntry(entries, p[0]);
      if |p| > 1 { CleanBelow(Find(entries, p[0]).value.entries, p[1..]); }
    }
  }

  lemma FileBelow(entries: seq<Entry>, p: Path) returns (f: Path)
    requires Clean(entries) && NoEmptyDirectory(entries) && p != []
    requires NodeAt(entries, p).Some? && NodeAt(entries, p).value.Dir?
    ensures Above(p, f) && NodeAt(entries, f) == Some(RegularFile)
  {
    var inner := NodeAt(entries, p).value.entries;
    CleanBelow(entries, p);
    forall q | q != [] ensures NodeAt(inner, q) == NodeAt(entries, p + q) {
      NodeAtAppend(entries, p, q);
    }
    var q := HasFile(inner);
    f := p + q;
    assert f[..|p|] == p;
  }

  lemma AboveIsDirectory(entries: seq<Entry>, p: Path, f: Path)
    requires Above(p, f) && NodeAt(entries, f).Some?
    ensures NodeAt(entries, p).Some? && NodeAt(entries, p).value.Dir? && NodeAt(entries, p).value.entries != []
  {
    var q := f[|p|..];
    assert f == p + q;
    NodeAtAppend(entries, p, q);
  }

  lemma EqualMapsMatch(entries: seq<Entry>, files: seq<Path>, walked: map<Path, Kind>)
    requires Clean(entries) && PrefixFree(files) && Walked(map[], [], entries, walked) && Expects(files, walked)
    ensures SameFiles(entries, files) && NoEmptyDirectory(entries)
  {
    forall p ensures p in files <==> p != [] && NodeAt(entries, p) == Some(RegularFile) {
      RootBelow(entries, p);
      if p != [] && NodeAt(entries, p).Some? { CleanBelow(entries, p); }
    }
    forall p | p != [] && NodeAt(entries, p).Some? && NodeAt(entries, p).value.Dir?
      ensures NodeAt(entries, p).value.entries != []
    {
      RootBelow(entries, p);
      assert walked[p] == Directory;
      assert Leads(files, p);
      var f :| f in files && Above(p, f);
      AboveIsDirectory(entries, p, f);
    }
  }

  lemma RootBelow(entries: seq<Entry>, p: Path)
    ensures Below([], entries, p) == if p == [] then None else NodeAt(entries, p)
  {
    if p != [] { assert p[..0] == [] && p[0..] == p; }
  }

  lemma MatchingMapsEqual(entries: seq<Entry>, files: seq<Path>, walked: map<Path, Kind>, expected: map<Path, Kind>)
    requires Clean(entries) && PrefixFree(files) && Walked(map[], [], entries, walked) && Expects(files, expected)
    requires SameFiles(entries, files) && NoEmptyDirectory(entries)
    ensures walked == expected
  {
    forall p ensures p in walked <==> p in expected ensures p in walked ==> walked[p] == expected[p] {
      SamePath(entries, files, walked, expected, p);
    }
  }

  lemma SamePath(entries: seq<Entry>, files: seq<Path>, walked: map<Path, Kind>, expected: map<Path, Kind>, p: Path)
    requires Clean(entries) && PrefixFree(files) && Walked(map[], [], entries, walked) && Expects(files, expected)
    requires SameFiles(entries, files) && NoEmptyDirectory(entries)
    ensures p in walked <==> p in expected
    ensures p in walked ==> walked[p] == expected[p]
  {
    RootBelow(entries, p);
    if p in walked {
      CleanBelow(entries, p);
      if walked[p].Directory? { var f := FileBelow(entries, p); }
    } else if f :| f in files && Above(p, f) {
      AboveIsDirectory(entries, p, f);
    }
  }

  /** The recomputed listing equals the expected one exactly when the tree
      holds the generated files and no empty directory. */
  lemma OutputIsExact(entries: seq<Entry>, files: seq<Path>, walked: map<Path, Kind>, expected: map<Path, Kind>)
    requires Clean(entries) && PrefixFree(files) && Walked(map[], [], entries, walked) && Expects(files, expected)
    ensures walked == expected <==> SameFiles(entries, files) && NoEmptyDirectory(entries)
  {
    if walked == expected { EqualMapsMatch(entries, files, walked); }
    if SameFiles(entries, files) && NoEmptyDirectory(entries) { MatchingMapsEqual(entries, files, walked, expected); }
  }
}
