/** The file tree of a package (src/package.rs): inserting archive entries, trimming, collecting. */
module Vfs {
  import opened Bytes
  import opened Paths
  import opened Tuple

  type Path = seq<string>

  datatype Node = Leaf(data: Bytes) | Internal(children: map<string, Node>)

  const EMPTY := Internal(map[])

  const KEEP: string -> bool := s => s != "" && s != "."

  function SplitPath(raw: string): Path {
    Filter(Split(raw, '/'), KEEP)
  }

  /** Paths `SplitPath` yields. */
  predicate ProperPath(p: Path) {
    SepFree(p, '/') && forall s <- p :: KEEP(s)
  }

  lemma SplitPathProper(raw: string)
    ensures ProperPath(SplitPath(raw))
  {
    SplitSepFree(raw, '/');
  }

  lemma SplitPathOfJoin(p: Path)
    requires ProperPath(p)
    ensures SplitPath(Join(p, '/')) == p
  {
    FilterSplitJoin(p, '/', KEEP);
  }

  function NodeAt(n: Node, p: Path): Option<Node> {
    if p == [] then Some(n)
    else if n.Leaf? || p[0] !in n.children then None
    else NodeAt(n.children[p[0]], p[1..])
  }

  function FileAt(n: Node, p: Path): Option<Bytes> {
    match NodeAt(n, p)
    case Some(Leaf(data)) => Some(data)
    case _ => None
  }

  // Inserting one entry.

  /** The tree with the entry; None where the code panics, a path through a file. An entry whose
      path is taken, by a file or a directory, is dropped. */
  function Insert(n: Node, segs: Path, data: Bytes): Option<Node>
    decreases |segs|
  {
    if segs == [] then Some(n)
    else if n.Leaf? then None
    else if segs[0] !in n.children && |segs| == 1 then Some(Internal(n.children[segs[0] := Leaf(data)]))
    else
      var child := if segs[0] in n.children then n.children[segs[0]] else EMPTY;
      match Insert(child, segs[1..], data)
      case None => None
      case Some(child') => Some(Internal(n.children[segs[0] := child']))
  }

  lemma {:induction false} FileInEmpty(p: Path)
    ensures FileAt(EMPTY, p) == None && (p != [] ==> NodeAt(EMPTY, p) == None)
  {
  }

  /** The path runs through a file. */
  predicate ThroughFile(n: Node, segs: Path) {
    exists k :: 0 <= k < |segs| && FileAt(n, segs[..k]).Some?
  }

  lemma {:induction false} ThroughChild(n: Node, segs: Path)
    requires segs != [] && n.Internal? && segs[0] in n.children
    ensures ThroughFile(n, segs) <==> ThroughFile(n.children[segs[0]], segs[1..])
  {
    var c := n.children[segs[0]];
    forall k | 0 < k <= |segs| ensures FileAt(n, segs[..k]) == FileAt(c, segs[1..][..k - 1]) {
      assert segs[..k][1..] == segs[1..][..k - 1];
    }
    if ThroughFile(c, segs[1..]) {
      var k :| 0 <= k < |segs[1..]| && FileAt(c, segs[1..][..k]).Some?;
      assert FileAt(n, segs[..k + 1]).Some?;
    }
    if ThroughFile(n, segs) {
      var k :| 0 <= k < |segs| && FileAt(n, segs[..k]).Some?;
      assert k > 0;
      assert FileAt(c, segs[1..][..k - 1]).Some?;
    }
  }

  /** A missing child stands for an empty directory. */
  lemma MissingChild(n: Node, segs: Path)
    requires segs != [] && n.Internal? && segs[0] !in n.children
    ensures !ThroughFile(n, segs) && !ThroughFile(EMPTY, segs[1..])
  {
    forall k | 0 <= k < |segs| ensures FileAt(n, segs[..k]).None? {
    }
    forall k | 0 <= k < |segs[1..]| ensures FileAt(EMPTY, segs[1..][..k]).None? {
      FileInEmpty(segs[1..][..k]);
    }
  }

  /** Insertion fails exactly on paths through a file; otherwise it adds the entry's file if its
      path was free, and changes no other. */
  lemma {:induction false} InsertMeans(n: Node, segs: Path, data: Bytes)
    ensures Insert(n, segs, data).None? <==> ThroughFile(n, segs)
    ensures forall p :: Insert(n, segs, data).Some? ==>
              FileAt(Insert(n, segs, data).value, p) ==
                if p == segs && NodeAt(n, segs).None? then Some(data) else FileAt(n, p)
    decreases |segs|
  {
    if segs == [] {
    } else if n.Leaf? {
      assert FileAt(n, segs[..0]).Some?;
    } else if segs[0] !in n.children && |segs| == 1 {
      MissingChild(n, segs);
      forall p ensures FileAt(Insert(n, segs, data).value, p) == if p == segs then Some(data) else FileAt(n, p) {
        if p != [] && p[0] == segs[0] {
          assert p == [p[0]] + p[1..] && segs == [segs[0]] && segs[1..] == [];
          assert p[1..] == [] <==> p == segs;
          assert NodeAt(Leaf(data), p[1..]) == if p[1..] == [] then Some(Leaf(data)) else None;
        }
      }
    } else {
      InsertBelow(n, segs, data);
    }
  }

  lemma {:induction false} InsertBelow(n: Node, segs: Path, data: Bytes)
    requires segs != [] && n.Internal? && (segs[0] in n.children || |segs| > 1)
    ensures Insert(n, segs, data).None? <==> ThroughFile(n, segs)
    ensures forall p :: Insert(n, segs, data).Some? ==>
              FileAt(Insert(n, segs, data).value, p) ==
                if p == segs && NodeAt(n, segs).None? then Some(data) else FileAt(n, p)
    decreases |segs|, 0
  {
    var known := segs[0] in n.children;
    var child := if known then n.children[segs[0]] else EMPTY;
    if known {
      ThroughChild(n, segs);
    } else {
      MissingChild(n, segs);
    }
    InsertMeans(child, segs[1..], data);
    var child' := Insert(child, segs[1..], data);
    if child'.Some? {
      var n' := Insert(n, segs, data).value;
      forall p ensures FileAt(n', p) == if p == segs && NodeAt(n, segs).None? then Some(data) else FileAt(n, p) {
        if p != [] && p[0] == segs[0] {
          assert FileAt(n', p) == FileAt(child'.value, p[1..]);
          assert p == segs <==> p[1..] == segs[1..] by {
            assert p == [p[0]] + p[1..] && segs == [segs[0]] + segs[1..];
          }
          FileInEmpty(p[1..]);
          FileInEmpty(segs[1..]);
        }
      }
    }
  }

  // Directories come with files, so a flat map of files says what is taken.

  /** Every directory below holds a file. */
  predicate Populated(n: Node) {
    n.Leaf? || (n.children != map[] && forall k <- n.children :: Populated(n.children[k]))
  }

  predicate PopulatedRoot(n: Node) {
    n.Internal? && forall k <- n.children :: Populated(n.children[k])
  }

  lemma {:induction false} HasFile(n: Node) returns (p: Path)
    requires Populated(n)
    ensures FileAt(n, p).Some?
  {
    if n.Leaf? {
      p := [];
    } else {
      assert n.children.Keys != {};
      var k :| k in n.children.Keys;
      var q := HasFile(n.children[k]);
      p := [k] + q;
      assert p[1..] == q;
    }
  }

  lemma {:induction false} NodeConcat(n: Node, p: Path, q: Path)
    ensures NodeAt(n, p + q) == if NodeAt(n, p).Some? then NodeAt(NodeAt(n, p).value, q) else None
    decreases |p|
  {
    if p == [] {
      assert p + q == q;
    } else {
      assert (p + q)[1..] == p[1..] + q;
      if n.Internal? && p[0] in n.children {
        NodeConcat(n.children[p[0]], p[1..], q);
      }
    }
  }

  lemma {:induction false} PopulatedBelow(n: Node, p: Path)
    requires PopulatedRoot(n) || Populated(n)
    requires p != [] && NodeAt(n, p).Some?
    ensures Populated(NodeAt(n, p).value)
    decreases |p|
  {
    if |p| > 1 {
      PopulatedBelow(n.children[p[0]], p[1..]);
    }
  }

  lemma {:induction false} InsertPopulates(n: Node, segs: Path, data: Bytes)
    requires segs != [] && n.Internal? && (forall k <- n.children :: Populated(n.children[k])) && Insert(n, segs, data).Some?
    ensures Populated(Insert(n, segs, data).value)
    decreases |segs|
  {
    var n' := Insert(n, segs, data).value;
    assert segs[0] in n'.children;
    if segs[0] !in n.children && |segs| == 1 {
    } else {
      var child := if segs[0] in n.children then n.children[segs[0]] else EMPTY;
      if |segs| > 1 && child.Internal? {
        InsertPopulates(child, segs[1..], data);
      }
    }
  }

  /** A path is taken exactly when it is a file or leads to one. */
  lemma TakenMeans(n: Node, segs: Path)
    requires PopulatedRoot(n) && segs != []
    ensures NodeAt(n, segs).Some? <==> exists p :: segs <= p && FileAt(n, p).Some?
  {
    if NodeAt(n, segs).Some? {
      PopulatedBelow(n, segs);
      var q := HasFile(NodeAt(n, segs).value);
      NodeConcat(n, segs, q);
      assert segs <= segs + q && FileAt(n, segs + q).Some?;
    }
    forall p | segs <= p && FileAt(n, p).Some? ensures NodeAt(n, segs).Some? {
      NodeConcat(n, segs, p[|segs|..]);
      assert p == segs + p[|segs|..];
    }
  }

  predicate ProperNames(n: Node) {
    n.Leaf? || forall k <- n.children :: '/' !in k && KEEP(k) && ProperNames(n.children[k])
  }

  lemma {:induction false} InsertKeepsNames(n: Node, segs: Path, data: Bytes)
    requires ProperNames(n) && ProperPath(segs) && Insert(n, segs, data).Some?
    ensures ProperNames(Insert(n, segs, data).value)
    decreases |segs|
  {
    if segs != [] && (segs[0] in n.children || |segs| > 1) {
      assert segs[0] in segs;
      var child := if segs[0] in n.children then n.children[segs[0]] else EMPTY;
      InsertKeepsNames(child, segs[1..], data);
    } else if segs != [] {
      assert segs[0] in segs;
    }
  }

  // Loading an archive.

  datatype Entry = Entry(path: string, data: Bytes)

  /** The flat view: entries in order, first come first served; None where a path would run through
      a file. */
  ghost function FlatInsert(files: map<Path, Bytes>, segs: Path, data: Bytes): Option<map<Path, Bytes>> {
    if exists f <- files :: f < segs then None
    else if segs == [] || exists f <- files :: segs <= f then Some(files)
    else Some(files[segs := data])
  }

  ghost function FlatLoad(entries: seq<Entry>): Option<map<Path, Bytes>> {
    if entries == [] then Some(map[])
    else
      var n := |entries| - 1;
      match FlatLoad(entries[..n])
      case None => None
      case Some(files) => FlatInsert(files, SplitPath(entries[n].path), entries[n].data)
  }

  ghost predicate Holds(n: Node, files: map<Path, Bytes>) {
    forall p :: FileAt(n, p) == if p in files then Some(files[p]) else None
  }

  lemma InsertRefinesFlat(n: Node, files: map<Path, Bytes>, segs: Path, data: Bytes)
    requires PopulatedRoot(n) && Holds(n, files)
    ensures Insert(n, segs, data).None? <==> FlatInsert(files, segs, data).None?
    ensures Insert(n, segs, data).Some? ==>
              && PopulatedRoot(Insert(n, segs, data).value)
              && Holds(Insert(n, segs, data).value, FlatInsert(files, segs, data).value)
  {
    InsertMeans(n, segs, data);
    assert ThroughFile(n, segs) <==> exists f <- files :: f < segs by {
      forall f | f in files && f < segs ensures ThroughFile(n, segs) {
        assert segs[..|f|] == f;
      }
      forall k | 0 <= k < |segs| && FileAt(n, segs[..k]).Some? ensures exists f <- files :: f < segs {
        assert segs[..k] in files && segs[..k] < segs;
      }
    }
    if segs != [] {
      TakenMeans(n, segs);
      if Insert(n, segs, data).Some? {
        InsertPopulates(n, segs, data);
      }
    }
  }

  method Load(entries: seq<Entry>) returns (root: Option<Node>, ghost prefix: Path)
    ensures root.None? <==> FlatLoad(entries).None?
    ensures root.Some? ==>
              && PopulatedRoot(root.value) && ProperNames(root.value)
              && (forall p :: FileAt(root.value, p)
                    == if prefix + p in FlatLoad(entries).value then Some(FlatLoad(entries).value[prefix + p]) else None)
              && (forall f <- FlatLoad(entries).value :: prefix <= f)
  {
    prefix := [];
    var n := EMPTY;
    forall p ensures FileAt(n, p) == None {
      FileInEmpty(p);
    }
    for i := 0 to |entries|
      invariant PopulatedRoot(n) && ProperNames(n)
      invariant FlatLoad(entries[..i]).Some? && Holds(n, FlatLoad(entries[..i]).value)
    {
      var segs := SplitPath(entries[i].path);
      assert entries[..i + 1][..i] == entries[..i];
      InsertRefinesFlat(n, FlatLoad(entries[..i]).value, segs, entries[i].data);
      var r := Insert(n, segs, entries[i].data);
      if r.None? {
        FlatLoadFails(entries, i + 1);
        return None, [];
      }
      SplitPathProper(entries[i].path);
      InsertKeepsNames(n, segs, entries[i].data);
      n := r.value;
    }
    assert entries[..|entries|] == entries;
    n, prefix := Trim(n);
    return Some(n), prefix;
  }

  lemma {:induction false} FlatLoadFails(entries: seq<Entry>, i: nat)
    requires i <= |entries| && FlatLoad(entries[..i]).None?
    ensures FlatLoad(entries).None?
    decreases |entries| - i
  {
    if i == |entries| {
      assert entries[..i] == entries;
    } else {
      assert entries[..i + 1][..i] == entries[..i];
      FlatLoadFails(entries, i + 1);
    }
  }

  predicate Trimmed(n: Node) {
    n.Internal? && !exists k <- n.children :: n.children.Keys == {k} && n.children[k].Internal?
  }

  /** Steps into a single top directory while there is one. What is stepped over is a common prefix
      of all paths, and nothing is lost. */
  method Trim(n: Node) returns (r: Node, ghost prefix: Path)
    requires PopulatedRoot(n)
    ensures PopulatedRoot(r) && Trimmed(r) && (ProperNames(n) ==> ProperNames(r))
    ensures forall p :: FileAt(r, p) == FileAt(n, prefix + p)
    ensures forall p :: FileAt(n, p).Some? ==> prefix <= p
  {
    r, prefix := n, [];
    while true
      invariant PopulatedRoot(r) && NodeAt(n, prefix) == Some(r) && (ProperNames(n) ==> ProperNames(r))
      invariant forall p :: FileAt(n, p).Some? ==> prefix <= p
      decreases r
    {
      if |r.children| == 1 {
        var k :| k in r.children;
        assert r.children.Keys == {k} by {
          SingleKey(r.children, k);
        }
        if r.children[k].Internal? {
          forall p | FileAt(n, p).Some? ensures prefix + [k] <= p {
            NodeConcat(n, prefix, p[|prefix|..]);
            assert p == prefix + p[|prefix|..];
          }
          NodeConcat(n, prefix, [k]);
          r, prefix := r.children[k], prefix + [k];
          continue;
        }
      }
      break;
    }
    forall p ensures FileAt(r, p) == FileAt(n, prefix + p) {
      NodeConcat(n, prefix, p);
    }
  }

  lemma SingleKey(m: map<string, Node>, k: string)
    requires |m| == 1 && k in m
    ensures m.Keys == {k}
  {
    var rest := m.Keys - {k};
    assert |rest| == 0;
    assert m.Keys == rest + {k};
  }

  // Resolving and collecting.

  function ResolveAbs(root: Node, raw: string): Option<Bytes> {
    FileAt(root, SplitPath(raw))
  }

  method Resolve(root: Node, raw: string) returns (data: Option<Bytes>)
    ensures data == ResolveAbs(root, raw)
  {
    var n := root;
    var segs := SplitPath(raw);
    for i := 0 to |segs|
      invariant NodeAt(root, segs) == NodeAt(n, segs[i..])
    {
      assert segs[i..][0] == segs[i] && segs[i..][1..] == segs[i + 1..];
      if n.Leaf? || segs[i] !in n.children {
        return None;
      }
      n := n.children[segs[i]];
    }
    return if n.Leaf? then Some(n.data) else None;
  }

  /** The files below the children already visited, each once, under a path. */
  ghost predicate Collected(n: Node, path: Path, out: seq<(Path, Bytes)>, todo: set<string>) {
    && (forall p, d :: (path + p, d) in out <==> p != [] && p[0] !in todo && FileAt(n, p) == Some(d))
    && (forall e <- out :: path < e.0 && e.0[|path|] !in todo)
    && OncePerPath(out)
  }

  predicate OncePerPath(out: seq<(Path, Bytes)>) {
    forall i, j :: 0 <= i < j < |out| ==> out[i].0 != out[j].0
  }

  lemma CollectStep(n: Node, path: Path, k: string, out: seq<(Path, Bytes)>, sub: seq<(Path, Bytes)>, todo: set<string>)
    requires n.Internal? && k in todo && todo <= n.children.Keys && Collected(n, path, out, todo) && OncePerPath(sub)
    requires forall p, d :: ((path + [k]) + p, d) in sub <==> FileAt(n.children[k], p) == Some(d)
    requires forall e <- sub :: path + [k] <= e.0
    ensures Collected(n, path, out + sub, todo - {k})
  {
    forall e <- sub ensures path < e.0 && e.0[|path|] == k {
      assert e.0[|path|] == (path + [k])[|path|];
    }
    forall p, d
      ensures (path + p, d) in out + sub <==> p != [] && p[0] !in todo - {k} && FileAt(n, p) == Some(d)
    {
      if p != [] && p[0] == k {
        assert path + p == (path + [k]) + p[1..];
        assert (path + p, d) !in out by {
          assert (path + p)[|path|] == k;
        }
      } else {
        assert (path + p, d) !in sub by {
          assert p == [] || (path + p)[|path|] != k;
        }
      }
    }
    var all := out + sub;
    forall i, j | 0 <= i < j < |all| ensures all[i].0 != all[j].0 {
      if i < |out| <= j {
        assert all[i] in out && all[j] in sub;
      }
    }
  }

  /** Depth first over the children, in whatever order the hash map yields them. */
  method CollectAll(n: Node, path: Path) returns (out: seq<(Path, Bytes)>)
    ensures forall p, d :: (path + p, d) in out <==> FileAt(n, p) == Some(d)
    ensures forall e <- out :: path <= e.0
    ensures OncePerPath(out)
    decreases n
  {
    match n {
      case Leaf(x) =>
        out := [(path, x)];
        forall p, d ensures (path + p, d) in out <==> FileAt(n, p) == Some(d) {
          assert path + p == path <==> p == [];
        }
      case Internal(m) =>
        out := [];
        var todo := m.Keys;
        while todo != {}
          invariant todo <= m.Keys && Collected(n, path, out, todo)
          decreases |todo|
        {
          var k :| k in todo;
          var sub := CollectAll(m[k], path + [k]);
          CollectStep(n, path, k, out, sub, todo);
          out, todo := out + sub, todo - {k};
        }
        forall p, d ensures (path + p, d) in out <==> FileAt(n, p) == Some(d) {
          assert FileAt(n, p) == Some(d) ==> p != [];
        }
    }
  }

  lemma {:induction false} ProperWhereFound(n: Node, p: Path)
    requires ProperNames(n) && NodeAt(n, p).Some?
    ensures ProperPath(p)
  {
    if p != [] {
      ProperWhereFound(n.children[p[0]], p[1..]);
      assert forall s <- p :: s == p[0] || s in p[1..];
    }
  }

  function Joined(pairs: seq<(Path, Bytes)>): (out: seq<(string, Bytes)>)
    ensures |out| == |pairs| && forall i :: 0 <= i < |out| ==> out[i] == (Join(pairs[i].0, '/'), pairs[i].1)
  {
    seq(|pairs|, i requires 0 <= i < |pairs| => (Join(pairs[i].0, '/'), pairs[i].1))
  }

  /** The whole package, as the callback of `pack` sees it: exactly the pairs of a canonical path
      and what it resolves to, each path once. */
  method Pack(root: Node) returns (out: seq<(string, Bytes)>)
    requires ProperNames(root)
    ensures forall k, v :: (k, v) in out <==> k == Join(SplitPath(k), '/') && ResolveAbs(root, k) == Some(v)
    ensures forall i, j :: 0 <= i < j < |out| ==> out[i].0 != out[j].0
  {
    var pairs := CollectAll(root, []);
    out := Joined(pairs);
    forall p, d ensures (p, d) in pairs <==> FileAt(root, p) == Some(d) {
      assert [] + p == p;
    }
    JoinedMeans(root, pairs);
  }

  lemma JoinedMeans(root: Node, pairs: seq<(Path, Bytes)>)
    requires ProperNames(root) && OncePerPath(pairs)
    requires forall p, d :: (p, d) in pairs <==> FileAt(root, p) == Some(d)
    ensures forall k, v :: (k, v) in Joined(pairs) <==> k == Join(SplitPath(k), '/') && ResolveAbs(root, k) == Some(v)
    ensures forall i, j :: 0 <= i < j < |pairs| ==> Joined(pairs)[i].0 != Joined(pairs)[j].0
  {
    forall p: Path, d | (p, d) in pairs ensures SplitPath(Join(p, '/')) == p && FileAt(root, p) == Some(d) {
      ProperWhereFound(root, p);
      SplitPathOfJoin(p);
    }
    forall k, v ensures (k, v) in Joined(pairs) <==> k == Join(SplitPath(k), '/') && ResolveAbs(root, k) == Some(v) {
      if (k, v) in Joined(pairs) {
        var i :| 0 <= i < |pairs| && Joined(pairs)[i] == (k, v);
        assert (pairs[i].0, pairs[i].1) in pairs;
      }
      if k == Join(SplitPath(k), '/') && ResolveAbs(root, k) == Some(v) {
        assert (SplitPath(k), v) in pairs;
        var i :| 0 <= i < |pairs| && pairs[i] == (SplitPath(k), v);
        assert Joined(pairs)[i] == (k, v);
      }
    }
    forall i, j | 0 <= i < j < |pairs| ensures Joined(pairs)[i].0 != Joined(pairs)[j].0 {
      assert (pairs[i].0, pairs[i].1) in pairs && (pairs[j].0, pairs[j].1) in pairs;
    }
  }
}
