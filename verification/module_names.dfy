/** Resolving an import against another name of the importing file (src/package.rs:158-173, 208-216).
    A name without its extension leads to the same places; a directory's name does only where the
    import climbs to the root. */
module ModuleNames {
  import opened Paths
  import opened Tuple
  import opened Vfs
  import opened Resolve

  /** The walk passes the root. */
  predicate ReachesRoot(dir: Path, segs: Path)
    decreases |segs|
  {
    dir == [] || (segs != [] && ReachesRoot(Stride(dir, segs[0]), segs[1..]))
  }

  /** Two walks a level apart stay so until the longer one is at the root; from there they are one. */
  lemma {:induction false} WalkBehind(a: Path, b: Path, segs: Path)
    requires |a| == |b| + 1
    ensures if ReachesRoot(a, segs) then Walk(a, segs) == Walk(b, segs) else |Walk(a, segs)| == |Walk(b, segs)| + 1
    decreases |segs|
  {
    if segs != [] {
      var a', b' := Stride(a, segs[0]), Stride(b, segs[0]);
      assert Walk(a, segs) == Walk(a', segs[1..]) && Walk(b, segs) == Walk(b', segs[1..]);
      assert ReachesRoot(a, segs) <==> ReachesRoot(a', segs[1..]);
      if a' == [] {
        assert b' == [];
      } else {
        WalkBehind(a', b', segs[1..]);
      }
    }
  }

  lemma JoinInjective(p: Path, q: Path)
    requires ProperPath(p) && ProperPath(q)
    ensures Join(p, '/') == Join(q, '/') <==> p == q
  {
    SplitPathOfJoin(p);
    SplitPathOfJoin(q);
  }

  /** From a directory's name and from a file in it an import leads to the same place exactly when it
      climbs to the root on its way. */
  lemma DirectoryResolvesAlikeIff(r: string, x: string, name: string, spec: string)
    requires SplitPath(x) == SplitPath(r) + [name]
    ensures Transform(r, spec) == Transform(x, spec) <==> ReachesRoot(SplitPath(r), SplitPath(spec))
  {
    var dir, segs := SplitPath(r), SplitPath(spec);
    SplitPathProper(r);
    SplitPathProper(spec);
    assert Dirname(SplitPath(x)) == dir;
    if dir != [] {
      WalkBehind(dir, Dirname(dir), segs);
    }
    WalkStaysInside(dir, segs);
    WalkStaysInside(Dirname(dir), segs);
    JoinInjective(Walk(dir, segs), Walk(Dirname(dir), segs));
  }

  lemma LastPieceKept(r: string)
    requires Canonical(r) && r != ""
    ensures SplitPath(r) == Split(r, '/') && SplitPath(r) != []
  {
    var p := SplitPath(r);
    SplitPathProper(r);
    assert p != [];
    SplitJoin(p, '/');
  }

  /** An extension stays in the directory. */
  lemma ExtensionStaysInDirectory(r: string, ext: string)
    requires Canonical(r) && '/' !in ext && |ext| > 2
    ensures Dirname(SplitPath(r + ext)) == Dirname(SplitPath(r))
  {
    var pieces := Split(r, '/');
    var n := |pieces| - 1;
    SplitAppend(r, ext);
    var last := pieces[n] + ext;
    FilterConcat(pieces[..n], [last], KEEP);
    assert Filter([last], KEEP) == [last] + Filter([], KEEP);
    assert SplitPath(r + ext) == Filter(pieces[..n], KEEP) + [last];
    if r == "" {
      assert pieces[..n] == [];
    } else {
      LastPieceKept(r);
      assert forall i :: 0 <= i < n ==> KEEP(pieces[i]) by {
        SplitPathProper(r);
        assert forall i :: 0 <= i < n ==> pieces[i] in SplitPath(r);
      }
      FilterAll(pieces[..n], KEEP);
    }
  }

  lemma IndexIsInDirectory(r: string, name: string)
    requires '/' !in name && |name| > 2
    ensures SplitPath(r + ['/'] + name) == SplitPath(r) + [name]
  {
    SplitConcat(r, '/', name);
    SplitPiece(name, '/');
    FilterConcat(Split(r, '/'), [name], KEEP);
    assert Filter([name], KEEP) == [name] + Filter([], KEEP);
  }

  /** The two kinds of names a file has besides its own path. */
  predicate SameDirectory(r: string, x: string) {
    Dirname(SplitPath(x)) == Dirname(SplitPath(r))
  }

  predicate InDirectory(r: string, x: string) {
    SplitPath(x) != [] && Dirname(SplitPath(x)) == SplitPath(r)
  }

  lemma SuffixPlaces(r: string, suffix: string)
    requires Canonical(r) && Harmless(suffix)
    ensures SameDirectory(r, r + suffix) || InDirectory(r, r + suffix)
    ensures suffix == "" || suffix[0] != '/' ==> SameDirectory(r, r + suffix)
  {
    if suffix == "" {
      AfterNothing(r);
    } else if suffix[0] == '/' && '/' !in suffix[1..] {
      AfterSlash(r, suffix);
      IndexIsInDirectory(r, suffix[1..]);
    } else {
      ExtensionStaysInDirectory(r, suffix);
    }
  }

  lemma NamePlaces(root: Node, r: string)
    requires Canonical(r) && Normalize(root, r).Some?
    ensures SameDirectory(r, Normalize(root, r).value) || InDirectory(r, Normalize(root, r).value)
  {
    var s := First(Candidates(r), IsFile(root)).value;
    var i :| 0 <= i < |SUFFIXES| && Candidates(r)[i] == s;
    SuffixIsHarmless(i);
    SuffixPlaces(r, SUFFIXES[i]);
    CanonicalForm(s);
  }

  /** Whatever name of a file an import is resolved against, it leads where it leads from the file's
      own path exactly when the name only lacks an extension or the import climbs to the root. */
  lemma ResolvesAlikeIff(root: Node, r: string, spec: string)
    requires Canonical(r) && Normalize(root, r).Some?
    ensures var x := Normalize(root, r).value;
            Transform(r, spec) == Transform(x, spec) <==> SameDirectory(r, x) || ReachesRoot(SplitPath(r), SplitPath(spec))
  {
    var x := Normalize(root, r).value;
    NamePlaces(root, r);
    if !SameDirectory(r, x) {
      var p := SplitPath(x);
      assert p == SplitPath(r) + [p[|p| - 1]];
      DirectoryResolvesAlikeIff(r, x, p[|p| - 1], spec);
    }
  }
}
