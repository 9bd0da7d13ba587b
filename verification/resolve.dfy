/** Module paths (src/package.rs): relative resolution and the search for a file. */
module Resolve {
  import opened Paths
  import opened Tuple
  import opened Vfs

  const PARENT := ".."

  predicate NoParents(p: Path) {
    PARENT !in p
  }

  /** Written with single slashes, without "." segments. */
  predicate Canonical(raw: string) {
    raw == Join(SplitPath(raw), '/')
  }

  function Dirname(p: Path): Path {
    if p == [] then [] else p[..|p| - 1]
  }

  function Stride(dir: Path, seg: string): Path {
    if seg == PARENT then Dirname(dir) else dir + [seg]
  }

  /** Where a walk along `segs` ends; above the root there is only the root. */
  function Walk(dir: Path, segs: Path): Path
    decreases |segs|
  {
    if segs == [] then dir
    else Walk(Stride(dir, segs[0]), segs[1..])
  }

  function Transform(current: string, target: string): string {
    Join(Walk(Dirname(SplitPath(current)), SplitPath(target)), '/')
  }

  method TransformRelPath(current: string, target: string) returns (r: string)
    ensures r == Transform(current, target)
  {
    var segs := SplitPath(current);
    if segs != [] {
      segs := segs[..|segs| - 1];
    }
    segs := WalkAlong(segs, SplitPath(target));
    r := Join(segs, '/');
  }

  method WalkAlong(dir: Path, steps: Path) returns (segs: Path)
    ensures segs == Walk(dir, steps)
  {
    segs := dir;
    for i := 0 to |steps|
      invariant Walk(segs, steps[i..]) == Walk(dir, steps)
    {
      assert steps[i..][0] == steps[i] && steps[i..][1..] == steps[i + 1..];
      if steps[i] == PARENT {
        if segs != [] {
          segs := segs[..|segs| - 1];
        }
        continue;
      }
      segs := segs + [steps[i]];
    }
  }

  lemma {:induction false} WalkConcat(dir: Path, a: Path, b: Path)
    ensures Walk(dir, a + b) == Walk(Walk(dir, a), b)
    decreases |a|
  {
    if a == [] {
      assert a + b == b;
    } else {
      assert (a + b)[1..] == a[1..] + b;
      WalkConcat(Stride(dir, a[0]), a[1..], b);
    }
  }

  lemma {:induction false} WalkDown(dir: Path, segs: Path)
    requires NoParents(segs)
    ensures Walk(dir, segs) == dir + segs
    decreases |segs|
  {
    if segs != [] {
      WalkDown(dir + [segs[0]], segs[1..]);
      assert dir + [segs[0]] + segs[1..] == dir + segs;
    }
  }

  /** Any number of parent steps stops at the root. */
  lemma {:induction false} WalkUp(dir: Path, ups: Path)
    requires forall i :: 0 <= i < |ups| ==> ups[i] == PARENT
    ensures Walk(dir, ups) == if |ups| < |dir| then dir[..|dir| - |ups|] else []
    decreases |ups|
  {
    if ups != [] {
      assert ups[0] == PARENT;
      WalkUp(Dirname(dir), ups[1..]);
    } else {
      assert dir[..|dir|] == dir;
    }
  }

  lemma {:induction false} WalkStaysInside(dir: Path, segs: Path)
    requires ProperPath(dir) && ProperPath(segs)
    ensures ProperPath(Walk(dir, segs))
    ensures NoParents(dir) ==> NoParents(Walk(dir, segs))
    decreases |segs|
  {
    if segs != [] {
      assert segs[0] in segs;
      WalkStaysInside(Stride(dir, segs[0]), segs[1..]);
    }
  }

  /** Whatever the target, the result is canonical, and a file free of ".." cannot climb out. */
  lemma TransformStaysInside(current: string, target: string)
    ensures Canonical(Transform(current, target))
    ensures NoParents(SplitPath(current)) ==> NoParents(SplitPath(Transform(current, target)))
  {
    SplitPathProper(current);
    SplitPathProper(target);
    var dir := Dirname(SplitPath(current));
    WalkStaysInside(dir, SplitPath(target));
    SplitPathOfJoin(Walk(dir, SplitPath(target)));
  }

  /** What the segments of a path are: slashes separate them, and "" and "." do not count. */
  lemma SplitPathMeans(a: string, b: string, x: string)
    ensures SplitPath(a + "/" + b) == SplitPath(a) + SplitPath(b)
    ensures '/' !in x ==> SplitPath(x) == if x == "" || x == "." then [] else [x]
  {
    assert a + "/" + b == a + ['/'] + b;
    SplitConcat(a, '/', b);
    FilterConcat(Split(a, '/'), Split(b, '/'), KEEP);
    if '/' !in x {
      SplitPiece(x, '/');
      assert Filter([x][1..], KEEP) == [];
    }
  }

  /** A file imports from its own directory, and each ".." before the rest of the path goes one up. */
  lemma TransformMeans(dir: string, name: string, target: string)
    requires '/' !in name && name != "" && name != "."
    ensures ".." !in SplitPath(target) ==>
              Transform(dir + "/" + name, target) == Join(SplitPath(dir) + SplitPath(target), '/')
    ensures Transform(dir + "/" + name, "../" + target)
         == Transform(if SplitPath(dir) == [] then name else Join(SplitPath(dir), '/'), target)
  {
    SplitPathMeans(dir, name, name);
    assert SplitPath(dir + "/" + name)[..|SplitPath(dir)|] == SplitPath(dir);
    if ".." !in SplitPath(target) {
      WalkDown(SplitPath(dir), SplitPath(target));
    }
    assert "../" + target == ".." + "/" + target;
    SplitPathMeans("..", target, "..");
    assert ([PARENT] + SplitPath(target))[1..] == SplitPath(target);
    SplitPathProper(dir);
    SplitPathOfJoin(SplitPath(dir));
  }

  // Finding a file.

  const SUFFIXES := ["", ".mjs", ".js", "/index.mjs", "/index.js"]

  /** The first of the candidates that is a hit. */
  function First(candidates: seq<string>, hit: string -> bool): (r: Option<string>)
    ensures r.Some? ==> r.value in candidates && hit(r.value)
    ensures r.None? ==> forall c <- candidates :: !hit(c)
  {
    if candidates == [] then None
    else if hit(candidates[0]) then Some(candidates[0])
    else First(candidates[1..], hit)
  }

  function IsFile(root: Node): string -> bool {
    s => ResolveAbs(root, s).Some?
  }

  function Candidates(src: string): seq<string> {
    seq(|SUFFIXES|, i requires 0 <= i < |SUFFIXES| => src + SUFFIXES[i])
  }

  /** None where the code panics. */
  function Normalize(root: Node, src: string): Option<string> {
    match First(Candidates(src), IsFile(root))
    case None => None
    case Some(s) => Some(Join(SplitPath(s), '/'))
  }

  method NormalizePath(root: Node, src: string) returns (r: Option<string>)
    ensures r == Normalize(root, src)
  {
    ghost var all := Candidates(src);
    for i := 0 to |SUFFIXES|
      invariant First(all, IsFile(root)) == First(all[i..], IsFile(root))
    {
      var s := src + SUFFIXES[i];
      var data := Vfs.Resolve(root, s);
      assert all[i..][0] == s && all[i..][1..] == all[i + 1..];
      if data.Some? {
        return Some(Join(SplitPath(s), '/'));
      }
    }
    return None;
  }

  lemma CanonicalForm(raw: string)
    ensures SplitPath(Join(SplitPath(raw), '/')) == SplitPath(raw)
  {
    SplitPathProper(raw);
    SplitPathOfJoin(SplitPath(raw));
  }

  /** What normalising finds is a file, canonically written, and its own normal form. */
  lemma NormalizeLands(root: Node, src: string)
    requires Normalize(root, src).Some?
    ensures ResolveAbs(root, Normalize(root, src).value).Some?
    ensures Canonical(Normalize(root, src).value)
    ensures Normalize(root, Normalize(root, src).value) == Normalize(root, src)
  {
    CanonicalForm(First(Candidates(src), IsFile(root)).value);
    FileIsNormal(root, Normalize(root, src).value);
  }

  /** Normalising fails exactly when no suffix names a file. */
  lemma NormalizeFails(root: Node, src: string)
    ensures Normalize(root, src).None? <==>
              forall i :: 0 <= i < |SUFFIXES| ==> ResolveAbs(root, src + SUFFIXES[i]).None?
  {
    var all := Candidates(src);
    forall i | 0 <= i < |SUFFIXES| ensures src + SUFFIXES[i] in all {
      assert all[i] == src + SUFFIXES[i];
    }
  }

  lemma FirstOf(candidates: seq<string>, hit: string -> bool)
    requires candidates != []
    ensures First(candidates, hit) == if hit(candidates[0]) then Some(candidates[0]) else First(candidates[1..], hit)
  {
  }

  /** Which file a name stands for when several suffixes name one: itself, then ".mjs", ".js", and the
      index files of the directory in that order. */
  lemma NormalizeMeans(root: Node, src: string)
    ensures Normalize(root, src) ==
              if ResolveAbs(root, src).Some? then Some(Join(SplitPath(src), '/'))
              else if ResolveAbs(root, src + ".mjs").Some? then Some(Join(SplitPath(src + ".mjs"), '/'))
              else if ResolveAbs(root, src + ".js").Some? then Some(Join(SplitPath(src + ".js"), '/'))
              else if ResolveAbs(root, src + "/index.mjs").Some? then Some(Join(SplitPath(src + "/index.mjs"), '/'))
              else if ResolveAbs(root, src + "/index.js").Some? then Some(Join(SplitPath(src + "/index.js"), '/'))
              else None
  {
    var hit := IsFile(root);
    AfterNothing(src);
    var all := [src, src + ".mjs", src + ".js", src + "/index.mjs", src + "/index.js"];
    assert Candidates(src) == all;
    FirstOf(all, hit);
    FirstOf(all[1..], hit);
    FirstOf(all[2..], hit);
    FirstOf(all[3..], hit);
    FirstOf(all[4..], hit);
    assert all[1..][1..] == all[2..] && all[2..][1..] == all[3..] && all[3..][1..] == all[4..] && all[4..][1..] == [];
  }

  /** A path that is a file is normal as soon as it is canonical. */
  lemma FileIsNormal(root: Node, raw: string)
    requires ResolveAbs(root, raw).Some? && Canonical(raw)
    ensures Normalize(root, raw) == Some(raw)
  {
    assert Candidates(raw)[0] == raw + "" == raw;
  }

  /** A name that stands for another file is no file itself. */
  lemma AliasIsNoFile(root: Node, raw: string)
    requires Canonical(raw) && Normalize(root, raw).Some? && Normalize(root, raw) != Some(raw)
    ensures ResolveAbs(root, raw).None?
  {
    if ResolveAbs(root, raw).Some? {
      FileIsNormal(root, raw);
    }
  }

  // No suffix makes a "..".

  lemma {:induction false} SplitAppend(a: string, b: string)
    requires '/' !in b
    ensures var r := Split(a, '/'); Split(a + b, '/') == r[..|r| - 1] + [r[|r| - 1] + b]
  {
    if a == [] {
      SplitPiece(b, '/');
      assert a + b == b;
      assert Split(a, '/') == [[]];
    } else {
      assert (a + b)[1..] == a[1..] + b;
      SplitAppend(a[1..], b);
      var r := Split(a[1..], '/');
      var more := Split(a[1..] + b, '/');
      if a[0] == '/' {
        assert Split(a + b, '/') == [[]] + more;
      } else {
        assert Split(a + b, '/') == [[a[0]] + more[0]] + more[1..];
        if |r| == 1 {
          assert [a[0]] + (r[0] + b) == [a[0]] + r[0] + b;
        }
      }
    }
  }

  lemma IndexKeepsOutParents(src: string, name: string)
    requires NoParents(Split(src, '/')) && '/' !in name && |name| > 2
    ensures NoParents(SplitPath(src + ['/'] + name))
  {
    SplitConcat(src, '/', name);
    SplitPiece(name, '/');
  }

  lemma ExtensionKeepsOutParents(src: string, ext: string)
    requires NoParents(Split(src, '/')) && '/' !in ext && |ext| > 2
    ensures NoParents(SplitPath(src + ext))
  {
    var r := Split(src, '/');
    SplitAppend(src, ext);
    assert |r[|r| - 1] + ext| > 2;
  }

  /** Nothing, an extension, or a slash and a name; none short enough to be "..". */
  predicate Harmless(suffix: string) {
    || suffix == ""
    || ('/' !in suffix && |suffix| > 2)
    || (suffix != "" && suffix[0] == '/' && '/' !in suffix[1..] && |suffix| > 3)
  }

  lemma SuffixIsHarmless(i: nat)
    requires i < |SUFFIXES|
    ensures Harmless(SUFFIXES[i])
  {
    assert "/index.mjs"[1..] == "index.mjs" && "/index.js"[1..] == "index.js";
  }

  lemma SuffixKeepsOutParents(src: string, suffix: string)
    requires Harmless(suffix) && NoParents(SplitPath(src))
    ensures NoParents(SplitPath(src + suffix))
  {
    if suffix == "" {
      AfterNothing(src);
    } else {
      PiecesHaveNoParents(src);
      if suffix[0] == '/' && '/' !in suffix[1..] {
        AfterSlash(src, suffix);
        IndexKeepsOutParents(src, suffix[1..]);
      } else {
        ExtensionKeepsOutParents(src, suffix);
      }
    }
  }

  lemma AfterNothing(src: string)
    ensures src + "" == src
  {
  }

  lemma AfterSlash(src: string, suffix: string)
    requires suffix != "" && suffix[0] == '/'
    ensures src + suffix == src + ['/'] + suffix[1..]
  {
  }

  lemma PiecesHaveNoParents(src: string)
    requires NoParents(SplitPath(src))
    ensures NoParents(Split(src, '/'))
  {
    if PARENT in Split(src, '/') {
      KeptIn(Split(src, '/'), PARENT);
    }
  }

  lemma {:induction false} KeptIn(pieces: seq<string>, x: string)
    requires x in pieces && KEEP(x)
    ensures x in Filter(pieces, KEEP)
  {
    if x != pieces[0] {
      KeptIn(pieces[1..], x);
    }
  }

  lemma NormalizeStaysInside(root: Node, src: string)
    requires Normalize(root, src).Some? && NoParents(SplitPath(src))
    ensures NoParents(SplitPath(Normalize(root, src).value))
  {
    var s := First(Candidates(src), IsFile(root)).value;
    var i :| 0 <= i < |SUFFIXES| && Candidates(src)[i] == s;
    SuffixIsHarmless(i);
    SuffixKeepsOutParents(src, SUFFIXES[i]);
    CanonicalForm(s);
  }
}
