/** The callback that hands V8 a module for each import (src/package.rs:281-313). It finds the
    referrer's path by inverting the loader's map, resolves the specifier against it, and looks the
    result up as it is, without searching for a file. */
module Callbacks {
  import opened Paths
  import opened Sequences
  import opened Tuple
  import opened Vfs
  import opened Resolve
  import opened ModuleNames
  import opened ImportGraph
  import opened Loader

  /** The module a callback yields; None where it panics. The referrer is any name of the importing
      module, since the inverted map keeps an arbitrary one. */
  function Lookup(g: Graph, modules: map<string, string>, referrer: string, spec: string): Option<string> {
    var path := g.resolve(referrer, spec);
    if path in modules then Some(modules[path]) else None
  }

  /** A path the loader's map holds, if it leads to a compiled file: the file's own path, or a name
      that comes up in the order of visits after another name of the same file. */
  predicate Remembered(g: Graph, files: set<string>, p: string) {
    g.normal(p) == Some(p) || Revisited(g, VisitOrder(g, [g.start], files), p)
  }

  lemma RememberedIffKey(g: Graph, files: set<string>, modules: map<string, string>, order: seq<string>, p: string)
    requires Finished(g, files, modules, order) && g.normal(p).Some? && g.normal(p).value in order
    ensures p in modules <==> Remembered(g, files, p)
  {
    var visits := VisitOrder(g, [g.start], files);
    KeyIff(g, modules, order, visits, p);
  }

  lemma KeyIff(g: Graph, modules: map<string, string>, order: seq<string>, visits: seq<string>, p: string)
    requires Complete(g, modules, order, visits) && g.normal(p).Some? && g.normal(p).value in order
    ensures p in modules <==> g.normal(p) == Some(p) || Revisited(g, visits, p)
  {
    assert p in modules <==> Named(g, order, visits, p);
    assert p in order ==> g.normal(p) == Some(p);
  }

  /** Each import of a compiled file leads to a compiled file. */
  lemma ImportIsCompiled(g: Graph, modules: map<string, string>, order: seq<string>, visits: seq<string>, x: string, i: nat)
    requires Complete(g, modules, order, visits) && x in order && i < |g.parse(x).specifiers|
    ensures var p := g.resolve(x, g.parse(x).specifiers[i]); g.normal(p).Some? && g.normal(p).value in order
  {
    var p := g.resolve(x, g.parse(x).specifiers[i]);
    assert Edges(g, x)[i] == p;
    assert Sound(g, x);
    var y := g.normal(p).value;
    assert Edge(g, x, y);
    assert Reachable(g, x) <==> x in order;
    ReachStep(g, x, y);
  }

  /** Whatever name of the importing module the inverted map kept, its callback finds the file that
      the import names exactly when the path from that name leads to that file and is remembered. */
  lemma LookupSucceedsIff(g: Graph, files: set<string>, modules: map<string, string>, order: seq<string>, r: string, i: nat)
    requires Finished(g, files, modules, order) && r in modules && i < |g.parse(modules[r]).specifiers|
    ensures var spec := g.parse(modules[r]).specifiers[i];
            var meant := g.normal(g.resolve(modules[r], spec));
            var p := g.resolve(r, spec);
            meant.Some? && (Lookup(g, modules, r, spec) == meant <==> g.normal(p) == meant && Remembered(g, files, p))
  {
    var visits := VisitOrder(g, [g.start], files);
    var x := modules[r];
    var p := g.resolve(r, g.parse(x).specifiers[i]);
    NameIsImported(g, modules, order, visits, r);
    ImportIsCompiled(g, modules, order, visits, x, i);
    if p in modules {
      NameIsImported(g, modules, order, visits, p);
    }
    if g.normal(p) == g.normal(g.resolve(x, g.parse(x).specifiers[i])) {
      RememberedIffKey(g, files, modules, order, p);
    }
  }

  /** From the module's own path the callback finds the file or panics; it never finds another. */
  lemma OwnPathLookup(g: Graph, modules: map<string, string>, order: seq<string>, visits: seq<string>, x: string, i: nat)
    requires Complete(g, modules, order, visits) && x in order && i < |g.parse(x).specifiers|
    ensures var p := g.resolve(x, g.parse(x).specifiers[i]);
            Lookup(g, modules, x, g.parse(x).specifiers[i])
              == if g.normal(p) == Some(p) || Revisited(g, visits, p) then g.normal(p) else None
  {
    var p := g.resolve(x, g.parse(x).specifiers[i]);
    ImportIsCompiled(g, modules, order, visits, x, i);
    KeyIff(g, modules, order, visits, p);
  }

  /** A name that two imports lead to is always remembered, in whatever order they are visited. */
  lemma TwiceIsEnough(g: Graph, files: set<string>, modules: map<string, string>, order: seq<string>, p: string)
    requires Finished(g, files, modules, order) && multiset([g.start] + AllEdges(g, order))[p] >= 2
    ensures Remembered(g, files, p)
  {
    var visits := VisitOrder(g, [g.start], files);
    assert multiset(visits)[p] >= 2;
    var i, j := TwoPlaces(visits, p);
    assert visits[j] == p && g.normal(visits[i]) == g.normal(p);
  }

  lemma {:induction false} TwoPlaces(s: seq<string>, p: string) returns (i: nat, j: nat)
    requires multiset(s)[p] >= 2
    ensures i < j < |s| && s[i] == s[j] == p
  {
    var n := |s| - 1;
    assert s == s[..n] + [s[n]];
    if s[n] == p {
      assert p in multiset(s[..n]);
      i :| 0 <= i < n && s[..n][i] == p;
      j := n;
    } else {
      i, j := TwoPlaces(s[..n], p);
    }
  }

  /** In a package, the callbacks of a module agree under a name that only lacks an extension, and
      under a directory's name for imports that climb to the root. */
  lemma AlikeLookups(root: Node, parse: string -> Source, start: string, modules: map<string, string>,
                     order: seq<string>, visits: seq<string>, r: string, spec: string)
    requires Complete(GraphOf(root, parse, start), modules, order, visits) && Canonical(start) && r in modules
    requires SameDirectory(r, modules[r]) || ReachesRoot(SplitPath(r), SplitPath(spec))
    ensures var g := GraphOf(root, parse, start); Lookup(g, modules, r, spec) == Lookup(g, modules, modules[r], spec)
  {
    NameIsCanonical(root, parse, start, modules, order, visits, r);
    ResolvesAlikeIff(root, r, spec);
  }

  lemma NameIsImported(g: Graph, modules: map<string, string>, order: seq<string>, visits: seq<string>, k: string)
    requires Complete(g, modules, order, visits) && k in modules
    ensures g.normal(k) == Some(modules[k])
    ensures modules[k] in order && (k == modules[k] || k in [g.start] + AllEdges(g, order))
  {
    if k !in order {
      var i, j :| 0 <= i < j < |visits| && visits[j] == k && g.normal(visits[i]) == g.normal(k);
      assert k in multiset(visits);
      assert k in multiset([g.start] + AllEdges(g, order));
    }
  }

  predicate AllNormal(g: Graph, order: seq<string>) {
    forall p <- [g.start] + AllEdges(g, order) :: g.normal(p) == Some(p)
  }

  /** When every import is written as its own normal form, a module has no other name, */
  lemma OneName(g: Graph, modules: map<string, string>, order: seq<string>, visits: seq<string>, k: string)
    requires Complete(g, modules, order, visits) && AllNormal(g, order)
    requires k in modules
    ensures modules[k] == k && k in order
  {
    NameIsImported(g, modules, order, visits, k);
  }

  /** and every callback finds the file its import names. */
  lemma CallbacksSucceed(g: Graph, modules: map<string, string>, order: seq<string>, visits: seq<string>,
                         referrer: string, i: nat)
    requires Complete(g, modules, order, visits) && AllNormal(g, order)
    requires referrer in modules && i < |g.parse(modules[referrer]).specifiers|
    ensures var spec := g.parse(modules[referrer]).specifiers[i];
            Lookup(g, modules, referrer, spec) == Some(g.resolve(referrer, spec))
  {
    OneName(g, modules, order, visits, referrer);
    EdgeOfOrder(g, order, g.resolve(referrer, g.parse(referrer).specifiers[i]));
    assert Edges(g, referrer)[i] == g.resolve(referrer, g.parse(referrer).specifiers[i]);
    OwnPathLookup(g, modules, order, visits, referrer, i);
  }

  lemma NameIsCanonical(root: Node, parse: string -> Source, start: string, modules: map<string, string>,
                        order: seq<string>, visits: seq<string>, k: string)
    requires Complete(GraphOf(root, parse, start), modules, order, visits)
    requires Canonical(start) && k in modules
    ensures Canonical(k) && Normalize(root, k) == Some(modules[k])
  {
    NameIsImported(GraphOf(root, parse, start), modules, order, visits, k);
    if k == modules[k] {
      NormalizeLands(root, k);
    } else if k != start {
      ImportsAreCanonical(root, parse, start, order, k);
    }
  }

  /** A name that stands for another file never hides one: no file has that path. */
  lemma AliasIsNeverAFile(root: Node, parse: string -> Source, start: string, modules: map<string, string>,
                          order: seq<string>, visits: seq<string>, k: string)
    requires Complete(GraphOf(root, parse, start), modules, order, visits)
    requires Canonical(start) && k in modules && modules[k] != k
    ensures Canonical(k) && ResolveAbs(root, k).None?
  {
    NameIsCanonical(root, parse, start, modules, order, visits, k);
    AliasIsNoFile(root, k);
  }

  lemma ImportsAreCanonical(root: Node, parse: string -> Source, start: string, order: seq<string>, k: string)
    requires k in AllEdges(GraphOf(root, parse, start), order)
    ensures Canonical(k)
  {
    var g := GraphOf(root, parse, start);
    EdgeOfOrder(g, order, k);
    var x :| x in order && k in Edges(g, x);
    var n: nat :| n < |Edges(g, x)| && Edges(g, x)[n] == k;
    TransformStaysInside(x, parse(x).specifiers[n]);
  }

  /** One way to fail: an import by another name, when nothing else leads to the file. */
  lemma LoneAliasFails(g: Graph, modules: map<string, string>, order: seq<string>, visits: seq<string>, x: string, i: nat)
    requires Complete(g, modules, order, visits) && x in order && i < |g.parse(x).specifiers|
    requires var p := g.resolve(x, g.parse(x).specifiers[i]);
             && g.normal(p) != Some(p)
             && multiset([g.start] + AllEdges(g, order))[p] == 1
             && forall q <- [g.start] + AllEdges(g, order) :: g.normal(q) == g.normal(p) ==> q == p
    ensures Lookup(g, modules, x, g.parse(x).specifiers[i]) == None
  {
    var p := g.resolve(x, g.parse(x).specifiers[i]);
    OwnPathLookup(g, modules, order, visits, x, i);
    if Revisited(g, visits, p) {
      var j, k :| 0 <= j < k < |visits| && visits[k] == p && g.normal(visits[j]) == g.normal(p);
      assert visits[j] in multiset(visits);
      CountTwo(visits, j, k);
    }
  }

  lemma CountTwo(s: seq<string>, j: nat, k: nat)
    requires j < k < |s| && s[j] == s[k]
    ensures multiset(s)[s[k]] >= 2
  {
    assert s == s[..k] + s[k..];
    assert s[..k][j] == s[k] && s[k..][0] == s[k];
    assert s[k] in multiset(s[..k]) && s[k] in multiset(s[k..]);
  }
}
