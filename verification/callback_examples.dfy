/** Packages that load and whose callbacks panic all the same (src/package.rs:225-313). */
module CallbackExamples {
  import opened Paths
  import opened Sequences
  import opened Tuple
  import opened Vfs
  import opened Resolve
  import opened ModuleNames
  import opened ImportGraph
  import opened Loader
  import opened Callbacks

  ghost predicate Loads(g: Graph) {
    forall x :: Reachable(g, x) ==> Sound(g, x)
  }

  lemma LoadsWithin(g: Graph, found: seq<string>)
    requires g.start in found
    requires forall x <- found :: Sound(g, x)
    requires forall x, p :: x in found && p in Edges(g, x) && g.normal(p).Some? ==> g.normal(p).value in found
    ensures Loads(g) && forall x :: Reachable(g, x) ==> x in found
  {
    forall x | Reachable(g, x) ensures x in found {
      var trail :| Trail(g, trail) && trail[|trail| - 1] == x;
      ReachOnly(g, found, trail);
    }
  }

  lemma OneEdge(g: Graph, x: string, spec: string)
    requires g.parse(x) == Imports([spec])
    ensures Edges(g, x) == [g.resolve(x, spec)]
  {
  }

  lemma TwoEdges(g: Graph, x: string, s: string, t: string)
    requires g.parse(x) == Imports([s, t])
    ensures Edges(g, x) == [g.resolve(x, s), g.resolve(x, t)]
    ensures Reverse(Edges(g, x)) == [g.resolve(x, t), g.resolve(x, s)]
  {
    ReverseTwo(g.resolve(x, s), g.resolve(x, t));
  }

  lemma ReverseTwo(a: string, b: string)
    ensures Reverse([a, b]) == [b, a] && Reverse([a]) == [a]
  {
    assert [a] + [b] == [a, b] && [] + [a] == [a];
    ReverseSnoc([a], b);
    ReverseSnoc<string>([], a);
  }

  /** One visit of a file not yet compiled, or of one compiled before. */
  lemma VisitNew(g: Graph, p: string, later: seq<string>, left: set<string>, x: string)
    requires g.normal(p) == Some(x) && x in left
    ensures VisitOrder(g, [p] + later, left) == [p] + VisitOrder(g, Reverse(Edges(g, x)) + later, left - {x})
  {
    assert ([p] + later)[1..] == later;
  }

  lemma VisitOld(g: Graph, p: string, later: seq<string>, left: set<string>, x: string)
    requires g.normal(p) == Some(x) && x !in left
    ensures VisitOrder(g, [p] + later, left) == [p] + VisitOrder(g, later, left)
  {
    assert ([p] + later)[1..] == later;
  }

  lemma StartIsCompiled(g: Graph, modules: map<string, string>, order: seq<string>, visits: seq<string>)
    requires Complete(g, modules, order, visits)
    ensures g.start in order
  {
    ReachStart(g);
    assert Reachable(g, g.start) <==> g.start in order;
  }

  // A file imported once, by an alias.

  predicate Lone(g: Graph, spec: string, p: string, f: string) {
    && g.parse(g.start) == Imports([spec]) && g.resolve(g.start, spec) == p
    && g.normal(p) == Some(f) && p !in {g.start, f} && f != g.start
    && g.normal(g.start) == Some(g.start) && g.parse(f) == Imports([])
  }

  lemma LoneOrder(g: Graph, spec: string, p: string, f: string, files: set<string>)
    requires Lone(g, spec, p, f) && {g.start, f} <= files
    ensures VisitOrder(g, [g.start], files) == [g.start, p]
  {
    OneEdge(g, g.start, spec);
    ReverseTwo(p, p);
    assert [g.start] + [] == [g.start] && [p] + [] == [p];
    VisitNew(g, g.start, [], files, g.start);
    VisitNew(g, p, [], files - {g.start}, f);
    assert Edges(g, f) == [] && Reverse(Edges(g, f)) + [] == [];
    assert [g.start] + ([p] + []) == [g.start, p];
  }

  /** It loads, and its callback panics. */
  lemma LoneFails(g: Graph, spec: string, p: string, f: string, files: set<string>,
                  modules: map<string, string>, order: seq<string>)
    requires Lone(g, spec, p, f) && {g.start, f} <= files
    ensures Loads(g)
    ensures Finished(g, files, modules, order) ==> Lookup(g, modules, g.start, spec) == None
  {
    OneEdge(g, g.start, spec);
    LoadsWithin(g, [g.start, f]);
    LoneOrder(g, spec, p, f, files);
    if Finished(g, files, modules, order) {
      StartIsCompiled(g, modules, order, [g.start, p]);
      OwnPathLookup(g, modules, order, [g.start, p], g.start, 0);
      assert g.normal(g.start) != g.normal(p);
    }
  }

  // A file imported under an alias and by its own path.

  predicate Both(g: Graph, alias: string, own: string, a: string, f: string) {
    && g.resolve(g.start, alias) == a && g.resolve(g.start, own) == f
    && g.normal(a) == Some(f) == g.normal(f) && a !in {g.start, f} && f != g.start
    && g.normal(g.start) == Some(g.start) && g.parse(f) == Imports([])
  }

  lemma BothOrder(g: Graph, s: string, t: string, p: string, q: string, f: string, files: set<string>)
    requires g.parse(g.start) == Imports([s, t]) && g.resolve(g.start, s) == p && g.resolve(g.start, t) == q
    requires g.normal(p) == Some(f) == g.normal(q) && f != g.start
    requires g.normal(g.start) == Some(g.start) && g.parse(f) == Imports([]) && {g.start, f} <= files
    ensures VisitOrder(g, [g.start], files) == [g.start, q, p]
  {
    TwoEdges(g, g.start, s, t);
    assert [g.start] + [] == [g.start] && [q, p] + [] == [q, p] == [q] + [p] && [p] + [] == [p];
    VisitNew(g, g.start, [], files, g.start);
    VisitNew(g, q, [p], files - {g.start}, f);
    assert Edges(g, f) == [] && Reverse(Edges(g, f)) + [p] == [p];
    VisitOld(g, p, [], files - {g.start} - {f}, f);
    assert [g.start] + ([q] + ([p] + [])) == [g.start, q, p];
  }

  /** The order of the two imports decides: the alias works if it is written first, since the import
      written last is visited first. */
  lemma ImportOrderMatters(g: Graph, alias: string, own: string, a: string, f: string, files: set<string>,
                           modules: map<string, string>, order: seq<string>)
    requires Both(g, alias, own, a, f) && {g.start, f} <= files
    requires g.parse(g.start) == Imports([alias, own]) || g.parse(g.start) == Imports([own, alias])
    ensures Loads(g)
    ensures Finished(g, files, modules, order) ==>
              Lookup(g, modules, g.start, alias) == if g.parse(g.start).specifiers[0] == alias then Some(f) else None
  {
    var specs := g.parse(g.start).specifiers;
    TwoEdges(g, g.start, specs[0], specs[1]);
    LoadsWithin(g, [g.start, f]);
    var p, q := g.resolve(g.start, specs[0]), g.resolve(g.start, specs[1]);
    BothOrder(g, specs[0], specs[1], p, q, f, files);
    if Finished(g, files, modules, order) {
      BothLookup(g, modules, order, p, q, a, f);
    }
  }

  lemma BothLookup(g: Graph, modules: map<string, string>, order: seq<string>, p: string, q: string, a: string, f: string)
    requires Complete(g, modules, order, [g.start, q, p]) && ((p == a && q == f) || (p == f && q == a))
    requires g.normal(a) == Some(f) == g.normal(f) && a !in {g.start, f} && f != g.start
    requires g.normal(g.start) == Some(g.start) && f in Edges(g, g.start)
    ensures (if a in modules then Some(modules[a]) else None) == if p == a then Some(f) else None
  {
    var visits := [g.start, q, p];
    StartIsCompiled(g, modules, order, visits);
    var i: nat :| i < |Edges(g, g.start)| && Edges(g, g.start)[i] == f;
    ImportIsCompiled(g, modules, order, visits, g.start, i);
    KeyIff(g, modules, order, visits, a);
    if p == a {
      assert visits[2] == a && g.normal(visits[1]) == g.normal(a);
    }
  }

  // A directory imported by its name and by its index file, which imports a file beside it.

  predicate Crossed(g: Graph, s: string, t: string, u: string, d: string, index: string, inside: string, outside: string) {
    && g.parse(g.start) == Imports([s, t]) && g.resolve(g.start, s) == d && g.resolve(g.start, t) == index
    && g.parse(index) == Imports([u]) && g.resolve(index, u) == inside && g.resolve(d, u) == outside
    && g.parse(inside) == Imports([]) && g.normal(g.start) == Some(g.start)
    && g.normal(d) == Some(index) == g.normal(index) && g.normal(inside) == Some(inside)
    && Distinct([g.start, d, index, inside]) && outside !in [g.start, d, index, inside] && g.normal(outside) != Some(outside)
  }

  lemma CrossedOrder(g: Graph, s: string, t: string, u: string, d: string, index: string, inside: string,
                     outside: string, files: set<string>)
    requires Crossed(g, s, t, u, d, index, inside, outside) && {g.start, index, inside} <= files
    ensures VisitOrder(g, [g.start], files) == [g.start, index, inside, d]
  {
    var names := [g.start, d, index, inside];
    assert names[0] != names[2] && names[0] != names[3] && names[2] != names[3];
    TwoEdges(g, g.start, s, t);
    OneEdge(g, index, u);
    ReverseTwo(inside, inside);
    assert [g.start] + [] == [g.start] && [index, d] + [] == [index] + [d] && [d] + [] == [d];
    VisitNew(g, g.start, [], files, g.start);
    VisitNew(g, index, [d], files - {g.start}, index);
    VisitNew(g, inside, [d], files - {g.start} - {index}, inside);
    assert Edges(g, inside) == [] && Reverse(Edges(g, inside)) + [d] == [d];
    VisitOld(g, d, [], files - {g.start} - {index} - {inside}, index);
    assert [g.start] + ([index] + ([inside] + ([d] + []))) == [g.start, index, inside, d];
  }

  /** It loads, every import is found from its module's own path, and both names of the directory's
      index are in the map; from the directory's name its import is not found. */
  lemma CrossedFails(g: Graph, s: string, t: string, u: string, d: string, index: string, inside: string,
                     outside: string, files: set<string>, modules: map<string, string>, order: seq<string>)
    requires Crossed(g, s, t, u, d, index, inside, outside) && {g.start, index, inside} <= files
    ensures Loads(g)
    ensures Finished(g, files, modules, order) ==>
              && d in modules && modules[d] == index
              && Lookup(g, modules, g.start, s) == Some(index) == Lookup(g, modules, g.start, t)
              && Lookup(g, modules, index, u) == Some(inside)
              && Lookup(g, modules, d, u) == None
  {
    TwoEdges(g, g.start, s, t);
    OneEdge(g, index, u);
    LoadsWithin(g, [g.start, index, inside]);
    CrossedOrder(g, s, t, u, d, index, inside, outside, files);
    if Finished(g, files, modules, order) {
      CrossedKeys(g, s, t, u, d, index, inside, outside, modules, order);
    }
  }

  lemma CrossedKeys(g: Graph, s: string, t: string, u: string, d: string, index: string, inside: string,
                    outside: string, modules: map<string, string>, order: seq<string>)
    requires Crossed(g, s, t, u, d, index, inside, outside)
    requires Complete(g, modules, order, [g.start, index, inside, d])
    ensures d in modules && modules[d] == index && index in modules && modules[index] == index
    ensures inside in modules && modules[inside] == inside && outside !in modules
  {
    var visits := [g.start, index, inside, d];
    StartIsCompiled(g, modules, order, visits);
    ImportIsCompiled(g, modules, order, visits, g.start, 1);
    ImportIsCompiled(g, modules, order, visits, index, 0);
    assert visits[3] == d && g.normal(visits[1]) == g.normal(d);
    KeyIff(g, modules, order, visits, d);
    KeyIff(g, modules, order, visits, index);
    KeyIff(g, modules, order, visits, inside);
    assert outside in modules <==> Named(g, order, visits, outside);
    assert outside in order ==> g.normal(outside) == Some(outside);
  }

  // Such packages.

  lemma {:induction false} FirstAt(c: seq<string>, hit: string -> bool, i: nat)
    requires i < |c| && hit(c[i]) && forall j :: 0 <= j < i ==> !hit(c[j])
    ensures First(c, hit) == Some(c[i])
  {
    if i > 0 {
      FirstAt(c[1..], hit, i - 1);
    }
  }

  lemma FoundWith(root: Node, name: string, i: nat)
    requires i < |SUFFIXES| && IsFile(root)(name + SUFFIXES[i])
    requires forall j :: 0 <= j < i ==> !IsFile(root)(name + SUFFIXES[j])
    ensures Normalize(root, name) == Some(Join(SplitPath(name + SUFFIXES[i]), '/'))
  {
    FirstAt(Candidates(name), IsFile(root), i);
  }

  lemma FileHit(root: Node, p: Path, name: string)
    requires ProperPath(p) && name == Join(p, '/')
    ensures IsFile(root)(name) <==> FileAt(root, p).Some?
    ensures SplitPath(name) == p
    ensures FileAt(root, p).Some? ==> Normalize(root, name) == Some(name) && name in Files(root)
  {
    SplitPathOfJoin(p);
    if FileAt(root, p).Some? {
      FileIsNormal(root, name);
      FilePathsMeans(root, p);
    }
  }

  lemma DotDropped(target: Path)
    requires forall s <- target :: KEEP(s)
    ensures Filter(["."] + target, KEEP) == target
  {
    FilterConcat(["."], target, KEEP);
    FilterAll(target, KEEP);
    assert ["."][1..] == [];
    assert Filter(["."], KEEP) == [];
  }

  function Relative(name: string): string {
    "." + ['/'] + name
  }

  /** "./" and a path, imported by a file, is the path from the file's directory. */
  lemma RelativeImport(file: string, target: Path, name: string)
    requires ProperPath(target) && NoParents(target) && target != [] && name == Join(target, '/')
    ensures Transform(file, Relative(name)) == Join(Dirname(SplitPath(file)) + target, '/')
  {
    SplitConcat(".", '/', name);
    SplitPiece(".", '/');
    SplitJoin(target, '/');
    DotDropped(target);
    WalkDown(Dirname(SplitPath(file)), target);
  }

  /** A package of two files side by side, and import lists for them. */
  function Pair(index: string, js: string): Node {
    Internal(map[index := Leaf([]), js := Leaf([])])
  }

  function PairParse(index: string, specs: seq<string>): string -> Source {
    p => Imports(if p == index then specs else [])
  }

  /** A name that only lacks ".js" to be the second file. */
  predicate Lacking(index: string, name: string, js: string) {
    && ProperPath([index]) && ProperPath([name]) && ProperPath([js]) && ProperPath([name + SUFFIXES[1]])
    && js == name + SUFFIXES[2] && index !in {name, name + SUFFIXES[1], js} && name != PARENT && js != PARENT
  }

  lemma PairFile(index: string, js: string, x: string)
    requires ProperPath([x])
    ensures IsFile(Pair(index, js))(x) <==> x == index || x == js
    ensures x == index || x == js ==> Normalize(Pair(index, js), x) == Some(x) && x in Files(Pair(index, js))
  {
    assert Join([x], '/') == x;
    FileHit(Pair(index, js), [x], x);
    assert [x][1..] == [];
    var root := Pair(index, js);
    assert x in root.children ==> root.children[x] == Leaf([]);
    assert NodeAt(root, [x]) == if x in root.children then Some(Leaf([])) else None;
  }

  /** The search passes the name itself and ".mjs" and ends at ".js". */
  lemma FoundAsJs(root: Node, name: string, js: string, hit: string -> bool)
    requires hit == IsFile(root) && js == name + SUFFIXES[2] && Canonical(js)
    requires !hit(name) && !hit(name + SUFFIXES[1]) && hit(js)
    ensures Normalize(root, name) == Some(js)
  {
    AfterNothing(name);
    forall j | 0 <= j < 2 ensures !hit(name + SUFFIXES[j]) {
      assert j == 0 || j == 1;
    }
    FoundWith(root, name, 2);
  }

  lemma PairFiles(index: string, name: string, js: string)
    requires Lacking(index, name, js)
    ensures var root := Pair(index, js);
            && Normalize(root, index) == Some(index) && Normalize(root, js) == Some(js) && Normalize(root, name) == Some(js)
            && {index, js} <= Files(root)
  {
    PairFile(index, js, index);
    PairFile(index, js, js);
    PairFile(index, js, name);
    PairFile(index, js, name + SUFFIXES[1]);
    assert |SUFFIXES[1]| == 4 && |SUFFIXES[2]| == 3;
    NormalizeLands(Pair(index, js), js);
    FoundAsJs(Pair(index, js), name, js, IsFile(Pair(index, js)));
  }

  lemma PairResolves(index: string, name: string, js: string)
    requires Lacking(index, name, js)
    ensures Transform(index, Relative(name)) == name && Transform(index, Relative(js)) == js
  {
    SplitPathOfJoin([index]);
    RelativeImport(index, [name], name);
    RelativeImport(index, [js], js);
  }

  function PairGraph(index: string, js: string, specs: seq<string>): Graph {
    GraphOf(Pair(index, js), PairParse(index, specs), index)
  }

  lemma PairImports(g: Graph, index: string, name: string, js: string, specs: seq<string>)
    requires Lacking(index, name, js) && g == PairGraph(index, js, specs)
    ensures g.start == index && g.parse(index) == Imports(specs) && g.parse(js) == Imports([])
    ensures g.resolve(index, Relative(name)) == name && g.resolve(index, Relative(js)) == js
    ensures g.normal(index) == Some(index) && g.normal(name) == Some(js) == g.normal(js)
  {
    PairFiles(index, name, js);
    PairResolves(index, name, js);
  }

  /** The package loads, its one import resolves, and the callback for it panics. */
  lemma PairFails(index: string, name: string, js: string, modules: map<string, string>, order: seq<string>)
    requires Lacking(index, name, js)
    ensures var g := PairGraph(index, js, [Relative(name)]);
            && Loads(g) && g.normal(g.resolve(index, Relative(name))) == Some(js)
            && (Finished(g, Files(Pair(index, js)), modules, order) ==> Lookup(g, modules, index, Relative(name)) == None)
  {
    var g := PairGraph(index, js, [Relative(name)]);
    PairImports(g, index, name, js, [Relative(name)]);
    PairFiles(index, name, js);
    LoneFails(g, Relative(name), name, js, Files(Pair(index, js)), modules, order);
  }

  /** With both names imported, the shorter one is found if it is written first and panics if last. */
  lemma PairOrderMatters(index: string, name: string, js: string, specs: seq<string>,
                         modules: map<string, string>, order: seq<string>)
    requires Lacking(index, name, js)
    requires specs == [Relative(name), Relative(js)] || specs == [Relative(js), Relative(name)]
    ensures var g := PairGraph(index, js, specs);
            && Loads(g)
            && (Finished(g, Files(Pair(index, js)), modules, order) ==>
                  Lookup(g, modules, index, Relative(name)) == if specs[0] == Relative(name) then Some(js) else None)
  {
    var g := PairGraph(index, js, specs);
    PairImports(g, index, name, js, specs);
    PairFiles(index, name, js);
    ImportOrderMatters(g, Relative(name), Relative(js), name, js, Files(Pair(index, js)), modules, order);
  }

  /** "./a" in index.js, beside a.js, is such a name. */
  lemma TinyLacks()
    ensures Lacking("index.js", "a", "a.js")
  {
    assert "a" + ".js" == "a.js" && "a" + ".mjs" == "a.mjs";
  }

  /** A package of one file and a directory of two, an index and another. */
  function Nested(start: string, d: string, index: string, other: string): Node {
    Internal(map[start := Leaf([]), d := Internal(map[index := Leaf([]), other := Leaf([])])])
  }

  function NestedParse(start: string, index: string, specs: seq<string>, inner: seq<string>): string -> Source {
    p => Imports(if p == start then specs else if p == index then inner else [])
  }

  lemma NestedFile(start: string, d: string, index: string, other: string, p: Path)
    requires d != start && p != []
    ensures FileAt(Nested(start, d, index, other), p).Some?
       <==> p == [start] || p == [d, index] || p == [d, other]
  {
    var root := Nested(start, d, index, other);
    var dir := root.children[d];
    if p[0] == start {
      assert NodeAt(root, p) == NodeAt(Leaf([]), p[1..]);
      assert p == [start] + p[1..];
    } else if p[0] == d {
      assert NodeAt(root, p) == NodeAt(dir, p[1..]);
      assert p == [d] + p[1..];
      if |p| > 1 {
        NestedBelow(dir, p[1..], index, other);
      }
    }
  }

  lemma NestedBelow(dir: Node, q: Path, index: string, other: string)
    requires dir == Internal(map[index := Leaf([]), other := Leaf([])]) && q != []
    ensures FileAt(dir, q).Some? <==> q == [index] || q == [other]
  {
    assert q == [q[0]] + q[1..];
    if q[0] in dir.children {
      assert dir.children[q[0]] == Leaf([]);
      assert NodeAt(dir, q) == NodeAt(Leaf([]), q[1..]);
    }
  }

  const INDEX_JS := "index.js"
  const INDEX_MJS := "index.mjs"

  /** Names that do not get in each other's way. */
  predicate Apart(start: string, d: string, other: string) {
    && ProperPath([start]) && ProperPath([d]) && ProperPath([other])
    && ProperPath([d + SUFFIXES[1]]) && ProperPath([d + SUFFIXES[2]])
    && start !in {d, d + SUFFIXES[1], d + SUFFIXES[2], other} && other !in {d, INDEX_JS, INDEX_MJS}
    && d != PARENT && other != PARENT
  }

  /** Where the files of the package are. */
  lemma NestedHit(start: string, d: string, other: string, p: Path, name: string)
    requires d != start && p != [] && ProperPath(p) && name == Join(p, '/')
    ensures var root := Nested(start, d, INDEX_JS, other);
            var there := p == [start] || p == [d, INDEX_JS] || p == [d, other];
            && (IsFile(root)(name) <==> there) && SplitPath(name) == p
            && (there ==> Normalize(root, name) == Some(name) && name in Files(root))
  {
    var root := Nested(start, d, INDEX_JS, other);
    NestedFile(start, d, INDEX_JS, other, p);
    FileHit(root, p, name);
  }

  lemma IndexPaths(d: string)
    ensures d + SUFFIXES[3] == Join([d, INDEX_MJS], '/') && d + SUFFIXES[4] == Join([d, INDEX_JS], '/')
  {
    assert SUFFIXES[3] == ['/'] + INDEX_MJS && SUFFIXES[4] == ['/'] + INDEX_JS;
    assert Join([INDEX_MJS], '/') == INDEX_MJS && Join([INDEX_JS], '/') == INDEX_JS;
  }

  lemma FoundAsIndex(root: Node, d: string, hit: string -> bool)
    requires hit == IsFile(root) && Canonical(d + SUFFIXES[4]) && hit(d + SUFFIXES[4])
    requires !hit(d) && !hit(d + SUFFIXES[1]) && !hit(d + SUFFIXES[2]) && !hit(d + SUFFIXES[3])
    ensures Normalize(root, d) == Some(d + SUFFIXES[4])
  {
    AfterNothing(d);
    forall j | 0 <= j < 4 ensures !hit(d + SUFFIXES[j]) {
      assert j == 0 || j == 1 || j == 2 || j == 3;
    }
    FoundWith(root, d, 4);
  }

  lemma NestedMisses(start: string, d: string, other: string, hit: string -> bool)
    requires Apart(start, d, other) && hit == IsFile(Nested(start, d, INDEX_JS, other))
    ensures !hit(d) && !hit(d + SUFFIXES[1]) && !hit(d + SUFFIXES[2])
  {
    NestedHit(start, d, other, [d], d);
    NestedHit(start, d, other, [d + SUFFIXES[1]], d + SUFFIXES[1]);
    NestedHit(start, d, other, [d + SUFFIXES[2]], d + SUFFIXES[2]);
  }

  lemma NestedIndex(start: string, d: string, other: string, mjs: string, js: string, hit: string -> bool)
    requires Apart(start, d, other) && hit == IsFile(Nested(start, d, INDEX_JS, other))
    requires mjs == Join([d, INDEX_MJS], '/') && js == Join([d, INDEX_JS], '/')
    ensures !hit(mjs) && hit(js) && Canonical(js)
  {
    assert INDEX_MJS != INDEX_JS;
    NestedHit(start, d, other, [d, INDEX_MJS], mjs);
    NestedHit(start, d, other, [d, INDEX_JS], js);
  }

  lemma NestedDirectory(start: string, d: string, other: string)
    requires Apart(start, d, other)
    ensures Normalize(Nested(start, d, INDEX_JS, other), d) == Some(Join([d, INDEX_JS], '/'))
  {
    var root := Nested(start, d, INDEX_JS, other);
    IndexPaths(d);
    NestedMisses(start, d, other, IsFile(root));
    NestedIndex(start, d, other, d + SUFFIXES[3], d + SUFFIXES[4], IsFile(root));
    FoundAsIndex(root, d, IsFile(root));
  }

  lemma NestedResolves(start: string, d: string, other: string)
    requires Apart(start, d, other)
    ensures var index := Join([d, INDEX_JS], '/');
            && Transform(start, Relative(d)) == d && Transform(start, Relative(index)) == index
            && Transform(index, Relative(other)) == Join([d, other], '/') && Transform(d, Relative(other)) == other
  {
    var index := Join([d, INDEX_JS], '/');
    SplitPathOfJoin([start]);
    SplitPathOfJoin([d]);
    SplitPathOfJoin([d, INDEX_JS]);
    RelativeImport(start, [d], d);
    RelativeImport(start, [d, INDEX_JS], index);
    RelativeImport(index, [other], other);
    RelativeImport(d, [other], other);
    assert Dirname([d, INDEX_JS]) == [d] && Dirname([d]) == [];
    assert [d] + [other] == [d, other] && [] + [other] == [other] && [] + [d, INDEX_JS] == [d, INDEX_JS];
  }

  function NestedGraph(start: string, d: string, other: string): Graph {
    var index := Join([d, INDEX_JS], '/');
    GraphOf(Nested(start, d, INDEX_JS, other),
            NestedParse(start, index, [Relative(d), Relative(index)], [Relative(other)]), start)
  }

  lemma NestedApart(start: string, d: string, other: string, index: string, inside: string)
    requires Apart(start, d, other) && index == Join([d, INDEX_JS], '/') && inside == Join([d, other], '/')
    ensures Distinct([start, d, index, inside]) && other !in [start, d, index, inside]
  {
    var paths := [[start], [d], [d, INDEX_JS], [d, other], [other]];
    var names := [start, d, index, inside, other];
    forall i | 0 <= i < 5 ensures names[i] == Join(paths[i], '/') && ProperPath(paths[i]) {
    }
    forall i, j | 0 <= i < j < 5 ensures names[i] != names[j] {
      assert paths[i] != paths[j];
      JoinInjective(paths[i], paths[j]);
    }
    assert names[..4] == [start, d, index, inside];
    assert forall i :: 0 <= i < 4 ==> names[i] != names[4];
  }

  lemma NestedNormals(start: string, d: string, other: string, index: string, inside: string)
    requires Apart(start, d, other) && index == Join([d, INDEX_JS], '/') && inside == Join([d, other], '/')
    ensures var root := Nested(start, d, INDEX_JS, other);
            && Normalize(root, start) == Some(start) && Normalize(root, d) == Some(index) == Normalize(root, index)
            && Normalize(root, inside) == Some(inside) && Normalize(root, other) != Some(other)
            && {start, index, inside} <= Files(root)
  {
    NestedDirectory(start, d, other);
    NestedHit(start, d, other, [start], start);
    NestedHit(start, d, other, [d, INDEX_JS], index);
    NestedHit(start, d, other, [d, other], inside);
    NestedHit(start, d, other, [other], other);
    if Normalize(Nested(start, d, INDEX_JS, other), other) == Some(other) {
      NormalizeLands(Nested(start, d, INDEX_JS, other), other);
    }
  }

  lemma NestedIsCrossed(g: Graph, start: string, d: string, other: string, index: string, inside: string)
    requires Apart(start, d, other) && index == Join([d, INDEX_JS], '/') && inside == Join([d, other], '/')
    requires Distinct([start, d, index, inside]) && other !in [start, d, index, inside]
    requires g.start == start && g.parse == NestedParse(start, index, [Relative(d), Relative(index)], [Relative(other)])
    requires g.normal(start) == Some(start) && g.normal(d) == Some(index) == g.normal(index)
    requires g.normal(inside) == Some(inside) && g.normal(other) != Some(other)
    requires g.resolve(start, Relative(d)) == d && g.resolve(start, Relative(index)) == index
    requires g.resolve(index, Relative(other)) == inside && g.resolve(d, Relative(other)) == other
    ensures Crossed(g, Relative(d), Relative(index), Relative(other), d, index, inside, other)
  {
    var names := [start, d, index, inside];
    assert names[0] != names[2] && names[0] != names[3] && names[2] != names[3];
  }

  /** An index that imports a directory both by its name and by its index file, which imports a file
      beside itself. The package loads and each import is found from its module's own path; but the map
      also knows the index file by the directory's name, and from there its import panics. */
  lemma NestedFails(start: string, d: string, other: string, index: string, inside: string,
                    modules: map<string, string>, order: seq<string>)
    requires Apart(start, d, other) && index == Join([d, INDEX_JS], '/') && inside == Join([d, other], '/')
    ensures var g := NestedGraph(start, d, other);
            && Loads(g)
            && (Finished(g, Files(Nested(start, d, INDEX_JS, other)), modules, order) ==>
                  && d in modules && modules[d] == index
                  && Lookup(g, modules, start, Relative(d)) == Some(index) == Lookup(g, modules, start, Relative(index))
                  && Lookup(g, modules, index, Relative(other)) == Some(inside)
                  && Lookup(g, modules, d, Relative(other)) == None)
  {
    var g := NestedGraph(start, d, other);
    var files := Files(Nested(start, d, INDEX_JS, other));
    NestedApart(start, d, other, index, inside);
    NestedNormals(start, d, other, index, inside);
    NestedResolves(start, d, other);
    NestedIsCrossed(g, start, d, other, index, inside);
    CrossedFails(g, Relative(d), Relative(index), Relative(other), d, index, inside, other, files, modules, order);
  }

  /** index.js importing "./d" and "./d/index.js", which imports "./f.js". */
  lemma SmallestApart()
    ensures Apart("index.js", "d", "f.js")
  {
    assert "d" + SUFFIXES[1] == "d.mjs" && "d" + SUFFIXES[2] == "d.js";
  }
}
