/** The module loader (src/package.rs): a worklist over the import graph, compiling every file it
    reaches, and the callback that later looks modules up by path. */
module Loader {
  import opened Paths
  import opened Sequences
  import opened Tuple
  import opened Vfs
  import opened Resolve
  import opened ImportGraph

  /** Modules are named by the path they were compiled from. Loading is refused when a file does not
      compile. */
  datatype Outcome = Loaded(modules: map<string, string>) | Refused | Panicked

  function GraphOf(root: Node, parse: string -> Source, start: string): Graph {
    Graph(p => Normalize(root, p), (current, target) => Transform(current, target), parse, start)
  }

  lemma StartsAt(root: Node, first: string)
    requires Normalize(root, first) == Some(first) && NoParents(SplitPath(first)) && Canonical(first)
    ensures Transform("?", first) == first
  {
    SplitPiece("?", '/');
    FilterAll(["?"], KEEP);
    assert SplitPath("?") == ["?"];
    WalkDown([], SplitPath(first));
    assert [] + SplitPath(first) == SplitPath(first);
  }

  // There are finitely many files, so the worklist runs dry.

  function FilePaths(n: Node): set<Path> {
    match n
    case Leaf(_) => {[]}
    case Internal(m) => set k, p | k in m.Keys && p in FilePaths(m[k]) :: [k] + p
  }

  lemma {:induction false} FilePathsMeans(n: Node, p: Path)
    ensures p in FilePaths(n) <==> FileAt(n, p).Some?
    decreases |p|
  {
    if n.Internal? {
      if p != [] && p[0] in n.children {
        FilePathsMeans(n.children[p[0]], p[1..]);
        assert p == [p[0]] + p[1..];
      }
      forall k, q | k in n.children.Keys && q in FilePaths(n.children[k]) && p == [k] + q
        ensures p[0] == k && p[1..] == q
      {
      }
    }
  }

  /** Normal forms are files, and their own normal form. */
  ghost predicate Bounded(g: Graph, files: set<string>) {
    && g.normal(g.start) == Some(g.start)
    && g.resolve("?", g.start) == g.start
    && forall p :: g.normal(p).Some? ==> g.normal(p).value in files && g.normal(g.normal(p).value) == g.normal(p)
  }

  method PushRequests(queue: seq<(string, string)>, x: string, specs: seq<string>) returns (q: seq<(string, string)>)
    ensures q == queue + Requests(x, specs)
  {
    q := queue;
    for i := 0 to |specs|
      invariant q == queue + Requests(x, specs)[..i]
    {
      q := q + [(x, specs[i])];
    }
  }

  ghost predicate Running(g: Graph, files: set<string>, w: Work, left: set<string>) {
    && Inv(g, w) && Visited(g, w) && OnCourse(g, files, w, left)
    && forall x <- files :: x in left <==> x !in w.order
  }

  lemma RunStarts(g: Graph, files: set<string>)
    requires Bounded(g, files)
    ensures Running(g, files, Work(map[], [("?", g.start)], [], []), files)
  {
    assert PathsOf(g, [("?", g.start)]) == [g.start];
    assert Reverse([g.start]) == [g.start] by {
      ReverseSnoc<string>([], g.start);
    }
    assert [] + VisitOrder(g, [g.start], files) == VisitOrder(g, [g.start], files);
  }

  lemma KnownStep(g: Graph, files: set<string>, w: Work, left: set<string>, rest: seq<(string, string)>,
                  e: (string, string), x: string)
    requires Bounded(g, files) && Running(g, files, w, left) && w.queue == rest + [e]
    requires g.normal(g.resolve(e.0, e.1)) == Some(x) && x in w.modules
    ensures w.modules[x] == x && Running(g, files, Alias(w, rest, g.resolve(e.0, e.1), x), left)
  {
    KeyIsCompiled(g, w, x);
    AliasStep(g, w, rest, e, x);
    AliasOnCourse(g, files, w, left, rest, e, x);
  }

  lemma NewReached(g: Graph, files: set<string>, w: Work, left: set<string>, rest: seq<(string, string)>,
                   e: (string, string), x: string)
    requires Bounded(g, files) && Running(g, files, w, left) && w.queue == rest + [e]
    requires g.normal(g.resolve(e.0, e.1)) == Some(x)
    ensures Reachable(g, x)
  {
    assert PathsOf(g, w.queue)[|rest|] == g.resolve(e.0, e.1);
    PendingReachable(g, w, g.resolve(e.0, e.1), x);
  }

  lemma NewStep(g: Graph, files: set<string>, w: Work, left: set<string>, rest: seq<(string, string)>,
                e: (string, string), x: string)
    requires Bounded(g, files) && Running(g, files, w, left) && w.queue == rest + [e]
    requires g.normal(g.resolve(e.0, e.1)) == Some(x) && x !in w.modules && g.parse(x).Imports?
    ensures x in left && Running(g, files, Compile(g, w, rest, g.resolve(e.0, e.1), x), left - {x})
  {
    NewReached(g, files, w, left, rest, e, x);
    assert x !in w.order;
    CompileStep(g, w, rest, e, x);
    CompileOnCourse(g, files, w, left, rest, e, x);
  }

  lemma Unresolved(g: Graph, files: set<string>, w: Work, left: set<string>, rest: seq<(string, string)>,
                   e: (string, string))
    requires Bounded(g, files) && Running(g, files, w, left) && w.queue == rest + [e]
    requires g.normal(g.resolve(e.0, e.1)) == None
    ensures exists x :: Reachable(g, x) && !Sound(g, x)
  {
    assert PathsOf(g, w.queue)[|rest|] == g.resolve(e.0, e.1);
    PendingUnresolved(g, w, g.resolve(e.0, e.1));
  }

  /** A finished load: every reachable file compiled once, and known by its own path and by each
      name that comes up again in the order of visits. */
  ghost predicate Finished(g: Graph, files: set<string>, modules: map<string, string>, order: seq<string>) {
    Complete(g, modules, order, VisitOrder(g, [g.start], files))
  }

  lemma QueueEmpty(g: Graph, files: set<string>, w: Work, left: set<string>)
    requires Bounded(g, files) && Running(g, files, w, left) && w.queue == []
    ensures Finished(g, files, w.modules, w.order) && forall p <- VisitOrder(g, [g.start], files) :: !Fails(g, p)
  {
    VisitsSucceed(g, w);
    WorklistEmpty(g, w);
    assert PathsOf(g, []) == [];
    assert w.visits + [] == w.visits;
  }

  /** A visit at which loading fails: no file, or one that is no text or does not compile. */
  predicate Fails(g: Graph, p: string) {
    g.normal(p).None? || !g.parse(g.normal(p).value).Imports?
  }

  predicate FirstFails(g: Graph, visits: seq<string>, k: nat) {
    k < |visits| && Fails(g, visits[k]) && forall j :: 0 <= j < k ==> !Fails(g, visits[j])
  }

  /** The first visit that fails decides: it is refused if the file does not compile, and else panics. */
  ghost predicate Decided(g: Graph, visits: seq<string>, o: Outcome) {
    match o
    case Loaded(_) => forall p <- visits :: !Fails(g, p)
    case Refused => exists k: nat :: FirstFails(g, visits, k) && g.normal(visits[k]).Some? && g.parse(g.normal(visits[k]).value).NoCompile?
    case Panicked => exists k: nat :: FirstFails(g, visits, k) && (g.normal(visits[k]).Some? ==> g.parse(g.normal(visits[k]).value).NotText?)
  }

  lemma VisitsSucceed(g: Graph, w: Work)
    requires Inv(g, w)
    ensures forall p <- w.visits :: !Fails(g, p)
  {
  }

  lemma FailsHere(g: Graph, files: set<string>, w: Work, left: set<string>, rest: seq<(string, string)>, e: (string, string))
    requires Running(g, files, w, left) && w.queue == rest + [e] && Fails(g, g.resolve(e.0, e.1))
    ensures var visits := VisitOrder(g, [g.start], files);
            FirstFails(g, visits, |w.visits|) && visits[|w.visits|] == g.resolve(e.0, e.1)
  {
    NextVisit(g, rest, e);
    VisitsSucceed(g, w);
    var todo := Reverse(PathsOf(g, w.queue));
    assert todo[0] == g.resolve(e.0, e.1) && VisitOrder(g, todo, left)[0] == todo[0];
    var visits := VisitOrder(g, [g.start], files);
    assert visits == w.visits + VisitOrder(g, todo, left);
    forall j | 0 <= j < |w.visits| ensures !Fails(g, visits[j]) {
      assert visits[j] == w.visits[j] && w.visits[j] in w.visits;
    }
  }

  /** What a load ends in at a visit that fails. */
  function OutcomeAt(g: Graph, p: string): Outcome {
    if g.normal(p).Some? && g.parse(g.normal(p).value).NoCompile? then Refused else Panicked
  }

  /** What is promised of a load's end. */
  ghost predicate Ends(g: Graph, files: set<string>, o: Outcome) {
    && (o.Loaded? <==> forall x :: Reachable(g, x) ==> Sound(g, x))
    && (o.Refused? ==> exists x :: Reachable(g, x) && g.parse(x).NoCompile?)
    && Decided(g, VisitOrder(g, [g.start], files), o)
  }

  lemma StopsHere(g: Graph, files: set<string>, w: Work, left: set<string>, rest: seq<(string, string)>, e: (string, string))
    requires Bounded(g, files) && Running(g, files, w, left) && w.queue == rest + [e] && Fails(g, g.resolve(e.0, e.1))
    ensures Ends(g, files, OutcomeAt(g, g.resolve(e.0, e.1)))
  {
    var p := g.resolve(e.0, e.1);
    FailsHere(g, files, w, left, rest, e);
    if g.normal(p).None? {
      Unresolved(g, files, w, left, rest, e);
    } else {
      NewReached(g, files, w, left, rest, e, g.normal(p).value);
      assert !Sound(g, g.normal(p).value);
    }
  }

  /** The worklist, over any such graph. */
  method LoadFrom(g: Graph, ghost files: set<string>) returns (o: Outcome, ghost order: seq<string>)
    requires Bounded(g, files)
    ensures Ends(g, files, o) && (o.Loaded? ==> Finished(g, files, o.modules, order))
  {
    var m: map<string, string> := map[];
    var q := [("?", g.start)];
    ghost var w := Work(m, q, [], []);
    ghost var left := files;
    RunStarts(g, files);
    while q != []
      invariant w.modules == m && w.queue == q && Running(g, files, w, left)
      decreases |left|, |q|
    {
      var e := q[|q| - 1];
      q := q[..|q| - 1];
      var path := g.resolve(e.0, e.1);
      var normal := g.normal(path);
      assert w.queue == q + [e];
      if normal.None? {
        StopsHere(g, files, w, left, q, e);
        return Panicked, [];
      }
      var x := normal.value;
      if x in m {
        KnownStep(g, files, w, left, q, e, x);
        w := Alias(w, q, path, x);
        m := m[path := m[x]];
        continue;
      }
      match g.parse(x) {
        case NotText =>
          StopsHere(g, files, w, left, q, e);
          return Panicked, [];
        case NoCompile =>
          StopsHere(g, files, w, left, q, e);
          return Refused, [];
        case Imports(specs) =>
          NewStep(g, files, w, left, q, e, x);
          w, left := Compile(g, w, q, path, x), left - {x};
          m := m[x := x];
          q := PushRequests(q, x, specs);
      }
    }
    QueueEmpty(g, files, w, left);
    return Loaded(m), w.order;
  }

  /** Compiles exactly the files reachable from the index, each once; it fails exactly when some
      reachable file does not compile or imports what is not there. */
  method Load(root: Node, index: string, parse: string -> Source)
    returns (o: Outcome, ghost order: seq<string>)
    requires NoParents(SplitPath(index))
    ensures Normalize(root, index).None? ==> o.Panicked?
    ensures Normalize(root, index).Some? ==>
              var g := GraphOf(root, parse, Normalize(root, index).value);
              && (o.Loaded? <==> forall x :: Reachable(g, x) ==> Sound(g, x))
              && (o.Loaded? ==> Finished(g, Files(root), o.modules, order))
              && (o.Refused? ==> exists x :: Reachable(g, x) && parse(x).NoCompile?)
              && Decided(g, VisitOrder(g, [g.start], Files(root)), o)
  {
    var start := NormalizePath(root, index);
    if start.None? {
      return Panicked, [];
    }
    var g := GraphOf(root, parse, start.value);
    ghost var files := Files(root);
    GraphIsBounded(root, index, parse);
    o, order := LoadFrom(g, files);
  }

  function Files(root: Node): set<string> {
    set p | p in FilePaths(root) :: Join(p, '/')
  }

  lemma GraphIsBounded(root: Node, index: string, parse: string -> Source)
    requires NoParents(SplitPath(index)) && Normalize(root, index).Some?
    ensures Bounded(GraphOf(root, parse, Normalize(root, index).value), Files(root))
  {
    NormalizeLands(root, index);
    NormalizeStaysInside(root, index);
    StartsAt(root, Normalize(root, index).value);
    forall p | Normalize(root, p).Some?
      ensures Normalize(root, p).value in Files(root) && Normalize(root, Normalize(root, p).value) == Normalize(root, p)
    {
      NormalizeLands(root, p);
      FilePathsMeans(root, SplitPath(Normalize(root, p).value));
    }
  }
}
