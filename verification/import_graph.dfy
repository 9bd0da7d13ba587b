/** The import graph of a package and the state of the worklist over it (src/package.rs:218-255):
    what is compiled, under which names it is known, and what is still to be visited. */
module ImportGraph {
  import opened Sequences
  import opened Tuple

  /** What reading and compiling one file gives: its import specifiers, a compile error, or bytes
      that are not text. */
  datatype Source = Imports(specifiers: seq<string>) | NoCompile | NotText

  /** What the worklist sees of a package: the search for a file, relative resolution, and what each
      file imports. */
  datatype Graph = Graph(normal: string -> Option<string>, resolve: (string, string) -> string,
                         parse: string -> Source, start: string)

  /** The canonical paths an import list leads to, before the search for a file. */
  function Edges(g: Graph, x: string): seq<string> {
    if g.parse(x).Imports? then
      var specs := g.parse(x).specifiers;
      seq(|specs|, i requires 0 <= i < |specs| => g.resolve(x, specs[i]))
    else []
  }

  predicate Sound(g: Graph, x: string) {
    g.parse(x).Imports? && forall p <- Edges(g, x) :: g.normal(p).Some?
  }

  // Reachability, by a trail of imports.

  ghost predicate Edge(g: Graph, x: string, y: string) {
    exists p <- Edges(g, x) :: g.normal(p) == Some(y)
  }

  ghost predicate Trail(g: Graph, trail: seq<string>) {
    if trail == [] then false
    else if |trail| == 1 then trail[0] == g.start
    else
      var n := |trail| - 1;
      Trail(g, trail[..n]) && Edge(g, trail[n - 1], trail[n])
  }

  ghost predicate Reachable(g: Graph, x: string) {
    exists trail :: Trail(g, trail) && trail[|trail| - 1] == x
  }

  lemma ReachStart(g: Graph)
    ensures Reachable(g, g.start)
  {
    assert Trail(g, [g.start]) && [g.start][0] == g.start;
  }

  lemma TrailGrows(g: Graph, trail: seq<string>, y: string)
    requires Trail(g, trail) && Edge(g, trail[|trail| - 1], y)
    ensures Reachable(g, y)
  {
    var longer := trail + [y];
    assert longer[..|trail|] == trail;
    assert Trail(g, longer) && longer[|longer| - 1] == y;
  }

  lemma ReachStep(g: Graph, x: string, y: string)
    requires Reachable(g, x) && Edge(g, x, y)
    ensures Reachable(g, y)
  {
    var trail :| Trail(g, trail) && trail[|trail| - 1] == x;
    TrailGrows(g, trail, y);
  }

  /** What holds the start and is closed under imports holds all that is reachable. */
  lemma {:induction false} ReachOnly(g: Graph, found: seq<string>, trail: seq<string>)
    requires Trail(g, trail) && g.start in found
    requires forall x, y :: x in found && Edge(g, x, y) ==> y in found
    ensures trail[|trail| - 1] in found
    decreases |trail|
  {
    if |trail| > 1 {
      ReachOnly(g, found, trail[..|trail| - 1]);
    }
  }

  // The worklist.

  datatype Work = Work(modules: map<string, string>, queue: seq<(string, string)>,
                       order: seq<string>, visits: seq<string>)

  function PathsOf(g: Graph, queue: seq<(string, string)>): seq<string> {
    seq(|queue|, i requires 0 <= i < |queue| => g.resolve(queue[i].0, queue[i].1))
  }

  function AllEdges(g: Graph, order: seq<string>): seq<string> {
    if order == [] then [] else AllEdges(g, order[..|order| - 1]) + Edges(g, order[|order| - 1])
  }

  function Requests(x: string, specs: seq<string>): seq<(string, string)> {
    seq(|specs|, i requires 0 <= i < |specs| => (x, specs[i]))
  }

  /** A name the map holds: a compiled file, or a path visited when its file had been compiled. */
  predicate Named(g: Graph, order: seq<string>, visits: seq<string>, k: string) {
    k in order || Revisited(g, visits, k)
  }

  predicate Revisited(g: Graph, visits: seq<string>, k: string) {
    exists i, j :: 0 <= i < j < |visits| && visits[j] == k && g.normal(visits[i]) == g.normal(k)
  }

  ghost predicate KeysMean(g: Graph, w: Work) {
    && (forall k {:trigger k in w.modules} :: k in w.modules ==> g.normal(k) == Some(w.modules[k]))
    && (forall k {:trigger k in w.modules} :: k in w.modules <==> Named(g, w.order, w.visits, k))
  }

  ghost predicate OrderMeans(g: Graph, w: Work) {
    && Distinct(w.order)
    && forall x {:trigger x in w.order} :: x in w.order ==> Reachable(g, x) && g.normal(x) == Some(x) && g.parse(x).Imports?
  }

  predicate VisitsLand(g: Graph, w: Work) {
    forall v <- w.visits :: g.normal(v).Some? && g.normal(v).value in w.order
  }

  /** Every import of a compiled file, and the index, is visited once or still waiting. */
  predicate Accounted(g: Graph, w: Work) {
    multiset(w.visits) + multiset(PathsOf(g, w.queue)) == multiset([g.start]) + multiset(AllEdges(g, w.order))
  }

  ghost predicate Inv(g: Graph, w: Work) {
    && KeysMean(g, w) && OrderMeans(g, w) && VisitsLand(g, w) && Accounted(g, w)
  }

  lemma {:induction false} EdgeOfOrder(g: Graph, order: seq<string>, p: string)
    ensures p in AllEdges(g, order) <==> exists x <- order :: p in Edges(g, x)
  {
    if order != [] {
      var n := |order| - 1;
      EdgeOfOrder(g, order[..n], p);
      assert order == order[..n] + [order[n]];
    }
  }

  lemma PathsOfConcat(g: Graph, a: seq<(string, string)>, b: seq<(string, string)>)
    ensures PathsOf(g, a + b) == PathsOf(g, a) + PathsOf(g, b)
  {
  }

  /** Where a pending path comes from. */
  lemma PendingMeans(g: Graph, w: Work, p: string)
    requires Inv(g, w) && p in PathsOf(g, w.queue)
    ensures p == g.start || exists x <- w.order :: Reachable(g, x) && p in Edges(g, x)
  {
    assert p in multiset(PathsOf(g, w.queue));
    assert p in multiset(w.visits) + multiset(PathsOf(g, w.queue));
    assert p in multiset([g.start]) || p in multiset(AllEdges(g, w.order));
    EdgeOfOrder(g, w.order, p);
  }

  lemma VisitNext(g: Graph, w: Work, rest: seq<(string, string)>, e: (string, string))
    requires w.queue == rest + [e]
    ensures multiset(w.visits + [g.resolve(e.0, e.1)]) + multiset(PathsOf(g, rest))
         == multiset(w.visits) + multiset(PathsOf(g, w.queue))
  {
    PathsOfConcat(g, rest, [e]);
    assert PathsOf(g, [e]) == [g.resolve(e.0, e.1)];
  }

  function Alias(w: Work, rest: seq<(string, string)>, path: string, x: string): Work {
    Work(w.modules[path := x], rest, w.order, w.visits + [path])
  }

  lemma RevisitedAfter(g: Graph, visits: seq<string>, path: string, k: string)
    ensures Revisited(g, visits + [path], k) <==>
              Revisited(g, visits, k) || (k == path && exists v <- visits :: g.normal(v) == g.normal(k))
  {
    var more := visits + [path];
    if k == path && exists v <- visits :: g.normal(v) == g.normal(k) {
      var i :| 0 <= i < |visits| && g.normal(visits[i]) == g.normal(k);
      assert more[i] == visits[i] && more[|visits|] == k;
    }
    if Revisited(g, visits, k) {
      var i, j :| 0 <= i < j < |visits| && visits[j] == k && g.normal(visits[i]) == g.normal(k);
      assert more[i] == visits[i] && more[j] == k;
    }
  }

  /** Every compiled file was visited under some name. */
  predicate Visited(g: Graph, w: Work) {
    forall x <- w.order :: exists v <- w.visits :: g.normal(v) == Some(x)
  }

  lemma AliasKeys(g: Graph, w: Work, rest: seq<(string, string)>, path: string, x: string)
    requires KeysMean(g, w) && Visited(g, w) && g.normal(path) == Some(x) && x in w.order
    ensures KeysMean(g, Alias(w, rest, path, x))
  {
    var w' := Alias(w, rest, path, x);
    forall k ensures k in w'.modules <==> Named(g, w'.order, w'.visits, k) {
      RevisitedAfter(g, w.visits, path, k);
    }
  }

  lemma AliasStep(g: Graph, w: Work, rest: seq<(string, string)>, e: (string, string), x: string)
    requires Inv(g, w) && Visited(g, w) && w.queue == rest + [e]
    requires g.normal(g.resolve(e.0, e.1)) == Some(x) && x in w.order
    ensures Inv(g, Alias(w, rest, g.resolve(e.0, e.1), x)) && Visited(g, Alias(w, rest, g.resolve(e.0, e.1), x))
  {
    var path := g.resolve(e.0, e.1);
    var w' := Alias(w, rest, path, x);
    VisitNext(g, w, rest, e);
    assert Accounted(g, w');
    AliasKeys(g, w, rest, path, x);
    assert Visited(g, w') by {
      assert forall v <- w.visits :: v in w'.visits;
    }
  }

  function Compile(g: Graph, w: Work, rest: seq<(string, string)>, path: string, x: string): Work
    requires g.parse(x).Imports?
  {
    Work(w.modules[x := x], rest + Requests(x, g.parse(x).specifiers), w.order + [x], w.visits + [path])
  }

  lemma CompileStep(g: Graph, w: Work, rest: seq<(string, string)>, e: (string, string), x: string)
    requires Inv(g, w) && Visited(g, w) && w.queue == rest + [e]
    requires g.normal(g.resolve(e.0, e.1)) == Some(x) && x !in w.order
    requires g.normal(x) == Some(x) && Reachable(g, x) && g.parse(x).Imports?
    ensures Inv(g, Compile(g, w, rest, g.resolve(e.0, e.1), x))
    ensures Visited(g, Compile(g, w, rest, g.resolve(e.0, e.1), x))
  {
    var path := g.resolve(e.0, e.1);
    CompileAccounts(g, w, rest, e, x);
    CompileKeys(g, w, rest, path, x);
    CompileOrder(g, w, rest, path, x);
  }

  lemma CompileOrder(g: Graph, w: Work, rest: seq<(string, string)>, path: string, x: string)
    requires OrderMeans(g, w) && VisitsLand(g, w) && Visited(g, w)
    requires g.normal(path) == Some(x) == g.normal(x) && x !in w.order && Reachable(g, x) && g.parse(x).Imports?
    ensures var w' := Compile(g, w, rest, path, x); OrderMeans(g, w') && VisitsLand(g, w') && Visited(g, w')
  {
    var w' := Compile(g, w, rest, path, x);
    assert forall v <- w.visits :: v in w'.visits;
    assert path in w'.visits;
  }

  lemma CompileAccounts(g: Graph, w: Work, rest: seq<(string, string)>, e: (string, string), x: string)
    requires Accounted(g, w) && w.queue == rest + [e] && g.parse(x).Imports?
    ensures Accounted(g, Compile(g, w, rest, g.resolve(e.0, e.1), x))
  {
    VisitNext(g, w, rest, e);
    var reqs := Requests(x, g.parse(x).specifiers);
    PathsOfConcat(g, rest, reqs);
    assert PathsOf(g, reqs) == Edges(g, x);
    assert (w.order + [x])[..|w.order|] == w.order;
    AddBoth(multiset(w.visits + [g.resolve(e.0, e.1)]), PathsOf(g, rest), multiset([g.start]), AllEdges(g, w.order), Edges(g, x));
  }

  lemma AddBoth(a: multiset<string>, b: seq<string>, c: multiset<string>, d: seq<string>, more: seq<string>)
    requires a + multiset(b) == c + multiset(d)
    ensures a + multiset(b + more) == c + multiset(d + more)
  {
    assert multiset(b + more) == multiset(b) + multiset(more);
    assert multiset(d + more) == multiset(d) + multiset(more);
    assert a + (multiset(b) + multiset(more)) == (a + multiset(b)) + multiset(more);
  }

  lemma CompileKeys(g: Graph, w: Work, rest: seq<(string, string)>, path: string, x: string)
    requires KeysMean(g, w) && VisitsLand(g, w) && g.parse(x).Imports?
    requires g.normal(path) == Some(x) == g.normal(x) && x !in w.order
    ensures KeysMean(g, Compile(g, w, rest, path, x))
  {
    var w' := Compile(g, w, rest, path, x);
    forall k ensures k in w'.modules <==> Named(g, w'.order, w'.visits, k) {
      RevisitedAfter(g, w.visits, path, k);
    }
  }

  /** A name the map holds stands for a compiled file. */
  lemma KeyIsCompiled(g: Graph, w: Work, k: string)
    requires KeysMean(g, w) && OrderMeans(g, w) && VisitsLand(g, w) && k in w.modules
    ensures w.modules[k] in w.order
  {
    if k !in w.order {
      var i, j :| 0 <= i < j < |w.visits| && w.visits[j] == k && g.normal(w.visits[i]) == g.normal(k);
      assert w.visits[i] in w.visits;
    }
  }

  lemma PendingReachable(g: Graph, w: Work, p: string, x: string)
    requires Inv(g, w) && g.normal(g.start) == Some(g.start) && p in PathsOf(g, w.queue) && g.normal(p) == Some(x)
    ensures Reachable(g, x)
  {
    PendingMeans(g, w, p);
    if p == g.start {
      ReachStart(g);
    } else {
      var y :| y in w.order && Reachable(g, y) && p in Edges(g, y);
      ReachStep(g, y, x);
    }
  }

  lemma PendingUnresolved(g: Graph, w: Work, p: string)
    requires Inv(g, w) && g.normal(g.start) == Some(g.start) && p in PathsOf(g, w.queue) && g.normal(p) == None
    ensures exists x :: Reachable(g, x) && !Sound(g, x)
  {
    PendingMeans(g, w, p);
    var y :| y in w.order && Reachable(g, y) && p in Edges(g, y);
    assert !Sound(g, y);
  }

  /** What a finished load has done: every reachable file compiled once, and known by its own path
      and by each name that came up again after it was compiled. */
  ghost predicate Complete(g: Graph, modules: map<string, string>, order: seq<string>, visits: seq<string>) {
    && Distinct(order)
    && (forall x {:trigger Reachable(g, x)} :: x in order <==> Reachable(g, x))
    && (forall x {:trigger x in order} :: x in order ==> Sound(g, x) && g.normal(x) == Some(x))
    && multiset(visits) == multiset([g.start] + AllEdges(g, order))
    && KeysMean(g, Work(modules, [], order, visits))
    && forall k {:trigger k in modules} :: k in modules ==> modules[k] in order
  }

  lemma WorklistEmpty(g: Graph, w: Work)
    requires Inv(g, w) && w.queue == [] && g.normal(g.start) == Some(g.start)
    ensures Complete(g, w.modules, w.order, w.visits)
  {
    AllVisited(g, w);
    ImportsLand(g, w);
    OrderIsReachable(g, w);
    forall k | k in w.modules ensures w.modules[k] in w.order {
      KeyIsCompiled(g, w, k);
    }
    assert KeysMean(g, Work(w.modules, [], w.order, w.visits));
  }

  lemma AllVisited(g: Graph, w: Work)
    requires Accounted(g, w) && w.queue == []
    ensures multiset(w.visits) == multiset([g.start] + AllEdges(g, w.order))
  {
    assert PathsOf(g, []) == [];
    assert multiset([g.start] + AllEdges(g, w.order)) == multiset([g.start]) + multiset(AllEdges(g, w.order));
  }

  lemma OrderIsReachable(g: Graph, w: Work)
    requires OrderMeans(g, w) && g.start in w.order
    requires forall x, p :: x in w.order && p in Edges(g, x) ==> g.normal(p).Some? && g.normal(p).value in w.order
    ensures forall x {:trigger Reachable(g, x)} :: x in w.order <==> Reachable(g, x)
    ensures forall x {:trigger x in w.order} :: x in w.order ==> Sound(g, x)
  {
    forall x | Reachable(g, x) ensures x in w.order {
      var trail :| Trail(g, trail) && trail[|trail| - 1] == x;
      ReachOnly(g, w.order, trail);
    }
  }

  lemma ImportsLand(g: Graph, w: Work)
    requires VisitsLand(g, w) && multiset(w.visits) == multiset([g.start] + AllEdges(g, w.order))
    ensures g.normal(g.start).Some? && g.normal(g.start).value in w.order
    ensures forall x, p :: x in w.order && p in Edges(g, x) ==> g.normal(p).Some? && g.normal(p).value in w.order
  {
    assert g.start in multiset([g.start] + AllEdges(g, w.order));
    assert g.start in multiset(w.visits);
    forall x, p | x in w.order && p in Edges(g, x) ensures g.normal(p).Some? && g.normal(p).value in w.order {
      EdgeOfOrder(g, w.order, p);
      assert p in multiset([g.start] + AllEdges(g, w.order));
      assert p in multiset(w.visits);
    }
  }

  // The order of visits. The worklist takes the path pushed last, so a file's imports are visited
  // from the last to the first, each with all that it leads to.

  /** What is to be visited after the first path, and the files not compiled by then. */
  function AfterVisit(g: Graph, todo: seq<string>, left: set<string>): (seq<string>, set<string>)
    requires todo != []
  {
    match g.normal(todo[0])
    case Some(x) => if x in left then (Reverse(Edges(g, x)) + todo[1..], left - {x}) else (todo[1..], left)
    case None => (todo[1..], left)
  }

  /** The paths in the order of their visits, as a function of the graph and its files. */
  function VisitOrder(g: Graph, todo: seq<string>, left: set<string>): seq<string>
    decreases |left|, |todo|
  {
    if todo == [] then []
    else
      var (todo', left') := AfterVisit(g, todo, left);
      [todo[0]] + VisitOrder(g, todo', left')
  }

  /** The visits made and the visits to come are the order from the start. */
  ghost predicate OnCourse(g: Graph, files: set<string>, w: Work, left: set<string>) {
    w.visits + VisitOrder(g, Reverse(PathsOf(g, w.queue)), left) == VisitOrder(g, [g.start], files)
  }

  lemma NextVisit(g: Graph, rest: seq<(string, string)>, e: (string, string))
    ensures Reverse(PathsOf(g, rest + [e])) == [g.resolve(e.0, e.1)] + Reverse(PathsOf(g, rest))
  {
    PathsOfConcat(g, rest, [e]);
    assert PathsOf(g, [e]) == [g.resolve(e.0, e.1)];
    ReverseSnoc(PathsOf(g, rest), g.resolve(e.0, e.1));
  }

  lemma AliasOnCourse(g: Graph, files: set<string>, w: Work, left: set<string>, rest: seq<(string, string)>,
                      e: (string, string), x: string)
    requires OnCourse(g, files, w, left) && w.queue == rest + [e]
    requires g.normal(g.resolve(e.0, e.1)) == Some(x) && x !in left
    ensures OnCourse(g, files, Alias(w, rest, g.resolve(e.0, e.1), x), left)
  {
    var p, later := g.resolve(e.0, e.1), Reverse(PathsOf(g, rest));
    NextVisit(g, rest, e);
    assert ([p] + later)[1..] == later;
    assert w.visits + ([p] + VisitOrder(g, later, left)) == w.visits + [p] + VisitOrder(g, later, left);
  }

  lemma CompileOnCourse(g: Graph, files: set<string>, w: Work, left: set<string>, rest: seq<(string, string)>,
                        e: (string, string), x: string)
    requires OnCourse(g, files, w, left) && w.queue == rest + [e]
    requires g.normal(g.resolve(e.0, e.1)) == Some(x) && x in left && g.parse(x).Imports?
    ensures OnCourse(g, files, Compile(g, w, rest, g.resolve(e.0, e.1), x), left - {x})
  {
    var p, later := g.resolve(e.0, e.1), Reverse(PathsOf(g, rest));
    var reqs := Requests(x, g.parse(x).specifiers);
    NextVisit(g, rest, e);
    assert ([p] + later)[1..] == later;
    PathsOfConcat(g, rest, reqs);
    assert PathsOf(g, reqs) == Edges(g, x);
    ReverseConcat(PathsOf(g, rest), Edges(g, x));
    var next := VisitOrder(g, Reverse(Edges(g, x)) + later, left - {x});
    assert w.visits + ([p] + next) == w.visits + [p] + next;
  }
}
