/** The list of routes (jsland/src/router.ts:41-56) and what looking up a registered path gives, for
    every sequence of registrations. */
module Routes {
  import opened Paths
  import opened Sequences
  import opened Tuple
  import opened RouteTrie
  import opened RouteLookup
  import opened Router

  datatype RouteInfo = RouteInfo(kind: Method, path: string)

  /** The path string built on the way down. */
  function Extended(prefix: string, p: Segs): string
    decreases |p|
  {
    if p == [] then prefix else Extended(prefix + "/" + p[0], p[1..])
  }

  function Shown(path: string): string {
    if path == "" then "/" else path
  }

  type Trail = seq<(Method, Segs)>

  /** The routes yielded so far: those of the methods and children already visited. */
  ghost predicate Listed<H, M>(n: Node<H, M>, trail: Trail, methods: set<Method>, keys: set<string>) {
    && Distinct(trail)
    && forall m, p :: (m, p) in trail <==> m in At(n, p).target && (if p == [] then m !in methods else p[0] !in keys)
  }

  predicate Describes(prefix: string, trail: Trail, out: seq<RouteInfo>) {
    |trail| == |out| &&
    forall i :: 0 <= i < |out| ==> out[i] == RouteInfo(trail[i].0, Shown(Extended(prefix, trail[i].1)))
  }

  function In(key: string, sub: Trail): (r: Trail)
    ensures |r| == |sub| && forall i :: 0 <= i < |r| ==> r[i] == (sub[i].0, [key] + sub[i].1)
  {
    seq(|sub|, i requires 0 <= i < |sub| => (sub[i].0, [key] + sub[i].1))
  }

  lemma InMeans(key: string, sub: Trail, m: Method, p: Segs)
    ensures (m, p) in In(key, sub) <==> p != [] && p[0] == key && (m, p[1..]) in sub
  {
    if (m, p) in In(key, sub) {
      var i :| 0 <= i < |sub| && In(key, sub)[i] == (m, p);
      assert p[1..] == sub[i].1;
      assert sub[i] == (m, p[1..]);
    }
    if p != [] && p[0] == key && (m, p[1..]) in sub {
      var i :| 0 <= i < |sub| && sub[i] == (m, p[1..]);
      assert In(key, sub)[i] == (m, [key] + p[1..]);
      assert [key] + p[1..] == p;
    }
  }

  lemma InOnce(key: string, sub: Trail)
    requires Distinct(sub)
    ensures Distinct(In(key, sub))
  {
    forall i, j | 0 <= i < j < |sub| ensures In(key, sub)[i] != In(key, sub)[j] {
      assert ([key] + sub[i].1)[1..] == sub[i].1 && ([key] + sub[j].1)[1..] == sub[j].1;
    }
  }

  lemma OnceConcat(a: Trail, b: Trail)
    requires Distinct(a) && Distinct(b) && forall x <- a :: x !in b
    ensures Distinct(a + b)
  {
    var all := a + b;
    forall i, j | 0 <= i < j < |all| ensures all[i] != all[j] {
      if i < |a| <= j {
        assert all[i] in a && all[j] in b;
      }
    }
  }

  lemma ListChild<H, M>(n: Node<H, M>, trail: Trail, keys: set<string>, k: string, sub: Trail)
    requires Listed(n, trail, {}, keys) && k in keys && k in n.children && Distinct(sub)
    requires forall m, p :: (m, p) in sub <==> m in At(n.children[k], p).target
    ensures Listed(n, trail + In(k, sub), {}, keys - {k})
  {
    forall m, p ensures (m, p) in In(k, sub) <==> p != [] && p[0] == k && m in At(n, p).target {
      InMeans(k, sub, m, p);
      if p != [] && p[0] == k {
        assert At(n, p) == At(n.children[k], p[1..]);
      }
    }
    InOnce(k, sub);
    forall x | x in trail ensures x !in In(k, sub) {
      assert (x.0, x.1) in trail;
    }
    OnceConcat(trail, In(k, sub));
    forall m, p ensures (m, p) in trail + In(k, sub) <==> (m, p) in trail || (m, p) in In(k, sub) {
    }
  }

  lemma ListMethod<H, M>(n: Node<H, M>, trail: Trail, methods: set<Method>, m: Method)
    requires Listed(n, trail, methods, n.children.Keys) && m in methods && m in n.target
    ensures Listed(n, trail + [(m, [])], methods - {m}, n.children.Keys)
  {
    assert (m, []) !in trail;
    OnceConcat(trail, [(m, [])]);
  }

  lemma DescribesConcat(prefix: string, a: Trail, b: Trail, x: seq<RouteInfo>, y: seq<RouteInfo>)
    requires Describes(prefix, a, x) && Describes(prefix, b, y)
    ensures Describes(prefix, a + b, x + y)
  {
  }

  lemma DescribesIn(prefix: string, k: string, sub: Trail, out: seq<RouteInfo>)
    requires Describes(prefix + "/" + k, sub, out)
    ensures Describes(prefix, In(k, sub), out)
  {
    forall i | 0 <= i < |out| ensures Extended(prefix, In(k, sub)[i].1) == Extended(prefix + "/" + k, sub[i].1) {
      assert ([k] + sub[i].1)[1..] == sub[i].1;
    }
  }

  /** Every handler in the trie, each once, in whatever order. */
  method CollectRoutes<H, M>(n: Node<H, M>, prefix: string) returns (out: seq<RouteInfo>, ghost trail: Trail)
    ensures Describes(prefix, trail, out) && Distinct(trail)
    ensures forall m, p :: (m, p) in trail <==> m in At(n, p).target
    decreases n
  {
    out, trail := [], [];
    var methods := n.target.Keys;
    while methods != {}
      invariant methods <= n.target.Keys && Describes(prefix, trail, out)
      invariant Listed(n, trail, methods, n.children.Keys)
      decreases |methods|
    {
      var m :| m in methods;
      ListMethod(n, trail, methods, m);
      DescribesConcat(prefix, trail, [(m, [])], out, [RouteInfo(m, Shown(prefix))]);
      out, trail, methods := out + [RouteInfo(m, Shown(prefix))], trail + [(m, [])], methods - {m};
    }
    var keys := n.children.Keys;
    while keys != {}
      invariant keys <= n.children.Keys && Describes(prefix, trail, out)
      invariant Listed(n, trail, {}, keys)
      decreases |keys|
    {
      var k :| k in keys;
      var subOut, sub := CollectRoutes(n.children[k], prefix + "/" + k);
      ListChild(n, trail, keys, k, sub);
      DescribesIn(prefix, k, sub, subOut);
      DescribesConcat(prefix, trail, In(k, sub), out, subOut);
      out, trail, keys := out + subOut, trail + In(k, sub), keys - {k};
    }
  }

  // What registrations alone say.

  /** Handlers sit only at well-formed paths. */
  lemma {:induction false} HandlersWellPlaced<H, M>(rs: seq<Registration<H, M>>, p: Segs)
    requires At(After(rs), p).target != map[]
    ensures p != [] && WellFormed(p) && SepFree(p, '/')
  {
    if rs == [] {
      assert false;
    } else {
      var before := rs[..|rs| - 1];
      var r := rs[|rs| - 1];
      if Segments(r.path).Some? {
        CreateMeans(After(before), Segments(r.path).value, r.op, p);
        SplitSepFree(r.path[1..], '/');
      }
      if !(Segments(r.path) == Some(p) && WellFormed(p)) {
        HandlersWellPlaced(before, p);
      }
    }
  }

  lemma {:induction false} ExtendedIsJoin(prefix: string, p: Segs)
    requires p != []
    ensures Extended(prefix, p) == prefix + "/" + Join(p, '/')
    decreases |p|
  {
    if |p| > 1 {
      ExtendedIsJoin(prefix + "/" + p[0], p[1..]);
      assert prefix + "/" + p[0] + "/" + Join(p[1..], '/') == prefix + "/" + (p[0] + ['/'] + Join(p[1..], '/'));
    }
  }

  lemma ShownIsPath(p: Segs)
    requires p != [] && SepFree(p, '/')
    ensures Segments(Shown(Extended("", p))) == Some(p)
  {
    ExtendedIsJoin("", p);
    var path := Extended("", p);
    assert path == "/" + Join(p, '/');
    assert path[1..] == Join(p, '/');
    SplitJoin(p, '/');
  }

  lemma PathIsShown(path: string)
    requires Segments(path).Some?
    ensures Shown(Extended("", Segments(path).value)) == path
  {
    var p := Segments(path).value;
    ExtendedIsJoin("", p);
    JoinSplit(path[1..], '/');
    assert path == "/" + path[1..];
  }

  /** The list shows exactly the methods and paths with a handler registered, each once. */
  method AllRoutes<H, M>(router: RouterImpl<H, M>) returns (out: seq<RouteInfo>)
    requires router.Valid()
    ensures forall m, path :: RouteInfo(m, path) in out <==> Accepted(path) && LastHandler(router.log, path, m).Some?
    ensures forall i, j :: 0 <= i < j < |out| ==> out[i] != out[j]
  {
    ghost var trail;
    out, trail := CollectRoutes(router.root, "");
    RoutesExact(router.log, trail, out);
  }

  ghost predicate Complete<H, M>(rs: seq<Registration<H, M>>, trail: Trail, out: seq<RouteInfo>) {
    && Describes("", trail, out) && Distinct(trail)
    && forall m, p :: (m, p) in trail <==> m in At(After(rs), p).target
  }

  lemma RoutesExact<H, M>(rs: seq<Registration<H, M>>, trail: Trail, out: seq<RouteInfo>)
    requires Complete(rs, trail, out)
    ensures forall m, path :: RouteInfo(m, path) in out <==> Accepted(path) && LastHandler(rs, path, m).Some?
    ensures forall i, j :: 0 <= i < j < |out| ==> out[i] != out[j]
  {
    forall i | 0 <= i < |out| ensures Segments(out[i].path) == Some(trail[i].1) && WellFormed(trail[i].1) {
      assert (trail[i].0, trail[i].1) in trail;
      HandlersWellPlaced(rs, trail[i].1);
      ShownIsPath(trail[i].1);
    }
    forall m, path ensures RouteInfo(m, path) in out <==> Accepted(path) && LastHandler(rs, path, m).Some? {
      RouteExact(rs, trail, out, m, path);
    }
  }

  lemma RouteExact<H, M>(rs: seq<Registration<H, M>>, trail: Trail, out: seq<RouteInfo>, m: Method, path: string)
    requires Complete(rs, trail, out)
    requires forall i :: 0 <= i < |out| ==> Segments(out[i].path) == Some(trail[i].1) && WellFormed(trail[i].1)
    ensures RouteInfo(m, path) in out <==> Accepted(path) && LastHandler(rs, path, m).Some?
  {
    if RouteInfo(m, path) in out {
      var i :| 0 <= i < |out| && out[i] == RouteInfo(m, path);
      assert (trail[i].0, trail[i].1) in trail;
      TrieHolds(rs, path, m);
    }
    if Accepted(path) && LastHandler(rs, path, m).Some? {
      TrieHolds(rs, path, m);
      var p := Segments(path).value;
      assert (m, p) in trail;
      var i :| 0 <= i < |trail| && trail[i] == (m, p);
      PathIsShown(path);
      assert out[i] == RouteInfo(m, path);
    }
  }

  /** Looking a path up that some registration went through gives, for each method, the handler
      registered last for exactly that path, whatever wildcards or directories there are; none at all
      if nothing was registered for it. */
  lemma LookupTouched<H, M>(rs: seq<Registration<H, M>>, r: Registration<H, M>, path: string, m: Method)
    requires r in rs && Accepted(path) && Touches(r, Segments(path).value)
    ensures ResultOf(After(rs), path).Route?
    ensures Lookup1(ResultOf(After(rs), path).target, m) == LastHandler(rs, path, m)
  {
    var p := Segments(path).value;
    TrieReaches(rs, p);
    ExactWins(After(rs), p);
    TrieHolds(rs, path, m);
  }

  /** In particular a registered path. */
  lemma LookupRegistered<H, M>(rs: seq<Registration<H, M>>, r: Registration<H, M>, m: Method)
    requires r in rs && Accepted(r.path)
    ensures ResultOf(After(rs), r.path).Route?
    ensures Lookup1(ResultOf(After(rs), r.path).target, m) == LastHandler(rs, r.path, m)
  {
    TouchesAll(Segments(r.path).value);
    assert Touches(r, Segments(r.path).value);
    LookupTouched(rs, r, r.path, m);
  }

  /** After `any`, its handler answers every method of the path but HEAD, which stays as it was. */
  lemma AnySetsAllButHead<H, M>(rs: seq<Registration<H, M>>, path: string, h: H, m: Method)
    requires Accepted(path)
    ensures var rs' := rs + [Registration<H, M>.Registration(path, Handle(ANY, h))];
            && ResultOf(After(rs'), path).Route?
            && Lookup1(ResultOf(After(rs'), path).target, m) == if m == Head then LastHandler(rs, path, Head) else Some(h)
  {
    var any: Registration<H, M> := Registration(path, Handle(ANY, h));
    var rs' := rs + [any];
    assert any == rs'[|rs|] && rs'[..|rs|] == rs;
    LookupRegistered(rs', any, m);
  }

  ghost predicate AnyTouches<H, M>(rs: seq<Registration<H, M>>, p: Segs) {
    exists r <- rs :: Touches(r, p)
  }

  /** At any node of the trie a segment falls to the wildcard exactly when a registration went through
      the wildcard there and none through the segment. One that failed counts, and so does one of a
      longer path: either leaves a node that hides the wildcard. */
  lemma WildcardReachedIff<H, M>(rs: seq<Registration<H, M>>, here: Segs, n: Node<H, M>, seg: string)
    requires NodeAt(After(rs), here) == Some(n) && seg != WILDCARD
    ensures Step(n, seg) == Some(WILDCARD) <==> AnyTouches(rs, here + [WILDCARD]) && !AnyTouches(rs, here + [seg])
  {
    ChildTouched(rs, here, n, seg);
    ChildTouched(rs, here, n, WILDCARD);
  }

  lemma ChildTouched<H, M>(rs: seq<Registration<H, M>>, here: Segs, n: Node<H, M>, key: string)
    requires NodeAt(After(rs), here) == Some(n)
    ensures key in n.children <==> AnyTouches(rs, here + [key])
  {
    NodeAppend(After(rs), here, [key]);
    NodeBelow(n, key, []);
    TrieReaches(rs, here + [key]);
  }

  /** A handler for "/" and the wildcard answers any one-segment path, until a longer path beginning
      with that segment is registered, even one that throws: then the lookup finds no handler. */
  lemma WildcardHidden<H, M>(h: H, op: Op<H, M>, seg: string, rest: string, m: Method)
    requires '/' !in seg && seg != "" && seg != WILDCARD
    ensures var wild := Registration<H, M>.Registration("/*", Handle({m}, h));
            var other := Registration<H, M>.Registration("/" + seg + "/" + rest, op);
            && ResultOf(After([wild]), "/" + seg).Route?
            && Lookup1(ResultOf(After([wild]), "/" + seg).target, m) == Some(h)
            && ResultOf(After([wild, other]), "/" + seg).Route?
            && Lookup1(ResultOf(After([wild, other]), "/" + seg).target, m) == None
  {
    assert "/" + WILDCARD == "/*";
    WildcardAnswers<H, M>(h, seg, m);
    WildcardGone(h, op, seg, rest, m);
  }

  lemma OneSegment(seg: string)
    requires '/' !in seg
    ensures Segments("/" + seg) == Some([seg]) && Accepted("/" + seg)
  {
    assert ("/" + seg)[1..] == seg;
    SplitPiece(seg, '/');
  }

  lemma WildcardAnswers<H, M>(h: H, seg: string, m: Method)
    requires '/' !in seg && seg != "" && seg != WILDCARD
    ensures var wild := Registration<H, M>.Registration("/" + WILDCARD, Handle({m}, h));
            ResultOf(After([wild]), "/" + seg).Route? && Lookup1(ResultOf(After([wild]), "/" + seg).target, m) == Some(h)
  {
    var wild: Registration<H, M> := Registration("/" + WILDCARD, Handle({m}, h));
    var rs := [wild];
    OneSegment(seg);
    OneSegment(WILDCARD);
    TouchesAll([WILDCARD]);
    assert Touches(wild, [WILDCARD]) && !Touches(wild, [seg]) by {
      assert [WILDCARD][0] != [seg][0];
    }
    assert AnyTouches(rs, [WILDCARD]) && !AnyTouches(rs, [seg]);
    TrieReaches(rs, [seg]);
    TrieReaches(rs, [WILDCARD]);
    FallsThrough(After(rs), seg);
    TrieHolds(rs, "/" + WILDCARD, m);
  }

  lemma WildcardGone<H, M>(h: H, op: Op<H, M>, seg: string, rest: string, m: Method)
    requires '/' !in seg && seg != "" && seg != WILDCARD
    ensures var wild := Registration<H, M>.Registration("/" + WILDCARD, Handle({m}, h));
            var other := Registration<H, M>.Registration("/" + seg + "/" + rest, op);
            && ResultOf(After([wild, other]), "/" + seg).Route?
            && Lookup1(ResultOf(After([wild, other]), "/" + seg).target, m) == None
  {
    var wild: Registration<H, M> := Registration("/" + WILDCARD, Handle({m}, h));
    var other: Registration<H, M> := Registration("/" + seg + "/" + rest, op);
    OneSegment(seg);
    assert other.path[1..] == seg + ['/'] + rest;
    SplitConcat(seg, '/', rest);
    SplitPiece(seg, '/');
    var segs := [seg] + Split(rest, '/');
    assert Segments(other.path) == Some(segs);
    assert [seg] <= Touched(segs);
    assert Touches(other, [seg]);
    LookupTouched([wild, other], other, "/" + seg, m);
    assert |other.path| > |"/" + seg|;
    assert wild.path[1..] == WILDCARD && ("/" + seg)[1..] == seg;
    NobodyElse(wild, other, "/" + seg, m);
  }

  lemma NobodyElse<H, M>(a: Registration<H, M>, b: Registration<H, M>, path: string, m: Method)
    requires a.path != path && b.path != path
    ensures LastHandler([a, b], path, m) == None
  {
    assert [a, b][..1] == [a] && [a][..0] == [];
    assert LastHandler([a], path, m) == LastHandler([a][..0], path, m);
  }

  /** Which middleware a registered path collects: that of its ancestors and itself, and of the
      directories beside them. */
  lemma {:induction false} ExactCollects<H, M>(n: Node<H, M>, segs: Segs, p: Segs)
    requires WellFormed(segs) && NodeAt(n, segs).Some?
    ensures Walk(n, segs).Hit?
    ensures p in Walk(n, segs).found.collected <==> HasMiddleware(n, p) && OnTheWay(segs, p)
    decreases |segs|
  {
    ExactWins(n, segs);
    if segs != [] {
      WellFormedTail(segs);
      var key := segs[0];
      ExactWins(n.children[key], segs[1..]);
      var f := Walk(n.children[key], segs[1..]).found;
      if p != [] {
        ExactCollects(n.children[key], segs[1..], p[1..]);
        NodeBelow(n, p[0], p[1..]);
        assert p == [p[0]] + p[1..];
        OnTheWayBelow(segs, p);
      }
      InBelow(key, f.collected, p);
      assert p in Walk(n, segs).found.collected
        <==> (p == [DIRECTORY] && HasMiddleware(n, p)) || (p == [key] && HasMiddleware(n, p)) || p in Below(key, f.collected);
      assert |p| == 1 ==> p[1..] == [];
    }
  }

  predicate OnTheWay(segs: Segs, p: Segs) {
    0 < |p| <= |segs| && p[..|p| - 1] == segs[..|p| - 1] && (p[|p| - 1] == segs[|p| - 1] || p[|p| - 1] == DIRECTORY)
  }

  lemma InBelow(key: string, ps: seq<Segs>, p: Segs)
    ensures p in Below(key, ps) <==> p != [] && p[0] == key && p[1..] in ps
  {
    if p in Below(key, ps) {
      var i :| 0 <= i < |ps| && Below(key, ps)[i] == p;
      assert p[1..] == ps[i];
    }
    if p != [] && p[0] == key && p[1..] in ps {
      var i :| 0 <= i < |ps| && ps[i] == p[1..];
      assert Below(key, ps)[i] == [key] + p[1..] == p;
    }
  }

  lemma OnTheWayBelow(segs: Segs, p: Segs)
    requires segs != [] && p != []
    ensures OnTheWay(segs, p) <==>
              if |p| == 1 then p[0] == segs[0] || p[0] == DIRECTORY
              else p[0] == segs[0] && OnTheWay(segs[1..], p[1..])
  {
    if 1 < |p| <= |segs| {
      assert p[..|p| - 1] == [p[0]] + p[1..][..|p| - 2];
      assert segs[..|p| - 1] == [segs[0]] + segs[1..][..|p| - 2];
    }
  }
}
