/** The route trie of the JavaScript runtime (jsland/src/router.ts): registering, looking up with
    wildcards and directories, and what a trie built by registrations holds. */
module RouteTrie {
  import opened Paths
  import opened Tuple

  type Segs = seq<string>

  datatype Method = Get | Head | Post | Put | Patch | Delete | Options

  datatype Node<H, M> = Node(target: map<Method, H>, children: map<string, Node<H, M>>, middlewares: seq<M>)

  function Empty<H, M>(): Node<H, M> {
    Node(map[], map[], [])
  }

  /** What a registration does to its node. */
  datatype Op<H, M> = Handle(methods: set<Method>, handler: H) | Use(middleware: M)

  function Apply<H, M>(n: Node<H, M>, op: Op<H, M>): Node<H, M> {
    match op
    case Handle(ms, h) => n.(target := n.target + map m | m in ms :: h)
    case Use(mw) => n.(middlewares := n.middlewares + [mw])
  }

  /** Only the last segment may be empty. */
  predicate WellFormed(segs: Segs) {
    forall i :: 0 <= i < |segs| - 1 ==> segs[i] != ""
  }

  predicate BadHead(segs: Segs) {
    |segs| > 1 && segs[0] == ""
  }

  function ChildOf<H, M>(n: Node<H, M>, seg: string): Node<H, M> {
    if seg in n.children then n.children[seg] else Empty()
  }

  /** The node after a registration below it. An empty segment in the middle stops it, but what has
      been created on the way there stays. */
  function Create<H, M>(n: Node<H, M>, segs: Segs, op: Op<H, M>): Node<H, M>
    decreases |segs|
  {
    if segs == [] then Apply(n, op)
    else if BadHead(segs) then n
    else n.(children := n.children[segs[0] := Create(ChildOf(n, segs[0]), segs[1..], op)])
  }

  /** How far a registration gets. */
  function Touched(segs: Segs): Segs {
    if segs == [] || BadHead(segs) then [] else [segs[0]] + Touched(segs[1..])
  }

  function NodeAt<H, M>(n: Node<H, M>, p: Segs): Option<Node<H, M>> {
    if p == [] then Some(n)
    else if p[0] !in n.children then None
    else NodeAt(n.children[p[0]], p[1..])
  }

  function At<H, M>(n: Node<H, M>, p: Segs): Node<H, M> {
    if NodeAt(n, p).Some? then NodeAt(n, p).value else Empty()
  }

  lemma {:induction false} WellFormedTail(segs: Segs)
    requires segs != []
    ensures WellFormed(segs) <==> !BadHead(segs) && WellFormed(segs[1..])
  {
    if !BadHead(segs) && WellFormed(segs[1..]) {
      forall i | 0 <= i < |segs| - 1 ensures segs[i] != "" {
        if i > 0 {
          assert segs[1..][i - 1] != "";
        }
      }
    }
  }

  /** A registration changes what its own node holds, if its path is well formed, and no other. */
  lemma {:induction false} CreateMeans<H, M>(n: Node<H, M>, segs: Segs, op: Op<H, M>, p: Segs)
    ensures var n' := Create(n, segs, op);
            var want := if p == segs && WellFormed(segs) then Apply(At(n, p), op) else At(n, p);
            At(n', p).target == want.target && At(n', p).middlewares == want.middlewares
    decreases |segs|
  {
    if segs != [] {
      WellFormedTail(segs);
      if !BadHead(segs) && p != [] && p[0] == segs[0] {
        CreateMeans(ChildOf(n, segs[0]), segs[1..], op, p[1..]);
        assert p == [p[0]] + p[1..] && segs == [segs[0]] + segs[1..];
        assert At(n, p).target == At(ChildOf(n, segs[0]), p[1..]).target;
        assert At(n, p).middlewares == At(ChildOf(n, segs[0]), p[1..]).middlewares;
      }
    }
  }

  /** It makes the nodes on its way exist, and no others. */
  lemma {:induction false} CreateReaches<H, M>(n: Node<H, M>, segs: Segs, op: Op<H, M>, p: Segs)
    ensures NodeAt(Create(n, segs, op), p).Some? <==> NodeAt(n, p).Some? || p <= Touched(segs)
    decreases |segs|
  {
    if segs != [] && !BadHead(segs) && p != [] {
      var t := Touched(segs);
      assert t[1..] == Touched(segs[1..]);
      if p[0] == segs[0] {
        CreateReaches(ChildOf(n, segs[0]), segs[1..], op, p[1..]);
        assert p <= t <==> p[1..] <= t[1..] by {
          assert p == [p[0]] + p[1..] && t == [t[0]] + t[1..];
        }
        if segs[0] !in n.children && NodeAt(Empty<H, M>(), p[1..]).Some? {
          assert p[1..] == [];
        }
      }
    }
  }

  lemma {:induction false} TouchesAll(segs: Segs)
    requires WellFormed(segs)
    ensures Touched(segs) == segs
  {
    if segs != [] {
      WellFormedTail(segs);
      TouchesAll(segs[1..]);
    }
  }

  // Runs of registrations.

  datatype Registration<H, M> = Registration(path: string, op: Op<H, M>)

  /** The segments after the leading slash; None where the code throws at once. */
  function Segments(path: string): Option<Segs> {
    if path != [] && path[0] == '/' then Some(Split(path[1..], '/')) else None
  }

  /** A path registrations and lookups accept. */
  predicate Accepted(path: string) {
    Segments(path).Some? && WellFormed(Segments(path).value)
  }

  function Register<H, M>(root: Node<H, M>, r: Registration<H, M>): Node<H, M> {
    match Segments(r.path)
    case None => root
    case Some(segs) => Create(root, segs, r.op)
  }

  function After<H, M>(rs: seq<Registration<H, M>>): Node<H, M> {
    if rs == [] then Empty() else Register(After(rs[..|rs| - 1]), rs[|rs| - 1])
  }

  /** The handler registered last for exactly this path and method. */
  function LastHandler<H, M>(rs: seq<Registration<H, M>>, path: string, m: Method): Option<H> {
    if rs == [] then None
    else
      var r := rs[|rs| - 1];
      if r.path == path && r.op.Handle? && m in r.op.methods then Some(r.op.handler)
      else LastHandler(rs[..|rs| - 1], path, m)
  }

  /** The middleware registered for exactly this path, in order. */
  function MiddlewareOf<H, M>(rs: seq<Registration<H, M>>, path: string): seq<M> {
    if rs == [] then []
    else
      var r := rs[|rs| - 1];
      var before := MiddlewareOf(rs[..|rs| - 1], path);
      if r.path == path && r.op.Use? then before + [r.op.middleware] else before
  }

  lemma SegmentsUnique(p: string, q: string)
    requires Segments(p).Some? && Segments(p) == Segments(q)
    ensures p == q
  {
    JoinSplit(p[1..], '/');
    JoinSplit(q[1..], '/');
    assert p == [p[0]] + p[1..] && q == [q[0]] + q[1..];
  }

  function Lookup1<H>(target: map<Method, H>, m: Method): Option<H> {
    if m in target then Some(target[m]) else None
  }

  /** What the trie holds at a path is what was registered for exactly that path, last one first
      for handlers and all of it for middleware, whatever else was registered. */
  lemma {:induction false} TrieHolds<H, M>(rs: seq<Registration<H, M>>, path: string, m: Method)
    requires Accepted(path)
    ensures var n := At(After(rs), Segments(path).value);
            Lookup1(n.target, m) == LastHandler(rs, path, m) && n.middlewares == MiddlewareOf(rs, path)
  {
    var p := Segments(path).value;
    if rs != [] {
      var before := rs[..|rs| - 1];
      var r := rs[|rs| - 1];
      TrieHolds(before, path, m);
      if Segments(r.path).Some? {
        CreateMeans(After(before), Segments(r.path).value, r.op, p);
        if Segments(r.path).value == p {
          SegmentsUnique(r.path, path);
        }
      }
    }
  }

  predicate Touches<H, M>(r: Registration<H, M>, p: Segs) {
    Segments(r.path).Some? && p <= Touched(Segments(r.path).value)
  }

  /** A node exists exactly when some registration, successful or not, went through it. */
  lemma {:induction false} TrieReaches<H, M>(rs: seq<Registration<H, M>>, p: Segs)
    requires p != []
    ensures NodeAt(After(rs), p).Some? <==> exists r <- rs :: Touches(r, p)
  {
    if rs != [] {
      var before := rs[..|rs| - 1];
      var r := rs[|rs| - 1];
      TrieReaches(before, p);
      assert (exists x <- rs :: Touches(x, p)) <==> (exists x <- before :: Touches(x, p)) || Touches(r, p) by {
        assert r in rs && forall x <- rs :: x == r || x in before;
      }
      if Segments(r.path).Some? {
        CreateReaches(After(before), Segments(r.path).value, r.op, p);
      }
    }
  }
}
