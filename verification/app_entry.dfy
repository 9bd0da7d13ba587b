/** Serving a request (jsland/src/index.ts:58-69, 83-102): picking the handler of a route and folding
    its middleware around it. */
module AppEntry {
  import opened Paths
  import opened Sequences
  import opened Tuple
  import opened RouteTrie
  import opened RouteLookup
  import opened Router
  import opened Routes

  /** The closure `handleFunc` after some rounds of wrapping. */
  datatype Chain<H, M> = Innermost(handler: H) | Wrapped(middleware: M, inner: Chain<H, M>)

  /** The order in which a request meets the middleware when each calls its inner handler. */
  function Order<H, M>(c: Chain<H, M>): seq<M> {
    match c
    case Innermost(_) => []
    case Wrapped(m, inner) => [m] + Order(inner)
  }

  function HandlerOf<H, M>(c: Chain<H, M>): H {
    match c
    case Innermost(h) => h
    case Wrapped(_, inner) => HandlerOf(inner)
  }

  /** Lists from the root down, the latest registration of each first. */
  function RootToLeaf<M>(lists: seq<seq<M>>): seq<M> {
    if lists == [] then [] else Reverse(lists[0]) + RootToLeaf(lists[1..])
  }

  /** The same from lists given leaf first, as a lookup gives them. */
  function LeafFirst<M>(mw: seq<seq<M>>): seq<M> {
    if mw == [] then [] else Reverse(mw[|mw| - 1]) + LeafFirst(mw[..|mw| - 1])
  }

  lemma {:induction false} LeafFirstOfReverse<M>(lists: seq<seq<M>>)
    ensures LeafFirst(Reverse(lists)) == RootToLeaf(lists)
  {
    if lists != [] {
      LeafFirstOfReverse(lists[1..]);
      var r := Reverse(lists);
      assert r[|r| - 1] == lists[0] && r[..|r| - 1] == Reverse(lists[1..]);
    }
  }

  lemma WrapStep<H, M>(c: Chain<H, M>, m: M, done: seq<M>, base: seq<M>)
    requires Order(c) == Reverse(done) + base
    ensures Order(Wrapped(m, c)) == Reverse(done + [m]) + base
  {
    ReverseSnoc(done, m);
    assert [m] + (Reverse(done) + base) == [m] + Reverse(done) + base;
  }

  method WrapAll<H, M>(handler: Chain<H, M>, ms: seq<M>) returns (c: Chain<H, M>)
    ensures HandlerOf(c) == HandlerOf(handler) && Order(c) == Reverse(ms) + Order(handler)
  {
    c := handler;
    ghost var base := Order(handler);
    ghost var done: seq<M> := [];
    for j := 0 to |ms|
      invariant done == ms[..j] && HandlerOf(c) == HandlerOf(handler)
      invariant Order(c) == Reverse(done) + base
    {
      WrapStep(c, ms[j], done, base);
      c, done := Wrapped(ms[j], c), done + [ms[j]];
    }
    assert done == ms;
  }

  /** The nested loops of the entry point. */
  method Fold<H, M>(handler: H, mw: seq<seq<M>>) returns (c: Chain<H, M>)
    ensures HandlerOf(c) == handler && Order(c) == LeafFirst(mw)
  {
    c := Innermost(handler);
    for i := 0 to |mw|
      invariant HandlerOf(c) == handler && Order(c) == LeafFirst(mw[..i])
    {
      assert mw[..i + 1][..i] == mw[..i];
      c := WrapAll(c, mw[i]);
    }
    assert mw[..|mw|] == mw;
  }

  /** HEAD falls back on GET. */
  function Pick<H>(target: map<Method, H>, m: Method): Option<H> {
    if m == Head && Head !in target then Lookup1(target, Get) else Lookup1(target, m)
  }

  datatype Served<H, M> = Failed | NotFound | Handled(chain: Chain<H, M>)

  /** What a request gets, in terms of the trie: nothing, or the picked handler inside the collected
      middleware, root first and latest first within a node. */
  ghost predicate Serves<H, M>(rs: seq<Registration<H, M>>, path: string, m: Method, s: Served<H, M>) {
    var root := After(rs);
    if Segments(path).None? then s == Failed
    else
      match Walk(root, Segments(path).value)
      case Threw => s == Failed
      case Missing => s == NotFound
      case Hit(f) =>
        match Pick(At(root, f.end).target, m)
        case None => s == NotFound
        case Some(h) =>
          s.Handled? && HandlerOf(s.chain) == h && Order(s.chain) == RootToLeaf(ListsOf(root, f.collected))
  }

  method Serve<H, M>(router: RouterImpl<H, M>, path: string, m: Method) returns (s: Served<H, M>)
    requires router.Valid()
    ensures Serves(router.log, path, m, s)
  {
    var r := router.LookupChild(path);
    match r {
      case Error => s := Failed;
      case Null => s := NotFound;
      case Route(target, mw) =>
        var h := Pick(target, m);
        if h.None? {
          s := NotFound;
        } else {
          ghost var lists := ListsOf(After(router.log), Walk(After(router.log), Segments(path).value).found.collected);
          LeafFirstOfReverse(lists);
          var c := Fold(h.value, mw);
          s := Handled(c);
        }
    }
  }

  /** Which handler answers a path that some registration went through: the one registered last for
      exactly this path and method; for HEAD, GET's if there is none of its own. */
  lemma ServesMethod<H, M>(rs: seq<Registration<H, M>>, r: Registration<H, M>, path: string, m: Method, s: Served<H, M>)
    requires r in rs && Accepted(path) && Touches(r, Segments(path).value) && Serves(rs, path, m, s)
    ensures var own, get := LastHandler(rs, path, m), LastHandler(rs, path, Get);
            var want := if own.None? && m == Head then get else own;
            if want.None? then s == NotFound else s.Handled? && HandlerOf(s.chain) == want.value
  {
    LookupTouched(rs, r, path, m);
    LookupTouched(rs, r, path, Get);
  }

  /** In particular a registered path. */
  lemma ServesRegistered<H, M>(rs: seq<Registration<H, M>>, r: Registration<H, M>, m: Method, s: Served<H, M>)
    requires r in rs && Accepted(r.path) && Serves(rs, r.path, m, s)
    ensures m != Head ==>
              match LastHandler(rs, r.path, m)
              case Some(h) => s.Handled? && HandlerOf(s.chain) == h
              case None => s == NotFound
    ensures m == Head ==>
              match (LastHandler(rs, r.path, Head), LastHandler(rs, r.path, Get))
              case (Some(h), _) => s.Handled? && HandlerOf(s.chain) == h
              case (None, Some(g)) => s.Handled? && HandlerOf(s.chain) == g
              case (None, None) => s == NotFound
  {
    TouchesAll(Segments(r.path).value);
    assert Touches(r, Segments(r.path).value);
    ServesMethod(rs, r, r.path, m, s);
  }

  /** For a path without a trailing slash each collected node counts once, and what it adds is the
      middleware registered for its own path, latest first. */
  lemma EachMiddlewareOnce<H, M>(rs: seq<Registration<H, M>>, segs: Segs)
    requires Walk(After(rs), segs).Hit? && NoTrailingSlash(segs)
    ensures Distinct(Walk(After(rs), segs).found.collected)
  {
    if Doubled(After(rs), segs) {
      DoubledNeedsSlash(After(rs), segs);
    }
    CollectedOnce(After(rs), segs);
  }

  lemma CollectedAreRegistered<H, M>(rs: seq<Registration<H, M>>, path: string, p: Segs)
    requires Accepted(path) && Segments(path).value == p
    ensures ListsOf(After(rs), [p]) == [MiddlewareOf(rs, path)]
  {
    TrieHolds(rs, path, Get);
  }

  // A directory's middleware runs twice for its own path.

  lemma CreateDirectory<H, M>(n: Node<H, M>, op: Op<H, M>)
    ensures Create(n, [DIRECTORY], op) == n.(children := n.children[DIRECTORY := Apply(ChildOf(n, DIRECTORY), op)])
  {
    assert [DIRECTORY][1..] == [];
  }

  lemma ReverseOne<T>(x: T)
    ensures Reverse([x]) == [x]
  {
    assert [x][1..] == [];
  }

  lemma TwoLists<M>(mw: M)
    ensures RootToLeaf([[mw], [mw]]) == [mw, mw]
  {
    ReverseOne(mw);
    assert [[mw], [mw]][1..] == [[mw]] && [[mw]][1..] == [];
    assert RootToLeaf([[mw]]) == [mw] + [];
  }

  /** The root of a router where "/" has one middleware and one handler. */
  function SlashRoot<H, M>(h: H, mw: M): Node<H, M> {
    Node(map[], map[DIRECTORY := Node(map[Get := h], map[], [mw])], [])
  }

  lemma SlashAfter<H, M>(h: H, mw: M)
    ensures After([Registration("/", Op.Use(mw)), Registration("/", Handle({Get}, h))]) == SlashRoot(h, mw)
  {
    var r0: Registration<H, M> := Registration("/", Op.Use(mw));
    var r1: Registration<H, M> := Registration("/", Handle({Get}, h));
    var none: seq<Registration<H, M>> := [];
    assert [r0, r1][..1] == [r0] && [r0][..0] == none;
    assert Segments("/") == Some([DIRECTORY]);
    var n0: Node<H, M> := Node(map[], map[DIRECTORY := Node(map[], map[], [mw])], []);
    CreateDirectory(After(none), r0.op);
    assert After([r0]) == Register(After(none), r0);
    assert Apply(Empty<H, M>(), r0.op).middlewares == [mw];
    assert After([r0]) == n0;
    CreateDirectory(n0, r1.op);
    assert Apply(ChildOf(n0, DIRECTORY), r1.op).target == map[Get := h];
  }

  lemma SlashRunsTwice<H, M>(h: H, mw: M, s: Served<H, M>)
    requires Serves([Registration("/", Op.Use(mw)), Registration("/", Handle({Get}, h))], "/", Get, s)
    ensures s.Handled? && Order(s.chain) == [mw, mw]
  {
    SlashAfter(h, mw);
    assert Segments("/") == Some([DIRECTORY]);
    SlashWalk(h, mw);
    TwoLists(mw);
  }

  lemma SlashWalk<H, M>(h: H, mw: M)
    ensures Walk(SlashRoot(h, mw), [DIRECTORY]) == Hit(Found([DIRECTORY], [[DIRECTORY], [DIRECTORY]]))
    ensures ListsOf(SlashRoot(h, mw), [[DIRECTORY], [DIRECTORY]]) == [[mw], [mw]]
    ensures At(SlashRoot(h, mw), [DIRECTORY]).target == map[Get := h]
  {
    var root: Node<H, M> := SlashRoot(h, mw);
    NodeBelow(root, DIRECTORY, []);
    assert [DIRECTORY] + [] == [DIRECTORY] && [DIRECTORY][1..] == [];
    assert Below(DIRECTORY, []) == [];
    assert Directory(root) + Own(root, DIRECTORY) + [] == [[DIRECTORY], [DIRECTORY]];
  }
}
