/** The router object (jsland/src/router.ts:58-194): registration methods and lookup, with what they
    promise about every sequence of registrations. */
module Router {
  import opened Paths
  import opened Sequences
  import opened Tuple
  import opened RouteTrie
  import opened RouteLookup

  /** The middleware lists of the collected nodes. */
  function ListsOf<H, M>(root: Node<H, M>, ps: seq<Segs>): seq<seq<M>> {
    seq(|ps|, i requires 0 <= i < |ps| => At(root, ps[i]).middlewares)
  }

  /** What a lookup gives back: a thrown error, null, or a route with its middleware, innermost first. */
  datatype Result<H, M> = Error | Null | Route(target: map<Method, H>, middleware: seq<seq<M>>)

  function ResultOf<H, M>(root: Node<H, M>, path: string): Result<H, M> {
    match Segments(path)
    case None => Error
    case Some(segs) =>
      match Walk(root, segs)
      case Threw => Error
      case Missing => Null
      case Hit(f) => Route(At(root, f.end).target, Reverse(ListsOf(root, f.collected)))
  }

  // The loop of `lookupChild`, seen from the root.

  function Under(here: Segs, ps: seq<Segs>): (r: seq<Segs>)
    ensures |r| == |ps| && forall i :: 0 <= i < |r| ==> r[i] == here + ps[i]
  {
    seq(|ps|, i requires 0 <= i < |ps| => here + ps[i])
  }

  function Lifted(here: Segs, done: seq<Segs>, l: Lookup): Lookup {
    match l
    case Hit(f) => Hit(Found(here + f.end, done + Under(here, f.collected)))
    case other => other
  }

  lemma LiftStep<H, M>(n: Node<H, M>, segs: Segs, here: Segs, done: seq<Segs>)
    requires segs != [] && !BadHead(segs) && Step(n, segs[0]).Some?
    ensures var key := Step(n, segs[0]).value;
            Lifted(here, done, Walk(n, segs))
              == Lifted(here + [key], done + Under(here, Directory(n) + Own(n, key)), Walk(n.children[key], segs[1..]))
  {
    var key := Step(n, segs[0]).value;
    var rest := Walk(n.children[key], segs[1..]);
    if rest.Hit? {
      var f := rest.found;
      assert here + ([key] + f.end) == here + [key] + f.end;
      var top := Directory(n) + Own(n, key);
      UnderConcat(here, top, key, f.collected);
      assert done + (Under(here, top) + Under(here + [key], f.collected))
          == done + Under(here, top) + Under(here + [key], f.collected);
    }
  }

  lemma UnderConcat(here: Segs, top: seq<Segs>, key: string, ps: seq<Segs>)
    ensures Under(here, top + Below(key, ps)) == Under(here, top) + Under(here + [key], ps)
  {
    forall i | 0 <= i < |ps| ensures here + ([key] + ps[i]) == here + [key] + ps[i] {
    }
  }

  lemma WalkOn<H, M>(root: Node<H, M>, n: Node<H, M>, here: Segs, done: seq<Segs>, segs: Segs, i: nat, key: string)
    requires i < |segs| && NodeAt(root, here) == Some(n) && Lifted(here, done, Walk(n, segs[i..])) == Walk(root, segs)
    requires !BadHead(segs[i..]) && Step(n, segs[i]) == Some(key)
    ensures NodeAt(root, here + [key]) == Some(n.children[key])
    ensures Lifted(here + [key], done + Under(here, Own(n, DIRECTORY)) + Under(here, Own(n, key)),
                   Walk(n.children[key], segs[i + 1..])) == Walk(root, segs)
  {
    assert segs[i..][1..] == segs[i + 1..];
    LiftStep(n, segs[i..], here, done);
    assert done + Under(here, Directory(n) + Own(n, key))
        == done + Under(here, Own(n, DIRECTORY)) + Under(here, Own(n, key));
    NodeAppend(root, here, [key]);
    NodeBelow(n, key, []);
  }

  lemma {:induction false} NodeAppend<H, M>(n: Node<H, M>, p: Segs, q: Segs)
    ensures NodeAt(n, p + q) == if NodeAt(n, p).Some? then NodeAt(NodeAt(n, p).value, q) else None
    decreases |p|
  {
    if p == [] {
      assert p + q == q;
    } else {
      assert (p + q)[1..] == p[1..] + q;
      if p[0] in n.children {
        NodeAppend(n.children[p[0]], p[1..], q);
      }
    }
  }

  lemma ListsAppend<H, M>(root: Node<H, M>, done: seq<Segs>, p: Segs)
    ensures ListsOf(root, done + [p]) == ListsOf(root, done) + [At(root, p).middlewares]
  {
  }

  class RouterImpl<H, M> {
    var root: Node<H, M>
    ghost var log: seq<Registration<H, M>>

    ghost predicate Valid()
      reads this
    {
      root == After(log)
    }

    constructor ()
      ensures Valid() && log == []
    {
      root, log := Empty(), [];
    }

    /** Walks down creating nodes and applies the operation at the end; false where it throws, with
        what was created by then left in place. */
    static method CreateBelow(n: Node<H, M>, segs: Segs, op: Op<H, M>) returns (n': Node<H, M>, ok: bool)
      ensures n' == Create(n, segs, op) && ok == WellFormed(segs)
      decreases |segs|
    {
      if segs == [] {
        return Apply(n, op), true;
      }
      WellFormedTail(segs);
      if segs[0] == "" && |segs| != 1 {
        return n, false;
      }
      var child := ChildOf(n, segs[0]);
      child, ok := CreateBelow(child, segs[1..], op);
      n' := n.(children := n.children[segs[0] := child]);
    }

    method CreateChild(path: string, op: Op<H, M>) returns (ok: bool)
      requires Valid()
      modifies this
      ensures Valid() && log == old(log) + [Registration(path, op)] && ok == Accepted(path)
    {
      log := log + [Registration(path, op)];
      assert log[..|log| - 1] == old(log);
      if path == [] || path[0] != '/' {
        return false;
      }
      root, ok := CreateBelow(root, Split(path[1..], '/'), op);
    }

    method Get(path: string, cb: H) returns (ok: bool)
      requires Valid()
      modifies this
      ensures Valid() && log == old(log) + [Registration(path, Handle({Method.Get}, cb))] && ok == Accepted(path)
    {
      ok := CreateChild(path, Handle({Method.Get}, cb));
    }

    method Head(path: string, cb: H) returns (ok: bool)
      requires Valid()
      modifies this
      ensures Valid() && log == old(log) + [Registration(path, Handle({Method.Head}, cb))] && ok == Accepted(path)
    {
      ok := CreateChild(path, Handle({Method.Head}, cb));
    }

    method Put(path: string, cb: H) returns (ok: bool)
      requires Valid()
      modifies this
      ensures Valid() && log == old(log) + [Registration(path, Handle({Method.Put}, cb))] && ok == Accepted(path)
    {
      ok := CreateChild(path, Handle({Method.Put}, cb));
    }

    method Post(path: string, cb: H) returns (ok: bool)
      requires Valid()
      modifies this
      ensures Valid() && log == old(log) + [Registration(path, Handle({Method.Post}, cb))] && ok == Accepted(path)
    {
      ok := CreateChild(path, Handle({Method.Post}, cb));
    }

    method Patch(path: string, cb: H) returns (ok: bool)
      requires Valid()
      modifies this
      ensures Valid() && log == old(log) + [Registration(path, Handle({Method.Patch}, cb))] && ok == Accepted(path)
    {
      ok := CreateChild(path, Handle({Method.Patch}, cb));
    }

    method Delete(path: string, cb: H) returns (ok: bool)
      requires Valid()
      modifies this
      ensures Valid() && log == old(log) + [Registration(path, Handle({Method.Delete}, cb))] && ok == Accepted(path)
    {
      ok := CreateChild(path, Handle({Method.Delete}, cb));
    }

    method Options(path: string, cb: H) returns (ok: bool)
      requires Valid()
      modifies this
      ensures Valid() && log == old(log) + [Registration(path, Handle({Method.Options}, cb))] && ok == Accepted(path)
    {
      ok := CreateChild(path, Handle({Method.Options}, cb));
    }

    /** All methods but HEAD. */
    method Any(path: string, cb: H) returns (ok: bool)
      requires Valid()
      modifies this
      ensures Valid() && ok == Accepted(path)
      ensures log == old(log) + [Registration(path, Handle(ANY, cb))] && forall m: Method :: m in ANY <==> m != Method.Head
    {
      ok := CreateChild(path, Handle(ANY, cb));
    }

    method Use(path: string, cb: M) returns (ok: bool)
      requires Valid()
      modifies this
      ensures Valid() && log == old(log) + [Registration(path, Op.Use(cb))] && ok == Accepted(path)
    {
      ok := CreateChild(path, Op.Use(cb));
    }

    method LookupChild(path: string) returns (r: Result<H, M>)
      requires Valid()
      ensures r == ResultOf(After(log), path)
    {
      if path == [] || path[0] != '/' {
        return Error;
      }
      var segs := Split(path[1..], '/');
      var n := root;
      var mw: seq<seq<M>> := [];
      ghost var here: Segs, done: seq<Segs> := [], [];
      assert Lifted([], [], Walk(root, segs)) == Walk(root, segs) by {
        LiftNothing(Walk(root, segs));
      }
      for i := 0 to |segs|
        invariant NodeAt(root, here) == Some(n) && mw == ListsOf(root, done)
        invariant Lifted(here, done, Walk(n, segs[i..])) == Walk(root, segs)
      {
        var seg := segs[i];
        assert segs[i..][0] == seg;
        if seg == "" && i + 1 != |segs| {
          return Error;
        }
        ghost var done0 := done;
        mw, done := Note(root, here, n, DIRECTORY, mw, done);
        if seg !in n.children && WILDCARD !in n.children {
          if DIRECTORY !in n.children {
            return Null;
          }
          EndAtDirectory(root, n, here, done0, segs, i);
          n := n.children[DIRECTORY];
          return Route(n.target, Reverse(mw));
        }
        var key := if seg in n.children then seg else WILDCARD;
        mw, done := Note(root, here, n, key, mw, done);
        WalkOn(root, n, here, done0, segs, i, key);
        n, here := n.children[key], here + [key];
      }
      assert here + [] == here && done + Under(here, []) == done;
      return Route(n.target, Reverse(mw));
    }

    /** Pushes the middleware of a child, if there is such a child and it has any. */
    static method Note(ghost root: Node<H, M>, ghost here: Segs, n: Node<H, M>, key: string,
                       mw: seq<seq<M>>, ghost done: seq<Segs>)
      returns (mw': seq<seq<M>>, ghost done': seq<Segs>)
      requires NodeAt(root, here) == Some(n) && mw == ListsOf(root, done)
      ensures mw' == ListsOf(root, done') && done' == done + Under(here, Own(n, key))
    {
      NodeAppend(root, here, [key]);
      NodeBelow(n, key, []);
      mw', done' := mw, done;
      if key in n.children && n.children[key].middlewares != [] {
        mw' := mw' + [n.children[key].middlewares];
        done' := done' + [here + [key]];
        ListsAppend(root, done, here + [key]);
      }
    }
  }

  const ANY := {Method.Get, Method.Put, Method.Post, Method.Patch, Method.Delete, Method.Options}

  lemma LiftNothing(l: Lookup)
    ensures Lifted([], [], l) == l
  {
    if l.Hit? {
      var f := l.found;
      assert [] + f.end == f.end;
      forall i | 0 <= i < |f.collected| ensures [] + f.collected[i] == f.collected[i] {
      }
      assert [] + Under([], f.collected) == f.collected;
    }
  }

  lemma EndAtDirectory<H, M>(root: Node<H, M>, n: Node<H, M>, here: Segs, done: seq<Segs>, segs: Segs, i: nat)
    requires i < |segs| && NodeAt(root, here) == Some(n) && Lifted(here, done, Walk(n, segs[i..])) == Walk(root, segs)
    requires !BadHead(segs[i..]) && Step(n, segs[i]).None? && DIRECTORY in n.children
    ensures Walk(root, segs) == Hit(Found(here + [DIRECTORY], done + Under(here, Own(n, DIRECTORY))))
    ensures NodeAt(root, here + [DIRECTORY]) == Some(n.children[DIRECTORY])
  {
    NodeAppend(root, here, [DIRECTORY]);
    NodeBelow(n, DIRECTORY, []);
  }
}
