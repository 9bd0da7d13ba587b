/** Paths of the key-value store and the FoundationDB keys they are packed to
    (src/mds/mod.rs). A Rust `str` is modelled as its UTF-8 bytes. */
module UserKeys {
  import opened Bytes
  import opened Paths
  import opened Tuple
  import Utf8

  const SLASH: Byte := 0x2F

  const NON_EMPTY: Bytes -> bool := s => s != []

  /** A cluster's own prefix and the prefix of a namespace in it. */
  datatype Namespace = Namespace(cluster: Bytes, prefix: Bytes)

  /** The non-empty pieces of a path. */
  function Segments(path: Bytes): seq<Bytes> {
    Filter(Split(path, SLASH), NON_EMPTY)
  }

  function Root(ns: Namespace): seq<Bytes> {
    [ns.cluster] + Segments(ns.prefix)
  }

  function KeyOf(ns: Namespace, segs: seq<Bytes>): Bytes {
    Pack(Root(ns) + segs)
  }

  function PackUserKey(ns: Namespace, path: Bytes): Bytes {
    KeyOf(ns, Segments(path))
  }

  function StripPrefix(s: Bytes, prefix: Bytes): Option<Bytes> {
    if prefix <= s then Some(s[|prefix|..]) else None
  }

  function UnpackUserKey(ns: Namespace, key: Bytes): Option<Bytes> {
    match StripPrefix(key, Pack(Root(ns)))
    case None => None
    case Some(rest) =>
      match Unpack(rest)
      case None => None
      case Some(segs) => Some(Join(segs, SLASH))
  }

  /** The lists `Segments` yields for valid paths. */
  predicate ProperSegments(segs: seq<Bytes>) {
    SepFree(segs, SLASH) && forall s <- segs :: s != [] && Utf8.Valid(s)
  }

  predicate Canonical(path: Bytes) {
    path == Join(Segments(path), SLASH)
  }

  lemma SegmentsProper(path: Bytes)
    requires Utf8.Valid(path)
    ensures ProperSegments(Segments(path))
  {
    SplitSepFree(path, SLASH);
    JoinSplit(path, SLASH);
    Utf8.ValidJoin(Split(path, SLASH), SLASH);
  }

  lemma SegmentsOfJoin(segs: seq<Bytes>)
    requires ProperSegments(segs)
    ensures Segments(Join(segs, SLASH)) == segs
  {
    FilterSplitJoin(segs, SLASH, NON_EMPTY);
  }

  lemma SegmentsOfConcat(a: Bytes, b: Bytes)
    ensures Segments(a + [SLASH] + b) == Segments(a) + Segments(b)
  {
    SplitConcat(a, SLASH, b);
    FilterConcat(Split(a, SLASH), Split(b, SLASH), NON_EMPTY);
  }

  /** Unpacking a packed path gives its non-empty segments joined by slashes, for every valid path
      and every namespace, escaped NUL bytes included. */
  lemma UnpackOfPackUserKey(ns: Namespace, path: Bytes)
    requires Utf8.Valid(path)
    ensures UnpackUserKey(ns, PackUserKey(ns, path)) == Some(Join(Segments(path), SLASH))
  {
    SegmentsProper(path);
    UnpackOfKey(ns, Segments(path));
  }

  lemma UnpackOfKey(ns: Namespace, segs: seq<Bytes>)
    requires forall s <- segs :: Utf8.Valid(s)
    ensures UnpackUserKey(ns, KeyOf(ns, segs)) == Some(Join(segs, SLASH))
  {
    PackConcat(Root(ns), segs);
    UnpackOfPack(segs);
    assert KeyOf(ns, segs)[|Pack(Root(ns))|..] == Pack(segs);
  }

  /** The result is canonical and repacks to the same key. */
  lemma UnpackedRepacks(ns: Namespace, path: Bytes)
    requires Utf8.Valid(path)
    ensures var back := UnpackUserKey(ns, PackUserKey(ns, path));
            back.Some? && Canonical(back.value) && PackUserKey(ns, back.value) == PackUserKey(ns, path)
  {
    UnpackOfPackUserKey(ns, path);
    SegmentsProper(path);
    SegmentsOfJoin(Segments(path));
  }

  lemma {:induction false} SegmentsLtCancel(p: seq<Bytes>, xs: seq<Bytes>, ys: seq<Bytes>)
    ensures SegmentsLt(p + xs, p + ys) == SegmentsLt(xs, ys)
  {
    if p == [] {
      assert p + xs == xs && p + ys == ys;
    } else {
      assert (p + xs)[1..] == p[1..] + xs && (p + ys)[1..] == p[1..] + ys;
      LtIrreflexive(p[0]);
      SegmentsLtCancel(p[1..], xs, ys);
    }
  }

  /** Keys of one namespace are ordered as the segment lists of their paths, and two paths share a
      key exactly when they differ in empty segments only. */
  lemma KeysOrderedAsPaths(ns: Namespace, p: Bytes, q: Bytes)
    ensures Lt(PackUserKey(ns, p), PackUserKey(ns, q)) <==> SegmentsLt(Segments(p), Segments(q))
    ensures PackUserKey(ns, p) == PackUserKey(ns, q) <==> Segments(p) == Segments(q)
  {
    PackOrder(Root(ns) + Segments(p), Root(ns) + Segments(q));
    SegmentsLtCancel(Root(ns), Segments(p), Segments(q));
    if PackUserKey(ns, p) == PackUserKey(ns, q) {
      PackInjective(Root(ns) + Segments(p), Root(ns) + Segments(q));
      assert (Root(ns) + Segments(p))[|Root(ns)|..] == Segments(p);
      assert (Root(ns) + Segments(q))[|Root(ns)|..] == Segments(q);
    }
  }

  lemma {:induction false} DroppingSegmentsShortens(xs: seq<Bytes>)
    ensures |Join(Filter(xs, NON_EMPTY), SLASH)| <= |Join(xs, SLASH)|
  {
    if xs != [] {
      DroppingSegmentsShortens(xs[1..]);
      var r := Filter(xs[1..], NON_EMPTY);
      if xs[0] == [] {
        assert Filter(xs, NON_EMPTY) == r;
      } else {
        assert Filter(xs, NON_EMPTY) == [xs[0]] + r;
        assert ([xs[0]] + r)[1..] == r;
      }
    }
  }

  lemma CanonicalIsShorter(path: Bytes)
    ensures |Join(Segments(path), SLASH)| <= |path|
  {
    DroppingSegmentsShortens(Split(path, SLASH));
    JoinSplit(path, SLASH);
  }

  /** What a path's segments are: slashes separate them, and empty ones do not count. With
      `SegmentsOfConcat` this fixes the segments of every path. */
  lemma SegmentsMean(a: Bytes, b: Bytes, x: Bytes)
    ensures Segments(a + [0x2F] + b) == Segments(a) + Segments(b)
    ensures 0x2F !in x ==> Segments(x) == if x == [] then [] else [x]
  {
    SegmentsOfConcat(a, b);
    if SLASH !in x {
      SplitPiece(x, SLASH);
      assert Filter([x][1..], NON_EMPTY) == [];
    }
  }

  /** Keys of two namespaces are the same exactly when the clusters are, and the prefix and the path
      have the same segments taken together. */
  lemma KeysApart(ns: Namespace, p: Bytes, ns': Namespace, p': Bytes)
    ensures PackUserKey(ns, p) == PackUserKey(ns', p')
       <==> ns.cluster == ns'.cluster && Segments(ns.prefix) + Segments(p) == Segments(ns'.prefix) + Segments(p')
  {
    var xs, ys := Root(ns) + Segments(p), Root(ns') + Segments(p');
    assert xs == [ns.cluster] + (Segments(ns.prefix) + Segments(p));
    assert ys == [ns'.cluster] + (Segments(ns'.prefix) + Segments(p'));
    if PackUserKey(ns, p) == PackUserKey(ns', p') {
      PackInjective(xs, ys);
      assert xs[0] == ys[0] && xs[1..] == ys[1..];
    }
  }

  /** Neither prefix begins the other: then no path of the one shares a key with a path of the other. */
  lemma NamespacesApart(ns: Namespace, p: Bytes, ns': Namespace, p': Bytes)
    requires ns.cluster != ns'.cluster
          || !(Segments(ns.prefix) <= Segments(ns'.prefix) || Segments(ns'.prefix) <= Segments(ns.prefix))
    ensures PackUserKey(ns, p) != PackUserKey(ns', p')
  {
    KeysApart(ns, p, ns', p');
    var a, b := Segments(ns.prefix), Segments(ns'.prefix);
    if a + Segments(p) == b + Segments(p') {
      assert (a + Segments(p))[..|a|] == a && (b + Segments(p'))[..|b|] == b;
      assert |a| <= |b| ==> a <= b;
      assert |b| <= |a| ==> b <= a;
    }
  }

  /** A key unpacks below a namespace only if it was packed below that namespace's cluster and prefix. */
  lemma UnpacksOnlyOwn(ns: Namespace, segs: seq<Bytes>)
    requires UnpackUserKey(ns, Pack(segs)).Some?
    ensures [ns.cluster] + Segments(ns.prefix) <= segs
    ensures UnpackUserKey(ns, Pack(segs)) == Some(Join(segs[1 + |Segments(ns.prefix)|..], SLASH))
  {
    var root := [ns.cluster] + Segments(ns.prefix);
    var rest := Pack(segs)[|Pack(Root(ns))|..];
    assert Pack(segs) == Pack(Root(ns)) + rest;
    PackOfUnpack(rest);
    PackConcat(Root(ns), Unpack(rest).value);
    PackInjective(segs, Root(ns) + Unpack(rest).value);
    assert segs == root + Unpack(rest).value;
    assert segs[|root|..] == Unpack(rest).value;
  }

  lemma PrefixTail(x: Bytes, xs: seq<Bytes>, y: Bytes, ys: seq<Bytes>)
    requires [x] + xs <= [y] + ys
    ensures x == y && xs <= ys
  {
    assert ([x] + xs)[0] == ([y] + ys)[0];
    forall i | 0 <= i < |xs| ensures xs[i] == ys[i] {
      assert ([x] + xs)[i + 1] == ([y] + ys)[i + 1];
    }
  }

  /** So a path of another namespace is seen through this one only where it lies below it. */
  lemma SeesOnlyOwn(ns: Namespace, ns': Namespace, path: Bytes)
    requires UnpackUserKey(ns, PackUserKey(ns', path)).Some?
    ensures ns.cluster == ns'.cluster && Segments(ns.prefix) <= Segments(ns'.prefix) + Segments(path)
  {
    var segs := [ns'.cluster] + (Segments(ns'.prefix) + Segments(path));
    assert segs == Root(ns') + Segments(path);
    UnpacksOnlyOwn(ns, segs);
    PrefixTail(ns.cluster, Segments(ns.prefix), ns'.cluster, Segments(ns'.prefix) + Segments(path));
  }
}
