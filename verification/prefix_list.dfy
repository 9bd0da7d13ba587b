/** Listing the keys under a path prefix, a page at a time (`KvPrefixListRequest::handle`,
    src/api/kv/mod.rs). */
module PrefixList {
  import opened Bytes
  import opened Paths
  import opened Tuple
  import opened UserKeys
  import opened Fdb
  import Utf8

  datatype Request = Request(prefix: Bytes, reverse: bool, limit: nat, cursor: Option<Bytes>)

  /** The segments a listing starts after: those of the prefix followed by the cursor's. */
  function CursorSegments(req: Request): seq<Bytes>
    requires req.cursor.Some?
  {
    Segments(req.prefix) + Segments(req.cursor.value)
  }

  /** The cluster's packed keys a request may see: those whose segments extend the prefix's and
      which lie strictly beyond the cursor. */
  predicate Wanted(ns: Namespace, req: Request, segs: seq<Bytes>) {
    && Root(ns) + Segments(req.prefix) <= segs
    && (req.cursor.Some? ==>
          var c := Root(ns) + CursorSegments(req);
          if req.reverse then SegmentsLt(segs, c) else SegmentsLt(c, segs))
  }

  lemma ExtensionOrder(p: seq<Bytes>, segs: seq<Bytes>)
    ensures p <= segs <==> InRange(Pack(segs), Pack(p), Pack(p) + [ESCAPE])
  {
    var k := Pack(segs);
    PackPrefix(p, segs);
    assert Pack(p) + [] == Pack(p);
    PrefixRange(Pack(p), [], [ESCAPE], k);
    if Pack(p) <= k {
      CleanIsBelowEscape(k[|Pack(p)|..]);
    }
  }

  /** Nothing lies between a key and that key followed by a zero byte. */
  lemma {:induction false} JustAfter(c: Bytes, k: Bytes)
    ensures Le(c + [0], k) <==> Lt(c, k)
  {
    if c == [] {
      assert c + [0] == [0] && [0][1..] == [];
      if k != [] {
        assert k == [k[0]] + k[1..];
        assert Lt([0], k) <==> k[0] > 0 || k[1..] != [];
      }
    } else if k != [] && k[0] == c[0] {
      assert (c + [0])[1..] == c[1..] + [0];
      assert k == [k[0]] + k[1..];
      JustAfter(c[1..], k[1..]);
      assert c + [0] == k <==> c[1..] + [0] == k[1..];
    }
  }

  /** The range set-up of the handler. A key packed from any segment list of the cluster falls in
      the range exactly when it is wanted. */
  method SetUpRange(ns: Namespace, req: Request) returns (lo: Bytes, hi: Bytes)
    ensures (lo, hi) == RangeOf(ns, req)
    ensures forall segs: seq<Bytes> :: InRange(Pack(segs), lo, hi) <==> Wanted(ns, req, segs)
  {
    lo := PackUserKey(ns, req.prefix);
    hi := lo + [0xFF];
    if req.cursor.Some? {
      var fullCursor := PackUserKey(ns, req.prefix + [SLASH] + req.cursor.value);
      if req.reverse {
        hi := fullCursor;
      } else {
        fullCursor := fullCursor + [0];
        lo := fullCursor;
      }
    }
    forall segs: seq<Bytes> ensures InRange(Pack(segs), lo, hi) <==> Wanted(ns, req, segs) {
      RangeIsWanted(ns, req, segs);
    }
  }

  function RangeOf(ns: Namespace, req: Request): (Bytes, Bytes) {
    var p := PackUserKey(ns, req.prefix);
    if req.cursor.None? then (p, p + [0xFF])
    else
      var c := PackUserKey(ns, req.prefix + [SLASH] + req.cursor.value);
      if req.reverse then (p, c) else (c + [0], p + [0xFF])
  }

  lemma RangeIsWanted(ns: Namespace, req: Request, segs: seq<Bytes>)
    ensures var (lo, hi) := RangeOf(ns, req); InRange(Pack(segs), lo, hi) <==> Wanted(ns, req, segs)
  {
    var p := Root(ns) + Segments(req.prefix);
    var k := Pack(segs);
    ExtensionOrder(p, segs);
    if req.cursor.Some? {
      SegmentsOfConcat(req.prefix, req.cursor.value);
      var c := Root(ns) + CursorSegments(req);
      assert p <= c;
      ExtensionOrder(p, c);
      PackOrder(c, segs);
      PackOrder(segs, c);
      JustAfter(Pack(c), k);
      if Lt(Pack(c), k) && Lt(Pack(p), Pack(c)) {
        LtTransitive(Pack(p), Pack(c), k);
      }
      if Lt(k, Pack(c)) {
        LtTransitive(k, Pack(c), Pack(p) + [ESCAPE]);
      }
    }
  }

  function TrimSlashes(s: Bytes): Bytes {
    if s != [] && s[0] == SLASH then TrimSlashes(s[1..]) else s
  }

  /** The path reported for a row: relative to the prefix, or None when the row is dropped. */
  function Relative(ns: Namespace, prefix: Bytes, key: Bytes): Option<Bytes> {
    match UnpackUserKey(ns, key)
    case None => None
    case Some(path) =>
      match StripPrefix(path, prefix)
      case None => None
      case Some(rest) => Some(TrimSlashes(rest))
  }

  /** The rows of a page as the caller sees them. */
  function Respond(ns: Namespace, prefix: Bytes, store: Store, rows: seq<Bytes>): seq<(Bytes, Bytes)>
    requires forall k <- rows :: k in store
  {
    if rows == [] then []
    else
      (match Relative(ns, prefix, rows[0])
       case None => []
       case Some(path) => [(path, store[rows[0]])])
      + Respond(ns, prefix, store, rows[1..])
  }

  /** The key behind a reported path. */
  function KeyBehind(ns: Namespace, prefix: Bytes, path: Bytes): Bytes {
    PackUserKey(ns, prefix + [SLASH] + path)
  }

  lemma StripCanonical(p: seq<Bytes>, rest: seq<Bytes>)
    requires ProperSegments(rest)
    ensures var path := StripPrefix(Join(p + rest, SLASH), Join(p, SLASH));
            path.Some? && TrimSlashes(path.value) == Join(rest, SLASH)
  {
    if rest != [] {
      assert rest[0] in rest;
      assert Join(rest, SLASH)[0] == rest[0][0];
    }
    assert TrimSlashes(Join(rest, SLASH)) == Join(rest, SLASH);
    if p == [] {
      assert p + rest == rest;
    } else if rest == [] {
      assert p + rest == p;
    } else {
      JoinConcat(p, rest, SLASH);
      assert ([SLASH] + Join(rest, SLASH))[1..] == Join(rest, SLASH);
      assert Join(p + rest, SLASH)[|Join(p, SLASH)|..] == [SLASH] + Join(rest, SLASH);
    }
  }

  /** Under a canonical prefix a path key is reported by its remaining segments, and appending
      them to the prefix packs to the same key again. */
  lemma RelativeRepacks(ns: Namespace, prefix: Bytes, rest: seq<Bytes>)
    requires Canonical(prefix) && ProperSegments(Segments(prefix)) && ProperSegments(rest)
    ensures Relative(ns, prefix, KeyOf(ns, Segments(prefix) + rest)) == Some(Join(rest, SLASH))
    ensures KeyBehind(ns, prefix, Join(rest, SLASH)) == KeyOf(ns, Segments(prefix) + rest)
  {
    UnpackOfKey(ns, Segments(prefix) + rest);
    StripCanonical(Segments(prefix), rest);
    SegmentsOfConcat(prefix, Join(rest, SLASH));
    SegmentsOfJoin(rest);
  }

  /** Stripping the raw prefix keeps every key under it exactly when the prefix is canonical. */
  lemma KeepsAllIffCanonical(ns: Namespace, prefix: Bytes)
    requires Utf8.Valid(prefix)
    ensures (forall rest | ProperSegments(rest) ::
               Relative(ns, prefix, KeyOf(ns, Segments(prefix) + rest)).Some?)
            <==> Canonical(prefix)
  {
    SegmentsProper(prefix);
    if Canonical(prefix) {
      forall rest | ProperSegments(rest)
        ensures Relative(ns, prefix, KeyOf(ns, Segments(prefix) + rest)).Some?
      {
        RelativeRepacks(ns, prefix, rest);
      }
    } else {
      var rest: seq<Bytes> := [];
      assert Segments(prefix) + rest == Segments(prefix);
      UnpackOfKey(ns, Segments(prefix));
      CanonicalIsShorter(prefix);
      assert ProperSegments(rest) && Relative(ns, prefix, KeyOf(ns, Segments(prefix) + rest)).None?;
    }
  }

  // Paging. The caller asks again with the last path it got, until a page comes back empty. The
  // store may change between pages. A row under the prefix that does not unpack, as a versionstamped
  // one, is read but not reported, and a page of such rows alone comes back empty.

  datatype Page = Page(store: Store, rows: seq<Bytes>)

  ghost predicate IsPathKey(ns: Namespace, key: Bytes) {
    exists segs :: ProperSegments(segs) && key == KeyOf(ns, segs)
  }

  /** Everything under the prefix that unpacks is a path key. It holds of every store that the
      key-value requests leave: `ListingRuns.VersionsAreListable`. */
  ghost predicate Listable(ns: Namespace, prefix: Bytes, store: Store) {
    forall k <- store ::
      InRange(k, PackUserKey(ns, prefix), PackUserKey(ns, prefix) + [0xFF]) && UnpackUserKey(ns, k).Some? ==> IsPathKey(ns, k)
  }

  ghost predicate AllListable(ns: Namespace, prefix: Bytes, pages: seq<Page>) {
    forall page <- pages :: Listable(ns, prefix, page.store)
  }

  predicate Requested(ns: Namespace, req: Request, k: Bytes) {
    InRange(k, RangeOf(ns, req).0, RangeOf(ns, req).1)
  }

  ghost predicate AnswersPage(ns: Namespace, req: Request, page: Page) {
    IsBatch(page.store, RangeOf(ns, req).0, RangeOf(ns, req).1, req.reverse, req.limit, page.rows)
  }

  function Answer(ns: Namespace, req: Request, page: Page): seq<(Bytes, Bytes)>
    requires forall k <- page.rows :: k in page.store
  {
    Respond(ns, req.prefix, page.store, page.rows)
  }

  /** The request for the page after one that reported `out`. */
  function Next(req: Request, out: seq<(Bytes, Bytes)>): Request
    requires out != []
  {
    req.(cursor := Some(out[|out| - 1].0))
  }

  /** A scan from a cursor to its empty page. */
  ghost predicate Scan(ns: Namespace, req: Request, pages: seq<Page>)
    decreases |pages|
  {
    && pages != []
    && AnswersPage(ns, req, pages[0])
    && var out := Answer(ns, req, pages[0]);
       if out == [] then |pages| == 1 else Scan(ns, Next(req, out), pages[1..])
  }

  /** All paths a scan reports, in order. */
  ghost function Reported(ns: Namespace, req: Request, pages: seq<Page>): seq<(Bytes, Bytes)>
    requires Scan(ns, req, pages)
    decreases |pages|
  {
    var out := Answer(ns, req, pages[0]);
    if out == [] then [] else out + Reported(ns, Next(req, out), pages[1..])
  }

  ghost predicate ListingRequest(req: Request) {
    Canonical(req.prefix) && Utf8.Valid(req.prefix) && req.limit >= 1
  }

  lemma RangeWithinPrefix(ns: Namespace, req: Request, k: Bytes)
    requires Requested(ns, req, k)
    ensures InRange(k, PackUserKey(ns, req.prefix), PackUserKey(ns, req.prefix) + [0xFF])
  {
    if req.cursor.Some? {
      var p := Root(ns) + Segments(req.prefix);
      SegmentsOfConcat(req.prefix, req.cursor.value);
      var c := Root(ns) + CursorSegments(req);
      assert p <= c;
      ExtensionOrder(p, c);
      if req.reverse {
        LtTransitive(k, Pack(c), Pack(p) + [ESCAPE]);
      } else {
        JustAfter(Pack(c), k);
        if Lt(Pack(p), Pack(c)) {
          LtTransitive(Pack(p), Pack(c), k);
        }
      }
    }
  }

  /** What a reported entry says about its row. */
  predicate Stands(ns: Namespace, prefix: Bytes, store: Store, row: Bytes, entry: (Bytes, Bytes)) {
    && Relative(ns, prefix, row) == Some(entry.0)
    && KeyBehind(ns, prefix, entry.0) == row
    && Lookup(store, row) == Some(entry.1)
  }

  /** A path key of the range is reported, and the path reported for it leads back to it. */
  lemma PathKeyIsReported(ns: Namespace, req: Request, k: Bytes) returns (path: Bytes)
    requires ListingRequest(req) && Requested(ns, req, k) && IsPathKey(ns, k)
    ensures Relative(ns, req.prefix, k) == Some(path) && KeyBehind(ns, req.prefix, path) == k
  {
    RangeWithinPrefix(ns, req, k);
    var segs :| ProperSegments(segs) && k == KeyOf(ns, segs);
    RangeIsWanted(ns, req, Root(ns) + segs);
    var p := Segments(req.prefix);
    assert Root(ns) + p <= Root(ns) + segs;
    assert p == segs[..|p|] by {
      assert (Root(ns) + segs)[|Root(ns)|..] == segs;
      assert (Root(ns) + p)[|Root(ns)|..] == p;
    }
    var rest := segs[|p|..];
    assert segs == p + rest;
    assert forall s <- rest :: s in segs;
    SegmentsProper(req.prefix);
    RelativeRepacks(ns, req.prefix, rest);
    path := Join(rest, SLASH);
  }

  /** A row of the range is reported exactly when it is a path key. */
  lemma RowStands(ns: Namespace, req: Request, store: Store, k: Bytes)
    requires ListingRequest(req) && Listable(ns, req.prefix, store) && k in store && Requested(ns, req, k)
    ensures Relative(ns, req.prefix, k).Some? <==> IsPathKey(ns, k)
    ensures IsPathKey(ns, k) ==> Stands(ns, req.prefix, store, k, (Relative(ns, req.prefix, k).value, store[k]))
  {
    RangeWithinPrefix(ns, req, k);
    if IsPathKey(ns, k) {
      var path := PathKeyIsReported(ns, req, k);
    }
  }

  /** The keys behind a list of reported paths. */
  function KeysBehind(ns: Namespace, prefix: Bytes, out: seq<(Bytes, Bytes)>): (ks: seq<Bytes>)
    ensures |ks| == |out| && forall i :: 0 <= i < |ks| ==> ks[i] == KeyBehind(ns, prefix, out[i].0)
  {
    seq(|out|, i requires 0 <= i < |out| => KeyBehind(ns, prefix, out[i].0))
  }

  /** The rows of a page that are not dropped. */
  function Kept(ns: Namespace, prefix: Bytes, rows: seq<Bytes>): (r: seq<Bytes>)
    ensures forall k :: k in r <==> k in rows && Relative(ns, prefix, k).Some?
  {
    if rows == [] then []
    else (if Relative(ns, prefix, rows[0]).Some? then [rows[0]] else []) + Kept(ns, prefix, rows[1..])
  }

  lemma {:induction false} KeptAll(ns: Namespace, prefix: Bytes, rows: seq<Bytes>)
    requires forall k <- rows :: Relative(ns, prefix, k).Some?
    ensures Kept(ns, prefix, rows) == rows
  {
    if rows != [] {
      KeptAll(ns, prefix, rows[1..]);
    }
  }

  /** Entry by entry, on any relation of rows and entries. */
  predicate Pairwise(rel: (Bytes, (Bytes, Bytes)) -> bool, rows: seq<Bytes>, out: seq<(Bytes, Bytes)>) {
    |out| == |rows| && forall i :: 0 <= i < |rows| ==> rel(rows[i], out[i])
  }

  lemma PairwiseCons(rel: (Bytes, (Bytes, Bytes)) -> bool, k: Bytes, rows: seq<Bytes>, e: (Bytes, Bytes), out: seq<(Bytes, Bytes)>)
    requires rel(k, e) && Pairwise(rel, rows, out)
    ensures Pairwise(rel, [k] + rows, [e] + out)
  {
    var rows', out' := [k] + rows, [e] + out;
    forall i | 0 <= i < |rows'| ensures rel(rows'[i], out'[i]) {
      if i > 0 {
        assert rows'[i] == rows[i - 1] && out'[i] == out[i - 1];
      }
    }
  }

  lemma {:induction false} RowsStand(ns: Namespace, req: Request, store: Store, rows: seq<Bytes>,
                                     rel: (Bytes, (Bytes, Bytes)) -> bool)
    requires ListingRequest(req) && Listable(ns, req.prefix, store)
    requires forall k <- rows :: k in store && Requested(ns, req, k)
    requires forall k, e :: Stands(ns, req.prefix, store, k, e) ==> rel(k, e)
    ensures Pairwise(rel, Kept(ns, req.prefix, rows), Respond(ns, req.prefix, store, rows))
  {
    if rows != [] {
      RowStands(ns, req, store, rows[0]);
      RowsStand(ns, req, store, rows[1..], rel);
      var path := Relative(ns, req.prefix, rows[0]);
      if path.Some? {
        PairwiseCons(rel, rows[0], Kept(ns, req.prefix, rows[1..]), (path.value, store[rows[0]]),
                     Respond(ns, req.prefix, store, rows[1..]));
      }
    }
  }

  /** A page reports its path keys, all of them and in order: path number i stands for kept row
      number i. */
  lemma PageIsComplete(ns: Namespace, req: Request, store: Store, rows: seq<Bytes>)
    requires ListingRequest(req) && Listable(ns, req.prefix, store)
    requires forall k <- rows :: k in store && Requested(ns, req, k)
    ensures var out, kept := Respond(ns, req.prefix, store, rows), Kept(ns, req.prefix, rows);
            && KeysBehind(ns, req.prefix, out) == kept
            && (forall i :: 0 <= i < |kept| ==> Stands(ns, req.prefix, store, kept[i], out[i]))
            && (forall k <- rows :: k in kept <==> IsPathKey(ns, k))
            && ((forall k <- rows :: IsPathKey(ns, k)) ==> kept == rows)
  {
    var rel := (k, e) => Stands(ns, req.prefix, store, k, e);
    RowsStand(ns, req, store, rows, rel);
    var out, kept := Respond(ns, req.prefix, store, rows), Kept(ns, req.prefix, rows);
    forall i | 0 <= i < |kept| ensures Stands(ns, req.prefix, store, kept[i], out[i]) {
      assert rel(kept[i], out[i]);
    }
    forall k <- rows ensures Relative(ns, req.prefix, k).Some? <==> IsPathKey(ns, k) {
      RowStands(ns, req, store, k);
    }
    if forall k <- rows :: IsPathKey(ns, k) {
      KeptAll(ns, req.prefix, rows);
    }
  }

  lemma {:induction false} RespondIsKept(ns: Namespace, prefix: Bytes, store: Store, rows: seq<Bytes>)
    requires forall k <- rows :: k in store
    ensures var out := Respond(ns, prefix, store, rows);
            && |out| == |Kept(ns, prefix, rows)| <= |rows|
            && forall i :: 0 <= i < |out| ==> Some(out[i].0) == Relative(ns, prefix, Kept(ns, prefix, rows)[i])
  {
    if rows != [] {
      RespondIsKept(ns, prefix, store, rows[1..]);
    }
  }

  lemma PageWithinLimit(ns: Namespace, req: Request, page: Page)
    requires AnswersPage(ns, req, page)
    ensures |Answer(ns, req, page)| <= req.limit
  {
    RespondIsKept(ns, req.prefix, page.store, page.rows);
  }

  /** Each path of a page stands for a key below the namespace's own prefix: if a path of another
      namespace was packed to that key, then it lies below that prefix too. */
  lemma PageStaysOwn(ns: Namespace, req: Request, page: Page, i: nat) returns (k: Bytes)
    requires AnswersPage(ns, req, page) && i < |Answer(ns, req, page)|
    ensures k in page.rows && Relative(ns, req.prefix, k) == Some(Answer(ns, req, page)[i].0)
    ensures forall ns': Namespace, path :: k == PackUserKey(ns', path) ==>
              ns.cluster == ns'.cluster && Segments(ns.prefix) <= Segments(ns'.prefix) + Segments(path)
  {
    RespondIsKept(ns, req.prefix, page.store, page.rows);
    k := Kept(ns, req.prefix, page.rows)[i];
    forall ns': Namespace, path | k == PackUserKey(ns', path)
      ensures ns.cluster == ns'.cluster && Segments(ns.prefix) <= Segments(ns'.prefix) + Segments(path)
    {
      SeesOnlyOwn(ns, ns', path);
    }
  }

  /** The last path of a page, as the next cursor, makes the next range hold exactly the keys of
      this one that lie beyond it. */
  lemma NextRange(ns: Namespace, req: Request, path: Bytes, k: Bytes)
    ensures var next := req.(cursor := Some(path));
            && (Requested(ns, next, k) ==> Before(req.reverse, KeyBehind(ns, req.prefix, path), k))
            && (Requested(ns, req, k) && Before(req.reverse, KeyBehind(ns, req.prefix, path), k) ==> Requested(ns, next, k))
  {
    JustAfter(KeyBehind(ns, req.prefix, path), k);
    if Requested(ns, req, k) {
      RangeWithinPrefix(ns, req, k);
    }
  }

  lemma NextRangeWithin(ns: Namespace, req: Request, path: Bytes, k: Bytes)
    requires Requested(ns, req, KeyBehind(ns, req.prefix, path)) && Requested(ns, req.(cursor := Some(path)), k)
    ensures Requested(ns, req, k)
  {
    var m := KeyBehind(ns, req.prefix, path);
    var (lo, hi) := RangeOf(ns, req);
    NextRange(ns, req, path, k);
    RangeWithinPrefix(ns, req.(cursor := Some(path)), k);
    if req.reverse {
      LtTransitive(k, m, hi);
    } else if lo != m {
      LtTransitive(lo, m, k);
    }
  }

  lemma BeforeTransitive(reverse: bool, a: Bytes, b: Bytes, c: Bytes)
    requires Before(reverse, a, b) && Before(reverse, b, c)
    ensures Before(reverse, a, c)
  {
    if reverse { LtTransitive(c, b, a); } else { LtTransitive(a, b, c); }
  }

  /** Strictly ordered, and beyond a start if there is one. */
  ghost predicate AscendsFrom(reverse: bool, start: Option<Bytes>, ks: seq<Bytes>) {
    && (forall i, j :: 0 <= i < j < |ks| ==> Before(reverse, ks[i], ks[j]))
    && (start.Some? ==> forall k <- ks :: Before(reverse, start.value, k))
  }

  lemma AscendConcat(reverse: bool, start: Option<Bytes>, ks: seq<Bytes>, more: seq<Bytes>)
    requires ks != [] && AscendsFrom(reverse, start, ks) && AscendsFrom(reverse, Some(ks[|ks| - 1]), more)
    ensures AscendsFrom(reverse, start, ks + more)
  {
    var all, last := ks + more, ks[|ks| - 1];
    forall i, j | 0 <= i < j < |all| ensures Before(reverse, all[i], all[j]) {
      if i < |ks| <= j {
        assert all[j] in more;
        if i < |ks| - 1 {
          BeforeTransitive(reverse, all[i], last, all[j]);
        }
      }
    }
    if start.Some? {
      assert last in ks;
      forall k <- more ensures Before(reverse, start.value, k) {
        BeforeTransitive(reverse, start.value, last, k);
      }
    }
  }

  lemma {:induction false} KeptAscends(ns: Namespace, prefix: Bytes, reverse: bool, start: Option<Bytes>, rows: seq<Bytes>)
    requires AscendsFrom(reverse, start, rows)
    ensures AscendsFrom(reverse, start, Kept(ns, prefix, rows))
    decreases rows
  {
    if rows != [] {
      assert AscendsFrom(reverse, Some(rows[0]), rows[1..]) by {
        forall k <- rows[1..] ensures Before(reverse, rows[0], k) {
          var i :| 0 <= i < |rows[1..]| && rows[1..][i] == k;
          assert k == rows[i + 1];
        }
      }
      KeptAscends(ns, prefix, reverse, Some(rows[0]), rows[1..]);
      var more := Kept(ns, prefix, rows[1..]);
      forall k <- more ensures start.Some? ==> Before(reverse, start.value, k) {
        assert k in rows;
      }
      if Relative(ns, prefix, rows[0]).Some? {
        AscendConcat(reverse, start, [rows[0]], more);
      }
    }
  }

  function CursorKey(ns: Namespace, req: Request): Option<Bytes> {
    if req.cursor.None? then None else Some(KeyBehind(ns, req.prefix, req.cursor.value))
  }

  lemma PageAscends(ns: Namespace, req: Request, page: Page)
    requires ListingRequest(req) && Listable(ns, req.prefix, page.store) && AnswersPage(ns, req, page)
    ensures AscendsFrom(req.reverse, CursorKey(ns, req), KeysBehind(ns, req.prefix, Answer(ns, req, page)))
  {
    PageIsComplete(ns, req, page.store, page.rows);
    if req.cursor.Some? {
      assert req.(cursor := Some(req.cursor.value)) == req;
      forall k <- page.rows ensures Before(req.reverse, KeyBehind(ns, req.prefix, req.cursor.value), k) {
        NextRange(ns, req, req.cursor.value, k);
      }
    }
    KeptAscends(ns, req.prefix, req.reverse, CursorKey(ns, req), page.rows);
  }

  lemma KeysBehindConcat(ns: Namespace, prefix: Bytes, out: seq<(Bytes, Bytes)>, more: seq<(Bytes, Bytes)>)
    ensures KeysBehind(ns, prefix, out + more) == KeysBehind(ns, prefix, out) + KeysBehind(ns, prefix, more)
  {
  }

  /** One page, then the rest of the scan. */
  lemma PageThenRest(ns: Namespace, req: Request, out: seq<(Bytes, Bytes)>, more: seq<(Bytes, Bytes)>)
    requires out != [] && AscendsFrom(req.reverse, CursorKey(ns, req), KeysBehind(ns, req.prefix, out))
    requires AscendsFrom(req.reverse, CursorKey(ns, Next(req, out)), KeysBehind(ns, req.prefix, more))
    ensures AscendsFrom(req.reverse, CursorKey(ns, req), KeysBehind(ns, req.prefix, out + more))
  {
    var start, keys, keys' := CursorKey(ns, req), KeysBehind(ns, req.prefix, out), KeysBehind(ns, req.prefix, more);
    assert CursorKey(ns, Next(req, out)) == Some(keys[|keys| - 1]);
    KeysBehindConcat(ns, req.prefix, out, more);
    assert AscendsFrom(req.reverse, start, keys + keys') by {
      AscendConcat(req.reverse, start, keys, keys');
    }
  }

  /** The keys a scan reports are strictly ordered, across pages, and lie beyond its cursor. */
  lemma {:induction false} ScanAscends(ns: Namespace, req: Request, pages: seq<Page>)
    requires ListingRequest(req) && AllListable(ns, req.prefix, pages) && Scan(ns, req, pages)
    ensures AscendsFrom(req.reverse, CursorKey(ns, req), KeysBehind(ns, req.prefix, Reported(ns, req, pages)))
    decreases |pages|
  {
    var out := Answer(ns, req, pages[0]);
    if out != [] {
      PageAscends(ns, req, pages[0]);
      ScanAscends(ns, Next(req, out), pages[1..]);
      PageThenRest(ns, req, out, Reported(ns, Next(req, out), pages[1..]));
    }
  }

  /** A scan over a changing store reports no path twice. */
  lemma ScanRepeatsNothing(ns: Namespace, req: Request, pages: seq<Page>)
    requires ListingRequest(req) && AllListable(ns, req.prefix, pages) && Scan(ns, req, pages)
    ensures var all := Reported(ns, req, pages); forall i, j :: 0 <= i < j < |all| ==> all[i].0 != all[j].0
  {
    ScanAscends(ns, req, pages);
    var all := Reported(ns, req, pages);
    var keys := KeysBehind(ns, req.prefix, all);
    forall i, j | 0 <= i < j < |all| ensures all[i].0 != all[j].0 {
      assert Before(req.reverse, keys[i], keys[j]);
      LtIrreflexive(keys[i]);
    }
  }

  // What a scan misses.

  /** A dropped row of the range comes before the key. */
  ghost predicate Hidden(ns: Namespace, req: Request, store: Store, k: Bytes) {
    exists d <- store :: Requested(ns, req, d) && Relative(ns, req.prefix, d).None? && Before(req.reverse, d, k)
  }

  /** A page that stops short of a key nothing hides has dropped no row. */
  lemma NothingDropped(ns: Namespace, req: Request, page: Page, k: Bytes)
    requires AnswersPage(ns, req, page) && page.rows != []
    requires Before(req.reverse, page.rows[|page.rows| - 1], k) && !Hidden(ns, req, page.store, k)
    ensures Kept(ns, req.prefix, page.rows) == page.rows
  {
    var n := |page.rows| - 1;
    forall r <- page.rows ensures Relative(ns, req.prefix, r).Some? {
      var i :| 0 <= i <= n && page.rows[i] == r;
      if i < n {
        BeforeTransitive(req.reverse, r, page.rows[n], k);
      }
      assert r in page.store && Requested(ns, req, r) && Before(req.reverse, r, k);
    }
    KeptAll(ns, req.prefix, page.rows);
  }

  /** A key of the range at or before the last row of its page was read. */
  lemma InBatch(ns: Namespace, req: Request, page: Page, k: Bytes)
    requires AnswersPage(ns, req, page) && k in page.store && Requested(ns, req, k)
    requires page.rows != [] && !Before(req.reverse, page.rows[|page.rows| - 1], k)
    ensures k in page.rows
  {
    var n := |page.rows| - 1;
    LtTrichotomy(k, page.rows[n]);
    assert k == page.rows[n] || Before(req.reverse, k, page.rows[n]);
  }

  lemma OnThisPage(ns: Namespace, req: Request, page: Page, k: Bytes) returns (i: nat)
    requires ListingRequest(req) && Listable(ns, req.prefix, page.store) && AnswersPage(ns, req, page)
    requires k in page.rows && IsPathKey(ns, k)
    ensures var out := Answer(ns, req, page); i < |out| && Some(out[i].0) == Relative(ns, req.prefix, k)
  {
    var kept := Kept(ns, req.prefix, page.rows);
    PageIsComplete(ns, req, page.store, page.rows);
    assert k in kept;
    i :| 0 <= i < |kept| && kept[i] == k;
  }

  lemma OnLaterPage(ns: Namespace, req: Request, page: Page, k: Bytes)
    requires ListingRequest(req) && Listable(ns, req.prefix, page.store) && AnswersPage(ns, req, page)
    requires Requested(ns, req, k) && page.rows != []
    requires Before(req.reverse, page.rows[|page.rows| - 1], k) && !Hidden(ns, req, page.store, k)
    ensures var out := Answer(ns, req, page); out != [] && Requested(ns, Next(req, out), k)
  {
    var out := Answer(ns, req, page);
    NothingDropped(ns, req, page, k);
    assert KeysBehind(ns, req.prefix, out) == page.rows by {
      PageIsComplete(ns, req, page.store, page.rows);
    }
    var path := out[|out| - 1].0;
    assert KeyBehind(ns, req.prefix, path) == page.rows[|page.rows| - 1];
    NextRange(ns, req, path, k);
  }

  /** A path key of the range that nothing hides is on this page, or in the range of the next. */
  lemma PageOrLater(ns: Namespace, req: Request, page: Page, k: Bytes) returns (here: Option<nat>)
    requires ListingRequest(req) && Listable(ns, req.prefix, page.store) && AnswersPage(ns, req, page)
    requires k in page.store && Requested(ns, req, k) && IsPathKey(ns, k) && !Hidden(ns, req, page.store, k)
    ensures var out := Answer(ns, req, page);
            && out != []
            && (here.Some? ==> here.value < |out| && Some(out[here.value].0) == Relative(ns, req.prefix, k))
            && (here.None? ==> Requested(ns, Next(req, out), k))
  {
    assert page.rows != [];
    if Before(req.reverse, page.rows[|page.rows| - 1], k) {
      OnLaterPage(ns, req, page, k);
      here := None;
    } else {
      InBatch(ns, req, page, k);
      var i := OnThisPage(ns, req, page, k);
      here := Some(i);
    }
  }

  /** The next range holds no dropped row that this one does not. */
  lemma StillNotHidden(ns: Namespace, req: Request, page: Page, store: Store, k: Bytes)
    requires ListingRequest(req) && Listable(ns, req.prefix, page.store) && AnswersPage(ns, req, page)
    requires Answer(ns, req, page) != [] && !Hidden(ns, req, store, k)
    ensures !Hidden(ns, Next(req, Answer(ns, req, page)), store, k)
  {
    var out, kept := Answer(ns, req, page), Kept(ns, req.prefix, page.rows);
    PageIsComplete(ns, req, page.store, page.rows);
    assert kept[|kept| - 1] in kept;
    forall d <- store | Requested(ns, Next(req, out), d) ensures Requested(ns, req, d) {
      NextRangeWithin(ns, req, out[|out| - 1].0, d);
    }
  }

  ghost predicate IsReported(ns: Namespace, req: Request, pages: seq<Page>, path: Option<Bytes>)
    requires Scan(ns, req, pages)
  {
    var all := Reported(ns, req, pages); exists i :: 0 <= i < |all| && Some(all[i].0) == path
  }

  lemma ReportedHere(ns: Namespace, req: Request, pages: seq<Page>, i: nat)
    requires Scan(ns, req, pages) && i < |Answer(ns, req, pages[0])|
    ensures IsReported(ns, req, pages, Some(Answer(ns, req, pages[0])[i].0))
  {
    assert Reported(ns, req, pages)[i] == Answer(ns, req, pages[0])[i];
  }

  lemma ReportedLater(ns: Namespace, req: Request, pages: seq<Page>, path: Option<Bytes>)
    requires Scan(ns, req, pages) && Answer(ns, req, pages[0]) != []
    requires IsReported(ns, Next(req, Answer(ns, req, pages[0])), pages[1..], path)
    ensures IsReported(ns, req, pages, path)
  {
    var out := Answer(ns, req, pages[0]);
    var more := Reported(ns, Next(req, out), pages[1..]);
    var i :| 0 <= i < |more| && Some(more[i].0) == path;
    assert Reported(ns, req, pages)[|out| + i] == more[i];
  }

  lemma NotReported(ns: Namespace, req: Request, pages: seq<Page>, path: Option<Bytes>)
    requires Scan(ns, req, pages) && |Answer(ns, req, pages[0])| == 1 && Some(Answer(ns, req, pages[0])[0].0) != path
    requires !IsReported(ns, Next(req, Answer(ns, req, pages[0])), pages[1..], path)
    ensures !IsReported(ns, req, pages, path)
  {
    var all, more := Reported(ns, req, pages), Reported(ns, Next(req, Answer(ns, req, pages[0])), pages[1..]);
    forall i | 0 <= i < |all| ensures Some(all[i].0) != path {
      if i > 0 {
        assert all[i] == more[i - 1];
      }
    }
  }

  /** Every page's store holds the key and no row of the range before it that is dropped. */
  ghost predicate Shown(ns: Namespace, req: Request, pages: seq<Page>, k: Bytes) {
    forall page <- pages :: k in page.store && !Hidden(ns, req, page.store, k)
  }

  lemma StillShown(ns: Namespace, req: Request, pages: seq<Page>, k: Bytes)
    requires ListingRequest(req) && AllListable(ns, req.prefix, pages) && Scan(ns, req, pages)
    requires Answer(ns, req, pages[0]) != [] && Shown(ns, req, pages, k)
    ensures Shown(ns, Next(req, Answer(ns, req, pages[0])), pages[1..], k)
  {
    forall page <- pages[1..] ensures k in page.store && !Hidden(ns, Next(req, Answer(ns, req, pages[0])), page.store, k) {
      assert page in pages;
      StillNotHidden(ns, req, pages[0], page.store, k);
    }
  }

  /** A path key of the first range that every page shows is reported. */
  lemma {:induction false} ScanFindsKey(ns: Namespace, req: Request, pages: seq<Page>, k: Bytes)
    requires ListingRequest(req) && AllListable(ns, req.prefix, pages) && Scan(ns, req, pages)
    requires Requested(ns, req, k) && IsPathKey(ns, k) && Shown(ns, req, pages, k)
    ensures IsReported(ns, req, pages, Relative(ns, req.prefix, k))
    decreases |pages|
  {
    var here := PageOrLater(ns, req, pages[0], k);
    if here.Some? {
      ReportedHere(ns, req, pages, here.value);
    } else {
      StillShown(ns, req, pages, k);
      ScanFindsKey(ns, Next(req, Answer(ns, req, pages[0])), pages[1..], k);
      ReportedLater(ns, req, pages, Relative(ns, req.prefix, k));
    }
  }

  /** The path key of a listed path is asked for by the first page. */
  lemma ListedIsRequested(ns: Namespace, req: Request, rest: seq<Bytes>)
    requires ListingRequest(req) && req.cursor.None? && ProperSegments(rest)
    ensures var k := KeyOf(ns, Segments(req.prefix) + rest);
            Requested(ns, req, k) && IsPathKey(ns, k) && Relative(ns, req.prefix, k) == Some(Join(rest, SLASH))
  {
    var segs := Segments(req.prefix) + rest;
    SegmentsProper(req.prefix);
    RelativeRepacks(ns, req.prefix, rest);
    assert Root(ns) + Segments(req.prefix) <= Root(ns) + segs;
    RangeIsWanted(ns, req, Root(ns) + segs);
    assert ProperSegments(segs);
  }

  /** A scan over a changing store reports every path that all its snapshots hold and none hides,
      which by `ScanRepeatsNothing` is once. */
  lemma ScanMissesNothing(ns: Namespace, req: Request, pages: seq<Page>, rest: seq<Bytes>)
    requires ListingRequest(req) && req.cursor.None? && AllListable(ns, req.prefix, pages) && Scan(ns, req, pages)
    requires ProperSegments(rest) && Shown(ns, req, pages, KeyOf(ns, Segments(req.prefix) + rest))
    ensures IsReported(ns, req, pages, Some(Join(rest, SLASH)))
  {
    ListedIsRequested(ns, req, rest);
    ScanFindsKey(ns, req, pages, KeyOf(ns, Segments(req.prefix) + rest));
  }

  /** The row a range starts with in the asked direction. */
  lemma {:induction false} FirstRow(reverse: bool, rows: set<Bytes>) returns (m: Bytes)
    requires rows != {}
    ensures m in rows && forall k <- rows :: k == m || Before(reverse, m, k)
    decreases |rows|
  {
    var x :| x in rows;
    if rows == {x} {
      m := x;
    } else {
      m := FirstRow(reverse, rows - {x});
      LtTrichotomy(m, x);
      if Before(reverse, x, m) {
        forall k <- rows ensures k == x || Before(reverse, x, k) {
          if k != x && k != m {
            BeforeTransitive(reverse, x, m, k);
          }
        }
        m := x;
      }
    }
  }

  function RequestedRows(ns: Namespace, req: Request, store: Store): set<Bytes> {
    set k <- store | Requested(ns, req, k)
  }

  /** The database may answer with the first row of the range alone. */
  lemma FirstPage(ns: Namespace, req: Request, store: Store) returns (m: Bytes)
    requires req.limit >= 1 && RequestedRows(ns, req, store) != {}
    ensures m in store && Requested(ns, req, m) && AnswersPage(ns, req, Page(store, [m]))
    ensures forall k <- store | Requested(ns, req, k) :: k == m || Before(req.reverse, m, k)
  {
    m := FirstRow(req.reverse, RequestedRows(ns, req, store));
    forall k <- store | Requested(ns, req, k) && Before(req.reverse, k, m) ensures k == m {
      assert k in RequestedRows(ns, req, store);
      LtTrichotomy(k, m);
    }
  }

  /** Reading past a kept row leaves fewer rows to ask for. */
  lemma FewerRows(ns: Namespace, req: Request, store: Store, m: Bytes, path: Bytes)
    requires m in store && Requested(ns, req, m) && KeyBehind(ns, req.prefix, path) == m
    ensures RequestedRows(ns, req.(cursor := Some(path)), store) < RequestedRows(ns, req, store)
  {
    var next := req.(cursor := Some(path));
    forall k <- store | Requested(ns, next, k) ensures Requested(ns, req, k) && k != m {
      NextRangeWithin(ns, req, path, k);
      NextRange(ns, req, path, k);
      LtIrreflexive(k);
    }
    assert m in RequestedRows(ns, req, store) && m !in RequestedRows(ns, next, store);
  }

  /** Reading just the first row, when it is kept, leaves the key hidden. */
  lemma StillHidden(ns: Namespace, req: Request, store: Store, m: Bytes, path: Bytes, k: Bytes)
    requires m in store && Requested(ns, req, m) && Relative(ns, req.prefix, m).Some? && KeyBehind(ns, req.prefix, path) == m
    requires forall d <- store | Requested(ns, req, d) :: d == m || Before(req.reverse, m, d)
    requires Requested(ns, req, k) && Hidden(ns, req, store, k)
    ensures Before(req.reverse, m, k)
    ensures Requested(ns, req.(cursor := Some(path)), k) && Hidden(ns, req.(cursor := Some(path)), store, k)
  {
    var d :| d in store && Requested(ns, req, d) && Relative(ns, req.prefix, d).None? && Before(req.reverse, d, k);
    NextRange(ns, req, path, d);
    BeforeTransitive(req.reverse, m, d, k);
    NextRange(ns, req, path, k);
  }

  lemma OneRow(ns: Namespace, prefix: Bytes, store: Store, m: Bytes)
    requires m in store
    ensures Respond(ns, prefix, store, [m])
         == match Relative(ns, prefix, m) case None => [] case Some(path) => [(path, store[m])]
  {
    assert [m][1..] == [];
  }

  ghost predicate Misses(ns: Namespace, req: Request, store: Store, pages: seq<Page>, path: Option<Bytes>) {
    Scan(ns, req, pages) && (forall page <- pages :: page.store == store) && !IsReported(ns, req, pages, path)
  }

  lemma OneRowFirst(ns: Namespace, req: Request, store: Store, m: Bytes, path: Bytes, more: seq<Page>, missed: Option<Bytes>)
    requires m in store && AnswersPage(ns, req, Page(store, [m])) && Relative(ns, req.prefix, m) == Some(path) != missed
    requires Misses(ns, req.(cursor := Some(path)), store, more, missed)
    ensures Misses(ns, req, store, [Page(store, [m])] + more, missed)
  {
    var pages := [Page(store, [m])] + more;
    OneRow(ns, req.prefix, store, m);
    assert Next(req, Answer(ns, req, pages[0])) == req.(cursor := Some(path)) && pages[1..] == more;
    NotReported(ns, req, pages, missed);
  }

  /** A path that a row hides is missed by the scan that reads row by row. */
  lemma {:induction false} HiddenIsMissed(ns: Namespace, req: Request, store: Store, k: Bytes) returns (pages: seq<Page>)
    requires ListingRequest(req) && Listable(ns, req.prefix, store)
    requires Requested(ns, req, k) && IsPathKey(ns, k) && Hidden(ns, req, store, k)
    ensures Misses(ns, req, store, pages, Relative(ns, req.prefix, k))
    decreases RequestedRows(ns, req, store)
  {
    assert RequestedRows(ns, req, store) != {} by {
      var d :| d in store && Requested(ns, req, d);
      assert d in RequestedRows(ns, req, store);
    }
    var m := FirstPage(ns, req, store);
    var row := Relative(ns, req.prefix, m);
    if row.None? {
      OneRow(ns, req.prefix, store, m);
      pages := [Page(store, [m])];
    } else {
      RowStands(ns, req, store, m);
      FewerRows(ns, req, store, m, row.value);
      StillHidden(ns, req, store, m, row.value, k);
      var path := PathKeyIsReported(ns, req, k);
      LtIrreflexive(k);
      var more := HiddenIsMissed(ns, req.(cursor := row), store, k);
      OneRowFirst(ns, req, store, m, row.value, more, Some(path));
      pages := [Page(store, [m])] + more;
    }
  }

  /** Main result: a scan of an unchanging store may miss a stored path exactly when a dropped row
      under the prefix comes before it in the asked direction. */
  lemma MissedIff(ns: Namespace, req: Request, store: Store, rest: seq<Bytes>)
    requires ListingRequest(req) && req.cursor.None? && Listable(ns, req.prefix, store)
    requires ProperSegments(rest) && KeyOf(ns, Segments(req.prefix) + rest) in store
    ensures (exists pages :: Misses(ns, req, store, pages, Some(Join(rest, SLASH))))
            <==> Hidden(ns, req, store, KeyOf(ns, Segments(req.prefix) + rest))
  {
    var k := KeyOf(ns, Segments(req.prefix) + rest);
    ListedIsRequested(ns, req, rest);
    if Hidden(ns, req, store, k) {
      var pages := HiddenIsMissed(ns, req, store, k);
    } else {
      forall pages: seq<Page> ensures !Misses(ns, req, store, pages, Some(Join(rest, SLASH))) {
        if Scan(ns, req, pages) && forall page <- pages :: page.store == store {
          ScanMissesNothing(ns, req, pages, rest);
        }
      }
    }
  }
}
