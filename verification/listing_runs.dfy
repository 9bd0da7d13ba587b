/** Listings of the stores that runs of key-value requests leave: what the paging theorems of
    `PrefixList` suppose of a store holds of every version, and appended rows do hide paths. */
module ListingRuns {
  import opened Bytes
  import opened Paths
  import opened Tuple
  import opened UserKeys
  import opened Fdb
  import opened StampedRows
  import CompareAndSet
  import opened KvRuns
  import opened PrefixList

  /** The key of a path, or a row appended under one. */
  ghost predicate IsKvKey(k: Bytes) {
    || CompareAndSet.IsUserKey(k)
    || exists base, stamp :: CompareAndSet.IsUserKey(base) && IsStamp(stamp) && k == RowKey(base, stamp)
  }

  lemma {:induction false} ApplyKeepsKeys(store: Store, ms: seq<Mutation>, stamp: Bytes)
    requires CompareAndSet.KvMutations(ms) && IsStamp(stamp) && forall k <- store :: IsKvKey(k)
    ensures forall k <- ApplyAll(store, ms, stamp) :: IsKvKey(k)
  {
    if ms != [] {
      var n := |ms| - 1;
      var m := ms[n];
      assert m in ms;
      ApplyKeepsKeys(store, ms[..n], stamp);
      if m.StampedKey? {
        var base :| CompareAndSet.IsUserKey(base) && Addressable(base) && m.template == RowTemplate(base);
        TemplateYieldsRow(base, stamp);
        assert IsKvKey(RowKey(base, stamp));
      }
    }
  }

  lemma {:induction false} VersionKeys(s: State, n: nat)
    requires Inv(s) && n <= s.Now()
    ensures forall k <- s.versions[n] :: IsKvKey(k)
  {
    if n > 0 {
      var c := s.commits[n - 1];
      assert c in s.commits;
      VersionKeys(s, n - 1);
      ApplyKeepsKeys(s.versions[n - 1], c.mutations, c.stamp);
    }
  }

  lemma SegmentsArePieces(path: Bytes)
    ensures forall s <- Segments(path) :: s != [] && SLASH !in s
  {
    SplitSepFree(path, SLASH);
  }

  /** What unpacks below a namespace was packed below it. */
  lemma UnpackedBelow(ns: Namespace, k: Bytes) returns (segs: seq<Bytes>)
    requires UnpackUserKey(ns, k).Some?
    ensures k == KeyOf(ns, segs) && forall s <- segs :: Utf8.Valid(s)
  {
    var rest := k[|Pack(Root(ns))|..];
    assert k == Pack(Root(ns)) + rest;
    PackOfUnpack(rest);
    segs := Unpack(rest).value;
    PackConcat(Root(ns), segs);
  }

  lemma RootPieces(ns: Namespace, path: Bytes)
    ensures forall s <- (Root(ns) + Segments(path))[1..] :: s != [] && SLASH !in s
  {
    SegmentsArePieces(ns.prefix);
    SegmentsArePieces(path);
    assert (Root(ns) + Segments(path))[1..] == Segments(ns.prefix) + Segments(path);
  }

  lemma BelowRoot(ns: Namespace, segs: seq<Bytes>)
    ensures forall s <- segs :: s in (Root(ns) + segs)[1..]
  {
    assert (Root(ns) + segs)[1..] == Segments(ns.prefix) + segs;
  }

  /** The key of a path unpacks below a namespace only as a path key of it. */
  lemma UserKeyIsPathKey(ns: Namespace, k: Bytes)
    requires CompareAndSet.IsUserKey(k) && UnpackUserKey(ns, k).Some?
    ensures IsPathKey(ns, k)
  {
    var segs := UnpackedBelow(ns, k);
    var ns': Namespace, path :| k == PackUserKey(ns', path);
    PackInjective(Root(ns) + segs, Root(ns') + Segments(path));
    RootPieces(ns', path);
    BelowRoot(ns, segs);
    assert ProperSegments(segs);
  }

  /** A row unpacks below no namespace. */
  lemma KvKeyIsPathKey(ns: Namespace, k: Bytes)
    requires IsKvKey(k) && UnpackUserKey(ns, k).Some?
    ensures IsPathKey(ns, k)
  {
    if CompareAndSet.IsUserKey(k) {
      UserKeyIsPathKey(ns, k);
    } else {
      var base, stamp :| CompareAndSet.IsUserKey(base) && IsStamp(stamp) && k == RowKey(base, stamp);
      var b := CompareAndSet.UserKeyIsPacked(base);
      var segs := UnpackedBelow(ns, k);
      RowIsNoPathKey(b, stamp, Root(ns) + segs);
      assert false;
    }
  }

  /** Every version of every run can be listed, under every prefix of every namespace. */
  lemma VersionsAreListable(events: seq<Event>, n: nat, ns: Namespace, prefix: Bytes)
    requires n <= Run(events).Now()
    ensures Listable(ns, prefix, Run(events).versions[n])
  {
    var s := Run(events);
    VersionKeys(s, n);
    forall k <- s.versions[n] | UnpackUserKey(ns, k).Some? ensures IsPathKey(ns, k) {
      KvKeyIsPathKey(ns, k);
    }
  }

  /** Main result: a scan whose pages are read while compare-and-set requests run reports no path
      twice, and reports every path that all the versions it reads hold with no row before it. */
  lemma ScanOfRun(events: seq<Event>, ns: Namespace, req: PrefixList.Request, pages: seq<Page>, rest: seq<Bytes>)
    requires ListingRequest(req) && req.cursor.None? && Scan(ns, req, pages)
    requires forall page <- pages :: page.store in Run(events).versions
    ensures var all := Reported(ns, req, pages); forall i, j :: 0 <= i < j < |all| ==> all[i].0 != all[j].0
    ensures ProperSegments(rest) && Shown(ns, req, pages, KeyOf(ns, Segments(req.prefix) + rest))
            ==> IsReported(ns, req, pages, Some(Join(rest, SLASH)))
  {
    forall page <- pages ensures Listable(ns, req.prefix, page.store) {
      var n :| 0 <= n < |Run(events).versions| && Run(events).versions[n] == page.store;
      VersionsAreListable(events, n, ns, req.prefix);
    }
    ScanRepeatsNothing(ns, req, pages);
    if ProperSegments(rest) && Shown(ns, req, pages, KeyOf(ns, Segments(req.prefix) + rest)) {
      ScanMissesNothing(ns, req, pages, rest);
    }
  }

  // A run that hides a path: a row is appended under "a", then "b" is set.

  const NS := Namespace([], [])
  const A: Bytes := [0x61]
  const B: Bytes := [0x62]
  const FIRST: Bytes := [1, 0, 0, 0, 0, 0, 0, 0, 0, 0]
  const SECOND: Bytes := [2, 0, 0, 0, 0, 0, 0, 0, 0, 0]

  function WriteOf(path: Bytes, change: CompareAndSet.Change): CompareAndSet.Request {
    CompareAndSet.Request(NS, [CompareAndSet.KeyRequest(path, CompareAndSet.Any, change)])
  }

  /** An unchecked write is ready with its one mutation, having read nothing. */
  lemma WriteIsReady(path: Bytes, change: CompareAndSet.Change, store: Store)
    ensures CompareAndSet.AttemptOn(WriteOf(path, change), store)
         == CompareAndSet.Ready({}, CompareAndSet.MutationsOf(PackUserKey(NS, path), change))
  {
    var keys, ms := WriteOf(path, change).keys, CompareAndSet.MutationsOf(PackUserKey(NS, path), change);
    assert keys[1..] == [] && [] + ms == ms;
    assert CompareAndSet.Attempt(NS, keys[1..], store, {}, [] + ms) == CompareAndSet.Ready({}, ms);
  }

  /** One unchecked write by a new caller, with nothing between its call and its commit. */
  lemma OneWrite(s: State, client: nat, path: Bytes, change: CompareAndSet.Change, stamp: Bytes)
    requires Inv(s) && client !in s.clients && NextStamp(s, stamp)
    requires !change.Preserve? && CompareAndSet.ReasonableSize(WriteOf(path, change))
    ensures var called := Do(s, Call(client, WriteOf(path, change)));
            && Inv(called)
            && var s' := Do(called, Finish(client, stamp));
               var ms := CompareAndSet.MutationsOf(PackUserKey(NS, path), change);
               && s'.versions == s.versions + [ApplyAll(s.versions[s.Now()], ms, stamp)]
               && s'.commits == s.commits + [Commit(ms, stamp)]
               && s'.clients == s.clients
  {
    var req := WriteOf(path, change);
    StepKeepsInv(s, Call(client, req));
    var called := Do(s, Call(client, req));
    WriteIsReady(path, change, s.versions[s.Now()]);
    assert !Conflicts(called, {}, s.Now());
    assert called.clients - {client} == s.clients;
  }

  lemma OneSegment(x: Byte)
    requires x != SLASH
    ensures Segments([x]) == [[x]] && Segments([]) == [] && Root(NS) == [[]]
  {
    SplitPiece([x], SLASH);
    assert Filter([[x]][1..], NON_EMPTY) == [];
    assert Filter([[]][1..], NON_EMPTY) == [];
  }

  function Written(events: seq<Event>, client: nat, path: Bytes, change: CompareAndSet.Change, stamp: Bytes): seq<Event> {
    events + [Call(client, WriteOf(path, change))] + [Finish(client, stamp)]
  }

  lemma RunWrite(events: seq<Event>, client: nat, path: Bytes, change: CompareAndSet.Change, stamp: Bytes)
    requires client !in Run(events).clients && NextStamp(Run(events), stamp)
    requires !change.Preserve? && CompareAndSet.ReasonableSize(WriteOf(path, change))
    ensures var s, s' := Run(events), Run(Written(events, client, path, change, stamp));
            var ms := CompareAndSet.MutationsOf(PackUserKey(NS, path), change);
            && s'.versions == s.versions + [ApplyAll(s.versions[s.Now()], ms, stamp)]
            && s'.commits == s.commits + [Commit(ms, stamp)]
            && s'.clients == s.clients
  {
    RunMore(events, Call(client, WriteOf(path, change)));
    RunMore(events + [Call(client, WriteOf(path, change))], Finish(client, stamp));
    OneWrite(Run(events), client, path, change, stamp);
  }

  const APPEND: CompareAndSet.Change := CompareAndSet.Append([])
  const PUT: CompareAndSet.Change := CompareAndSet.Put([])
  const ROW := RowKey(KeyOf(NS, [A]), FIRST)

  lemma ShortKey(x: Byte)
    requires x != SLASH && x != NIL
    ensures PackUserKey(NS, [x]) == KeyOf(NS, [[x]]) && |KeyOf(NS, [[x]])| == 5
  {
    OneSegment(x);
    assert Escape([x]) == [x] + Escape([x][1..]);
    assert Pack([[x]]) == PackString([x]) + Pack([[x]][1..]);
    assert [[], [x]][1..] == [[x]];
    assert Pack([[], [x]]) == PackString([]) + Pack([[x]]);
  }

  function Appended(): seq<Event> {
    Written([], 0, A, APPEND, FIRST)
  }

  function Steps(): seq<Event> {
    Written(Appended(), 1, B, PUT, SECOND)
  }

  lemma AppendedRow()
    ensures ApplyAll(map[], CompareAndSet.MutationsOf(KeyOf(NS, [A]), APPEND), FIRST) == map[ROW := []]
  {
    ShortKey(0x61);
    var ms := [StampedKey(RowTemplate(KeyOf(NS, [A])), [])];
    assert ms[..0] == [];
    TemplateYieldsRow(KeyOf(NS, [A]), FIRST);
  }

  lemma AfterAppend()
    ensures var s := Run(Appended());
            && s.versions == [map[]] + [map[ROW := []]]
            && s.clients == map[]
            && |s.commits| == 1 && s.commits[0].stamp == FIRST
  {
    ShortKey(0x61);
    AppendedRow();
    assert Run([]) == INITIAL;
    RunWrite([], 0, A, APPEND, FIRST);
  }

  lemma PutStored(store: Store, key: Bytes, stamp: Bytes)
    requires IsStamp(stamp)
    ensures ApplyAll(store, CompareAndSet.MutationsOf(key, PUT), stamp) == store[key := []]
  {
    assert CompareAndSet.MutationsOf(key, PUT)[..0] == [];
  }

  lemma SecondIsNext(s: State)
    requires |s.commits| == 1 && s.commits[0].stamp == FIRST
    ensures NextStamp(s, SECOND)
  {
    assert Lt(FIRST, SECOND) && Lt(ZERO_STAMP, SECOND);
  }

  lemma AfterPut()
    ensures var s := Run(Steps());
            s.Now() == 2 && s.versions[2] == map[ROW := []][KeyOf(NS, [B]) := []]
  {
    AfterAppend();
    ShortKey(0x62);
    var s := Run(Appended());
    PutStored(s.versions[1], KeyOf(NS, [B]), SECOND);
    SecondIsNext(s);
    RunWrite(Appended(), 1, B, PUT, SECOND);
  }

  lemma RightBelow(p: Bytes, rest: Bytes)
    requires rest != [] && rest[0] < ESCAPE
    ensures InRange(p + rest, p, p + [ESCAPE])
  {
    assert p + [] == p && (p + rest)[|p|..] == rest;
    PrefixRange(p, [], [ESCAPE], p + rest);
  }

  lemma RowIsRequested(req: PrefixList.Request)
    requires req.prefix == [] && req.cursor.None?
    ensures Requested(NS, req, ROW)
  {
    OneSegment(0x61);
    var p, rest := Pack(Root(NS)), RowKey(Pack([A]), FIRST);
    PackConcat(Root(NS), [A]);
    assert Root(NS) + Segments([]) == Root(NS);
    assert ROW == p + rest;
    assert rest[0] == STRING_CODE;
    assert InRange(ROW, p, p + [ESCAPE]) by {
      RightBelow(p, rest);
    }
  }

  lemma RowIsBefore()
    ensures Relative(NS, [], ROW).None? && Before(false, ROW, KeyOf(NS, [B]))
  {
    OneSegment(0x61);
    RowDoesNotUnpack(NS, [A], FIRST);
    var xs, ys := Root(NS) + [A], Root(NS) + [B];
    assert xs == [[], A] && ys == [[], B] && xs[1..] == [A] && ys[1..] == [B];
    assert SegmentsLt(xs[1..], ys[1..]) && xs[1] != ys[1];
    RowAmongPathKeys(xs, FIRST, ys);
  }

  lemma BIsProper()
    ensures ProperSegments([B]) && Join([B], SLASH) == B && Segments([]) + [B] == [B] && Canonical([])
  {
    OneSegment(0x62);
    assert Utf8.ScalarLength(B) == 1 && B[1..] == [] && Utf8.Valid(B);
  }

  lemma RowHidesIn(store: Store, limit: nat) returns (pages: seq<Page>)
    requires limit >= 1 && Listable(NS, [], store) && ROW in store && KeyOf(NS, [B]) in store
    ensures Misses(NS, PrefixList.Request([], false, limit, None), store, pages, Some(B))
  {
    var req := PrefixList.Request([], false, limit, None);
    BIsProper();
    ListedIsRequested(NS, req, [B]);
    RowIsRequested(req);
    RowIsBefore();
    pages := HiddenIsMissed(NS, req, store, KeyOf(NS, [B]));
  }

  /** After that run a listing of everything may end without "b", though it is stored. */
  lemma RowHidesPath(limit: nat) returns (pages: seq<Page>)
    requires limit >= 1
    ensures var s := Run(Steps());
            && s.Now() == 2 && KeyOf(NS, [B]) in s.versions[2]
            && Misses(NS, PrefixList.Request([], false, limit, None), s.versions[2], pages, Some(B))
  {
    AfterPut();
    VersionsAreListable(Steps(), 2, NS, []);
    pages := RowHidesIn(Run(Steps()).versions[2], limit);
  }
}
