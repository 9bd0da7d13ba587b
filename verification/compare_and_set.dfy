/** Multi-key compare-and-set under optimistic concurrency (`KvCompareAndSetManyRequest::handle`,
    src/api/kv/mod.rs). */
module CompareAndSet {
  import opened Bytes
  import opened Tuple
  import opened UserKeys
  import opened Fdb
  import opened StampedRows

  datatype Check = Absent | Any | Equals(value: Bytes)

  datatype Change = Delete | Preserve | Put(value: Bytes) | Append(value: Bytes)

  datatype KeyRequest = KeyRequest(path: Bytes, check: Check, change: Change)

  datatype Request = Request(ns: Namespace, keys: seq<KeyRequest>)

  datatype Response = Response(ok: bool, committed: Option<Option<Bytes>>)

  predicate Passes(check: Check, current: Option<Bytes>) {
    match check
    case Any => true
    case Absent => current.None?
    case Equals(v) => current == Some(v)
  }

  function MutationsOf(key: Bytes, change: Change): seq<Mutation> {
    match change
    case Preserve => []
    case Delete => [Clear(key)]
    case Put(v) => [Set(key, v)]
    case Append(v) => [StampedKey(RowTemplate(key), v)]
  }

  predicate HasAppend(keys: seq<KeyRequest>) {
    exists i :: 0 <= i < |keys| && keys[i].change.Append?
  }

  predicate ReasonableSize(req: Request) {
    forall k <- req.keys :: Addressable(PackUserKey(req.ns, k.path))
  }

  // The handler's view: one pass over the keys inside a transaction.

  datatype Attempted = Refused(readKeys: set<Bytes>) | Ready(readKeys: set<Bytes>, mutations: seq<Mutation>)

  function Attempt(ns: Namespace, keys: seq<KeyRequest>, snapshot: Store, readKeys: set<Bytes>, ms: seq<Mutation>): Attempted {
    if keys == [] then Ready(readKeys, ms)
    else
      var key := PackUserKey(ns, keys[0].path);
      var readKeys' := if keys[0].check.Any? then readKeys else readKeys + ReadConflict(ms, key);
      if !Passes(keys[0].check, Read(snapshot, ms, key)) then Refused(readKeys')
      else Attempt(ns, keys[1..], snapshot, readKeys', ms + MutationsOf(key, keys[0].change))
  }

  function AttemptOn(req: Request, snapshot: Store): Attempted {
    Attempt(req.ns, req.keys, snapshot, {}, [])
  }

  /** One key of a request: the check, then the change. */
  method RunKey(ns: Namespace, k: KeyRequest, txn: Transaction) returns (ok: bool)
    modifies txn
    ensures var key := PackUserKey(ns, k.path);
            && txn.snapshot == old(txn.snapshot)
            && txn.readKeys == old(if k.check.Any? then txn.readKeys else txn.readKeys + ReadConflict(txn.mutations, key))
            && ok == (match k.check
                      case Any => true
                      case Absent => Read(txn.snapshot, old(txn.mutations), key).None?
                      case Equals(v) => Read(txn.snapshot, old(txn.mutations), key) == Some(v))
            && (ok ==> txn.mutations == old(txn.mutations) + MutationsOf(key, k.change))
  {
    var key := PackUserKey(ns, k.path);
    if k.check != Any {
      var current := txn.Get(key);
      match k.check {
        case Equals(v) =>
          if current != Some(v) {
            return false;
          }
        case Absent =>
          if current.Some? {
            return false;
          }
      }
    }
    match k.change {
      case Preserve =>
      case Delete => txn.Mutate(Clear(key));
      case Put(v) => txn.Mutate(Set(key, v));
      case Append(v) => txn.Mutate(StampedKey(RowTemplate(key), v));
    }
    return true;
  }

  lemma AttemptNext(req: Request, i: nat, snapshot: Store, readKeys: set<Bytes>, ms: seq<Mutation>)
    requires i < |req.keys|
    ensures var k, rest := req.keys[i], req.keys[i + 1..];
            var key := PackUserKey(req.ns, k.path);
            var readKeys' := if k.check.Any? then readKeys else readKeys + ReadConflict(ms, key);
            Attempt(req.ns, req.keys[i..], snapshot, readKeys, ms)
            == if !Passes(k.check, Read(snapshot, ms, key)) then Refused(readKeys')
               else Attempt(req.ns, rest, snapshot, readKeys', ms + MutationsOf(key, k.change))
  {
    assert req.keys[i..][0] == req.keys[i] && req.keys[i..][1..] == req.keys[i + 1..];
  }

  method RunKeys(req: Request, txn: Transaction) returns (ok: bool, hasVersionstamp: bool)
    requires txn.readKeys == {} && txn.mutations == []
    modifies txn
    ensures txn.snapshot == old(txn.snapshot)
    ensures AttemptOn(req, txn.snapshot) == if ok then Ready(txn.readKeys, txn.mutations) else Refused(txn.readKeys)
    ensures ok ==> hasVersionstamp == HasAppend(req.keys)
  {
    hasVersionstamp := false;
    for i := 0 to |req.keys|
      invariant txn.snapshot == old(txn.snapshot)
      invariant AttemptOn(req, txn.snapshot)
             == Attempt(req.ns, req.keys[i..], txn.snapshot, txn.readKeys, txn.mutations)
      invariant hasVersionstamp == exists j :: 0 <= j < i && req.keys[j].change.Append?
    {
      AttemptNext(req, i, txn.snapshot, txn.readKeys, txn.mutations);
      ok := RunKey(req.ns, req.keys[i], txn);
      if !ok {
        return false, false;
      }
      if req.keys[i].change.Append? {
        hasVersionstamp := true;
      }
    }
    return true, hasVersionstamp;
  }

  /** What the database does with one attempt: the snapshot it gives and how the commit ends. */
  datatype Try = Conflicted(snapshot: Store) | Committed(snapshot: Store, stamp: Bytes)

  /** The retry loop, for any finite list of tries. It answers at the first try that is refused or
      commits; None means every try so far conflicted. */
  method Handle(req: Request, tries: seq<Try>) returns (response: Option<Response>, attempts: nat)
    ensures attempts <= |tries|
    ensures forall i :: 0 <= i < attempts ==> tries[i].Conflicted? && AttemptOn(req, tries[i].snapshot).Ready?
    ensures response.None? ==> attempts == |tries|
    ensures response.Some? ==>
              && attempts < |tries|
              && var t := tries[attempts];
                 response.value ==
                   if AttemptOn(req, t.snapshot).Refused? then Response(false, None)
                   else Response(true, Some(if HasAppend(req.keys) && t.Committed? then Some(t.stamp) else None))
    ensures response.Some? && response.value.ok ==> tries[attempts].Committed?
    ensures ReasonableSize(req) && response.Some? ==> (!response.value.ok <==> SomeCheckFails(req, tries[attempts].snapshot))
    ensures ReasonableSize(req) ==> forall i :: 0 <= i < attempts ==> !SomeCheckFails(req, tries[i].snapshot)
  {
    forall i | 0 <= i < |tries| && ReasonableSize(req)
      ensures AttemptOn(req, tries[i].snapshot).Refused? <==> SomeCheckFails(req, tries[i].snapshot)
    {
      RefusalMeans(req, tries[i].snapshot);
    }
    if tries == [] {
      return None, 0;
    }
    attempts := 0;
    var txn := new Transaction(tries[0].snapshot);
    while attempts < |tries|
      invariant fresh(txn) && attempts <= |tries|
      invariant attempts < |tries| ==>
                  txn.snapshot == tries[attempts].snapshot && txn.readKeys == {} && txn.mutations == []
      invariant forall i :: 0 <= i < attempts ==> tries[i].Conflicted? && AttemptOn(req, tries[i].snapshot).Ready?
      decreases |tries| - attempts
    {
      var ok, hasVersionstamp := RunKeys(req, txn);
      if !ok {
        return Some(Response(false, None)), attempts;
      }
      match tries[attempts] {
        case Committed(_, stamp) =>
          return Some(Response(true, Some(if hasVersionstamp then Some(stamp) else None))), attempts;
        case Conflicted(_) =>
          attempts := attempts + 1;
          if attempts < |tries| {
            txn.Reset(tries[attempts].snapshot);
          }
      }
    }
    return None, attempts;
  }

  // The caller's view: checks and changes take effect in order, at once, on one state.

  function ApplyChange(store: Store, key: Bytes, change: Change, stamp: Bytes): Store {
    match change
    case Preserve => store
    case Delete => store - {key}
    case Put(v) => store[key := v]
    case Append(v) => store[RowKey(key, stamp) := v]
  }

  /** None when a check fails; then nothing changes. */
  function Serially(ns: Namespace, keys: seq<KeyRequest>, store: Store, stamp: Bytes): Option<Store> {
    if keys == [] then Some(store)
    else
      var key := PackUserKey(ns, keys[0].path);
      if !Passes(keys[0].check, Lookup(store, key)) then None
      else Serially(ns, keys[1..], ApplyChange(store, key, keys[0].change, stamp), stamp)
  }

  ghost predicate IsPacked(key: Bytes) {
    exists segs :: key == Pack(segs)
  }

  /** A path of some namespace, packed. */
  ghost predicate IsUserKey(key: Bytes) {
    exists ns: Namespace, path: Bytes :: key == PackUserKey(ns, path)
  }

  /** Requests set and clear the keys of paths and append rows under them, and do nothing else. */
  ghost predicate KvMutation(m: Mutation) {
    match m
    case Set(key, _) => IsUserKey(key)
    case Clear(key) => IsUserKey(key)
    case StampedKey(template, _) => exists key :: IsUserKey(key) && Addressable(key) && template == RowTemplate(key)
    case StampedValue(_, _) => false
  }

  ghost predicate KvMutations(ms: seq<Mutation>) {
    forall m <- ms :: KvMutation(m)
  }

  lemma UserKeyIsPacked(key: Bytes) returns (segs: seq<Bytes>)
    requires IsUserKey(key)
    ensures key == Pack(segs)
  {
    var ns: Namespace, path :| key == PackUserKey(ns, path);
    segs := Root(ns) + Segments(path);
  }

  lemma MutationsOfAreKv(key: Bytes, change: Change)
    requires IsUserKey(key) && Addressable(key)
    ensures KvMutations(MutationsOf(key, change))
  {
  }

  lemma {:induction false} AttemptMutations(req: Request, keys: seq<KeyRequest>, snapshot: Store, readKeys: set<Bytes>, ms: seq<Mutation>)
    requires KvMutations(ms) && forall k <- keys :: Addressable(PackUserKey(req.ns, k.path))
    ensures var a := Attempt(req.ns, keys, snapshot, readKeys, ms);
            readKeys <= a.readKeys && (a.Ready? ==> KvMutations(a.mutations))
  {
    if keys != [] {
      var key := PackUserKey(req.ns, keys[0].path);
      assert IsUserKey(key);
      assert keys[0] in keys;
      var readKeys' := if keys[0].check.Any? then readKeys else readKeys + ReadConflict(ms, key);
      MutationsOfAreKv(key, keys[0].change);
      AttemptMutations(req, keys[1..], snapshot, readKeys', ms + MutationsOf(key, keys[0].change));
    }
  }

  /** An appended row is not the key of anything. */
  lemma RowIsElsewhere(template: Bytes, base: Bytes, stamp: Bytes, key: Bytes)
    requires IsUserKey(base) && Addressable(base) && template == RowTemplate(base) && IsPacked(key) && IsStamp(stamp)
    ensures WellFormed(template) && PutStamp(template, stamp) != key
  {
    var b := UserKeyIsPacked(base);
    var segs :| key == Pack(segs);
    TemplateYieldsRow(base, stamp);
    RowIsNoPathKey(b, stamp, segs);
  }

  lemma OtherMutation(store: Store, m: Mutation, stamp: Bytes, key: Bytes)
    requires KvMutation(m) && IsPacked(key) && IsStamp(stamp)
    requires !((m.Set? || m.Clear?) && m.key == key)
    ensures Lookup(Apply(store, m, stamp), key) == Lookup(store, key)
  {
    if m.StampedKey? {
      var base :| IsUserKey(base) && Addressable(base) && m.template == RowTemplate(base);
      RowIsElsewhere(m.template, base, stamp, key);
    }
  }

  /** Reading through own writes sees what applying them now would leave. */
  lemma {:induction false} ReadSeesApplied(snapshot: Store, current: Store, ms: seq<Mutation>, stamp: Bytes, key: Bytes)
    requires KvMutations(ms) && IsPacked(key) && IsStamp(stamp)
    requires OwnWrite(ms, key).None? ==> Lookup(snapshot, key) == Lookup(current, key)
    ensures Read(snapshot, ms, key) == Lookup(ApplyAll(current, ms, stamp), key)
  {
    if ms != [] {
      var n := |ms| - 1;
      var m, before := ms[n], ApplyAll(current, ms[..n], stamp);
      assert m in ms;
      if !((m.Set? || m.Clear?) && m.key == key) {
        OtherMutation(before, m, stamp, key);
        assert OwnWrite(ms, key) == OwnWrite(ms[..n], key);
        ReadSeesApplied(snapshot, current, ms[..n], stamp, key);
      }
    }
  }

  lemma ChangeIsMutation(current: Store, ms: seq<Mutation>, key: Bytes, change: Change, stamp: Bytes)
    requires IsStamp(stamp) && Addressable(key)
    ensures ApplyAll(current, ms + MutationsOf(key, change), stamp)
         == ApplyChange(ApplyAll(current, ms, stamp), key, change, stamp)
  {
    var ms' := ms + MutationsOf(key, change);
    TemplateYieldsRow(key, stamp);
    if change.Preserve? {
      assert ms' == ms;
    } else {
      assert ms'[..|ms'| - 1] == ms;
    }
  }

  /** If no key read from the snapshot has changed since, a pass inside the transaction is the
      request run at once on the current state. */
  lemma {:induction false} AttemptIsSerial(req: Request, keys: seq<KeyRequest>, snapshot: Store, current: Store,
                                           readKeys: set<Bytes>, ms: seq<Mutation>, stamp: Bytes)
    requires KvMutations(ms) && IsStamp(stamp) && forall k <- keys :: Addressable(PackUserKey(req.ns, k.path))
    requires forall key <- Attempt(req.ns, keys, snapshot, readKeys, ms).readKeys :: Lookup(snapshot, key) == Lookup(current, key)
    ensures var a := Attempt(req.ns, keys, snapshot, readKeys, ms);
            Serially(req.ns, keys, ApplyAll(current, ms, stamp), stamp)
            == if a.Refused? then None else Some(ApplyAll(current, a.mutations, stamp))
  {
    if keys != [] {
      var k := keys[0];
      var key := PackUserKey(req.ns, k.path);
      var readKeys' := if k.check.Any? then readKeys else readKeys + ReadConflict(ms, key);
      var ms' := ms + MutationsOf(key, k.change);
      assert k in keys && IsUserKey(key) && IsPacked(key);
      MutationsOfAreKv(key, k.change);
      AttemptMutations(req, keys[1..], snapshot, readKeys', ms');
      if !k.check.Any? {
        ReadSeesApplied(snapshot, current, ms, stamp, key);
      }
      if Passes(k.check, Read(snapshot, ms, key)) {
        ChangeIsMutation(current, ms, key, k.change, stamp);
        AttemptIsSerial(req, keys[1..], snapshot, current, readKeys', ms', stamp);
      }
    }
  }

  // What checks and changes mean to the caller.

  /** One key: when a request goes through, whatever it changes. */
  lemma OneCheck(ns: Namespace, path: Bytes, check: Check, change: Change, store: Store)
    ensures var key := PackUserKey(ns, path);
            AttemptOn(Request(ns, [KeyRequest(path, check, change)]), store).Ready?
            <==> match check
                 case Any => true
                 case Absent => key !in store
                 case Equals(v) => key in store && store[key] == v
  {
    var req := Request(ns, [KeyRequest(path, check, change)]);
    AttemptNext(req, 0, store, {}, []);
    assert req.keys[0..] == req.keys && req.keys[1..] == [];
  }

  lemma {:induction false} SeriallyConcat(ns: Namespace, a: seq<KeyRequest>, b: seq<KeyRequest>, store: Store, stamp: Bytes)
    ensures Serially(ns, a + b, store, stamp)
         == match Serially(ns, a, store, stamp)
            case None => None
            case Some(s) => Serially(ns, b, s, stamp)
  {
    if a == [] {
      assert a + b == b;
    } else {
      var key := PackUserKey(ns, a[0].path);
      assert (a + b)[0] == a[0] && (a + b)[1..] == a[1..] + b;
      if Passes(a[0].check, Lookup(store, key)) {
        SeriallyConcat(ns, a[1..], b, ApplyChange(store, key, a[0].change, stamp), stamp);
      }
    }
  }

  /** The check of key number i finds what the keys before it have left not to be as asked. */
  ghost predicate CheckFails(ns: Namespace, keys: seq<KeyRequest>, i: nat, store: Store, stamp: Bytes)
    requires i < |keys|
  {
    var before := Serially(ns, keys[..i], store, stamp);
    var key := PackUserKey(ns, keys[i].path);
    before.Some? &&
    match keys[i].check
    case Any => false
    case Absent => key in before.value
    case Equals(v) => key !in before.value || before.value[key] != v
  }

  /** One more key: its check decides, and its change is made to what the keys before it have left. */
  lemma SeriallyStep(ns: Namespace, keys: seq<KeyRequest>, i: nat, store: Store, stamp: Bytes)
    requires i < |keys|
    ensures var before := Serially(ns, keys[..i], store, stamp);
            var key := PackUserKey(ns, keys[i].path);
            Serially(ns, keys[..i + 1], store, stamp)
            == if before.None? || CheckFails(ns, keys, i, store, stamp) then None
               else Some(match keys[i].change
                         case Preserve => before.value
                         case Delete => before.value - {key}
                         case Put(v) => before.value[key := v]
                         case Append(v) => before.value[key + [0x32] + stamp := v])
  {
    SeriallyConcat(ns, keys[..i], [keys[i]], store, stamp);
    assert keys[..i + 1] == keys[..i] + [keys[i]] && [keys[i]][1..] == [];
  }

  lemma SeriallyRefuses(ns: Namespace, keys: seq<KeyRequest>, i: nat, store: Store, stamp: Bytes)
    requires i < |keys|
    ensures Serially(ns, keys[..i + 1], store, stamp).None?
       <==> Serially(ns, keys[..i], store, stamp).None? || CheckFails(ns, keys, i, store, stamp)
  {
    SeriallyStep(ns, keys, i, store, stamp);
  }

  /** A request goes through exactly when no check fails. */
  lemma {:induction false} SeriallyChecks(ns: Namespace, keys: seq<KeyRequest>, n: nat, store: Store, stamp: Bytes)
    requires n <= |keys|
    ensures Serially(ns, keys[..n], store, stamp).None? <==> exists i :: 0 <= i < n && CheckFails(ns, keys, i, store, stamp)
  {
    if n > 0 {
      var last: nat := n - 1;
      SeriallyChecks(ns, keys, last, store, stamp);
      SeriallyRefuses(ns, keys, last, store, stamp);
      if i :| 0 <= i < last && CheckFails(ns, keys, i, store, stamp) {
        assert Serially(ns, keys[..last], store, stamp).None?;
      } else {
        assert Serially(ns, keys[..n], store, stamp).None? <==> CheckFails(ns, keys, last, store, stamp);
      }
    }
  }

  ghost predicate SomeCheckFails(req: Request, store: Store) {
    exists i :: 0 <= i < |req.keys| && CheckFails(req.ns, req.keys, i, store, ZERO_STAMP)
  }

  /** A try is refused exactly when some check fails on its snapshot, with the changes of the keys
      before it made. */
  lemma RefusalMeans(req: Request, snapshot: Store)
    requires ReasonableSize(req)
    ensures AttemptOn(req, snapshot).Refused? <==> SomeCheckFails(req, snapshot)
  {
    AttemptIsSerial(req, req.keys, snapshot, snapshot, {}, [], ZERO_STAMP);
    SeriallyChecks(req.ns, req.keys, |req.keys|, snapshot, ZERO_STAMP);
    assert req.keys[..|req.keys|] == req.keys;
  }
}
