/** Every interleaving of concurrent compare-and-set requests (src/api/kv/mod.rs): the runs are
    serializable, and versionstamped rows form an append-only log. */
module KvRuns {
  import opened Bytes
  import opened Tuple
  import opened UserKeys
  import opened Fdb
  import opened StampedRows
  import opened CompareAndSet

  datatype Commit = Commit(mutations: seq<Mutation>, stamp: Bytes)

  /** A handler at work: when it was called, and the version its current try reads. */
  datatype Client = Client(req: Request, begun: nat, snapshot: nat)

  /** An answered request and the version it took effect at. */
  datatype Answer = Answer(req: Request, ok: bool, wrote: bool, stamp: Bytes, begun: nat, at: nat, ended: nat)

  datatype State = State(versions: seq<Store>, commits: seq<Commit>, clients: map<nat, Client>, answers: seq<Answer>)
  {
    function Now(): nat { |commits| }
  }

  /** What may happen next: a call arrives, a handler finishes its try with a stamp the database
      would use, or it starts over on the newest version after a conflict or another retryable
      error. */
  datatype Event = Call(client: nat, req: Request) | Finish(client: nat, stamp: Bytes) | Retry(client: nat)

  const INITIAL := State([map[]], [], map[], [])

  predicate Conflicts(s: State, readKeys: set<Bytes>, since: nat)
    requires forall c <- s.commits :: IsStamp(c.stamp)
  {
    exists i :: since <= i < s.Now() && Targets(s.commits[i].mutations, s.commits[i].stamp) * readKeys != {}
  }

  predicate StampsIncrease(s: State) {
    && (forall c <- s.commits :: IsStamp(c.stamp))
    && (forall i, j :: 0 <= i < j < s.Now() ==> Lt(s.commits[i].stamp, s.commits[j].stamp))
  }

  /** The database stamps a commit above all before it. */
  predicate NextStamp(s: State, stamp: Bytes) {
    IsStamp(stamp) && Lt(ZERO_STAMP, stamp) && forall c <- s.commits :: Lt(c.stamp, stamp)
  }

  predicate Shaped(s: State) {
    && |s.versions| == s.Now() + 1
    && StampsIncrease(s)
    && forall c <- s.clients :: s.clients[c].begun <= s.clients[c].snapshot <= s.Now()
  }

  function Done(s: State, client: nat, ok: bool, wrote: bool, stamp: Bytes, at: nat): State
    requires client in s.clients
  {
    var c := s.clients[client];
    s.(clients := s.clients - {client},
       answers := s.answers + [Answer(c.req, ok, wrote, stamp, c.begun, at, s.Now())])
  }

  /** One step; an event that cannot happen changes nothing. */
  function Do(s: State, e: Event): State
    requires Shaped(s)
  {
    match e
    case Call(client, req) =>
      if client in s.clients || !ReasonableSize(req) then s
      else s.(clients := s.clients[client := Client(req, s.Now(), s.Now())])
    case Retry(client) =>
      if client !in s.clients then s
      else s.(clients := s.clients[client := s.clients[client].(snapshot := s.Now())])
    case Finish(client, stamp) =>
      if client !in s.clients then s
      else
        var c := s.clients[client];
        match AttemptOn(c.req, s.versions[c.snapshot])
        case Refused(_) => Done(s, client, false, false, ZERO_STAMP, c.snapshot)
        case Ready(readKeys, ms) =>
          if ms == [] then Done(s, client, true, false, ZERO_STAMP, c.snapshot)
          else if Conflicts(s, readKeys, c.snapshot) || !NextStamp(s, stamp) then s
          else
            Done(s.(versions := s.versions + [ApplyAll(s.versions[s.Now()], ms, stamp)],
                    commits := s.commits + [Commit(ms, stamp)]),
                 client, true, true, stamp, s.Now())
  }

  // The invariant.

  ghost predicate History(s: State)
    requires Shaped(s)
  {
    && s.versions[0] == map[]
    && (forall c <- s.commits :: KvMutations(c.mutations))
    && (forall i :: 0 <= i < s.Now() ==>
          s.versions[i + 1] == ApplyAll(s.versions[i], s.commits[i].mutations, s.commits[i].stamp))
  }

  /** The answer is the one the request gets when run at once at version `at`, which lies between
      call and answer; a request that wrote is the commit after that version. */
  predicate Explained(versions: seq<Store>, commits: seq<Commit>, a: Answer)
    requires |versions| == |commits| + 1
  {
    && a.begun <= a.at <= a.ended <= |commits|
    && (a.wrote ==> a.at < a.ended && a.stamp == commits[a.at].stamp)
    && Serially(a.req.ns, a.req.keys, versions[a.at], a.stamp)
       == (if !a.ok then None else Some(versions[if a.wrote then a.at + 1 else a.at]))
    && (a.wrote ==> a.ok)
  }

  /** The answers that took effect at one version, writing or not. */
  function AtVersion(answers: seq<Answer>, at: nat, wrote: bool): seq<Answer> {
    if answers == [] then []
    else (if answers[0].at == at && answers[0].wrote == wrote then [answers[0]] else [])
         + AtVersion(answers[1..], at, wrote)
  }

  ghost predicate Inv(s: State) {
    && Shaped(s)
    && History(s)
    && (forall c <- s.clients :: ReasonableSize(s.clients[c].req))
    && (forall a <- s.answers :: Explained(s.versions, s.commits, a))
    && (forall i :: 0 <= i < s.Now() ==> |AtVersion(s.answers, i, true)| == 1)
  }

  lemma {:induction false} AtVersionConcat(xs: seq<Answer>, ys: seq<Answer>, at: nat, wrote: bool)
    ensures AtVersion(xs + ys, at, wrote) == AtVersion(xs, at, wrote) + AtVersion(ys, at, wrote)
  {
    if xs == [] {
      assert xs + ys == ys;
    } else {
      assert (xs + ys)[0] == xs[0] && (xs + ys)[1..] == xs[1..] + ys;
      AtVersionConcat(xs[1..], ys, at, wrote);
      var first := if xs[0].at == at && xs[0].wrote == wrote then [xs[0]] else [];
      assert AtVersion(xs + ys, at, wrote) == first + AtVersion(xs[1..] + ys, at, wrote);
    }
  }

  lemma {:induction false} AtVersionSound(xs: seq<Answer>, at: nat, wrote: bool)
    ensures forall a <- AtVersion(xs, at, wrote) :: a in xs && a.at == at && a.wrote == wrote
  {
    if xs != [] {
      AtVersionSound(xs[1..], at, wrote);
    }
  }

  /** Keys no commit since has written are as they were. */
  lemma {:induction false} Unconflicted(s: State, readKeys: set<Bytes>, since: nat, upTo: nat)
    requires Shaped(s) && History(s) && since <= upTo <= s.Now() && !Conflicts(s, readKeys, since)
    ensures forall k <- readKeys :: Lookup(s.versions[since], k) == Lookup(s.versions[upTo], k)
    decreases upTo
  {
    if since < upTo {
      Unconflicted(s, readKeys, since, upTo - 1);
      var c := s.commits[upTo - 1];
      forall k <- readKeys ensures Lookup(s.versions[upTo - 1], k) == Lookup(s.versions[upTo], k) {
        assert k !in Targets(c.mutations, c.stamp) * readKeys;
        ApplyFrame(s.versions[upTo - 1], c.mutations, c.stamp, k);
      }
    }
  }

  /** A read-only or refused try is explained by its snapshot. */
  lemma SnapshotExplains(s: State, client: nat)
    requires Inv(s) && client in s.clients
    requires var c := s.clients[client];
             var a := AttemptOn(c.req, s.versions[c.snapshot]); a.Refused? || a.mutations == []
    ensures var c := s.clients[client];
            var ok := AttemptOn(c.req, s.versions[c.snapshot]).Ready?;
            Explained(s.versions, s.commits, Answer(c.req, ok, false, ZERO_STAMP, c.begun, c.snapshot, s.Now()))
  {
    var c := s.clients[client];
    AttemptIsSerial(c.req, c.req.keys, s.versions[c.snapshot], s.versions[c.snapshot], {}, [], ZERO_STAMP);
  }

  /** A writing try is explained by the newest version. */
  lemma CommitExplains(s: State, client: nat, stamp: Bytes)
    requires Inv(s) && client in s.clients && NextStamp(s, stamp)
    requires var c := s.clients[client];
             var a := AttemptOn(c.req, s.versions[c.snapshot]); a.Ready? && !Conflicts(s, a.readKeys, c.snapshot)
    ensures var c := s.clients[client];
            var ms := AttemptOn(c.req, s.versions[c.snapshot]).mutations;
            && KvMutations(ms)
            && Serially(c.req.ns, c.req.keys, s.versions[s.Now()], stamp) == Some(ApplyAll(s.versions[s.Now()], ms, stamp))
  {
    var c := s.clients[client];
    var snapshot := s.versions[c.snapshot];
    Unconflicted(s, AttemptOn(c.req, snapshot).readKeys, c.snapshot, s.Now());
    AttemptMutations(c.req, c.req.keys, snapshot, {}, []);
    AttemptIsSerial(c.req, c.req.keys, snapshot, s.versions[s.Now()], {}, [], stamp);
  }

  lemma ReadOnlyDone(s: State, client: nat)
    requires Inv(s) && client in s.clients
    requires var c := s.clients[client];
             var a := AttemptOn(c.req, s.versions[c.snapshot]); a.Refused? || a.mutations == []
    ensures var c := s.clients[client];
            Inv(Done(s, client, AttemptOn(c.req, s.versions[c.snapshot]).Ready?, false, ZERO_STAMP, c.snapshot))
  {
    var c := s.clients[client];
    SnapshotExplains(s, client);
    var a := Answer(c.req, AttemptOn(c.req, s.versions[c.snapshot]).Ready?, false, ZERO_STAMP, c.begun, c.snapshot, s.Now());
    forall i | 0 <= i < s.Now() ensures |AtVersion(s.answers + [a], i, true)| == 1 {
      AtVersionConcat(s.answers, [a], i, true);
    }
  }

  lemma {:induction false} NoWriter(xs: seq<Answer>, at: nat)
    requires forall a <- xs :: !(a.at == at && a.wrote)
    ensures AtVersion(xs, at, true) == []
  {
    if xs != [] {
      NoWriter(xs[1..], at);
    }
  }

  ghost predicate Commits(s: State, client: nat, stamp: Bytes)
    requires Inv(s)
  {
    && client in s.clients && NextStamp(s, stamp)
    && var c := s.clients[client];
       var a := AttemptOn(c.req, s.versions[c.snapshot]);
       a.Ready? && a.mutations != [] && !Conflicts(s, a.readKeys, c.snapshot)
  }

  lemma OneWriterMore(answers: seq<Answer>, n: nat, a: Answer)
    requires AtVersion(answers, n, true) == [] && a.wrote && a.at == n
    requires forall i :: 0 <= i < n ==> |AtVersion(answers, i, true)| == 1
    ensures forall i :: 0 <= i < n + 1 ==> |AtVersion(answers + [a], i, true)| == 1
  {
    forall i | 0 <= i < n + 1 ensures |AtVersion(answers + [a], i, true)| == 1 {
      AtVersionConcat(answers, [a], i, true);
    }
  }

  function Extended(s: State, client: nat, ms: seq<Mutation>, stamp: Bytes): State
    requires Shaped(s) && client in s.clients && IsStamp(stamp)
  {
    var c := s.clients[client];
    State(s.versions + [ApplyAll(s.versions[s.Now()], ms, stamp)], s.commits + [Commit(ms, stamp)],
          s.clients - {client},
          s.answers + [Answer(c.req, true, true, stamp, c.begun, s.Now(), s.Now() + 1)])
  }

  lemma CommitExtends(s: State, client: nat, stamp: Bytes)
    requires Inv(s) && Commits(s, client, stamp)
    ensures var c := s.clients[client];
            Do(s, Finish(client, stamp)) == Extended(s, client, AttemptOn(c.req, s.versions[c.snapshot]).mutations, stamp)
  {
  }

  lemma ExtendedHistory(s: State, client: nat, ms: seq<Mutation>, stamp: Bytes)
    requires Shaped(s) && History(s) && client in s.clients && NextStamp(s, stamp) && KvMutations(ms)
    ensures Shaped(Extended(s, client, ms, stamp)) && History(Extended(s, client, ms, stamp))
  {
  }

  lemma ExtendedKeepsInv(s: State, client: nat, ms: seq<Mutation>, stamp: Bytes)
    requires Inv(s) && client in s.clients && NextStamp(s, stamp) && KvMutations(ms)
    requires var c := s.clients[client];
             Serially(c.req.ns, c.req.keys, s.versions[s.Now()], stamp) == Some(ApplyAll(s.versions[s.Now()], ms, stamp))
    ensures Inv(Extended(s, client, ms, stamp))
  {
    var s', n := Extended(s, client, ms, stamp), s.Now();
    var a := s'.answers[|s.answers|];
    ExtendedHistory(s, client, ms, stamp);
    assert forall b <- s.answers :: Explained(s.versions, s.commits, b);
    forall b <- s.answers ensures Explained(s'.versions, s'.commits, b) {
      StillExplained(s, s', b);
    }
    NoWriter(s.answers, n);
    OneWriterMore(s.answers, n, a);
  }

  lemma StillExplained(s: State, s': State, b: Answer)
    requires |s.versions| == s.Now() + 1 && |s'.versions| == s'.Now() + 1 == s.Now() + 2
    requires s'.versions[..s.Now() + 1] == s.versions && s'.commits[..s.Now()] == s.commits
    requires Explained(s.versions, s.commits, b)
    ensures Explained(s'.versions, s'.commits, b)
  {
    assert s'.versions[b.at] == s.versions[b.at];
    if b.wrote {
      assert s'.versions[b.at + 1] == s.versions[b.at + 1] && s'.commits[b.at] == s.commits[b.at];
    }
  }

  lemma WriterDone(s: State, client: nat, stamp: Bytes)
    requires Inv(s) && Commits(s, client, stamp)
    ensures Inv(Do(s, Finish(client, stamp)))
  {
    var c := s.clients[client];
    CommitExtends(s, client, stamp);
    CommitExplains(s, client, stamp);
    ExtendedKeepsInv(s, client, AttemptOn(c.req, s.versions[c.snapshot]).mutations, stamp);
  }

  lemma StepKeepsInv(s: State, e: Event)
    requires Inv(s)
    ensures Inv(Do(s, e))
  {
    match e
    case Call(_, _) =>
    case Retry(_) =>
    case Finish(client, stamp) =>
      if client in s.clients {
        var c := s.clients[client];
        var a := AttemptOn(c.req, s.versions[c.snapshot]);
        if a.Refused? || a.mutations == [] {
          ReadOnlyDone(s, client);
        } else if !Conflicts(s, a.readKeys, c.snapshot) && NextStamp(s, stamp) {
          WriterDone(s, client, stamp);
        }
      }
  }

  /** The state after any list of events, in any interleaving. */
  ghost function Run(events: seq<Event>): (s: State)
    ensures Inv(s)
  {
    if events == [] then INITIAL
    else
      var s := Run(events[..|events| - 1]);
      StepKeepsInv(s, events[|events| - 1]);
      Do(s, events[|events| - 1])
  }

  // Serial order.

  /** Versions in turn: first what only read the version, then what wrote the next one. */
  function SerialOrder(answers: seq<Answer>, n: nat): seq<Answer> {
    if n == 0 then AtVersion(answers, 0, false)
    else SerialOrder(answers, n - 1) + AtVersion(answers, n - 1, true) + AtVersion(answers, n, false)
  }

  /** Runs the requests one at a time; Some only if each gets the answer it got. */
  function Replay(order: seq<Answer>, store: Store): Option<Store> {
    if order == [] then Some(store)
    else
      var a := order[0];
      var r := Serially(a.req.ns, a.req.keys, store, a.stamp);
      if r.Some? != a.ok then None
      else Replay(order[1..], if r.Some? then r.value else store)
  }

  lemma {:induction false} ReplayConcat(xs: seq<Answer>, ys: seq<Answer>, store: Store)
    requires Replay(xs, store).Some?
    ensures Replay(xs + ys, store) == Replay(ys, Replay(xs, store).value)
  {
    if xs == [] {
      assert xs + ys == ys;
    } else {
      assert (xs + ys)[1..] == xs[1..] + ys;
      var r := Serially(xs[0].req.ns, xs[0].req.keys, store, xs[0].stamp);
      ReplayConcat(xs[1..], ys, if r.Some? then r.value else store);
    }
  }

  lemma {:induction false} ReplayReaders(s: State, readers: seq<Answer>, at: nat)
    requires Inv(s) && at <= s.Now() && forall a <- readers :: a in s.answers && a.at == at && !a.wrote
    ensures Replay(readers, s.versions[at]) == Some(s.versions[at])
  {
    if readers != [] {
      assert readers[0] in readers && Explained(s.versions, s.commits, readers[0]);
      ReplayReaders(s, readers[1..], at);
    }
  }

  lemma ReplayWriter(s: State, at: nat)
    requires Inv(s) && at < s.Now()
    ensures Replay(AtVersion(s.answers, at, true), s.versions[at]) == Some(s.versions[at + 1])
  {
    var w := AtVersion(s.answers, at, true);
    AtVersionSound(s.answers, at, true);
    assert |w| == 1 && w[0] in w && w[0] in s.answers;
    assert Explained(s.versions, s.commits, w[0]);
    assert w[1..] == [];
    assert Replay(w[1..], s.versions[at + 1]) == Some(s.versions[at + 1]);
  }

  lemma ReplayInTurn(xs: seq<Answer>, ys: seq<Answer>, zs: seq<Answer>, a: Store, b: Store, c: Store, d: Store)
    requires Replay(xs, a) == Some(b) && Replay(ys, b) == Some(c) && Replay(zs, c) == Some(d)
    ensures Replay(xs + ys + zs, a) == Some(d)
  {
    ReplayConcat(xs, ys, a);
    ReplayConcat(xs + ys, zs, a);
  }

  /** If at each version the readers leave it and the writer takes it to the next, then replaying
      the serial order walks through the versions. */
  lemma {:induction false} ReplayVersions(answers: seq<Answer>, versions: seq<Store>, n: nat)
    requires n < |versions|
    requires forall i :: 0 <= i <= n ==> Replay(AtVersion(answers, i, false), versions[i]) == Some(versions[i])
    requires forall i :: 0 <= i < n ==> Replay(AtVersion(answers, i, true), versions[i]) == Some(versions[i + 1])
    ensures Replay(SerialOrder(answers, n), versions[0]) == Some(versions[n])
  {
    if n > 0 {
      ReplayVersions(answers, versions, n - 1);
      ReplayInTurn(SerialOrder(answers, n - 1), AtVersion(answers, n - 1, true), AtVersion(answers, n, false),
                   versions[0], versions[n - 1], versions[n], versions[n]);
    }
  }

  lemma ReplayRun(s: State)
    requires Inv(s)
    ensures Replay(SerialOrder(s.answers, s.Now()), map[]) == Some(s.versions[s.Now()])
  {
    forall i | 0 <= i <= s.Now() ensures Replay(AtVersion(s.answers, i, false), s.versions[i]) == Some(s.versions[i]) {
      AtVersionSound(s.answers, i, false);
      ReplayReaders(s, AtVersion(s.answers, i, false), i);
    }
    forall i | 0 <= i < s.Now() ensures Replay(AtVersion(s.answers, i, true), s.versions[i]) == Some(s.versions[i + 1]) {
      ReplayWriter(s, i);
    }
    ReplayVersions(s.answers, s.versions, s.Now());
  }

  function Count(xs: seq<Answer>, a: Answer): nat {
    if xs == [] then 0 else (if xs[0] == a then 1 else 0) + Count(xs[1..], a)
  }

  lemma {:induction false} CountIsMultiplicity(xs: seq<Answer>, a: Answer)
    ensures Count(xs, a) == multiset(xs)[a]
  {
    if xs != [] {
      CountIsMultiplicity(xs[1..], a);
      assert xs == [xs[0]] + xs[1..];
    }
  }

  lemma {:induction false} CountConcat(xs: seq<Answer>, ys: seq<Answer>, a: Answer)
    ensures Count(xs + ys, a) == Count(xs, a) + Count(ys, a)
  {
    if xs == [] {
      assert xs + ys == ys;
    } else {
      assert (xs + ys)[1..] == xs[1..] + ys;
      CountConcat(xs[1..], ys, a);
    }
  }

  lemma {:induction false} CountAtVersion(xs: seq<Answer>, at: nat, wrote: bool, a: Answer)
    ensures Count(AtVersion(xs, at, wrote), a) == if a.at == at && a.wrote == wrote then Count(xs, a) else 0
  {
    if xs != [] {
      CountAtVersion(xs[1..], at, wrote, a);
      var rest := AtVersion(xs[1..], at, wrote);
      assert ([xs[0]] + rest)[1..] == rest && [] + rest == rest;
    }
  }

  lemma CountInTurn(xs: seq<Answer>, ys: seq<Answer>, zs: seq<Answer>, a: Answer)
    ensures Count(xs + ys + zs, a) == Count(xs, a) + Count(ys, a) + Count(zs, a)
  {
    CountConcat(xs, ys, a);
    CountConcat(xs + ys, zs, a);
  }

  /** How often an answer took effect up to a version, as a number. */
  function CountUpTo(xs: seq<Answer>, n: nat, a: Answer): nat {
    if a.at < n || (a.at == n && !a.wrote) then Count(xs, a) else 0
  }

  lemma CountOneVersion(xs: seq<Answer>, n: nat, before: seq<Answer>, a: Answer)
    requires n > 0 && Count(before, a) == CountUpTo(xs, n - 1, a)
    ensures Count(before + AtVersion(xs, n - 1, true) + AtVersion(xs, n, false), a) == CountUpTo(xs, n, a)
  {
    CountAtVersion(xs, n, false, a);
    CountAtVersion(xs, n - 1, true, a);
    CountInTurn(before, AtVersion(xs, n - 1, true), AtVersion(xs, n, false), a);
  }

  lemma {:induction false} CountSerialOrder(xs: seq<Answer>, n: nat, a: Answer)
    ensures Count(SerialOrder(xs, n), a) == CountUpTo(xs, n, a)
  {
    if n == 0 {
      CountAtVersion(xs, 0, false, a);
    } else {
      CountSerialOrder(xs, n - 1, a);
      CountOneVersion(xs, n, SerialOrder(xs, n - 1), a);
    }
  }

  /** Main result: in every run the answered requests have an order, a permutation of them all, in
      which running them one at a time from the empty store gives every request its answer and
      ends in the store of the run. Each takes effect between its call and its answer. */
  lemma RunsAreSerializable(events: seq<Event>)
    ensures var s := Run(events);
            && multiset(SerialOrder(s.answers, s.Now())) == multiset(s.answers)
            && Replay(SerialOrder(s.answers, s.Now()), map[]) == Some(s.versions[s.Now()])
            && forall a <- s.answers :: a.begun <= a.at <= a.ended && (a.wrote ==> a.at < a.ended)
  {
    var s := Run(events);
    ReplayRun(s);
    forall a: Answer ensures multiset(SerialOrder(s.answers, s.Now()))[a] == multiset(s.answers)[a] {
      CountSerialOrder(s.answers, s.Now(), a);
      CountIsMultiplicity(SerialOrder(s.answers, s.Now()), a);
      CountIsMultiplicity(s.answers, a);
      if a in s.answers {
        assert Explained(s.versions, s.commits, a);
      }
    }
  }

  lemma RunMore(events: seq<Event>, e: Event)
    ensures Run(events + [e]) == Do(Run(events), e)
  {
    assert (events + [e])[..|events|] == events;
  }

  /** A try on the newest version ends in an answer, whatever it is. */
  lemma NewestAnswers(s: State, client: nat, stamp: Bytes)
    requires Inv(s) && client in s.clients && s.clients[client].snapshot == s.Now() && NextStamp(s, stamp)
    ensures var s' := Do(s, Finish(client, stamp));
            && s'.clients == s.clients - {client}
            && |s'.answers| == |s.answers| + 1 && s.answers <= s'.answers
            && s'.answers[|s.answers|].req == s.clients[client].req
            && s'.answers[|s.answers|].at == s.Now()
  {
    var c := s.clients[client];
    var a := AttemptOn(c.req, s.versions[c.snapshot]);
    assert a.Ready? ==> !Conflicts(s, a.readKeys, c.snapshot);
  }

  /** A handler that starts over, and is not disturbed before its next try ends, answers. */
  lemma UndisturbedAnswers(events: seq<Event>, client: nat, stamp: Bytes)
    requires client in Run(events).clients && NextStamp(Run(events), stamp)
    ensures var s, s' := Run(events), Run(events + [Retry(client)] + [Finish(client, stamp)]);
            && s'.clients == s.clients - {client}
            && |s'.answers| == |s.answers| + 1 && s.answers <= s'.answers
            && s'.answers[|s.answers|].req == s.clients[client].req
            && s'.answers[|s.answers|].at == s.Now()
  {
    var s := Run(events);
    RunMore(events, Retry(client));
    RunMore(events + [Retry(client)], Finish(client, stamp));
    var s1 := Run(events + [Retry(client)]);
    assert s1.clients - {client} == s.clients - {client};
    NewestAnswers(s1, client, stamp);
  }

  /** What an answer says: a request was refused exactly when one of its checks fails on the version
      it took effect at, with the changes of its earlier keys made. */
  lemma RefusedAnswerMeans(events: seq<Event>, a: Answer)
    requires a in Run(events).answers
    ensures var s := Run(events);
            && a.at < |s.versions|
            && (!a.ok <==> exists i :: 0 <= i < |a.req.keys| && CheckFails(a.req.ns, a.req.keys, i, s.versions[a.at], a.stamp))
  {
    var s := Run(events);
    assert Explained(s.versions, s.commits, a);
    SeriallyChecks(a.req.ns, a.req.keys, |a.req.keys|, s.versions[a.at], a.stamp);
    assert a.req.keys[..|a.req.keys|] == a.req.keys;
  }

  // The append-only log.

  /** A request neither clears nor overwrites a row of an earlier commit. */
  lemma {:induction false} RowsUntouched(store: Store, ms: seq<Mutation>, stamp: Bytes, segs: seq<Bytes>, old_: Bytes)
    requires KvMutations(ms) && IsStamp(stamp) && IsStamp(old_) && old_ != stamp
    ensures Lookup(ApplyAll(store, ms, stamp), RowKey(Pack(segs), old_)) == Lookup(store, RowKey(Pack(segs), old_))
  {
    if ms != [] {
      var n := |ms| - 1;
      var m := ms[n];
      assert m in ms;
      RowsUntouched(store, ms[..n], stamp, segs, old_);
      if m.StampedKey? {
        var base :| IsUserKey(base) && Addressable(base) && m.template == RowTemplate(base);
        TemplateYieldsRow(base, stamp);
        RowsDistinctAndOrdered(base, Pack(segs), stamp, old_);
      } else {
        var k := UserKeyIsPacked(m.key);
        RowIsNoPathKey(segs, old_, k);
      }
    }
  }

  /** Rows carry the stamp of a commit no later than the version they are in. */
  lemma {:induction false} RowsAreStamped(s: State, n: nat, segs: seq<Bytes>, stamp: Bytes)
    requires Inv(s) && n <= s.Now() && IsStamp(stamp) && RowKey(Pack(segs), stamp) in s.versions[n]
    ensures exists i :: 0 <= i < n && s.commits[i].stamp == stamp
  {
    if n > 0 && s.commits[n - 1].stamp != stamp {
      var c := s.commits[n - 1];
      assert s.versions[n] == ApplyAll(s.versions[n - 1], c.mutations, c.stamp);
      RowsUntouched(s.versions[n - 1], c.mutations, c.stamp, segs, stamp);
      assert Lookup(s.versions[n], RowKey(Pack(segs), stamp)).Some?;
      RowsAreStamped(s, n - 1, segs, stamp);
    }
  }

  /** A later commit has another stamp. */
  lemma StampsDiffer(s: State, k: nat, j: nat)
    requires Inv(s) && k < j < s.Now()
    ensures s.commits[k].stamp != s.commits[j].stamp
  {
    LtIrreflexive(s.commits[k].stamp);
  }

  lemma {:induction false} RowStays(s: State, i: nat, j: nat, segs: seq<Bytes>, stamp: Bytes)
    requires Inv(s) && i <= j <= s.Now() && IsStamp(stamp) && RowKey(Pack(segs), stamp) in s.versions[i]
    ensures Lookup(s.versions[j], RowKey(Pack(segs), stamp)) == Lookup(s.versions[i], RowKey(Pack(segs), stamp))
    decreases j
  {
    if i < j {
      RowStays(s, i, j - 1, segs, stamp);
      RowsAreStamped(s, i, segs, stamp);
      var k :| 0 <= k < i && s.commits[k].stamp == stamp;
      StampsDiffer(s, k, j - 1);
      var c := s.commits[j - 1];
      assert c in s.commits && s.versions[j] == ApplyAll(s.versions[j - 1], c.mutations, c.stamp);
      RowsUntouched(s.versions[j - 1], c.mutations, c.stamp, segs, stamp);
    }
  }

  /** Main result: over any run a row, once there, keeps its value in every later version, whatever
      requests follow. */
  lemma LogIsAppendOnly(events: seq<Event>, i: nat, j: nat, segs: seq<Bytes>, stamp: Bytes)
    requires var s := Run(events); i <= j <= s.Now() && IsStamp(stamp) && RowKey(Pack(segs), stamp) in s.versions[i]
    ensures var s := Run(events); var row := RowKey(Pack(segs), stamp);
            Lookup(s.versions[j], row) == Lookup(s.versions[i], row)
  {
    RowStays(Run(events), i, j, segs, stamp);
  }
}
