/** That a subscriber can always catch up: from every reachable state some steps of the server and the
    client, with no publisher needed, bring it all messages there are (src/pubsub/sse.rs:83-191). */
module SseCatchUp {
  import opened Bytes
  import opened Sequences
  import opened Tuple
  import opened Fdb
  import opened MqKeys
  import opened Mq
  import opened MqPop
  import opened SseRuns
  import opened SseLoop
  import opened SseTasks
  import SseFormat

  /** Nothing stored in a pop's range comes before the next message. */
  lemma NextIsFirst(prefix: Bytes, t: Topic, events: seq<Event>, c: Bytes, k: Bytes)
    requires Possible(prefix, events) && ValidTopic(prefix, t) && IsStamp(c) && After(Rows(events, t), c) != []
    requires var range := PopRange(prefix, t, c); k in StoreOf(prefix, events) && InRange(k, range.0, range.1)
    ensures !Lt(k, DataKey(prefix, t, After(Rows(events, t), c)[0].stamp))
  {
    var next := After(Rows(events, t), c);
    var keys := KeysOf(prefix, t, next);
    RowsAscend(prefix, events, t);
    AfterMeans(Rows(events, t), c);
    RangeHoldsAfter(prefix, events, t, c, k);
    var i :| 0 <= i < |keys| && keys[i] == k;
    if i > 0 {
      KeysOrdered(prefix, t, next, 0, i);
    }
    LtTrichotomy(k, keys[0]);
  }

  /** The database may answer a pop's range read with the next message alone. */
  lemma NextIsReadable(prefix: Bytes, t: Topic, events: seq<Event>, c: Bytes, n: nat)
    requires Possible(prefix, events) && ValidTopic(prefix, t) && IsStamp(c) && n > 0 && After(Rows(events, t), c) != []
    ensures Readable(prefix, t, c, n, Try(StoreOf(prefix, events), [DataKey(prefix, t, After(Rows(events, t), c)[0].stamp)]))
  {
    var range := PopRange(prefix, t, c);
    AfterIsInRange(prefix, events, t, c, 0);
    forall k | k in StoreOf(prefix, events) && InRange(k, range.0, range.1)
      ensures !Lt(k, DataKey(prefix, t, After(Rows(events, t), c)[0].stamp))
    {
      NextIsFirst(prefix, t, events, c, k);
    }
  }

  lemma ReadsOne(store: Store, key: Bytes, stripLen: nat, row: Row)
    requires key in store && |key| == stripLen + 10 && Row(key[stripLen..], store[key]) == row
    ensures RowsRead(store, [key], stripLen) == Some([row])
  {
    var rows := RowsRead(store, [key], stripLen);
    assert rows.Some? && rows.value == [rows.value[0]];
  }

  /** A connection at rest, its client having received all that was sent. */
  function AtRest(n: nat, first: Bytes, c: Bytes): Conn {
    Conn(true, n, first, c, Polling, [])
  }

  function Resting(s: State, n: nat, first: Bytes, c: Bytes, got: seq<Row>): State {
    s.(conn := Some(AtRest(n, first, c)), lastId := Some(c), got := got)
  }

  /** A pop that reads the next message alone gives it. */
  lemma NextIsPopped(prefix: Bytes, t: Topic, events: seq<Event>, n: nat, c: Bytes, p: nat) returns (try: Try)
    requires ValidTopic(prefix, t) && Possible(prefix, events) && n > 0
    requires At(Rows(events, t), c, p) && p < |Rows(events, t)|
    ensures try.store == StoreOf(prefix, events) && BatchStored(try) && Readable(prefix, t, c, n, try)
    ensures PopResult(prefix, t, c, true, [try]) == Popped.Popped([Rows(events, t)[p]])
  {
    var rows, next := Rows(events, t), Rows(events, t)[p];
    CounterIsLast(prefix, t, events);
    CounterTells(rows, c, p);
    AfterAt(rows, c, p);
    assert After(rows, c)[0] == next;
    NextIsReadable(prefix, t, events, c, n);
    KeyReadBack(prefix, events, t, c, 0);
    var key := DataKey(prefix, t, next.stamp);
    try := Try(StoreOf(prefix, events), [key]);
    ReadsOne(try.store, key, StripLength(prefix, t), next);
    assert [try][0] == try;
  }

  /** What is sent of a batch of one. */
  lemma SendsOne(c: Conn, row: Row)
    requires c.wait && c.phase == Sending([row], 0) && SseFormat.Encodable(row.data)
    ensures SendAll(Link(c, 1)).conn
         == c.(phase := Polling, cursor := row.stamp, channel := c.channel + [Message(row)])
  {
    var c1 := Sent(c);
    assert c1.phase.sent == |c1.phase.batch|;
    assert SendAll(Link(c, 1)) == SendAll(Link(c1, 0));
  }

  lemma ReceivesOne(prefix: Bytes, t: Topic, s: State, c: Conn, row: Row)
    requires s.conn == Some(c) && c.channel == [Message(row)] && s.start.Some?
    ensures Do(prefix, t, s, Receive)
         == s.(conn := Some(c.(channel := [])), lastId := Some(row.stamp), got := s.got + [row])
  {
    assert [Message(row)][1..] == [];
  }

  lemma PopsOne(prefix: Bytes, t: Topic, s: State, c: Conn, p: nat) returns (steps: seq<Step>)
    requires ValidTopic(prefix, t) && Possible(prefix, s.events) && c.n > 0 && c.wait && Looking(s, c)
    requires At(Rows(s.events, t), c.cursor, p) && p < |Rows(s.events, t)|
    ensures DoAll(prefix, t, s, steps) == With(s, s.events, c.(phase := Sending([Rows(s.events, t)[p]], 0)))
  {
    var try := NextIsPopped(prefix, t, s.events, c.n, c.cursor, p);
    assert ReadsAt(prefix, t, c, s.events, try);
    steps := TrySteps(prefix, t, s, c, try);
  }

  lemma SendsAndReceives(prefix: Bytes, t: Topic, s: State, c: Conn, row: Row) returns (steps: seq<Step>)
    requires s.conn == Some(c) && c.wait && c.phase == Sending([row], 0) && c.channel == [] && s.start.Some?
    requires SseFormat.Encodable(row.data)
    ensures DoAll(prefix, t, s, steps)
         == s.(conn := Some(c.(phase := Polling, cursor := row.stamp)), lastId := Some(row.stamp), got := s.got + [row])
  {
    var send := SendSteps(prefix, t, s, Link(c, 1));
    SendsOne(c, row);
    var sent := c.(phase := Polling, cursor := row.stamp, channel := [Message(row)]);
    assert c.channel + [Message(row)] == [Message(row)];
    var s2 := s.(conn := Some(sent));
    assert DoAll(prefix, t, s, send) == s2;
    ReceivesOne(prefix, t, s2, sent, row);
    DoOne(prefix, t, s2, Receive);
    DoAllConcat(prefix, t, s, send, [Receive]);
    steps := send + [Receive];
  }

  /** One message goes from the store to the client. */
  lemma OneMessageArrives(prefix: Bytes, t: Topic, s: State, n: nat, first: Bytes, c: Bytes, p: nat) returns (steps: seq<Step>)
    requires ValidTopic(prefix, t) && Possible(prefix, s.events) && n > 0 && s.start.Some?
    requires s.conn == Some(AtRest(n, first, c)) && At(Rows(s.events, t), c, p) && p < |Rows(s.events, t)|
    requires SseFormat.Encodable(Rows(s.events, t)[p].data)
    ensures var next := Rows(s.events, t)[p];
            DoAll(prefix, t, s, steps) == Resting(s, n, first, next.stamp, s.got + [next])
  {
    var next := Rows(s.events, t)[p];
    var pop := PopsOne(prefix, t, s, AtRest(n, first, c), p);
    var sending := AtRest(n, first, c).(phase := Sending([next], 0));
    var send := SendsAndReceives(prefix, t, With(s, s.events, sending), sending, next);
    DoAllConcat(prefix, t, s, pop, send);
    steps := pop + send;
  }

  /** All messages after the first p, one by one. */
  lemma {:induction false} AllArrive(prefix: Bytes, t: Topic, s: State, n: nat, first: Bytes, c: Bytes, p: nat)
    returns (steps: seq<Step>)
    requires ValidTopic(prefix, t) && Possible(prefix, s.events) && n > 0 && s.start.Some?
    requires s.conn == Some(AtRest(n, first, c)) && s.lastId == Some(c) && At(Rows(s.events, t), c, p)
    requires forall i :: p <= i < |Rows(s.events, t)| ==> SseFormat.Encodable(Rows(s.events, t)[i].data)
    ensures var s' := DoAll(prefix, t, s, steps);
            s'.events == s.events && s'.start == s.start && s'.got == s.got + Rows(s.events, t)[p..]
    decreases |Rows(s.events, t)| - p
  {
    var rows := Rows(s.events, t);
    if p == |rows| {
      steps := [];
      assert s.got + rows[p..] == s.got;
    } else {
      RowsAscend(prefix, s.events, t);
      assert GoodStamp(rows, p);
      var one := OneMessageArrives(prefix, t, s, n, first, c, p);
      var s' := Resting(s, n, first, rows[p].stamp, s.got + [rows[p]]);
      var more := AllArrive(prefix, t, s', n, first, rows[p].stamp, p + 1);
      DoAllConcat(prefix, t, s, one, more);
      steps := one + more;
      Regroup(s.got, rows[p..]);
      assert rows[p..][0] == rows[p] && rows[p..][1..] == rows[p + 1..];
    }
  }

  function Return(n: nat): seq<Step> {
    [Disconnect] + [Connect(true, n)] + [Serve([])] + [Receive]
  }

  lemma FirstFrame(prefix: Bytes, t: Topic, s: State, n: nat, id: Bytes)
    requires s.conn == Some(Conn(true, n, id, id, Starting, [])) && s.lastId == Some(id) && s.start.Some?
    ensures Do(prefix, t, Do(prefix, t, s, Serve([])), Receive) == Resting(s, n, id, id, s.got)
  {
    var started := s.(conn := Some(Conn(true, n, id, id, Polling, [Init(id)])));
    var none: seq<Frame> := [];
    assert none + [Init(id)] == [Init(id)];
    assert Do(prefix, t, s, Serve([])) == started;
    assert [Init(id)][1..] == [];
  }

  /** A client that has subscribed comes back, and the connection is at rest at its last id. */
  lemma ComesBack(prefix: Bytes, t: Topic, s: State, n: nat)
    requires s.lastId.Some? && s.start.Some?
    ensures DoAll(prefix, t, s, Return(n)) == Resting(s, n, s.lastId.value, s.lastId.value, s.got)
  {
    var id := s.lastId.value;
    var s1 := s.(conn := None);
    var s2 := s.(conn := Some(Conn(true, n, id, id, Starting, [])));
    DoOne(prefix, t, s, Disconnect);
    DoOne(prefix, t, s1, Connect(true, n));
    DoOne(prefix, t, s2, Serve([]));
    DoOne(prefix, t, Do(prefix, t, s2, Serve([])), Receive);
    DoAllConcat(prefix, t, s, [Disconnect], [Connect(true, n)]);
    DoAllConcat(prefix, t, s, [Disconnect] + [Connect(true, n)], [Serve([])]);
    DoAllConcat(prefix, t, s, [Disconnect] + [Connect(true, n)] + [Serve([])], [Receive]);
    FirstFrame(prefix, t, s2, n, id);
  }

  lemma ClientIsAt(prefix: Bytes, t: Topic, s: State) returns (p: nat)
    requires Inv(prefix, t, s) && s.lastId.Some?
    ensures s.start.Some? && At(Rows(s.events, t), s.lastId.value, p)
    ensures After(Rows(s.events, t), s.lastId.value) == Rows(s.events, t)[p..]
  {
    var rows := Rows(s.events, t);
    var a: nat;
    a, p :| ClientBetween(rows, s.start.value, s.lastId.value, s.got, a, p);
    RowsAscend(prefix, s.events, t);
    AfterAt(rows, s.lastId.value, p);
  }

  /** From any state the invariant allows. */
  lemma CatchesUpFrom(prefix: Bytes, t: Topic, s: State) returns (future: seq<Step>)
    requires ValidTopic(prefix, t) && Inv(prefix, t, s) && s.lastId.Some?
    requires forall r <- After(Rows(s.events, t), s.lastId.value) :: SseFormat.Encodable(r.data)
    ensures var s' := DoAll(prefix, t, s, future);
            && s'.events == s.events && s'.start == s.start
            && s'.got == s.got + After(Rows(s.events, t), s.lastId.value)
  {
    var id, rows := s.lastId.value, Rows(s.events, t);
    var p := ClientIsAt(prefix, t, s);
    ComesBack(prefix, t, s, 1);
    forall i | p <= i < |rows| ensures SseFormat.Encodable(rows[i].data) {
      assert rows[p..][i - p] == rows[i] && rows[i] in rows[p..];
    }
    var more := AllArrive(prefix, t, Resting(s, 1, id, id, s.got), 1, id, id, p);
    DoAllConcat(prefix, t, s, Return(1), more);
    future := Return(1) + more;
  }

  /** Main result: from any reachable state a client that has subscribed can get every message after
      the last it received, in order, if they can be encoded: nothing that happened before has lost
      one or blocks the way. */
  lemma CatchesUp(prefix: Bytes, t: Topic, past: seq<Step>) returns (future: seq<Step>)
    requires ValidTopic(prefix, t) && Run(prefix, t, past).lastId.Some?
    requires var s := Run(prefix, t, past);
             forall r <- After(Rows(s.events, t), s.lastId.value) :: SseFormat.Encodable(r.data)
    ensures var s, s' := Run(prefix, t, past), Run(prefix, t, past + future);
            && s'.events == s.events && s'.start == s.start
            && s'.got == s.got + After(Rows(s.events, t), s.lastId.value)
  {
    var s := Run(prefix, t, past);
    future := CatchesUpFrom(prefix, t, s);
    RunGoesOn(prefix, t, past, future, s);
  }

  // What blocks the way.

  /** Everything sent or received can be encoded. */
  predicate SentEncodable(s: State) {
    && (forall r <- s.got :: SseFormat.Encodable(r.data))
    && (s.conn.Some? ==> forall f <- s.conn.value.channel :: f.Message? ==> SseFormat.Encodable(f.row.data))
  }

  lemma StepSendsEncodable(prefix: Bytes, t: Topic, s: State, step: Step)
    requires SentEncodable(s)
    ensures SentEncodable(Do(prefix, t, s, step))
  {
  }

  lemma {:induction false} RunSendsEncodable(prefix: Bytes, t: Topic, steps: seq<Step>)
    requires ValidTopic(prefix, t)
    ensures SentEncodable(Run(prefix, t, steps))
  {
    if steps != [] {
      var n := |steps| - 1;
      RunSendsEncodable(prefix, t, steps[..n]);
      StepSendsEncodable(prefix, t, Run(prefix, t, steps[..n]), steps[n]);
    }
  }

  /** Main result: a message that cannot be encoded blocks the topic for good. However often it comes
      back, a subscriber gets no more than the messages between its start and that one. */
  lemma Blocked(prefix: Bytes, t: Topic, steps: seq<Step>, a: nat, p: nat)
    requires ValidTopic(prefix, t) && Run(prefix, t, steps).start.Some?
    requires var s := Run(prefix, t, steps);
             var rows := Rows(s.events, t);
             At(rows, s.start.value, a) && a <= p < |rows| && !SseFormat.Encodable(rows[p].data)
    ensures |Run(prefix, t, steps).got| <= p - a
  {
    var s := Run(prefix, t, steps);
    var rows := Rows(s.events, t);
    DeliversInOrder(prefix, t, steps);
    RunSendsEncodable(prefix, t, steps);
    RowsAscend(prefix, s.events, t);
    AfterAt(rows, s.start.value, a);
    forall i | a <= i < a + |s.got| ensures SseFormat.Encodable(rows[i].data) {
      assert s.got[i - a] == rows[i] && s.got[i - a] in s.got;
    }
  }

  ghost predicate AllGot(prefix: Bytes, t: Topic, past: seq<Step>, future: seq<Step>)
    requires ValidTopic(prefix, t) && Run(prefix, t, past).lastId.Some?
  {
    var s, s' := Run(prefix, t, past), Run(prefix, t, past + future);
    s'.events == s.events && s'.got == s.got + After(Rows(s.events, t), s.lastId.value)
  }

  /** So a subscriber can get all the messages there are exactly if each of them can be encoded. */
  lemma CatchesUpIff(prefix: Bytes, t: Topic, past: seq<Step>)
    requires ValidTopic(prefix, t) && Run(prefix, t, past).lastId.Some?
    ensures (exists future :: AllGot(prefix, t, past, future))
       <==> var s := Run(prefix, t, past);
            forall r <- After(Rows(s.events, t), s.lastId.value) :: SseFormat.Encodable(r.data)
  {
    var s := Run(prefix, t, past);
    if forall r <- After(Rows(s.events, t), s.lastId.value) :: SseFormat.Encodable(r.data) {
      var future := CatchesUp(prefix, t, past);
      assert AllGot(prefix, t, past, future);
    }
    if future :| AllGot(prefix, t, past, future) {
      RunSendsEncodable(prefix, t, past + future);
      var got := Run(prefix, t, past + future).got;
      forall r <- After(Rows(s.events, t), s.lastId.value) ensures SseFormat.Encodable(r.data) {
        assert r in got;
      }
    }
  }
}
