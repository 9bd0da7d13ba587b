/** Where a subscription starts (`handle_sse`, src/pubsub/sse.rs:83-90): a new client right after the
    messages there are, a returning one right after the last it received. */
module SseStarts {
  import opened Bytes
  import opened Sequences
  import opened Tuple
  import opened Fdb
  import opened MqKeys
  import opened Mq
  import opened MqPop
  import opened SseRuns
  import opened SseLoop

  /** A connection opens at the id the client sends, or else after all messages of the topic. */
  lemma ConnectStarts(prefix: Bytes, t: Topic, past: seq<Step>, wait: bool, n: nat)
    requires ValidTopic(prefix, t) && Run(prefix, t, past).conn.None?
    ensures var s, s' := Run(prefix, t, past), Run(prefix, t, past + [Connect(wait, n)]);
            && s'.conn.Some?
            && var c := s'.conn.value;
               && s' == s.(conn := Some(c)) && c == Conn(wait, n, c.first, c.first, Starting, [])
               && (s.lastId.Some? ==> c.first == s.lastId.value)
               && (s.lastId.None? ==> At(Rows(s.events, t), c.first, |Rows(s.events, t)|))
  {
    var s := Run(prefix, t, past);
    RunStep(prefix, t, past, Connect(wait, n));
    CounterIsLast(prefix, t, s.events);
    var rows := Rows(s.events, t);
    assert rows != [] ==> GoodStamp(rows, |rows| - 1);
  }

  /** The subscription is from the first cursor c0, begun when the topic had the given rows. */
  ghost predicate SubscribedAt(t: Topic, s: State, c0: Bytes, rows0: seq<Row>) {
    && rows0 <= Rows(s.events, t)
    && (s.start.None? && s.conn.Some? ==> s.conn.value.first == c0)
    && (s.start.Some? ==> s.start.value == c0)
  }

  lemma StepKeepsStart(prefix: Bytes, t: Topic, s: State, c0: Bytes, rows0: seq<Row>, step: Step)
    requires Inv(prefix, t, s) && SubscribedAt(t, s, c0, rows0) && !step.Connect?
    ensures SubscribedAt(t, Do(prefix, t, s, step), c0, rows0)
  {
    match step
    case Publish(e) => assert (s.events + [e])[..|s.events|] == s.events;
    case Receive =>
      if s.conn.Some? && s.conn.value.channel != [] {
        FirstFrameIsFirst(Rows(s.events, t), s.conn.value, s.lastId);
      }
    case _ =>
  }

  lemma FirstFrameIsFirst(rows: seq<Row>, c: Conn, lastId: Option<Bytes>)
    requires ConnInv(rows, c, lastId) && c.channel != []
    ensures c.channel[0].Init? ==> c.channel[0].id == c.first
  {
  }

  lemma {:induction false} RunKeepsStart(prefix: Bytes, t: Topic, past: seq<Step>, future: seq<Step>, c0: Bytes, rows0: seq<Row>)
    requires ValidTopic(prefix, t) && SubscribedAt(t, Run(prefix, t, past), c0, rows0)
    requires forall step <- future :: !step.Connect?
    ensures SubscribedAt(t, Run(prefix, t, past + future), c0, rows0)
    decreases |future|
  {
    if future == [] {
      assert past + future == past;
    } else {
      StepKeepsStart(prefix, t, Run(prefix, t, past), c0, rows0, future[0]);
      RunStep(prefix, t, past, future[0]);
      Regroup(past, future);
      RunKeepsStart(prefix, t, past + [future[0]], future[1..], c0, rows0);
    }
  }

  lemma AtStays(rows0: seq<Row>, rows: seq<Row>, c: Bytes)
    requires rows0 <= rows && At(rows0, c, |rows0|)
    ensures At(rows, c, |rows0|)
  {
    assert rows0 == [] || rows0[|rows0| - 1] == rows[|rows0| - 1];
  }

  /** Main result: what a client gets on its first connection was all published after it connected:
      a beginning of what follows the messages there were, in order, no gap, no repeat. */
  lemma GetsWhatFollows(prefix: Bytes, t: Topic, past: seq<Step>, wait: bool, n: nat, future: seq<Step>)
    requires ValidTopic(prefix, t) && Run(prefix, t, past).conn.None? && Run(prefix, t, past).lastId.None?
    requires forall step <- future :: !step.Connect?
    ensures var s := Run(prefix, t, past + [Connect(wait, n)] + future);
            var rows0 := Rows(Run(prefix, t, past).events, t);
            rows0 <= Rows(s.events, t) && s.got <= Rows(s.events, t)[|rows0|..]
  {
    var s0 := Run(prefix, t, past);
    ConnectStarts(prefix, t, past, wait, n);
    var c0 := Run(prefix, t, past + [Connect(wait, n)]).conn.value.first;
    var rows0 := Rows(s0.events, t);
    RunKeepsStart(prefix, t, past + [Connect(wait, n)], future, c0, rows0);
    var s := Run(prefix, t, past + [Connect(wait, n)] + future);
    if s.start.Some? {
      DeliversInOrder(prefix, t, past + [Connect(wait, n)] + future);
      RowsAscend(prefix, s.events, t);
      AtStays(rows0, Rows(s.events, t), c0);
      AfterAt(Rows(s.events, t), c0, |rows0|);
    }
  }
}
