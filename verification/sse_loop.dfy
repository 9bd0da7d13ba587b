/** The server's loop inside the runs of the whole system: whatever the loop does, with pops that read
    the store as it then is, is a list of steps of `SseRuns`, so what is proved there holds of it
    (src/pubsub/sse.rs:134-191 with src/pubsub/mq.rs:200-274). */
module SseLoop {
  import opened Bytes
  import opened Sequences
  import opened Tuple
  import opened Fdb
  import opened MqKeys
  import opened Mq
  import opened MqPop
  import opened SseRuns
  import opened SseTasks
  import SseFormat

  ghost function DoAll(prefix: Bytes, t: Topic, s: State, steps: seq<Step>): State
    decreases |steps|
  {
    if steps == [] then s else DoAll(prefix, t, Do(prefix, t, s, steps[0]), steps[1..])
  }

  lemma {:induction false} DoAllConcat(prefix: Bytes, t: Topic, s: State, a: seq<Step>, b: seq<Step>)
    ensures DoAll(prefix, t, s, a + b) == DoAll(prefix, t, DoAll(prefix, t, s, a), b)
    decreases |a|
  {
    if a == [] {
      assert a + b == b;
    } else {
      assert (a + b)[1..] == a[1..] + b;
      DoAllConcat(prefix, t, Do(prefix, t, s, a[0]), a[1..], b);
    }
  }

  lemma DoOne(prefix: Bytes, t: Topic, s: State, step: Step)
    ensures DoAll(prefix, t, s, [step]) == Do(prefix, t, s, step)
  {
    assert [step][1..] == [];
    assert DoAll(prefix, t, Do(prefix, t, s, step), []) == Do(prefix, t, s, step);
  }

  lemma RunStep(prefix: Bytes, t: Topic, a: seq<Step>, step: Step)
    requires ValidTopic(prefix, t)
    ensures Run(prefix, t, a + [step]) == Do(prefix, t, Run(prefix, t, a), step)
  {
    assert (a + [step])[..|a|] == a;
  }

  /** Steps from a reachable state lead to a reachable state. */
  lemma {:induction false} RunGoesOn(prefix: Bytes, t: Topic, a: seq<Step>, b: seq<Step>, s: State)
    requires ValidTopic(prefix, t) && s == Run(prefix, t, a)
    ensures Run(prefix, t, a + b) == DoAll(prefix, t, s, b)
    decreases |b|
  {
    if b == [] {
      assert a + b == a;
    } else {
      RunStep(prefix, t, a, b[0]);
      Regroup(a, b);
      RunGoesOn(prefix, t, a + [b[0]], b[1..], Do(prefix, t, s, b[0]));
    }
  }

  // Publishers.

  lemma {:induction false} PublishSteps(prefix: Bytes, t: Topic, s: State, events: seq<Event>) returns (steps: seq<Step>)
    requires s.events <= events && Possible(prefix, events)
    ensures DoAll(prefix, t, s, steps) == s.(events := events)
    decreases |events| - |s.events|
  {
    var n := |s.events|;
    if n == |events| {
      assert s.events == events;
      steps := [];
    } else {
      var more := events[..n + 1];
      assert more == s.events + [events[n]];
      PossiblePrefix(prefix, events, n + 1);
      var rest := PublishSteps(prefix, t, s.(events := more), events);
      steps := [Publish(events[n])] + rest;
      assert steps[1..] == rest;
    }
  }

  // A pop.

  /** A transaction of the pop: its store is that of the events so far, its batch a possible one. */
  ghost predicate ReadsAt(prefix: Bytes, t: Topic, c: Conn, events: seq<Event>, try: Try) {
    && Possible(prefix, events) && try.store == StoreOf(prefix, events) && BatchStored(try)
    && Readable(prefix, t, c.cursor, c.n, try)
  }

  /** The transactions of a pop, one after another, while publishers go on. */
  ghost predicate PopTries(prefix: Bytes, t: Topic, c: Conn, events: seq<Event>, histories: seq<seq<Event>>, tries: seq<Try>)
    decreases |tries|
  {
    |tries| == |histories| &&
    (tries != [] ==>
       && events <= histories[0] && ReadsAt(prefix, t, c, histories[0], tries[0])
       && PopTries(prefix, t, c, histories[0], histories[1..], tries[1..]))
  }

  lemma {:induction false} TriesStored(prefix: Bytes, t: Topic, c: Conn, events: seq<Event>, histories: seq<seq<Event>>, tries: seq<Try>)
    requires PopTries(prefix, t, c, events, histories, tries)
    ensures forall i :: 0 <= i < |tries| ==> BatchStored(tries[i])
    decreases |tries|
  {
    if tries != [] {
      TriesStored(prefix, t, c, histories[0], histories[1..], tries[1..]);
      forall i | 0 <= i < |tries| ensures BatchStored(tries[i]) {
        assert i > 0 ==> tries[i] == tries[1..][i - 1];
      }
    }
  }

  /** The connection after a pop's result. */
  function AfterPop(c: Conn, result: Popped): Conn {
    match result
    case Failed => c.(phase := Broken)
    case Popped(rows) => c.(phase := Sending(rows, 0))
    case StillWaiting => c
  }

  ghost predicate Looking(s: State, c: Conn) {
    s.conn == Some(c) && c.phase.Polling?
  }

  function With(s: State, events: seq<Event>, c: Conn): State {
    s.(events := events, conn := Some(c))
  }

  /** One transaction of a pop: a look at the counter, then the range or the watch. */
  lemma TrySteps(prefix: Bytes, t: Topic, s: State, c: Conn, try: Try) returns (steps: seq<Step>)
    requires Looking(s, c) && ReadsAt(prefix, t, c, s.events, try)
    ensures DoAll(prefix, t, s, steps) == With(s, s.events, AfterPop(c, PopResult(prefix, t, c.cursor, c.wait, [try])))
  {
    var counter := CounterOf(prefix, t, s.events);
    assert [try][1..] == [];
    assert counter == Lookup(try.store, CounterKey(prefix, t));
    var c' := Polled(c, |s.events|, counter);
    var s' := With(s, s.events, c');
    assert Do(prefix, t, s, Serve([])) == s';
    DoOne(prefix, t, s, Serve([]));
    steps := [Serve([])];
    match Look(counter, c.cursor) {
      case Bail =>
      case Unchanged =>
        if c.wait {
          WatchFires(prefix, t, s', c);
          DoAllConcat(prefix, t, s, steps, [Serve([])]);
          steps := steps + [Serve([])];
        }
      case Advanced =>
        ReadSteps(prefix, t, s', c, try);
        DoAllConcat(prefix, t, s, steps, [Serve(try.batch)]);
        steps := steps + [Serve(try.batch)];
    }
  }

  lemma WatchFires(prefix: Bytes, t: Topic, s: State, c: Conn)
    requires s.conn.Some? && s.conn.value.phase.Watching? && c.phase.Polling? && c == s.conn.value.(phase := Polling)
    ensures DoAll(prefix, t, s, [Serve([])]) == With(s, s.events, c)
  {
    DoOne(prefix, t, s, Serve([]));
  }

  lemma ReadSteps(prefix: Bytes, t: Topic, s: State, c: Conn, try: Try)
    requires s.conn == Some(c.(phase := Reading(|s.events|))) && ReadsAt(prefix, t, c, s.events, try)
    ensures var rows := RowsRead(try.store, try.batch, StripLength(prefix, t));
            DoAll(prefix, t, s, [Serve(try.batch)])
              == With(s, s.events, c.(phase := if rows.None? then Broken else Sending(rows.value, 0)))
  {
    var c1 := c.(phase := Reading(|s.events|));
    assert s.events[..|s.events|] == s.events;
    assert StoreRead(prefix, s.events, c1) == try.store;
    assert Try(try.store, try.batch) == try;
    DoOne(prefix, t, s, Serve(try.batch));
  }

  /** Where the events are when a pop ends: at its last transaction. */
  function LastOf(events: seq<Event>, histories: seq<seq<Event>>): seq<Event> {
    if histories == [] then events else histories[|histories| - 1]
  }

  /** All its transactions but the last one found nothing and waited. */
  predicate Decided(prefix: Bytes, t: Topic, c: Conn, tries: seq<Try>)
    requires forall i :: 0 <= i < |tries| ==> BatchStored(tries[i])
  {
    tries != [] && PopResult(prefix, t, c.cursor, c.wait, tries[..|tries| - 1]) == StillWaiting
  }

  lemma {:induction false} PopSteps(prefix: Bytes, t: Topic, s: State, c: Conn, histories: seq<seq<Event>>, tries: seq<Try>)
    returns (steps: seq<Step>)
    requires Looking(s, c) && PopTries(prefix, t, c, s.events, histories, tries)
    requires forall i :: 0 <= i < |tries| ==> BatchStored(tries[i])
    requires Decided(prefix, t, c, tries)
    ensures DoAll(prefix, t, s, steps)
         == With(s, LastOf(s.events, histories), AfterPop(c, PopResult(prefix, t, c.cursor, c.wait, tries)))
    decreases |tries|
  {
    var pub := PublishSteps(prefix, t, s, histories[0]);
    var s1 := s.(events := histories[0]);
    var one := TrySteps(prefix, t, s1, c, tries[0]);
    DoAllConcat(prefix, t, s, pub, one);
    steps := pub + one;
    var result := PopResult(prefix, t, c.cursor, c.wait, [tries[0]]);
    assert [tries[0]][1..] == [];
    if |tries| == 1 {
      assert tries == [tries[0]];
    } else {
      DecidedLater(prefix, t, c, tries);
      var s2 := With(s, histories[0], c);
      var rest := PopSteps(prefix, t, s2, c, histories[1..], tries[1..]);
      DoAllConcat(prefix, t, s, steps, rest);
      steps := steps + rest;
    }
  }

  lemma DecidedLater(prefix: Bytes, t: Topic, c: Conn, tries: seq<Try>)
    requires forall i :: 0 <= i < |tries| ==> BatchStored(tries[i])
    requires Decided(prefix, t, c, tries) && |tries| > 1
    ensures forall i :: 0 <= i < |tries[1..]| ==> BatchStored(tries[1..][i])
    ensures Decided(prefix, t, c, tries[1..])
    ensures PopResult(prefix, t, c.cursor, c.wait, [tries[0]]) == StillWaiting
    ensures PopResult(prefix, t, c.cursor, c.wait, tries) == PopResult(prefix, t, c.cursor, c.wait, tries[1..])
  {
    var n := |tries| - 1;
    assert tries[..n][0] == tries[0] && tries[..n][1..] == tries[1..][..n - 1];
    assert [tries[0]][1..] == [];
    assert BatchStored(tries[0]);
    forall i | 0 <= i < n ensures BatchStored(tries[1..][i]) {
      assert tries[1..][i] == tries[i + 1];
    }
  }

  // Sending.

  lemma ServeSends(prefix: Bytes, t: Topic, s: State, c: Conn)
    requires s.conn == Some(c) && c.phase.Sending? && c.phase.sent <= |c.phase.batch|
    ensures Do(prefix, t, s, Serve([])) == With(s, s.events, SendStep(c))
    ensures Do(prefix, t, s, Stop) == With(s, s.events, c.(phase := Closed))
  {
  }

  lemma {:induction false} SendSteps(prefix: Bytes, t: Topic, s: State, l: Link) returns (steps: seq<Step>)
    requires s.conn == Some(l.conn) && l.conn.phase.Sending? && l.conn.phase.sent <= |l.conn.phase.batch|
    ensures DoAll(prefix, t, s, steps) == With(s, s.events, SendAll(l).conn)
    decreases |l.conn.phase.batch| - l.conn.phase.sent
  {
    var c := l.conn;
    ServeSends(prefix, t, s, c);
    if c.phase.sent == |c.phase.batch| {
      steps := [Serve([])];
      DoOne(prefix, t, s, Serve([]));
    } else if !SseFormat.Encodable(c.phase.batch[c.phase.sent].data) || l.room == 0 {
      steps := [Stop];
      DoOne(prefix, t, s, Stop);
    } else {
      var s' := With(s, s.events, Sent(c));
      var rest := SendSteps(prefix, t, s', Link(Sent(c), l.room - 1));
      steps := [Serve([])] + rest;
      assert steps[1..] == rest;
    }
  }

  // Rounds.

  /** One round: how its `select!` ended, and the transactions of its pop if that ended it. */
  datatype Turn = Turn(outcome: Outcome, histories: seq<seq<Event>>, tries: seq<Try>)

  /** A pop that ended the round did so by what its transactions read. */
  ghost predicate FairTurn(prefix: Bytes, t: Topic, c: Conn, events: seq<Event>, turn: Turn) {
    turn.outcome.Popped? ==>
      && PopTries(prefix, t, c, events, turn.histories, turn.tries)
      && (forall i :: 0 <= i < |turn.tries| ==> BatchStored(turn.tries[i]))
      && Decided(prefix, t, c, turn.tries)
      && PopResult(prefix, t, c.cursor, c.wait, turn.tries)
         == (if turn.outcome.rows.None? then Failed else MqPop.Popped.Popped(turn.outcome.rows.value))
  }

  function EventsAfter(events: seq<Event>, turn: Turn): seq<Event> {
    if turn.outcome.Popped? then LastOf(events, turn.histories) else events
  }

  ghost predicate FairTurns(prefix: Bytes, t: Topic, l: Link, events: seq<Event>, turns: seq<Turn>)
    decreases |turns|
  {
    turns == [] || !l.conn.phase.Polling? ||
    (FairTurn(prefix, t, l.conn, events, turns[0])
     && FairTurns(prefix, t, Settle(l, turns[0].outcome), EventsAfter(events, turns[0]), turns[1..]))
  }

  function Outcomes(turns: seq<Turn>): seq<Outcome> {
    if turns == [] then [] else [turns[0].outcome] + Outcomes(turns[1..])
  }

  lemma SettleSteps(prefix: Bytes, t: Topic, s: State, l: Link, turn: Turn) returns (steps: seq<Step>)
    requires Looking(s, l.conn) && FairTurn(prefix, t, l.conn, s.events, turn)
    ensures DoAll(prefix, t, s, steps) == With(s, EventsAfter(s.events, turn), Settle(l, turn.outcome).conn)
  {
    var c := l.conn;
    match turn.outcome {
      case HeartbeatDue =>
        steps := if l.room == 0 then [Stop] else [Beat];
        DoOne(prefix, t, s, steps[0]);
      case Stopped =>
        steps := [Stop];
        DoOne(prefix, t, s, Stop);
      case Popped(rows) =>
        steps := PopSteps(prefix, t, s, c, turn.histories, turn.tries);
        if rows.Some? {
          var sending := c.(phase := Sending(rows.value, 0));
          var s' := With(s, LastOf(s.events, turn.histories), sending);
          var rest := SendSteps(prefix, t, s', l.(conn := sending));
          DoAllConcat(prefix, t, s, steps, rest);
          steps := steps + rest;
        }
    }
  }

  lemma {:induction false} RoundsSteps(prefix: Bytes, t: Topic, s: State, l: Link, turns: seq<Turn>) returns (steps: seq<Step>)
    requires s.conn == Some(l.conn) && FairTurns(prefix, t, l, s.events, turns)
    ensures DoAll(prefix, t, s, steps).conn == Some(Rounds(l, Outcomes(turns)).conn)
    ensures DoAll(prefix, t, s, steps).lastId == s.lastId
    decreases |turns|
  {
    if turns == [] || !l.conn.phase.Polling? {
      steps := [];
    } else {
      steps := SettleSteps(prefix, t, s, l, turns[0]);
      var l' := Settle(l, turns[0].outcome);
      var s' := With(s, EventsAfter(s.events, turns[0]), l'.conn);
      var rest := RoundsSteps(prefix, t, s', l', turns[1..]);
      DoAllConcat(prefix, t, s, steps, rest);
      steps := steps + rest;
      assert Outcomes(turns)[1..] == Outcomes(turns[1..]);
    }
  }

  /** The first frame, then the rounds. */
  lemma LoopSteps(prefix: Bytes, t: Topic, s: State, l: Link, turns: seq<Turn>) returns (steps: seq<Step>)
    requires s.conn == Some(l.conn) && l.conn.phase.Starting? && l.room > 0
    requires FairTurns(prefix, t, Opened(l), s.events, turns)
    ensures DoAll(prefix, t, s, steps).conn == Some(Rounds(Opened(l), Outcomes(turns)).conn)
    ensures DoAll(prefix, t, s, steps).lastId == s.lastId
  {
    DoOne(prefix, t, s, Serve([]));
    var s' := With(s, s.events, Opened(l).conn);
    assert Do(prefix, t, s, Serve([])) == s';
    var rest := RoundsSteps(prefix, t, s', Opened(l), turns);
    DoAllConcat(prefix, t, s, [Serve([])], rest);
    steps := [Serve([])] + rest;
  }

  /** Rounds only add frames. */
  lemma {:induction false} RoundsKeep(l: Link, os: seq<Outcome>)
    ensures var r := Rounds(l, os); r.conn.first == l.conn.first && l.conn.channel <= r.conn.channel
    decreases |os|
  {
    if os != [] && l.conn.phase.Polling? {
      if os[0].Popped? && os[0].rows.Some? {
        SendAllMeans(l.(conn := l.conn.(phase := Sending(os[0].rows.value, 0))));
      }
      RoundsKeep(Settle(l, os[0]), os[1..]);
    }
  }

  lemma StartsEmpty(rows: seq<Row>, c: Conn, lastId: Option<Bytes>)
    requires ConnInv(rows, c, lastId) && c.phase.Starting?
    ensures c.channel == []
  {
  }

  /** While the client has received nothing yet, the frames on the way are all that was sent. */
  lemma SentIsNext(rows: seq<Row>, c: Conn, lastId: Option<Bytes>)
    requires Ascending(rows) && ConnInv(rows, c, lastId) && c.channel != [] && c.channel[0].Init?
    ensures !c.phase.Broken? && MessagesIn(c.channel) <= After(rows, c.first)
  {
    var p: nat, b: nat, q: nat :| ConnAt(rows, c, lastId, p, b, q);
    AfterAt(rows, c.first, p);
    assert rows[p..][..q - p] == rows[p..q];
  }

  /** Main result: started for a client that has just connected, in any reachable state of the system,
      the loop never ends in a failed pop, and the messages it has sent are a beginning of the topic's
      messages after the first cursor: in stamp order, without gap or repeat. */
  lemma LoopDelivers(prefix: Bytes, t: Topic, past: seq<Step>, l: Link, turns: seq<Turn>) returns (future: seq<Step>)
    requires ValidTopic(prefix, t) && l.room > 0 && l.conn.phase.Starting?
    requires Run(prefix, t, past).conn == Some(l.conn)
    requires FairTurns(prefix, t, Opened(l), Run(prefix, t, past).events, turns)
    ensures var c := Rounds(Opened(l), Outcomes(turns)).conn;
            var s := Run(prefix, t, past + future);
            s.conn == Some(c) && !c.phase.Broken? && MessagesIn(c.channel) <= After(Rows(s.events, t), l.conn.first)
  {
    var s := Run(prefix, t, past);
    future := LoopSteps(prefix, t, s, l, turns);
    RunGoesOn(prefix, t, past, future, s);
    var s' := Run(prefix, t, past + future);
    var c := Rounds(Opened(l), Outcomes(turns)).conn;
    assert Inv(prefix, t, s) && Inv(prefix, t, s');
    StartsEmpty(Rows(s.events, t), l.conn, s.lastId);
    assert Opened(l).conn.channel == [Init(l.conn.cursor)];
    RoundsKeep(Opened(l), Outcomes(turns));
    RowsAscend(prefix, s'.events, t);
    SentIsNext(Rows(s'.events, t), c, s'.lastId);
  }
}
