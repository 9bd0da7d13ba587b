/** The server's task of one subscriber as it runs (`SseTask::run`, src/pubsub/sse.rs:133-203),
    against the steps that `SseRuns` reasons about. */
module SseTasks {
  import opened Bytes
  import opened Tuple
  import opened Mq
  import opened SseRuns
  import SseFormat

  /** How one `select!` ends: a pop that returned, or failed, the heartbeat timer, or the end of the
      client's connection. */
  datatype Outcome = Popped(rows: Option<seq<Row>>) | HeartbeatDue | Stopped

  /** A connection, and how many more frames its client takes before it is gone. */
  datatype Link = Link(conn: Conn, room: nat)

  function Shut(l: Link): Link {
    l.(conn := l.conn.(phase := Closed))
  }

  /** All the sending steps of a batch, up to the end of it or of the stream. */
  function SendAll(l: Link): Link
    requires l.conn.phase.Sending? && l.conn.phase.sent <= |l.conn.phase.batch|
    decreases |l.conn.phase.batch| - l.conn.phase.sent
  {
    if l.conn.phase.sent == |l.conn.phase.batch| then l.(conn := SendStep(l.conn))
    else if !SseFormat.Encodable(l.conn.phase.batch[l.conn.phase.sent].data) || l.room == 0 then Shut(l)
    else SendAll(Link(Sent(l.conn), l.room - 1))
  }

  function Frames(rows: seq<Row>): seq<Frame> {
    seq(|rows|, i requires 0 <= i < |rows| => Message(rows[i]))
  }

  predicate AllEncodable(rows: seq<Row>) {
    forall i :: 0 <= i < |rows| ==> SseFormat.Encodable(rows[i].data)
  }

  lemma FirstOfBatch(rows: seq<Row>)
    requires rows != []
    ensures AllEncodable(rows) <==> SseFormat.Encodable(rows[0].data) && AllEncodable(rows[1..])
    ensures Frames(rows) == [Message(rows[0])] + Frames(rows[1..])
  {
    if SseFormat.Encodable(rows[0].data) && AllEncodable(rows[1..]) {
      forall i | 0 <= i < |rows| ensures SseFormat.Encodable(rows[i].data) {
        assert i > 0 ==> rows[i] == rows[1..][i - 1];
      }
    }
    if AllEncodable(rows) {
      forall i | 0 <= i < |rows[1..]| ensures SseFormat.Encodable(rows[1..][i].data) {
        assert rows[1..][i] == rows[i + 1];
      }
    }
  }

  /** How many rows of a batch go out: up to the first that cannot be encoded or is not taken. */
  function SentOf(rows: seq<Row>, room: nat): (n: nat)
    ensures n <= |rows| && n <= room
  {
    if rows == [] || !SseFormat.Encodable(rows[0].data) || room == 0 then 0 else 1 + SentOf(rows[1..], room - 1)
  }

  lemma {:induction false} SentOfAll(rows: seq<Row>, room: nat)
    ensures SentOf(rows, room) == |rows| <==> AllEncodable(rows) && |rows| <= room
  {
    if rows != [] {
      FirstOfBatch(rows);
      if room > 0 {
        SentOfAll(rows[1..], room - 1);
      }
    }
  }

  /** What goes out, in order. The loop goes on exactly after a waiting task's non-empty batch that
      went out whole, and then from its last stamp; otherwise the stream ends. */
  lemma {:induction false} SendAllMeans(l: Link)
    requires l.conn.phase.Sending? && l.conn.phase.sent <= |l.conn.phase.batch|
    ensures var c, rest := l.conn, l.conn.phase.batch[l.conn.phase.sent..];
            var n := SentOf(rest, l.room);
            var goesOn := c.wait && c.phase.batch != [] && n == |rest|;
            SendAll(l) == Link(c.(channel := c.channel + Frames(rest[..n]),
                                  phase := if goesOn then Polling else Closed,
                                  cursor := if goesOn then c.phase.batch[|c.phase.batch| - 1].stamp else c.cursor),
                               l.room - n)
    decreases |l.conn.phase.batch| - l.conn.phase.sent
  {
    var c, rest := l.conn, l.conn.phase.batch[l.conn.phase.sent..];
    if rest != [] && SseFormat.Encodable(rest[0].data) && l.room > 0 {
      SendAllMeans(Link(Sent(c), l.room - 1));
      assert rest[1..] == c.phase.batch[c.phase.sent + 1..];
      OneMoreFrame(c.channel, rest, SentOf(rest[1..], l.room - 1));
    } else {
      assert c.channel + Frames(rest[..0]) == c.channel;
    }
  }

  lemma OneMoreFrame(channel: seq<Frame>, rows: seq<Row>, n: nat)
    requires rows != [] && n <= |rows[1..]|
    ensures channel + [Message(rows[0])] + Frames(rows[1..][..n]) == channel + Frames(rows[..n + 1])
  {
    assert rows[..n + 1] == [rows[0]] + rows[1..][..n];
    FirstOfBatch(rows[..n + 1]);
    assert rows[..n + 1][1..] == rows[1..][..n];
  }

  function Settle(l: Link, o: Outcome): Link {
    match o
    case Popped(None) => l.(conn := l.conn.(phase := Broken))
    case Popped(Some(rows)) => SendAll(l.(conn := l.conn.(phase := Sending(rows, 0))))
    case HeartbeatDue =>
      if l.room == 0 then Shut(l) else Link(l.conn.(channel := l.conn.channel + [Heartbeat]), l.room - 1)
    case Stopped => Shut(l)
  }

  /** The connection once its first frame is out, or its client already gone. */
  function Opened(l: Link): Link {
    if l.room == 0 then Shut(l)
    else Link(l.conn.(phase := Polling, channel := l.conn.channel + [Init(l.conn.cursor)]), l.room - 1)
  }

  /** The connection after some rounds of the loop; a task that has returned takes no more. */
  function Rounds(l: Link, os: seq<Outcome>): Link
    decreases |os|
  {
    if os == [] || !l.conn.phase.Polling? then l else Rounds(Settle(l, os[0]), os[1..])
  }

  /** A heartbeat leaves the loop running where it was, and adds no message to the stream; it ends the
      loop only if the client is gone. */
  lemma HeartbeatGoesOn(l: Link)
    requires l.conn.phase.Polling?
    ensures l.room > 0 ==>
              && Settle(l, HeartbeatDue) == Link(l.conn.(channel := l.conn.channel + [Heartbeat]), l.room - 1)
              && MessagesIn(Settle(l, HeartbeatDue).conn.channel) == MessagesIn(l.conn.channel)
    ensures l.room == 0 ==> Settle(l, HeartbeatDue) == l.(conn := l.conn.(phase := Closed))
  {
    MessagesInAppend(l.conn.channel, Heartbeat);
  }

  class SseTask {
    const wait: bool
    const n: nat
    const first: Bytes
    var cursor: Bytes
    var sent: seq<Frame>
    var room: nat

    ghost function State(phase: Phase): Link
      reads this
    {
      Link(Conn(wait, n, first, cursor, phase, sent), room)
    }

    constructor (wait: bool, n: nat, first: Bytes, room: nat)
      ensures this.wait == wait && this.n == n && this.first == first
      ensures State(Starting) == Link(Conn(wait, n, first, first, Starting, []), room)
    {
      this.wait, this.n, this.first, this.cursor, this.sent, this.room := wait, n, first, first, [], room;
    }

    /** `send_data`: fails once the client is gone. */
    method SendData(f: Frame) returns (ok: bool)
      modifies this`sent, this`room
      ensures ok == (old(room) > 0)
      ensures sent == old(sent) + (if ok then [f] else []) && room == if ok then old(room) - 1 else old(room)
    {
      ok := room > 0;
      if ok {
        sent, room := sent + [f], room - 1;
      }
    }

    method SendMessage(row: Row) returns (ok: bool)
      modifies this`sent, this`room
      ensures ok == (SseFormat.Encodable(row.data) && old(room) > 0)
      ensures sent == old(sent) + (if ok then [Message(row)] else []) && room == if ok then old(room) - 1 else old(room)
    {
      if !SseFormat.Encodable(row.data) {
        return false;
      }
      ok := SendData(Message(row));
    }

    /** Sends a batch and moves the cursor; Polling if the loop goes on. */
    method SendBatch(rows: seq<Row>) returns (phase: Phase)
      modifies this
      ensures State(phase) == SendAll(old(State(Sending(rows, 0))))
    {
      ghost var goal := SendAll(State(Sending(rows, 0)));
      for i := 0 to |rows|
        invariant cursor == old(cursor) && SendAll(State(Sending(rows, i))) == goal
      {
        var ok := SendMessage(rows[i]);
        if !ok {
          return Closed;
        }
      }
      if !wait {
        return Closed;
      }
      if rows == [] {
        return Closed;
      }
      cursor := rows[|rows| - 1].stamp;
      return Polling;
    }

    /** The task's whole life, for any outcomes; Polling if they run out first. */
    method Run(outcomes: seq<Outcome>) returns (phase: Phase)
      modifies this
      ensures State(phase) == Rounds(Opened(old(State(Starting))), outcomes)
    {
      ghost var began := Opened(State(Starting));
      var ok := SendData(Init(cursor));
      if !ok {
        return Closed;
      }
      assert State(Polling) == began;
      ghost var goal := Rounds(began, outcomes);
      for i := 0 to |outcomes|
        invariant Rounds(State(Polling), outcomes[i..]) == goal
      {
        assert outcomes[i..][0] == outcomes[i] && outcomes[i..][1..] == outcomes[i + 1..];
        match outcomes[i] {
          case HeartbeatDue =>
            var beat := SendData(Heartbeat);
            if !beat {
              assert Rounds(State(Closed), outcomes[i + 1..]) == State(Closed);
              return Closed;
            }
          case Stopped =>
            assert Rounds(State(Closed), outcomes[i + 1..]) == State(Closed);
            return Closed;
          case Popped(res) =>
            if res.None? {
              assert Rounds(State(Broken), outcomes[i + 1..]) == State(Broken);
              return Broken;
            }
            phase := SendBatch(res.value);
            if phase != Polling {
              assert Rounds(State(phase), outcomes[i + 1..]) == State(phase);
              return phase;
            }
        }
      }
      return Polling;
    }
  }
}
