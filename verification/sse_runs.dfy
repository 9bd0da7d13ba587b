/** A subscriber of one topic over every interleaving of publishers, the server's task, the stream
    and reconnecting clients (`handle_sse` and `SseTask::run`, src/pubsub/sse.rs). */
module SseRuns {
  import opened Bytes
  import opened Tuple
  import opened Fdb
  import opened MqKeys
  import opened Mq
  import opened MqPop
  import SseFormat

  datatype Frame = Init(id: Bytes) | Message(row: Row) | Heartbeat

  /** Where the task is. Watching keeps the counter value its watch was set on; Reading the version
      its transaction reads. Closed is an orderly end of the stream, Broken a bail-out in pop. */
  datatype Phase =
    | Starting
    | Polling
    | Watching(seen: Option<Bytes>)
    | Reading(version: nat)
    | Sending(batch: seq<Row>, sent: nat)
    | Closed
    | Broken

  /** The task of one connection, and the frames sent and not yet received. */
  datatype Conn = Conn(wait: bool, n: nat, first: Bytes, cursor: Bytes, phase: Phase, channel: seq<Frame>)

  /** The queue's commits, the connection if any, and the client: the id it last received, the id
      its subscription started at, and the messages it got. */
  datatype State = State(events: seq<Event>, conn: Option<Conn>, lastId: Option<Bytes>, start: Option<Bytes>, got: seq<Row>)

  /** Stop is the task seeing its client gone, when it waits or when a send fails. */
  datatype Step =
    | Publish(event: Event)
    | Connect(wait: bool, n: nat)
    | Serve(keys: seq<Bytes>)
    | Beat
    | Receive
    | Disconnect
    | Stop

  const INITIAL := State([], None, None, None, [])

  /** The first cursor of a connection: the client's last event id, else the counter. */
  function FirstCursor(counter: Option<Bytes>, lastId: Option<Bytes>): Option<Bytes> {
    match lastId
    case Some(id) => Some(id)
    case None =>
      match counter
      case None => Some(ZERO_STAMP)
      case Some(x) => if |x| == 10 then Some(x) else None
  }

  function CounterOf(prefix: Bytes, t: Topic, events: seq<Event>): Option<Bytes> {
    Lookup(StoreOf(prefix, events), CounterKey(prefix, t))
  }

  /** A pop begun at version `now`, which sees `counter`. */
  function Polled(c: Conn, now: nat, counter: Option<Bytes>): Conn {
    match Look(counter, c.cursor)
    case Bail => c.(phase := Broken)
    case Advanced => c.(phase := Reading(now))
    case Unchanged => if c.wait then c.(phase := Watching(counter)) else c.(phase := Sending([], 0))
  }

  /** The pop's range read of its version returns `keys`. */
  function RangeRead(c: Conn, store: Store, stripLen: nat, keys: seq<Bytes>): Conn
    requires BatchStored(Try(store, keys))
  {
    match RowsRead(store, keys, stripLen)
    case None => c.(phase := Broken)
    case Some(rows) => c.(phase := Sending(rows, 0))
  }

  /** The next message of the batch, or what follows the batch. */
  function SendStep(c: Conn): Conn
    requires c.phase.Sending?
  {
    if c.phase.sent < |c.phase.batch| then
      if SseFormat.Encodable(c.phase.batch[c.phase.sent].data) then Sent(c) else c.(phase := Closed)
    else if !c.wait || c.phase.batch == [] then c.(phase := Closed)
    else BatchDone(c)
  }

  /** One step of the task: `counter` and `now` are what a transaction begun now would see, `keys`
      what a range read of the version it is reading, `store`, returns. */
  function ServeConn(c: Conn, now: nat, counter: Option<Bytes>, store: Store, stripLen: nat, keys: seq<Bytes>): Conn {
    match c.phase
    case Starting => c.(phase := Polling, channel := c.channel + [Init(c.cursor)])
    case Polling => Polled(c, now, counter)
    case Watching(_) => c.(phase := Polling)
    case Reading(_) => if BatchStored(Try(store, keys)) then RangeRead(c, store, stripLen, keys) else c
    case Sending(_, _) => SendStep(c)
    case Closed => c
    case Broken => c
  }

  /** The store a task at its range read reads. */
  function StoreRead(prefix: Bytes, events: seq<Event>, c: Conn): Store {
    if c.phase.Reading? && c.phase.version <= |events| then StoreOf(prefix, events[..c.phase.version]) else map[]
  }

  /** The range read, when the task is at one, returns what the database may return. */
  ghost predicate ReadPossible(prefix: Bytes, t: Topic, store: Store, c: Conn, keys: seq<Bytes>) {
    c.phase.Reading? ==> Readable(prefix, t, c.cursor, c.n, Try(store, keys))
  }

  function ReceiveFrame(s: State): State
    requires s.conn.Some? && s.conn.value.channel != []
  {
    var c := s.conn.value;
    var id := LastIdAfter(c.channel[0], s.lastId);
    State(s.events, Some(Received(c)), id,
          if c.channel[0].Init? && s.start.None? then id else s.start,
          if c.channel[0].Message? then s.got + [c.channel[0].row] else s.got)
  }

  /** One step of the system; a step that cannot happen changes nothing. */
  ghost function Do(prefix: Bytes, t: Topic, s: State, step: Step): State {
    match step
    case Publish(e) =>
      if Possible(prefix, s.events + [e]) then s.(events := s.events + [e]) else s
    case Connect(wait, n) =>
      if s.conn.Some? then s
      else
        (match FirstCursor(CounterOf(prefix, t, s.events), s.lastId)
         case None => s
         case Some(c) => s.(conn := Some(Conn(wait, n, c, c, Starting, []))))
    case Serve(keys) =>
      if s.conn.None? then s
      else
        var c := s.conn.value;
        var store := StoreRead(prefix, s.events, c);
        if ReadPossible(prefix, t, store, c, keys)
        then
          var c' := ServeConn(c, |s.events|, CounterOf(prefix, t, s.events), store, StripLength(prefix, t), keys);
          s.(conn := Some(c'))
        else s
    case Beat =>
      if s.conn.Some? && (s.conn.value.phase.Polling? || s.conn.value.phase.Watching? || s.conn.value.phase.Reading?)
      then
        var c := s.conn.value;
        s.(conn := Some(c.(phase := Polling, channel := c.channel + [Heartbeat])))
      else s
    case Receive => if s.conn.Some? && s.conn.value.channel != [] then ReceiveFrame(s) else s
    case Disconnect => s.(conn := None)
    case Stop =>
      if s.conn.Some? && !s.conn.value.phase.Starting?
      then s.(conn := Some(s.conn.value.(phase := Closed)))
      else s
  }

  // The invariant.

  function MessagesIn(channel: seq<Frame>): seq<Row> {
    if channel == [] then []
    else (if channel[0].Message? then [channel[0].row] else []) + MessagesIn(channel[1..])
  }

  /** The connection's first frame has not reached the client yet. */
  predicate InitPending(c: Conn) {
    c.phase.Starting? || (c.channel != [] && c.channel[0].Init?)
  }

  /** The client's place: what it will have as last id once the first frame arrives. */
  function ClientAt(c: Conn, lastId: Option<Bytes>): Bytes {
    if InitPending(c) || lastId.None? then c.first else lastId.value
  }

  predicate ChannelInv(c: Conn, lastId: Option<Bytes>) {
    && (c.phase.Starting? ==> c.channel == [] && c.cursor == c.first)
    && (forall i :: 0 <= i < |c.channel| && c.channel[i].Init? ==> i == 0 && c.channel[i].id == c.first)
    && (if InitPending(c) then lastId.Some? ==> lastId.value == c.first else lastId.Some?)
  }

  /** With the cursor right after the first b messages, the phase is possible, and q messages have
      been sent or skipped. */
  predicate PhaseInv(rows: seq<Row>, c: Conn, b: nat, q: nat) {
    && q <= |rows| && At(rows, c.cursor, b)
    && match c.phase
       case Watching(seen) => q == b && (seen == None || seen == Some(c.cursor))
       case Sending(batch, i) =>
         && i <= |batch| && q == b + i && b + |batch| <= |rows| && batch == rows[b..b + |batch|]
         && (c.wait ==> batch != [])
       case Closed => true
       case Broken => false
       case _ => q == b
  }

  /** The client stands after p messages, the task has sent q, and what is on the way is the
      messages between. */
  predicate ConnAt(rows: seq<Row>, c: Conn, lastId: Option<Bytes>, p: nat, b: nat, q: nat) {
    && ChannelInv(c, lastId)
    && PhaseInv(rows, c, b, q)
    && p <= q && At(rows, ClientAt(c, lastId), p) && MessagesIn(c.channel) == rows[p..q]
  }

  ghost predicate ConnInv(rows: seq<Row>, c: Conn, lastId: Option<Bytes>) {
    exists p: nat, b: nat, q: nat :: ConnAt(rows, c, lastId, p, b, q)
  }

  /** A client that started after a messages and stands after p got those between. */
  predicate ClientBetween(rows: seq<Row>, start: Bytes, last: Bytes, got: seq<Row>, a: nat, p: nat) {
    At(rows, start, a) && At(rows, last, p) && a <= p && got == rows[a..p]
  }

  ghost predicate ClientInv(rows: seq<Row>, start: Option<Bytes>, lastId: Option<Bytes>, got: seq<Row>) {
    if start.None? then lastId.None? && got == []
    else lastId.Some? && exists a: nat, p: nat :: ClientBetween(rows, start.value, lastId.value, got, a, p)
  }

  /** A transaction about to read its range saw messages there. */
  ghost predicate ReadingInv(t: Topic, events: seq<Event>, c: Conn) {
    c.phase.Reading? ==>
      c.phase.version <= |events|
      && var seen := Rows(events[..c.phase.version], t); exists b: nat :: b < |seen| && At(seen, c.cursor, b)
  }

  ghost predicate Inv(prefix: Bytes, t: Topic, s: State) {
    && Possible(prefix, s.events)
    && ClientInv(Rows(s.events, t), s.start, s.lastId, s.got)
    && (s.conn.Some? ==> ConnInv(Rows(s.events, t), s.conn.value, s.lastId) && ReadingInv(t, s.events, s.conn.value))
  }

  lemma {:induction false} MessagesInAppend(channel: seq<Frame>, f: Frame)
    ensures MessagesIn(channel + [f]) == MessagesIn(channel) + (if f.Message? then [f.row] else [])
  {
    var more := if f.Message? then [f.row] else [];
    if channel == [] {
      assert channel + [f] == [f];
      assert MessagesIn([f]) == more + MessagesIn([]);
    } else {
      assert (channel + [f])[0] == channel[0] && (channel + [f])[1..] == channel[1..] + [f];
      MessagesInAppend(channel[1..], f);
      var first := if channel[0].Message? then [channel[0].row] else [];
      assert first + (MessagesIn(channel[1..]) + more) == (first + MessagesIn(channel[1..])) + more;
    }
  }

  // Steps of the task and the stream, given the topic's rows.

  lemma ChannelGrows(c: Conn, c': Conn, lastId: Option<Bytes>, f: Frame)
    requires ChannelInv(c, lastId) && !c'.phase.Starting? && c'.first == c.first && c'.channel == c.channel + [f]
    requires if f.Init? then c.phase.Starting? && f.id == c.first else !c.phase.Starting?
    ensures ChannelInv(c', lastId) && ClientAt(c', lastId) == ClientAt(c, lastId)
    ensures MessagesIn(c'.channel) == MessagesIn(c.channel) + (if f.Message? then [f.row] else [])
  {
    MessagesInAppend(c.channel, f);
  }

  /** A change of phase, perhaps with a frame that carries no message. */
  lemma QuietStep(rows: seq<Row>, c: Conn, c': Conn, lastId: Option<Bytes>, f: Option<Frame>)
    requires ConnInv(rows, c, lastId) && !c'.phase.Starting?
    requires c' == c.(phase := c'.phase, channel := if f.Some? then c.channel + [f.value] else c.channel)
    requires if c.phase.Starting? then f == Some(Init(c.first)) else f == None || f == Some(Heartbeat)
    requires forall b: nat, q: nat :: PhaseInv(rows, c, b, q) ==> PhaseInv(rows, c', b, q)
    ensures ConnInv(rows, c', lastId)
  {
    var p: nat, b: nat, q: nat :| ConnAt(rows, c, lastId, p, b, q);
    if f.Some? {
      ChannelGrows(c, c', lastId, f.value);
    }
    assert PhaseInv(rows, c', b, q);
    assert ConnAt(rows, c', lastId, p, b, q);
  }

  lemma BatchSlice(rows: seq<Row>, batch: seq<Row>, b: nat, i: nat, p: nat)
    requires p <= b + i && i < |batch| && b + |batch| <= |rows| && batch == rows[b..b + |batch|]
    ensures batch[i] == rows[b + i] && rows[p..b + i] + [batch[i]] == rows[p..b + i + 1]
  {
  }

  function Sent(c: Conn): Conn
    requires c.phase.Sending? && c.phase.sent < |c.phase.batch|
  {
    c.(phase := Sending(c.phase.batch, c.phase.sent + 1), channel := c.channel + [Message(c.phase.batch[c.phase.sent])])
  }

  lemma SentPhase(rows: seq<Row>, c: Conn, b: nat, q: nat, p: nat)
    requires PhaseInv(rows, c, b, q) && c.phase.Sending? && c.phase.sent < |c.phase.batch| && p <= q
    ensures PhaseInv(rows, Sent(c), b, q + 1)
    ensures rows[p..q] + [c.phase.batch[c.phase.sent]] == rows[p..q + 1]
  {
    BatchSlice(rows, c.phase.batch, b, c.phase.sent, p);
  }

  lemma SendKeeps(rows: seq<Row>, c: Conn, lastId: Option<Bytes>)
    requires ConnInv(rows, c, lastId) && c.phase.Sending? && c.phase.sent < |c.phase.batch|
    ensures ConnInv(rows, Sent(c), lastId)
  {
    var p: nat, b: nat, q: nat :| ConnAt(rows, c, lastId, p, b, q);
    SentPhase(rows, c, b, q, p);
    ChannelGrows(c, Sent(c), lastId, Message(c.phase.batch[c.phase.sent]));
    assert ConnAt(rows, Sent(c), lastId, p, b, q + 1);
  }

  lemma LastOfBatch(rows: seq<Row>, batch: seq<Row>, b: nat)
    requires Ascending(rows) && batch != [] && b + |batch| <= |rows| && batch == rows[b..b + |batch|]
    ensures At(rows, batch[|batch| - 1].stamp, b + |batch|)
  {
    assert GoodStamp(rows, b + |batch| - 1);
  }

  function BatchDone(c: Conn): Conn
    requires c.phase.Sending? && c.phase.batch != []
  {
    c.(phase := Polling, cursor := c.phase.batch[|c.phase.batch| - 1].stamp)
  }

  lemma BatchEndKeeps(rows: seq<Row>, c: Conn, lastId: Option<Bytes>)
    requires Ascending(rows) && ConnInv(rows, c, lastId) && c.phase.Sending?
    requires c.phase.batch != [] && c.phase.sent == |c.phase.batch|
    ensures ConnInv(rows, BatchDone(c), lastId)
  {
    var p: nat, b: nat, q: nat :| ConnAt(rows, c, lastId, p, b, q);
    assert q == b + |c.phase.batch|;
    LastOfBatch(rows, c.phase.batch, b);
    assert PhaseInv(rows, BatchDone(c), q, q);
    assert ChannelInv(BatchDone(c), lastId) && ClientAt(BatchDone(c), lastId) == ClientAt(c, lastId);
    assert ConnAt(rows, BatchDone(c), lastId, p, q, q);
  }

  function LastIdAfter(f: Frame, lastId: Option<Bytes>): Option<Bytes> {
    match f
    case Init(id) => Some(id)
    case Message(row) => Some(row.stamp)
    case Heartbeat => lastId
  }

  function Received(c: Conn): Conn
    requires c.channel != []
  {
    c.(channel := c.channel[1..])
  }

  lemma ChannelShrinks(c: Conn, lastId: Option<Bytes>)
    requires ChannelInv(c, lastId) && c.channel != []
    ensures var lastId' := LastIdAfter(c.channel[0], lastId);
            && ChannelInv(Received(c), lastId') && lastId'.Some? && ClientAt(Received(c), lastId') == lastId'.value
            && (c.channel[0].Init? ==> lastId' == Some(ClientAt(c, lastId)) && (lastId.Some? ==> lastId == lastId'))
            && (!c.channel[0].Init? ==> lastId == Some(ClientAt(c, lastId)))
  {
    assert forall i :: 0 <= i < |Received(c).channel| ==> Received(c).channel[i] == c.channel[i + 1];
  }

  lemma FirstOfSlice(rows: seq<Row>, p: nat, q: nat, r: Row, more: seq<Row>)
    requires p <= q <= |rows| && [r] + more == rows[p..q]
    ensures p < q && r == rows[p] && more == rows[p + 1..q]
  {
    assert rows[p..q][0] == r && rows[p..q][1..] == more;
  }

  /** The first frame taken off the stream. A message is the one at the client's place, and moves
      it one further; other frames leave the place. */
  lemma ReceiveKeeps(rows: seq<Row>, c: Conn, lastId: Option<Bytes>) returns (p: nat)
    requires Ascending(rows) && ConnInv(rows, c, lastId) && c.channel != []
    ensures At(rows, ClientAt(c, lastId), p)
    ensures ConnInv(rows, Received(c), LastIdAfter(c.channel[0], lastId))
    ensures c.channel[0].Message? ==> p < |rows| && c.channel[0].row == rows[p] && At(rows, rows[p].stamp, p + 1)
  {
    var b: nat, q: nat;
    p, b, q :| ConnAt(rows, c, lastId, p, b, q);
    ChannelShrinks(c, lastId);
    var f := c.channel[0];
    assert PhaseInv(rows, Received(c), b, q);
    if f.Message? {
      FirstOfSlice(rows, p, q, f.row, MessagesIn(c.channel[1..]));
      assert GoodStamp(rows, p);
      assert ConnAt(rows, Received(c), LastIdAfter(f, lastId), p + 1, b, q);
    } else {
      assert ConnAt(rows, Received(c), LastIdAfter(f, lastId), p, b, q);
    }
  }

  /** New messages at the end change nothing before. */
  lemma MoreRows(rows: seq<Row>, more: seq<Row>, c: Conn, lastId: Option<Bytes>)
    requires ConnInv(rows, c, lastId)
    ensures ConnInv(rows + more, c, lastId)
  {
    var p: nat, b: nat, q: nat :| ConnAt(rows, c, lastId, p, b, q);
    assert (rows + more)[p..q] == rows[p..q];
    if c.phase.Sending? {
      assert (rows + more)[b..b + |c.phase.batch|] == rows[b..b + |c.phase.batch|];
    }
    assert ConnAt(rows + more, c, lastId, p, b, q);
  }

  lemma MoreRowsForClient(rows: seq<Row>, more: seq<Row>, start: Option<Bytes>, lastId: Option<Bytes>, got: seq<Row>)
    requires ClientInv(rows, start, lastId, got)
    ensures ClientInv(rows + more, start, lastId, got)
  {
    if start.Some? {
      var a: nat, p: nat :| ClientBetween(rows, start.value, lastId.value, got, a, p);
      assert (rows + more)[a..p] == rows[a..p];
      assert ClientBetween(rows + more, start.value, lastId.value, got, a, p);
    }
  }

  // Steps of the whole system.

  lemma PublishKeepsInv(prefix: Bytes, t: Topic, s: State, e: Event)
    requires Inv(prefix, t, s) && Possible(prefix, s.events + [e])
    ensures Inv(prefix, t, s.(events := s.events + [e]))
  {
    var rows := Rows(s.events, t);
    var more := if e.Push? && e.topic == t then [Row(e.stamp, e.data)] else [];
    assert (s.events + [e])[..|s.events|] == s.events;
    assert Rows(s.events + [e], t) == rows + more;
    MoreRowsForClient(rows, more, s.start, s.lastId, s.got);
    if s.conn.Some? {
      var c := s.conn.value;
      MoreRows(rows, more, c, s.lastId);
      if c.phase.Reading? {
        assert (s.events + [e])[..c.phase.version] == s.events[..c.phase.version];
      }
    }
  }

  lemma CounterIsLast(prefix: Bytes, t: Topic, events: seq<Event>)
    requires Possible(prefix, events) && ValidTopic(prefix, t)
    ensures CounterOf(prefix, t, events) == Counter(Rows(events, t)) && Ascending(Rows(events, t))
  {
    StoreRepresentsRows(prefix, events, t, ZERO_STAMP);
    RowsAscend(prefix, events, t);
  }

  /** A new connection starts at a cursor of the queue. */
  lemma ConnectKeeps(rows: seq<Row>, start: Option<Bytes>, lastId: Option<Bytes>, got: seq<Row>, wait: bool, n: nat)
    requires Ascending(rows) && ClientInv(rows, start, lastId, got)
    ensures FirstCursor(Counter(rows), lastId).Some?
    ensures var c := FirstCursor(Counter(rows), lastId).value; ConnInv(rows, Conn(wait, n, c, c, Starting, []), lastId)
  {
    var p: nat := |rows|;
    if lastId.Some? {
      var a: nat, p': nat :| ClientBetween(rows, start.value, lastId.value, got, a, p');
      p := p';
    } else {
      assert rows != [] ==> GoodStamp(rows, |rows| - 1);
    }
    var c := FirstCursor(Counter(rows), lastId).value;
    assert rows[p..p] == [];
    assert ConnAt(rows, Conn(wait, n, c, c, Starting, []), lastId, p, p, p);
  }

  lemma Moved(rows: seq<Row>, c: Conn, phase: Phase, lastId: Option<Bytes>, p: nat, b: nat, q: nat)
    requires ConnAt(rows, c, lastId, p, b, q) && !c.phase.Starting? && !phase.Starting?
    requires PhaseInv(rows, c.(phase := phase), b, q)
    ensures ConnInv(rows, c.(phase := phase), lastId)
  {
    assert ConnAt(rows, c.(phase := phase), lastId, p, b, q);
  }

  lemma PollPhase(rows: seq<Row>, c: Conn, b: nat, now: nat)
    requires Ascending(rows) && PhaseInv(rows, c, b, b) && c.phase.Polling?
    ensures var c' := Polled(c, now, Counter(rows));
            && PhaseInv(rows, c', b, b) && c' == c.(phase := c'.phase) && !c'.phase.Starting?
            && (c'.phase.Reading? ==> c'.phase.version == now && b < |rows|)
  {
    CounterTells(rows, c.cursor, b);
    assert rows[b..b] == [];
  }

  lemma PollKeeps(rows: seq<Row>, c: Conn, lastId: Option<Bytes>, now: nat)
    requires Ascending(rows) && ConnInv(rows, c, lastId) && c.phase.Polling?
    ensures var c' := Polled(c, now, Counter(rows));
            && ConnInv(rows, c', lastId)
            && (c'.phase.Reading? ==>
                  c'.phase.version == now && c'.cursor == c.cursor && exists b: nat :: b < |rows| && At(rows, c.cursor, b))
  {
    var p: nat, b: nat, q: nat :| ConnAt(rows, c, lastId, p, b, q);
    PollPhase(rows, c, b, now);
    Moved(rows, c, Polled(c, now, Counter(rows)).phase, lastId, p, b, q);
  }

  /** Rows read at an earlier version are the next ones now. */
  lemma SeenIsNext(rows: seq<Row>, seen: seq<Row>, cursor: Bytes, b: nat, b': nat, read: seq<Row>)
    requires Ascending(rows) && seen <= rows && At(rows, cursor, b) && At(seen, cursor, b') && read <= After(seen, cursor)
    ensures b + |read| <= |rows| && read == rows[b..b + |read|]
  {
    AscendingSlice(rows, 0, |seen|);
    assert seen == rows[..|seen|];
    AtUnique(rows, cursor, b, b');
    AfterAt(seen, cursor, b);
    assert seen[b..][..|read|] == rows[b..b + |read|];
  }

  lemma ReadKeeps(rows: seq<Row>, c: Conn, lastId: Option<Bytes>, read: seq<Row>, seen: seq<Row>, b': nat)
    requires Ascending(rows) && ConnInv(rows, c, lastId) && c.phase.Reading?
    requires seen <= rows && At(seen, c.cursor, b') && read != [] && read <= After(seen, c.cursor)
    ensures ConnInv(rows, c.(phase := Sending(read, 0)), lastId)
  {
    var p: nat, b: nat, q: nat :| ConnAt(rows, c, lastId, p, b, q);
    SeenIsNext(rows, seen, c.cursor, b, b', read);
    assert PhaseInv(rows, c.(phase := Sending(read, 0)), b, q);
    assert ConnAt(rows, c.(phase := Sending(read, 0)), lastId, p, b, q);
  }

  /** The range read of a transaction that saw the counter advance gives some rows, the next ones
      of its version. */
  lemma ReadGives(prefix: Bytes, t: Topic, events: seq<Event>, c: Conn, keys: seq<Bytes>, b: nat)
    requires Possible(prefix, events) && ValidTopic(prefix, t) && b < |Rows(events, t)| && At(Rows(events, t), c.cursor, b)
    requires Readable(prefix, t, c.cursor, c.n, Try(StoreOf(prefix, events), keys))
    ensures BatchStored(Try(StoreOf(prefix, events), keys))
    ensures var read := RowsRead(StoreOf(prefix, events), keys, StripLength(prefix, t));
            read.Some? && read.value != [] && read.value <= After(Rows(events, t), c.cursor)
  {
    RowsAscend(prefix, events, t);
    AfterAt(Rows(events, t), c.cursor, b);
    ReadsNext(prefix, events, t, c.cursor, c.n, keys);
  }

  lemma ReadingKeeps(prefix: Bytes, t: Topic, events: seq<Event>, c: Conn, lastId: Option<Bytes>, store: Store, keys: seq<Bytes>)
    requires Possible(prefix, events) && ValidTopic(prefix, t)
    requires ConnInv(Rows(events, t), c, lastId) && ReadingInv(t, events, c) && c.phase.Reading?
    requires store == StoreOf(prefix, events[..c.phase.version]) && ReadPossible(prefix, t, store, c, keys)
    ensures BatchStored(Try(store, keys))
    ensures ConnInv(Rows(events, t), RangeRead(c, store, StripLength(prefix, t), keys), lastId)
    ensures !RangeRead(c, store, StripLength(prefix, t), keys).phase.Reading?
  {
    var seenEvents := events[..c.phase.version];
    var seen := Rows(seenEvents, t);
    var b: nat :| b < |seen| && At(seen, c.cursor, b);
    PossiblePrefix(prefix, events, c.phase.version);
    RowsGrow(events, t, c.phase.version);
    RowsAscend(prefix, events, t);
    ReadGives(prefix, t, seenEvents, c, keys, b);
    ReadKeeps(Rows(events, t), c, lastId, RowsRead(store, keys, StripLength(prefix, t)).value, seen, b);
  }

  lemma SendingKeeps(rows: seq<Row>, c: Conn, lastId: Option<Bytes>)
    requires Ascending(rows) && ConnInv(rows, c, lastId) && c.phase.Sending?
    ensures ConnInv(rows, SendStep(c), lastId)
  {
    var p: nat, b: nat, q: nat :| ConnAt(rows, c, lastId, p, b, q);
    var batch := c.phase.batch;
    if c.phase.sent < |batch| && SseFormat.Encodable(batch[c.phase.sent].data) {
      SendKeeps(rows, c, lastId);
    } else if c.phase.sent == |batch| && c.wait && batch != [] {
      BatchEndKeeps(rows, c, lastId);
    } else {
      QuietStep(rows, c, c.(phase := Closed), lastId, None);
    }
  }

  lemma ServeStarting(rows: seq<Row>, c: Conn, lastId: Option<Bytes>)
    requires ConnInv(rows, c, lastId) && (c.phase.Starting? || c.phase.Watching?)
    ensures var channel := if c.phase.Starting? then c.channel + [Init(c.cursor)] else c.channel;
            ConnInv(rows, c.(phase := Polling, channel := channel), lastId)
  {
    var f := if c.phase.Starting? then Some(Init(c.first)) else None;
    var c' := c.(phase := Polling, channel := if f.Some? then c.channel + [f.value] else c.channel);
    assert forall b: nat, q: nat :: PhaseInv(rows, c, b, q) ==> PhaseInv(rows, c', b, q);
    assert c.phase.Starting? ==> c.cursor == c.first;
    QuietStep(rows, c, c', lastId, f);
  }

  /** The connection after a step of the task at the newest version. */
  function Served(prefix: Bytes, t: Topic, events: seq<Event>, c: Conn, keys: seq<Bytes>): Conn {
    ServeConn(c, |events|, Counter(Rows(events, t)), StoreRead(prefix, events, c), StripLength(prefix, t), keys)
  }

  ghost predicate ConnFits(t: Topic, events: seq<Event>, c: Conn, lastId: Option<Bytes>) {
    ConnInv(Rows(events, t), c, lastId) && ReadingInv(t, events, c)
  }

  lemma ServeOpening(prefix: Bytes, t: Topic, events: seq<Event>, c: Conn, lastId: Option<Bytes>, keys: seq<Bytes>)
    requires ConnFits(t, events, c, lastId) && !c.phase.Polling? && !c.phase.Reading? && !c.phase.Sending?
    ensures ConnFits(t, events, Served(prefix, t, events, c, keys), lastId)
  {
    if c.phase.Starting? || c.phase.Watching? {
      ServeStarting(Rows(events, t), c, lastId);
    }
  }

  lemma ServePolling(prefix: Bytes, t: Topic, events: seq<Event>, c: Conn, lastId: Option<Bytes>, keys: seq<Bytes>)
    requires Ascending(Rows(events, t)) && ConnFits(t, events, c, lastId) && c.phase.Polling?
    ensures ConnFits(t, events, Served(prefix, t, events, c, keys), lastId)
  {
    PollKeeps(Rows(events, t), c, lastId, |events|);
    assert events[..|events|] == events;
  }

  lemma ServeReading(prefix: Bytes, t: Topic, events: seq<Event>, c: Conn, lastId: Option<Bytes>, keys: seq<Bytes>)
    requires Possible(prefix, events) && ValidTopic(prefix, t) && ConnFits(t, events, c, lastId) && c.phase.Reading?
    requires ReadPossible(prefix, t, StoreRead(prefix, events, c), c, keys)
    ensures ConnFits(t, events, Served(prefix, t, events, c, keys), lastId)
  {
    ReadingKeeps(prefix, t, events, c, lastId, StoreRead(prefix, events, c), keys);
  }

  lemma ServeSending(prefix: Bytes, t: Topic, events: seq<Event>, c: Conn, lastId: Option<Bytes>, keys: seq<Bytes>)
    requires Ascending(Rows(events, t)) && ConnFits(t, events, c, lastId) && c.phase.Sending?
    ensures ConnFits(t, events, Served(prefix, t, events, c, keys), lastId)
  {
    SendingKeeps(Rows(events, t), c, lastId);
  }

  lemma ServeKeeps(prefix: Bytes, t: Topic, events: seq<Event>, c: Conn, lastId: Option<Bytes>, keys: seq<Bytes>)
    requires Possible(prefix, events) && ValidTopic(prefix, t) && ConnFits(t, events, c, lastId)
    requires ReadPossible(prefix, t, StoreRead(prefix, events, c), c, keys)
    ensures ConnFits(t, events, Served(prefix, t, events, c, keys), lastId)
  {
    RowsAscend(prefix, events, t);
    if c.phase.Polling? {
      ServePolling(prefix, t, events, c, lastId, keys);
    } else if c.phase.Reading? {
      ServeReading(prefix, t, events, c, lastId, keys);
    } else if c.phase.Sending? {
      ServeSending(prefix, t, events, c, lastId, keys);
    } else {
      ServeOpening(prefix, t, events, c, lastId, keys);
    }
  }

  /** The client's side of a received frame. */
  lemma ClientReceives(rows: seq<Row>, c: Conn, start: Option<Bytes>, lastId: Option<Bytes>, got: seq<Row>, p: nat)
    requires Ascending(rows) && ClientInv(rows, start, lastId, got) && ChannelInv(c, lastId) && c.channel != []
    requires At(rows, ClientAt(c, lastId), p)
    requires c.channel[0].Message? ==> p < |rows| && c.channel[0].row == rows[p] && At(rows, rows[p].stamp, p + 1)
    ensures var f := c.channel[0];
            var id := LastIdAfter(f, lastId);
            ClientInv(rows, if f.Init? && start.None? then id else start, id, if f.Message? then got + [f.row] else got)
  {
    var f := c.channel[0];
    ChannelShrinks(c, lastId);
    if start.None? {
      assert f.Init? && rows[p..p] == [];
      assert ClientBetween(rows, f.id, f.id, got, p, p);
    } else {
      var a: nat, p': nat :| ClientBetween(rows, start.value, lastId.value, got, a, p');
      if f.Message? {
        AtUnique(rows, lastId.value, p, p');
        assert rows[a..p] + [rows[p]] == rows[a..p + 1];
        assert ClientBetween(rows, start.value, f.row.stamp, got + [f.row], a, p + 1);
      }
    }
  }

  lemma ReceiveKeepsInv(prefix: Bytes, t: Topic, s: State)
    requires Inv(prefix, t, s) && s.conn.Some? && s.conn.value.channel != []
    ensures Inv(prefix, t, ReceiveFrame(s))
  {
    var rows, c := Rows(s.events, t), s.conn.value;
    RowsAscend(prefix, s.events, t);
    var p := ReceiveKeeps(rows, c, s.lastId);
    assert ChannelInv(c, s.lastId);
    ClientReceives(rows, c, s.start, s.lastId, s.got, p);
  }

  lemma StepKeepsInv(prefix: Bytes, t: Topic, s: State, step: Step)
    requires Inv(prefix, t, s) && ValidTopic(prefix, t)
    ensures Inv(prefix, t, Do(prefix, t, s, step))
  {
    CounterIsLast(prefix, t, s.events);
    match step
    case Publish(e) =>
      if Possible(prefix, s.events + [e]) {
        PublishKeepsInv(prefix, t, s, e);
      }
    case Connect(wait, n) =>
      if s.conn.None? {
        ConnectKeeps(Rows(s.events, t), s.start, s.lastId, s.got, wait, n);
      }
    case Beat =>
      if s.conn.Some? && (s.conn.value.phase.Polling? || s.conn.value.phase.Watching? || s.conn.value.phase.Reading?) {
        var c := s.conn.value;
        QuietStep(Rows(s.events, t), c, c.(phase := Polling, channel := c.channel + [Heartbeat]), s.lastId, Some(Heartbeat));
      }
    case Receive =>
      if s.conn.Some? && s.conn.value.channel != [] {
        ReceiveKeepsInv(prefix, t, s);
      }
    case Disconnect =>
    case Stop =>
      if s.conn.Some? && !s.conn.value.phase.Starting? {
        var c := s.conn.value;
        QuietStep(Rows(s.events, t), c, c.(phase := Closed), s.lastId, None);
      }
    case Serve(keys) =>
      if s.conn.Some? && ReadPossible(prefix, t, StoreRead(prefix, s.events, s.conn.value), s.conn.value, keys) {
        ServeKeeps(prefix, t, s.events, s.conn.value, s.lastId, keys);
      }
  }

  /** The state after any steps, in any interleaving. */
  ghost function Run(prefix: Bytes, t: Topic, steps: seq<Step>): (s: State)
    requires ValidTopic(prefix, t)
    ensures Inv(prefix, t, s)
  {
    if steps == [] then INITIAL
    else
      var n := |steps| - 1;
      StepKeepsInv(prefix, t, Run(prefix, t, steps[..n]), steps[n]);
      Do(prefix, t, Run(prefix, t, steps[..n]), steps[n])
  }

  /** Main result: whatever the interleaving, a client subscribed from `start` has got a beginning
      of the topic's messages stamped after `start`: in stamp order, without gap or repeat. */
  lemma DeliversInOrder(prefix: Bytes, t: Topic, steps: seq<Step>)
    requires ValidTopic(prefix, t)
    ensures var s := Run(prefix, t, steps); s.start.Some? ==> s.got <= After(Rows(s.events, t), s.start.value)
  {
    var s := Run(prefix, t, steps);
    if s.start.Some? {
      RowsAscend(prefix, s.events, t);
      GotIsBeginning(Rows(s.events, t), s.start, s.lastId, s.got);
    }
  }

  lemma GotIsBeginning(rows: seq<Row>, start: Option<Bytes>, lastId: Option<Bytes>, got: seq<Row>)
    requires Ascending(rows) && ClientInv(rows, start, lastId, got) && start.Some?
    ensures got <= After(rows, start.value)
  {
    var a: nat, p: nat :| ClientBetween(rows, start.value, lastId.value, got, a, p);
    AfterAt(rows, start.value, a);
    assert rows[a..][..p - a] == rows[a..p];
  }

  /** In no run does a pop bail out, and a task blocked on its watch while a message waits has a
      watch that has fired: the counter is no longer the value the watch was set on. */
  lemma NeverFailsNorMissesWakeup(prefix: Bytes, t: Topic, steps: seq<Step>)
    requires ValidTopic(prefix, t)
    ensures var s := Run(prefix, t, steps);
            s.conn.Some? ==>
              && !s.conn.value.phase.Broken?
              && (s.conn.value.phase.Watching? && After(Rows(s.events, t), s.conn.value.cursor) != []
                  ==> CounterOf(prefix, t, s.events) != s.conn.value.phase.seen)
  {
    var s := Run(prefix, t, steps);
    if s.conn.Some? {
      CounterIsLast(prefix, t, s.events);
      WatchFired(Rows(s.events, t), s.conn.value, s.lastId);
    }
  }

  lemma WatchFired(rows: seq<Row>, c: Conn, lastId: Option<Bytes>)
    requires Ascending(rows) && ConnInv(rows, c, lastId)
    ensures !c.phase.Broken?
    ensures c.phase.Watching? && After(rows, c.cursor) != [] ==> Counter(rows) != c.phase.seen
  {
    var p: nat, b: nat, q: nat :| ConnAt(rows, c, lastId, p, b, q);
    if c.phase.Watching? {
      AfterAt(rows, c.cursor, b);
      CounterTells(rows, c.cursor, b);
      LtIrreflexive(c.cursor);
    }
  }
}
