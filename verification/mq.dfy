/** The message queue over FoundationDB (`MessageQueueTopic::{push, seq, pop}` and the hot-topic
    flush, src/pubsub/mq.rs): what the store holds after any pushes, and what a pop reads. */
module Mq {
  import opened Bytes
  import opened Tuple
  import opened Fdb
  import opened MqKeys

  datatype Row = Row(stamp: Bytes, data: Bytes)

  /** A committed transaction of the queue. */
  datatype Event = Push(topic: Topic, data: Bytes, stamp: Bytes) | Flush(topics: seq<Topic>)

  /** The two mutations of a push: the message under its stamp, and the stamp as the counter. */
  function PushMutations(prefix: Bytes, t: Topic, data: Bytes): seq<Mutation> {
    [StampedKey(DataTemplate(prefix, t), data), StampedValue(CounterKey(prefix, t), Template([]))]
  }

  function Mutations(prefix: Bytes, e: Event): seq<Mutation> {
    match e
    case Push(t, data, _) => PushMutations(prefix, t, data)
    case Flush(topics) => seq(|topics|, i requires 0 <= i < |topics| => Set(HotKey(prefix, topics[i]), [0x31]))
  }

  function StampOf(e: Event): (s: Bytes)
    ensures IsStamp(s)
  {
    if e.Push? && IsStamp(e.stamp) then e.stamp else ZERO_STAMP
  }

  function StoreOf(prefix: Bytes, events: seq<Event>): Store {
    if events == [] then map[]
    else
      var n := |events| - 1;
      ApplyAll(StoreOf(prefix, events[..n]), Mutations(prefix, events[n]), StampOf(events[n]))
  }

  /** The topic's messages in commit order. */
  function Rows(events: seq<Event>, t: Topic): seq<Row> {
    if events == [] then []
    else
      var n := |events| - 1;
      Rows(events[..n], t) + (if events[n].Push? && events[n].topic == t then [Row(events[n].stamp, events[n].data)] else [])
  }

  predicate GoodEvent(prefix: Bytes, e: Event) {
    match e
    case Push(t, _, stamp) => ValidTopic(prefix, t) && IsStamp(stamp) && Lt(ZERO_STAMP, stamp)
    case Flush(topics) => forall t <- topics :: ValidTopic(prefix, t)
  }

  predicate PushedBefore(events: seq<Event>, i: int, j: int)
    requires 0 <= i < j < |events|
  {
    events[i].Push? && events[j].Push? ==> Lt(events[i].stamp, events[j].stamp)
  }

  /** Valid topics, and stamps as the database gives them. */
  predicate Possible(prefix: Bytes, events: seq<Event>) {
    && (forall e <- events :: GoodEvent(prefix, e))
    && (forall i, j :: 0 <= i < j < |events| ==> PushedBefore(events, i, j))
  }

  /** A stamp the database may give next. */
  predicate Newer(events: seq<Event>, stamp: Bytes) {
    IsStamp(stamp) && Lt(ZERO_STAMP, stamp) && forall e <- events :: e.Push? ==> Lt(e.stamp, stamp)
  }

  lemma PossibleNext(prefix: Bytes, events: seq<Event>, e: Event)
    requires Possible(prefix, events) && GoodEvent(prefix, e) && (e.Push? ==> Newer(events, e.stamp))
    ensures Possible(prefix, events + [e])
  {
    var all := events + [e];
    forall i, j | 0 <= i < j < |all| ensures PushedBefore(all, i, j) {
      if j < |events| {
        assert PushedBefore(events, i, j);
      } else {
        assert events[i] in events;
      }
    }
  }

  lemma PossiblePrefix(prefix: Bytes, events: seq<Event>, k: nat)
    requires Possible(prefix, events) && k <= |events|
    ensures Possible(prefix, events[..k])
  {
    forall i, j | 0 <= i < j < k ensures PushedBefore(events[..k], i, j) {
      assert PushedBefore(events, i, j);
    }
  }

  predicate GoodStamp(rows: seq<Row>, i: int)
    requires 0 <= i < |rows|
  {
    IsStamp(rows[i].stamp) && Lt(ZERO_STAMP, rows[i].stamp)
  }

  predicate Earlier(rows: seq<Row>, i: int, j: int)
    requires 0 <= i < j < |rows|
  {
    Lt(rows[i].stamp, rows[j].stamp)
  }

  /** Non-zero stamps in strictly increasing order. */
  predicate Ascending(rows: seq<Row>) {
    && (forall i :: 0 <= i < |rows| ==> GoodStamp(rows, i))
    && (forall i, j :: 0 <= i < j < |rows| ==> Earlier(rows, i, j))
  }

  lemma AscendingSlice(rows: seq<Row>, lo: nat, hi: nat)
    requires Ascending(rows) && lo <= hi <= |rows|
    ensures Ascending(rows[lo..hi])
  {
    var part := rows[lo..hi];
    forall i | 0 <= i < |part| ensures GoodStamp(part, i) {
      assert GoodStamp(rows, lo + i);
    }
    forall i, j | 0 <= i < j < |part| ensures Earlier(part, i, j) {
      assert Earlier(rows, lo + i, lo + j);
    }
  }

  /** Every row comes from a push, and later rows from later pushes. */
  lemma {:induction false} RowPushed(events: seq<Event>, t: Topic, i: nat) returns (at: nat)
    requires i < |Rows(events, t)|
    ensures at < |events| && events[at] == Push(t, Rows(events, t)[i].data, Rows(events, t)[i].stamp)
    ensures |Rows(events[..at], t)| == i
  {
    var n := |events| - 1;
    if i < |Rows(events[..n], t)| {
      at := RowPushed(events[..n], t, i);
      assert events[..n][..at] == events[..at];
    } else {
      at := n;
    }
  }

  lemma {:induction false} RowsGrow(events: seq<Event>, t: Topic, k: nat)
    requires k <= |events|
    ensures Rows(events[..k], t) <= Rows(events, t)
    decreases |events| - k
  {
    if k == |events| {
      assert events[..k] == events;
    } else {
      RowsGrow(events, t, k + 1);
      assert events[..k + 1][..k] == events[..k];
    }
  }

  lemma RowsAscend(prefix: Bytes, events: seq<Event>, t: Topic)
    requires Possible(prefix, events)
    ensures Ascending(Rows(events, t))
  {
    var rows := Rows(events, t);
    forall i | 0 <= i < |rows| ensures GoodStamp(rows, i) {
      var p := RowPushed(events, t, i);
      assert events[p] in events && GoodEvent(prefix, events[p]);
    }
    forall i, j | 0 <= i < j < |rows| ensures Earlier(rows, i, j) {
      var p := RowPushed(events, t, i);
      var q := RowPushed(events, t, j);
      if p < q {
        assert PushedBefore(events, p, q);
      } else {
        assert events[..p][..q] == events[..q];
        RowsGrow(events[..p], t, q);
      }
    }
  }

  /** A push stores the message under its data key and its stamp as the counter. */
  lemma PushEffect(prefix: Bytes, store: Store, t: Topic, data: Bytes, stamp: Bytes)
    requires ValidTopic(prefix, t) && IsStamp(stamp)
    ensures ApplyAll(store, Mutations(prefix, Push(t, data, stamp)), stamp)
         == store[DataKey(prefix, t, stamp) := data][CounterKey(prefix, t) := stamp]
  {
    var ms := Mutations(prefix, Push(t, data, stamp));
    TemplateYieldsDataKey(prefix, t, stamp);
    TemplateFilled([], stamp);
    assert [] + stamp == stamp;
    assert ms[..1] == [ms[0]] && ms[..1][..0] == [];
    assert ApplyAll(store, ms[..1], stamp) == Apply(store, ms[0], stamp);
  }

  /** A flush touches hot keys only. */
  lemma FlushEffect(prefix: Bytes, store: Store, topics: seq<Topic>, t: Topic, s: Bytes)
    requires ValidTopic(prefix, t) && IsStamp(s) && forall u <- topics :: ValidTopic(prefix, u)
    ensures var after := ApplyAll(store, Mutations(prefix, Flush(topics)), ZERO_STAMP);
            && Lookup(after, CounterKey(prefix, t)) == Lookup(store, CounterKey(prefix, t))
            && Lookup(after, DataKey(prefix, t, s)) == Lookup(store, DataKey(prefix, t, s))
  {
    var ms := Mutations(prefix, Flush(topics));
    forall i | 0 <= i < |ms|
      ensures Target(ms[i], ZERO_STAMP) != CounterKey(prefix, t) && Target(ms[i], ZERO_STAMP) != DataKey(prefix, t, s)
    {
      KeysDistinct(prefix, t, topics[i], s, s);
    }
    ApplyFrame(store, ms, ZERO_STAMP, CounterKey(prefix, t));
    ApplyFrame(store, ms, ZERO_STAMP, DataKey(prefix, t, s));
  }

  function Counter(rows: seq<Row>): Option<Bytes> {
    if rows == [] then None else Some(rows[|rows| - 1].stamp)
  }

  /** The message stamped s. */
  function Stamped(rows: seq<Row>, s: Bytes): Option<Bytes> {
    if rows == [] then None
    else if rows[|rows| - 1].stamp == s then Some(rows[|rows| - 1].data)
    else Stamped(rows[..|rows| - 1], s)
  }

  /** In every reachable store a topic's counter is absent when the topic is empty and else its
      greatest stamp, and its data keys hold exactly its messages. */
  lemma {:induction false} StoreRepresentsRows(prefix: Bytes, events: seq<Event>, t: Topic, s: Bytes)
    requires Possible(prefix, events) && ValidTopic(prefix, t) && IsStamp(s)
    ensures Lookup(StoreOf(prefix, events), CounterKey(prefix, t)) == Counter(Rows(events, t))
    ensures Lookup(StoreOf(prefix, events), DataKey(prefix, t, s)) == Stamped(Rows(events, t), s)
  {
    if events != [] {
      var n := |events| - 1;
      var e, before := events[n], StoreOf(prefix, events[..n]);
      assert e in events && GoodEvent(prefix, e);
      PossiblePrefix(prefix, events, n);
      StoreRepresentsRows(prefix, events[..n], t, s);
      match e {
        case Push(u, data, stamp) =>
          PushEffect(prefix, before, u, data, stamp);
          KeysDistinct(prefix, u, t, stamp, s);
          KeysDistinct(prefix, t, u, s, s);
          var rows := Rows(events, t);
          if u == t {
            assert rows[..|rows| - 1] == Rows(events[..n], t);
          } else {
            assert rows == Rows(events[..n], t);
          }
        case Flush(topics) =>
          FlushEffect(prefix, before, topics, t, s);
          assert Rows(events, t) == Rows(events[..n], t);
      }
    }
  }

  ghost predicate QueueKey(prefix: Bytes, k: Bytes) {
    || (exists t, s :: ValidTopic(prefix, t) && IsStamp(s) && k == DataKey(prefix, t, s))
    || (exists t :: ValidTopic(prefix, t) && (k == CounterKey(prefix, t) || k == HotKey(prefix, t)))
  }

  lemma MutationsWriteQueueKeys(prefix: Bytes, store: Store, e: Event, k: Bytes)
    requires GoodEvent(prefix, e)
    requires k in ApplyAll(store, Mutations(prefix, e), StampOf(e)) && k !in store
    ensures QueueKey(prefix, k)
  {
    match e {
      case Push(t, data, stamp) => PushEffect(prefix, store, t, data, stamp);
      case Flush(topics) =>
        var ms := Mutations(prefix, e);
        assert k in Targets(ms, ZERO_STAMP) by {
          if k !in Targets(ms, ZERO_STAMP) {
            ApplyFrame(store, ms, ZERO_STAMP, k);
          }
        }
        var i :| 0 <= i < |ms| && Target(ms[i], ZERO_STAMP) == k;
        assert k == HotKey(prefix, topics[i]) && ValidTopic(prefix, topics[i]);
    }
  }

  /** Nothing else is ever stored. */
  lemma {:induction false} OnlyQueueKeys(prefix: Bytes, events: seq<Event>, k: Bytes)
    requires Possible(prefix, events) && k in StoreOf(prefix, events)
    ensures QueueKey(prefix, k)
  {
    var n := |events| - 1;
    var before := StoreOf(prefix, events[..n]);
    PossiblePrefix(prefix, events, n);
    if k in before {
      OnlyQueueKeys(prefix, events[..n], k);
    } else {
      assert events[n] in events && GoodEvent(prefix, events[n]);
      MutationsWriteQueueKeys(prefix, before, events[n], k);
    }
  }

  // Reading.

  /** The rows stamped after a cursor. */
  function After(rows: seq<Row>, cursor: Bytes): seq<Row> {
    if rows == [] || Lt(cursor, rows[0].stamp) then rows else After(rows[1..], cursor)
  }

  lemma {:induction false} AfterMeans(rows: seq<Row>, cursor: Bytes)
    requires Ascending(rows)
    ensures Ascending(After(rows, cursor))
    ensures forall r :: r in After(rows, cursor) <==> r in rows && Lt(cursor, r.stamp)
  {
    if rows == [] {
    } else if Lt(cursor, rows[0].stamp) {
      forall r | r in rows ensures Lt(cursor, r.stamp) {
        var i :| 0 <= i < |rows| && rows[i] == r;
        if i > 0 {
          assert Earlier(rows, 0, i);
          LtTransitive(cursor, rows[0].stamp, rows[i].stamp);
        }
      }
    } else {
      AscendingSlice(rows, 1, |rows|);
      assert rows[1..|rows|] == rows[1..];
      AfterMeans(rows[1..], cursor);
      assert forall r :: r in rows <==> r == rows[0] || r in rows[1..];
    }
  }

  lemma {:induction false} StampedMeans(rows: seq<Row>, s: Bytes)
    requires Ascending(rows)
    ensures Stamped(rows, s).Some? ==> Row(s, Stamped(rows, s).value) in rows
    ensures forall r <- rows :: r.stamp == s ==> Stamped(rows, s) == Some(r.data)
  {
    if rows != [] {
      var n := |rows| - 1;
      AscendingSlice(rows, 0, n);
      assert rows[0..n] == rows[..n];
      StampedMeans(rows[..n], s);
      LtIrreflexive(s);
      forall r <- rows | r.stamp == s ensures Stamped(rows, s) == Some(r.data) {
        var i :| 0 <= i < |rows| && rows[i] == r;
        if i < n {
          assert Earlier(rows, i, n) && r in rows[..n];
        }
      }
    }
  }

  function KeysOf(prefix: Bytes, t: Topic, rows: seq<Row>): (ks: seq<Bytes>)
    ensures |ks| == |rows| && forall i :: 0 <= i < |ks| ==> ks[i] == DataKey(prefix, t, rows[i].stamp)
  {
    seq(|rows|, i requires 0 <= i < |rows| => DataKey(prefix, t, rows[i].stamp))
  }

  /** An ordered, downward-closed part of an ordered list is its beginning. */
  lemma {:induction false} ClosedPartIsPrefix(all: seq<Bytes>, part: seq<Bytes>)
    requires forall i, j :: 0 <= i < j < |all| ==> Lt(all[i], all[j])
    requires forall i, j :: 0 <= i < j < |part| ==> Lt(part[i], part[j])
    requires forall k <- part :: k in all
    requires forall k, i :: k in all && 0 <= i < |part| && Lt(k, part[i]) ==> k in part
    ensures part <= all
  {
    if part != [] {
      assert part[0] in part;
      var j :| 0 <= j < |all| && all[j] == part[0];
      if j > 0 {
        assert all[0] in part;
        var m :| 0 <= m < |part| && part[m] == all[0];
        LtTrichotomy(all[0], all[j]);
      }
      assert all[0] == part[0];
      LtIrreflexive(all[0]);
      forall k <- part[1..] ensures k in all[1..] {
        assert k in part;
        var i :| 0 <= i < |all| && all[i] == k;
        assert i != 0;
        assert all[1..][i - 1] == k;
      }
      forall k, i | k in all[1..] && 0 <= i < |part[1..]| && Lt(k, part[1..][i]) ensures k in part[1..] {
        assert k in all && part[1..][i] == part[i + 1];
        assert k in part && k != part[0];
      }
      ClosedPartIsPrefix(all[1..], part[1..]);
      assert part == [part[0]] + part[1..] && all == [all[0]] + all[1..];
    }
  }

  lemma InRangeIsAfter(prefix: Bytes, events: seq<Event>, t: Topic, cursor: Bytes, k: Bytes)
    requires Possible(prefix, events) && ValidTopic(prefix, t) && IsStamp(cursor)
    requires var range := PopRange(prefix, t, cursor); k in StoreOf(prefix, events) && InRange(k, range.0, range.1)
    ensures k in KeysOf(prefix, t, After(Rows(events, t), cursor))
  {
    var rows := Rows(events, t);
    RowsAscend(prefix, events, t);
    AfterMeans(rows, cursor);
    RangeIsExact(prefix, t, cursor);
    OnlyQueueKeys(prefix, events, k);
    var u, s :| ValidTopic(prefix, u) && IsStamp(s) && k == DataKey(prefix, u, s);
    StoreRepresentsRows(prefix, events, t, s);
    StampedMeans(rows, s);
    var r := Row(s, Stamped(rows, s).value);
    var i :| 0 <= i < |After(rows, cursor)| && After(rows, cursor)[i] == r;
    assert KeysOf(prefix, t, After(rows, cursor))[i] == k;
  }

  lemma AfterIsInRange(prefix: Bytes, events: seq<Event>, t: Topic, cursor: Bytes, i: nat)
    requires Possible(prefix, events) && ValidTopic(prefix, t) && IsStamp(cursor)
    requires i < |After(Rows(events, t), cursor)|
    ensures IsStamp(After(Rows(events, t), cursor)[i].stamp)
    ensures var range := PopRange(prefix, t, cursor);
            var r := After(Rows(events, t), cursor)[i];
            var k := DataKey(prefix, t, r.stamp);
            Lookup(StoreOf(prefix, events), k) == Some(r.data) && InRange(k, range.0, range.1)
  {
    var rows := Rows(events, t);
    RowsAscend(prefix, events, t);
    AfterMeans(rows, cursor);
    RangeIsExact(prefix, t, cursor);
    var r := After(rows, cursor)[i];
    assert GoodStamp(After(rows, cursor), i) && r in After(rows, cursor);
    StoreRepresentsRows(prefix, events, t, r.stamp);
    StampedMeans(rows, r.stamp);
  }

  /** The keys stored in the range of a pop are those of the topic's messages after its cursor. */
  lemma RangeHoldsAfter(prefix: Bytes, events: seq<Event>, t: Topic, cursor: Bytes, k: Bytes)
    requires Possible(prefix, events) && ValidTopic(prefix, t) && IsStamp(cursor)
    ensures var range := PopRange(prefix, t, cursor);
            k in StoreOf(prefix, events) && InRange(k, range.0, range.1)
            <==> k in KeysOf(prefix, t, After(Rows(events, t), cursor))
  {
    var range, keys := PopRange(prefix, t, cursor), KeysOf(prefix, t, After(Rows(events, t), cursor));
    if k in StoreOf(prefix, events) && InRange(k, range.0, range.1) {
      InRangeIsAfter(prefix, events, t, cursor, k);
    }
    if k in keys {
      var i :| 0 <= i < |keys| && keys[i] == k;
      AfterIsInRange(prefix, events, t, cursor, i);
    }
  }

  lemma KeysOrdered(prefix: Bytes, t: Topic, rows: seq<Row>, i: nat, j: nat)
    requires Ascending(rows) && i < j < |rows|
    ensures Lt(KeysOf(prefix, t, rows)[i], KeysOf(prefix, t, rows)[j])
  {
    var common := TopicPrefix(prefix, QUEUE, t);
    assert Earlier(rows, i, j);
    LtCancelPrefix(common, [DATA] + rows[i].stamp, [DATA] + rows[j].stamp);
    LtCancelPrefix([DATA], rows[i].stamp, rows[j].stamp);
  }

  /** One range read of a pop returns the keys of the first messages after the cursor, and some
      unless there are none. */
  lemma BatchIsNext(prefix: Bytes, events: seq<Event>, t: Topic, cursor: Bytes, n: nat, keys: seq<Bytes>)
    requires Possible(prefix, events) && ValidTopic(prefix, t) && IsStamp(cursor)
    requires var range := PopRange(prefix, t, cursor);
             IsBatch(StoreOf(prefix, events), range.0, range.1, false, n, keys)
    ensures var next := After(Rows(events, t), cursor);
            keys <= KeysOf(prefix, t, next) && (keys == [] ==> next == [])
  {
    var next := After(Rows(events, t), cursor);
    var all := KeysOf(prefix, t, next);
    forall k ensures k in StoreOf(prefix, events) && InRange(k, PopRange(prefix, t, cursor).0, PopRange(prefix, t, cursor).1)
                     <==> k in all
    {
      RangeHoldsAfter(prefix, events, t, cursor, k);
    }
    RowsAscend(prefix, events, t);
    AfterMeans(Rows(events, t), cursor);
    forall i, j | 0 <= i < j < |all| ensures Lt(all[i], all[j]) {
      KeysOrdered(prefix, t, next, i, j);
    }
    ClosedPartIsPrefix(all, keys);
    assert all != [] ==> all[0] in all;
  }
}
