/** `MessageQueueTopic::pop` (src/pubsub/mq.rs): the watch loop on the counter, then one range read
    in the transaction that saw it advance. */
module MqPop {
  import opened Bytes
  import opened Tuple
  import opened Fdb
  import opened MqKeys
  import opened Mq

  /** What a pop does with the counter it reads. */
  datatype Glance = Advanced | Unchanged | Bail

  function Look(counter: Option<Bytes>, fromSeq: Bytes): Glance {
    match counter
    case None => Unchanged
    case Some(x) =>
      if |x| != 10 then Bail
      else if Lt(fromSeq, x) then Advanced
      else if Lt(x, fromSeq) then Bail
      else Unchanged
  }

  /** The rows of one range read; None when pop bails out on them. */
  function RowsRead(store: Store, keys: seq<Bytes>, stripLen: nat): Option<seq<Row>>
    requires forall k <- keys :: k in store
  {
    if keys == [] || exists k <- keys :: |k| != stripLen + 10 then None
    else Some(seq(|keys|, i requires 0 <= i < |keys| => Row(keys[i][stripLen..], store[keys[i]])))
  }

  method ReadRows(store: Store, keys: seq<Bytes>, stripLen: nat) returns (result: Option<seq<Row>>)
    requires forall k <- keys :: k in store
    ensures result == RowsRead(store, keys, stripLen)
  {
    if keys == [] {
      return None;
    }
    var rows: seq<Row> := [];
    for j := 0 to |keys|
      invariant |rows| == j && forall m :: 0 <= m < j ==> |keys[m]| == stripLen + 10
      invariant forall m :: 0 <= m < j ==> rows[m] == Row(keys[m][stripLen..], store[keys[m]])
    {
      if |keys[j]| != stripLen + 10 {
        assert keys[j] in keys;
        return None;
      }
      rows := rows + [Row(keys[j][stripLen..], store[keys[j]])];
    }
    assert forall k <- keys :: |k| == stripLen + 10;
    assert rows == seq(|keys|, i requires 0 <= i < |keys| => Row(keys[i][stripLen..], store[keys[i]]));
    return Some(rows);
  }

  /** One transaction of the loop: its snapshot, and the batch a range read of it would return. */
  datatype Try = Try(store: Store, batch: seq<Bytes>)

  predicate BatchStored(try: Try) {
    forall k <- try.batch :: k in try.store
  }

  datatype Popped = Popped(rows: seq<Row>) | Failed | StillWaiting

  ghost predicate Readable(prefix: Bytes, t: Topic, fromSeq: Bytes, n: nat, try: Try) {
    var range := PopRange(prefix, t, fromSeq);
    IsBatch(try.store, range.0, range.1, false, n, try.batch)
  }

  function StripLength(prefix: Bytes, t: Topic): nat {
    |TopicPrefix(prefix, QUEUE, t)| + 1
  }

  function PopResult(prefix: Bytes, t: Topic, fromSeq: Bytes, wait: bool, tries: seq<Try>): Popped
    requires forall i :: 0 <= i < |tries| ==> BatchStored(tries[i])
  {
    if tries == [] then StillWaiting
    else
      assert BatchStored(tries[0]);
      match Look(Lookup(tries[0].store, CounterKey(prefix, t)), fromSeq)
      case Bail => Failed
      case Unchanged => if wait then PopResult(prefix, t, fromSeq, wait, tries[1..]) else Popped([])
      case Advanced =>
        match RowsRead(tries[0].store, tries[0].batch, StripLength(prefix, t))
        case None => Failed
        case Some(rows) => Popped(rows)
  }

  /** Tries go on until the counter has moved past the cursor; each further try is a new
      transaction begun when the watch fired or failed. */
  method Pop(mq: MessageQueueTopic, fromSeq: Bytes, wait: bool, tries: seq<Try>) returns (result: Popped)
    requires mq.Valid() && IsStamp(fromSeq)
    requires forall i :: 0 <= i < |tries| ==> BatchStored(tries[i])
    ensures result == PopResult(mq.prefix, mq.topic, fromSeq, wait, tries)
  {
    var i := 0;
    while true
      invariant i <= |tries|
      invariant PopResult(mq.prefix, mq.topic, fromSeq, wait, tries)
             == PopResult(mq.prefix, mq.topic, fromSeq, wait, tries[i..])
      decreases |tries| - i
    {
      if i == |tries| {
        return StillWaiting;
      }
      assert tries[i..][0] == tries[i] && tries[i..][1..] == tries[i + 1..];
      match Lookup(tries[i].store, mq.counterKey) {
        case None =>
        case Some(counter) =>
          if |counter| != 10 {
            return Failed;
          }
          if Lt(fromSeq, counter) {
            break;
          }
          if Lt(counter, fromSeq) {
            return Failed;
          }
      }
      if !wait {
        return Popped([]);
      }
      i := i + 1;
    }
    assert BatchStored(tries[i]);
    var rows := ReadRows(tries[i].store, tries[i].batch, |mq.dataKeyTemplate| - 14);
    match rows {
      case None => return Failed;
      case Some(r) => return Popped(r);
    }
  }

  /** Cursors the queue hands out: the zero stamp before all messages, or a message's stamp. The
      cursor stands right after the first p messages. */
  predicate At(rows: seq<Row>, c: Bytes, p: nat) {
    IsStamp(c) && p <= |rows| && c == if p == 0 then ZERO_STAMP else rows[p - 1].stamp
  }

  lemma StampsCompare(rows: seq<Row>, c: Bytes, p: nat, i: nat)
    requires Ascending(rows) && At(rows, c, p) && i < |rows|
    ensures Lt(c, rows[i].stamp) <==> p <= i
    ensures c == rows[i].stamp <==> p == i + 1
  {
    assert GoodStamp(rows, i);
    LtIrreflexive(c);
    if p > 0 {
      LtTrichotomy(rows[p - 1].stamp, rows[i].stamp);
      if i < p - 1 {
        assert Earlier(rows, i, p - 1);
      } else if p - 1 < i {
        assert Earlier(rows, p - 1, i);
      }
    }
  }

  lemma AtUnique(rows: seq<Row>, c: Bytes, p: nat, q: nat)
    requires Ascending(rows) && At(rows, c, p) && At(rows, c, q)
    ensures p == q
  {
    if p > 0 {
      StampsCompare(rows, c, q, p - 1);
    } else {
      LtIrreflexive(c);
      assert q > 0 ==> GoodStamp(rows, q - 1);
    }
  }

  lemma {:induction false} AfterIsSuffix(rows: seq<Row>, c: Bytes, p: nat)
    requires p <= |rows| && forall i :: 0 <= i < |rows| ==> (Lt(c, rows[i].stamp) <==> p <= i)
    ensures After(rows, c) == rows[p..]
  {
    if p > 0 {
      AfterIsSuffix(rows[1..], c, p - 1);
      assert rows[1..][p - 1..] == rows[p..];
    }
  }

  /** What lies after a cursor of the queue. */
  lemma AfterAt(rows: seq<Row>, c: Bytes, p: nat)
    requires Ascending(rows) && At(rows, c, p)
    ensures After(rows, c) == rows[p..]
  {
    forall i | 0 <= i < |rows| ensures Lt(c, rows[i].stamp) <==> p <= i {
      StampsCompare(rows, c, p, i);
    }
    AfterIsSuffix(rows, c, p);
  }

  /** The counter never makes pop bail out on a cursor of the queue, and it has advanced exactly
      when there is a message to read. */
  lemma CounterTells(rows: seq<Row>, c: Bytes, p: nat)
    requires Ascending(rows) && At(rows, c, p)
    ensures Look(Counter(rows), c) == if p == |rows| then Unchanged else Advanced
    ensures p == |rows| > 0 ==> Counter(rows) == Some(c)
  {
    if rows != [] {
      assert GoodStamp(rows, |rows| - 1);
      StampsCompare(rows, c, p, |rows| - 1);
      LtTrichotomy(c, rows[|rows| - 1].stamp);
    }
  }

  lemma DataKeyParts(prefix: Bytes, t: Topic, stamp: Bytes)
    ensures |DataKey(prefix, t, stamp)| == StripLength(prefix, t) + |stamp|
    ensures DataKey(prefix, t, stamp)[StripLength(prefix, t)..] == stamp
  {
  }

  /** A key that stands for a message after the cursor is read as that message. */
  lemma KeyReadBack(prefix: Bytes, events: seq<Event>, t: Topic, c: Bytes, i: nat)
    requires Possible(prefix, events) && ValidTopic(prefix, t) && IsStamp(c)
    requires i < |After(Rows(events, t), c)|
    ensures var r := After(Rows(events, t), c)[i];
            var k := DataKey(prefix, t, r.stamp);
            && Lookup(StoreOf(prefix, events), k) == Some(r.data)
            && |k| == StripLength(prefix, t) + 10 && k[StripLength(prefix, t)..] == r.stamp
  {
    DataKeyParts(prefix, t, After(Rows(events, t), c)[i].stamp);
    AfterIsInRange(prefix, events, t, c, i);
  }

  /** A range read gives the first messages after the cursor; neither check on it can fail. */
  lemma ReadsNext(prefix: Bytes, events: seq<Event>, t: Topic, c: Bytes, n: nat, keys: seq<Bytes>)
    requires Possible(prefix, events) && ValidTopic(prefix, t) && IsStamp(c)
    requires After(Rows(events, t), c) != []
    requires Readable(prefix, t, c, n, Try(StoreOf(prefix, events), keys))
    ensures var rows := RowsRead(StoreOf(prefix, events), keys, StripLength(prefix, t));
            rows.Some? && rows.value != [] && rows.value <= After(Rows(events, t), c) && |rows.value| <= n
  {
    var next := After(Rows(events, t), c);
    BatchIsNext(prefix, events, t, c, n, keys);
    forall i | 0 <= i < |keys|
      ensures |keys[i]| == StripLength(prefix, t) + 10
      ensures Row(keys[i][StripLength(prefix, t)..], StoreOf(prefix, events)[keys[i]]) == next[i]
    {
      assert keys[i] == KeysOf(prefix, t, next)[i];
      KeyReadBack(prefix, events, t, c, i);
    }
  }

  /** A transaction of a pop that reads the store after `events`, at a cursor the queue gave out. */
  ghost predicate Fair(prefix: Bytes, t: Topic, c: Bytes, n: nat, events: seq<Event>, try: Try) {
    && Possible(prefix, events) && try.store == StoreOf(prefix, events) && Readable(prefix, t, c, n, try)
    && exists p: nat :: At(Rows(events, t), c, p)
  }

  lemma FairTry(prefix: Bytes, t: Topic, c: Bytes, n: nat, events: seq<Event>, try: Try)
    requires ValidTopic(prefix, t) && Fair(prefix, t, c, n, events, try)
    ensures BatchStored(try)
    ensures var next := After(Rows(events, t), c);
            && Look(Lookup(try.store, CounterKey(prefix, t)), c) == (if next == [] then Unchanged else Advanced)
            && (next != [] ==>
                  var rows := RowsRead(try.store, try.batch, StripLength(prefix, t));
                  rows.Some? && rows.value != [] && rows.value <= next && |rows.value| <= n)
  {
    var p: nat :| At(Rows(events, t), c, p);
    RowsAscend(prefix, events, t);
    StoreRepresentsRows(prefix, events, t, ZERO_STAMP);
    CounterTells(Rows(events, t), c, p);
    AfterAt(Rows(events, t), c, p);
    if After(Rows(events, t), c) != [] {
      ReadsNext(prefix, events, t, c, n, try.batch);
    }
  }

  /** What a pop over some histories may give: the next messages of one of them, at least one if it
      waits; and it goes on waiting only while there are none. */
  ghost predicate Delivers(t: Topic, c: Bytes, n: nat, wait: bool, histories: seq<seq<Event>>, result: Popped) {
    match result
    case Failed => false
    case StillWaiting =>
      histories == [] || (wait && forall i :: 0 <= i < |histories| ==> After(Rows(histories[i], t), c) == [])
    case Popped(rows) =>
      (exists i :: 0 <= i < |histories| && rows <= After(Rows(histories[i], t), c)) && |rows| <= n
      && (wait ==> rows != [])
  }

  lemma DeliversLater(t: Topic, c: Bytes, n: nat, histories: seq<seq<Event>>, result: Popped)
    requires histories != [] && After(Rows(histories[0], t), c) == [] && Delivers(t, c, n, true, histories[1..], result)
    ensures Delivers(t, c, n, true, histories, result)
  {
    match result
    case Failed =>
    case StillWaiting =>
      forall i | 0 <= i < |histories| ensures After(Rows(histories[i], t), c) == [] {
        assert i > 0 ==> histories[i] == histories[1..][i - 1];
      }
    case Popped(rows) =>
      var i :| 0 <= i < |histories[1..]| && rows <= After(Rows(histories[1..][i], t), c);
      assert histories[1..][i] == histories[i + 1];
  }

  lemma AllStored(prefix: Bytes, t: Topic, c: Bytes, n: nat, histories: seq<seq<Event>>, tries: seq<Try>)
    requires ValidTopic(prefix, t) && |histories| == |tries|
    requires forall i :: 0 <= i < |tries| ==> Fair(prefix, t, c, n, histories[i], tries[i])
    ensures forall i :: 0 <= i < |tries| ==> BatchStored(tries[i])
  {
    forall i | 0 <= i < |tries| ensures BatchStored(tries[i]) {
      FairTry(prefix, t, c, n, histories[i], tries[i]);
    }
  }

  /** None of the bail-outs of a pop can happen for a cursor of the queue. */
  lemma {:induction false} PopDelivers(prefix: Bytes, t: Topic, c: Bytes, n: nat, wait: bool,
                                       histories: seq<seq<Event>>, tries: seq<Try>)
    requires ValidTopic(prefix, t) && |histories| == |tries|
    requires forall i :: 0 <= i < |tries| ==> Fair(prefix, t, c, n, histories[i], tries[i])
    ensures forall i :: 0 <= i < |tries| ==> BatchStored(tries[i])
    ensures Delivers(t, c, n, wait, histories, PopResult(prefix, t, c, wait, tries))
    decreases |tries|
  {
    AllStored(prefix, t, c, n, histories, tries);
    if tries != [] {
      FairTry(prefix, t, c, n, histories[0], tries[0]);
      if After(Rows(histories[0], t), c) == [] && wait {
        PopDelivers(prefix, t, c, n, wait, histories[1..], tries[1..]);
        DeliversLater(t, c, n, histories, PopResult(prefix, t, c, wait, tries[1..]));
      } else {
        assert [] <= After(Rows(histories[0], t), c);
      }
    }
  }
}
