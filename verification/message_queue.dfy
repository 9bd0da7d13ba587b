/** The queue as the server holds it (`MessageQueueTopic::{push, seq}` and
    `MessageQueue::flush_hot_topics`, src/pubsub/mq.rs). */
module MessageQueues {
  import opened Bytes
  import opened Tuple
  import opened Fdb
  import opened MqKeys
  import opened Mq
  import opened MqPop
  import SseRuns

  class MessageQueue {
    const prefix: Bytes
    var store: Store
    var hotTopics: set<Topic>
    ghost var events: seq<Event>

    ghost predicate Valid()
      reads this
    {
      && Possible(prefix, events) && store == StoreOf(prefix, events)
      && forall t <- hotTopics :: ValidTopic(prefix, t)
    }

    constructor (prefix: Bytes)
      ensures Valid() && this.prefix == prefix && events == [] && hotTopics == {}
    {
      this.prefix := prefix;
      this.store := map[];
      this.hotTopics := {};
      this.events := [];
    }

    /** A commit that went through. */
    method Commit(txn: Transaction, e: Event)
      requires Valid() && txn.mutations == Mutations(prefix, e) && Possible(prefix, events + [e])
      modifies this
      ensures Valid() && events == old(events) + [e] && hotTopics == old(hotTopics)
      ensures store == ApplyAll(old(store), Mutations(prefix, e), StampOf(e))
    {
      store := ApplyAll(store, txn.mutations, StampOf(e));
      events := events + [e];
      assert events[..|events| - 1] == old(events);
    }

    method CommitPush(mq: MessageQueueTopic, data: Bytes, txn: Transaction, stamp: Bytes)
      requires Valid() && mq.Valid() && mq.prefix == prefix && Newer(events, stamp)
      requires txn.mutations == PushMutations(mq.prefix, mq.topic, data)
      modifies this
      ensures Valid() && hotTopics == old(hotTopics) + {mq.topic}
      ensures events == old(events) + [Mq.Push(mq.topic, data, stamp)]
    {
      ghost var push := Mq.Push(mq.topic, data, stamp);
      assert ValidTopic(prefix, mq.topic);
      PossibleNext(prefix, events, push);
      Commit(txn, Mq.Push(mq.topic, data, stamp));
      hotTopics := hotTopics + {mq.topic};
    }

    method AddPush(mq: MessageQueueTopic, data: Bytes, txn: Transaction)
      requires mq.Valid() && txn.mutations == []
      modifies txn
      ensures txn.mutations == PushMutations(mq.prefix, mq.topic, data)
    {
      txn.Mutate(StampedKey(mq.dataKeyTemplate, data));
      txn.Mutate(StampedValue(mq.counterKey, Template([])));
    }

    /** The retry loop of a push: None is a try that failed with a retryable error, Some the stamp
        of the commit. However many tries fail, one message is stored. */
    method Push(mq: MessageQueueTopic, data: Bytes, tries: seq<Option<Bytes>>) returns (stamp: Option<Bytes>)
      requires Valid() && mq.Valid() && mq.prefix == prefix
      requires forall t <- tries :: t.Some? ==> Newer(events, t.value)
      modifies this
      ensures Valid()
      ensures stamp.None? ==> events == old(events) && hotTopics == old(hotTopics) && forall t <- tries :: t.None?
      ensures stamp.Some? ==>
                && stamp in tries
                && events == old(events) + [Mq.Push(mq.topic, data, stamp.value)]
                && hotTopics == old(hotTopics) + {mq.topic}
    {
      var txn := new Transaction(store);
      for i := 0 to |tries|
        invariant fresh(txn) && txn.mutations == [] && unchanged(this)
        invariant forall j :: 0 <= j < i ==> tries[j].None?
      {
        AddPush(mq, data, txn);
        match tries[i] {
          case Some(s) =>
            assert tries[i] in tries;
            CommitPush(mq, data, txn, s);
            return Some(s);
          case None =>
            txn.Reset(store);
        }
      }
      return None;
    }

    /** The cursor a new subscriber starts from: right after the last message. */
    method Seq(mq: MessageQueueTopic) returns (cursor: Option<Bytes>)
      requires Valid() && mq.Valid() && mq.prefix == prefix
      ensures cursor.Some? && At(Rows(events, mq.topic), cursor.value, |Rows(events, mq.topic)|)
      ensures cursor == SseRuns.FirstCursor(SseRuns.CounterOf(prefix, mq.topic, events), None)
    {
      SseRuns.CounterIsLast(prefix, mq.topic, events);
      assert Rows(events, mq.topic) != [] ==> GoodStamp(Rows(events, mq.topic), |Rows(events, mq.topic)| - 1);
      match Lookup(store, mq.counterKey) {
        case None => return Some(ZERO_STAMP);
        case Some(x) => return if |x| == 10 then Some(x) else None;
      }
    }

    method AddFlush(batch: seq<Topic>, txn: Transaction)
      requires txn.mutations == []
      modifies txn`mutations
      ensures txn.mutations == Mutations(prefix, Flush(batch))
      ensures forall i :: 0 <= i < |batch| ==>
                txn.mutations[i] == Set(PackString(prefix) + [0x68] + batch[i].ns + PackString(batch[i].name), [0x31])
    {
      for j := 0 to |batch|
        invariant txn.mutations == Mutations(prefix, Flush(batch[..j]))
      {
        txn.Mutate(Set(HotKey(prefix, batch[j]), [0x31]));
      }
      assert batch[..|batch|] == batch;
    }

    /** One chunk of the flush, with its retry loop: however often it conflicts, it commits once or
        fails for good and changes nothing. */
    method FlushBatch(batch: seq<Topic>, fate: Fate) returns (ok: bool)
      requires Valid() && forall t <- batch :: ValidTopic(prefix, t)
      modifies this
      ensures Valid() && hotTopics == old(hotTopics) && ok == fate.commits
      ensures events == if ok then old(events) + [Flush(batch)] else old(events)
      ensures HotKeysAdded(prefix, old(store), store, if ok then Topics(batch) else {})
    {
      var txn := new Transaction(store);
      for i := 0 to fate.conflicts
        invariant fresh(txn) && txn.mutations == [] && unchanged(this)
      {
        AddFlush(batch, txn);
        txn.Reset(store);
      }
      AddFlush(batch, txn);
      if !fate.commits {
        return false;
      }
      PossibleNext(prefix, events, Flush(batch));
      Commit(txn, Flush(batch));
      forall t | ValidTopic(prefix, t)
        ensures HotKey(prefix, t) in store <==> HotKey(prefix, t) in old(store) || t in Topics(batch)
      {
        FlushCommitted(prefix, old(store), batch, t);
      }
      return true;
    }

    /** Takes the hot topics and flushes them in chunks until one fails for good. Then as many topics
        have their keys as the chunks before it hold, and the others are forgotten: no longer hot, and
        without a key if they had none. */
    method FlushHotTopics(fates: seq<Fate>) returns (ok: bool, ghost flushed: set<Topic>)
      requires Valid() && |hotTopics| <= CHUNK * |fates|
      modifies this
      ensures Valid() && hotTopics == {} && OnlyFlushes(old(events), events)
      ensures ok <==> |old(hotTopics)| <= 100 * Leading(fates)
      ensures flushed <= old(hotTopics)
      ensures |flushed| == if ok then |old(hotTopics)| else 100 * Leading(fates)
      ensures HotKeysAdded(prefix, old(store), store, flushed)
    {
      var todo := hotTopics;
      hotTopics := {};
      ghost var all := todo;
      flushed := {};
      var i := 0;
      while todo != {}
        invariant Flushing(old(store), old(events), all, flushed, todo, i)
        invariant AllCommit(fates, i)
        decreases |todo|
      {
        MoreToDo(all, flushed, todo, i, fates);
        var committed;
        committed, todo, flushed := FlushNext(old(store), old(events), all, flushed, todo, i, fates[i]);
        if !committed {
          return false, flushed;
        }
        assert AllCommit(fates, i + 1);
        i := i + 1;
      }
      NoMoreToDo(all, flushed, i, fates);
      return true, flushed;
    }

    /** In the middle of a flush begun at the given store and events. */
    ghost predicate Flushing(store0: Store, events0: seq<Event>, all: set<Topic>, flushed: set<Topic>, todo: set<Topic>, i: nat)
      reads this
    {
      && Valid() && hotTopics == {} && OnlyFlushes(events0, events) && (forall t <- all :: ValidTopic(prefix, t))
      && Progress(all, flushed, todo, i) && HotKeysAdded(prefix, store0, store, flushed)
    }

    method FlushNext(ghost store0: Store, ghost events0: seq<Event>, ghost all: set<Topic>, ghost flushed: set<Topic>,
                     todo: set<Topic>, ghost i: nat, fate: Fate)
      returns (committed: bool, todo': set<Topic>, ghost flushed': set<Topic>)
      requires Flushing(store0, events0, all, flushed, todo, i) && todo != {}
      modifies this
      ensures committed == fate.commits
      ensures committed ==> Flushing(store0, events0, all, flushed', todo', i + 1) && |todo'| < |todo|
      ensures !committed ==> Flushing(store0, events0, all, flushed', todo', i) && todo' == todo && flushed' == flushed
    {
      var batch, rest := TakeChunk(todo);
      ProgressMade(all, flushed, todo, i, batch, rest);
      ghost var stored, sofar := store, events;
      committed := FlushBatch(batch, fate);
      todo', flushed' := todo, flushed;
      if committed {
        OneFlushMore(events0, sofar, batch);
        AddedInTurn(prefix, store0, stored, store, flushed, Topics(batch));
        todo', flushed' := rest, flushed + Topics(batch);
      } else {
        assert flushed + {} == flushed;
      }
    }
  }

  function Topics(batch: seq<Topic>): set<Topic> {
    set t | t in batch
  }

  /** Among the hot keys, those of the given topics have come to the store, and nothing else changed. */
  ghost predicate HotKeysAdded(prefix: Bytes, before: Store, after: Store, topics: set<Topic>) {
    forall t :: ValidTopic(prefix, t) ==> (HotKey(prefix, t) in after <==> HotKey(prefix, t) in before || t in topics)
  }

  lemma AddedInTurn(prefix: Bytes, a: Store, b: Store, c: Store, first: set<Topic>, second: set<Topic>)
    requires HotKeysAdded(prefix, a, b, first) && HotKeysAdded(prefix, b, c, second)
    ensures HotKeysAdded(prefix, a, c, first + second)
  {
  }

  /** After i chunks: what is flushed and what is still to do. Only the last chunk may be short. */
  predicate Progress(all: set<Topic>, flushed: set<Topic>, todo: set<Topic>, i: nat) {
    && all == flushed + todo && flushed !! todo
    && (|flushed| == CHUNK * i || (todo == {} && |flushed| <= CHUNK * i))
  }

  lemma ProgressMade(all: set<Topic>, flushed: set<Topic>, todo: set<Topic>, i: nat, batch: seq<Topic>, rest: set<Topic>)
    requires Progress(all, flushed, todo, i) && todo == rest + Topics(batch) && rest !! Topics(batch) && todo != {}
    requires |rest| + |batch| == |todo| && |batch| <= CHUNK && (rest == {} || |batch| == CHUNK)
    ensures Progress(all, flushed + Topics(batch), rest, i + 1)
  {
    assert |todo| == |rest| + |Topics(batch)|;
    assert |flushed + Topics(batch)| == |flushed| + |batch|;
  }

  /** How the retry loop of a chunk goes: so many conflicts, then a commit or a failure for good. */
  datatype Fate = Fate(conflicts: nat, commits: bool)

  /** How many chunks commit before the first that fails. */
  function Leading(fates: seq<Fate>): (n: nat)
    ensures n <= |fates|
  {
    if fates == [] || !fates[0].commits then 0 else 1 + Leading(fates[1..])
  }

  predicate AllCommit(fates: seq<Fate>, i: nat) {
    i <= |fates| && forall j :: 0 <= j < i ==> fates[j].commits
  }

  lemma {:induction false} LeadingIs(fates: seq<Fate>, i: nat)
    requires AllCommit(fates, i)
    ensures Leading(fates) >= i && (i < |fates| && !fates[i].commits ==> Leading(fates) == i)
  {
    if i > 0 {
      LeadingIs(fates[1..], i - 1);
    }
  }

  const CHUNK := 100

  /** Up to a hundred topics, in whatever order the hash set gives them. */
  method TakeChunk(topics: set<Topic>) returns (batch: seq<Topic>, rest: set<Topic>)
    requires topics != {}
    ensures 0 < |batch| <= CHUNK && |rest| + |batch| == |topics| && (rest == {} || |batch| == CHUNK)
    ensures topics == rest + Topics(batch) && rest !! Topics(batch)
  {
    batch, rest := [], topics;
    while rest != {} && |batch| < CHUNK
      invariant |batch| <= CHUNK && rest <= topics && |rest| + |batch| == |topics|
      invariant topics == rest + Topics(batch) && rest !! Topics(batch)
      decreases |rest|
    {
      var t :| t in rest;
      batch, rest := batch + [t], rest - {t};
    }
  }

  /** Since then there have been flushes of at most a chunk each, and nothing else. */
  predicate OnlyFlushes(before: seq<Event>, after: seq<Event>) {
    before <= after && forall i :: |before| <= i < |after| ==> after[i].Flush? && |after[i].topics| <= CHUNK
  }

  lemma MoreToDo(all: set<Topic>, flushed: set<Topic>, todo: set<Topic>, i: nat, fates: seq<Fate>)
    requires Progress(all, flushed, todo, i) && todo != {} && AllCommit(fates, i) && |all| <= CHUNK * |fates|
    ensures i < |fates| && flushed <= all
    ensures !fates[i].commits ==> |all| > CHUNK * Leading(fates) == |flushed|
  {
    assert |all| == |flushed| + |todo|;
    LeadingIs(fates, i);
  }

  lemma NoMoreToDo(all: set<Topic>, flushed: set<Topic>, i: nat, fates: seq<Fate>)
    requires Progress(all, flushed, {}, i) && AllCommit(fates, i)
    ensures flushed == all && |all| <= CHUNK * Leading(fates)
  {
    LeadingIs(fates, i);
  }

  /** A flush adds the hot keys of its topics, and no other hot key. */
  lemma FlushCommitted(prefix: Bytes, store: Store, batch: seq<Topic>, t: Topic)
    requires ValidTopic(prefix, t) && forall u <- batch :: ValidTopic(prefix, u)
    ensures HotKey(prefix, t) in ApplyAll(store, Mutations(prefix, Flush(batch)), ZERO_STAMP)
       <==> HotKey(prefix, t) in store || t in batch
    ensures t in batch ==> Lookup(ApplyAll(store, Mutations(prefix, Flush(batch)), ZERO_STAMP), HotKey(prefix, t)) == Some([0x31])
  {
    var ms := Mutations(prefix, Flush(batch));
    FlushKeeps(prefix, store, batch);
    if t !in batch {
      forall i | 0 <= i < |ms| ensures Target(ms[i], ZERO_STAMP) != HotKey(prefix, t) {
        assert batch[i] in batch;
        HotKeysDistinct(prefix, t, batch[i]);
      }
      assert HotKey(prefix, t) !in Targets(ms, ZERO_STAMP);
      ApplyFrame(store, ms, ZERO_STAMP, HotKey(prefix, t));
    }
  }

  lemma {:induction false} FlushKeeps(prefix: Bytes, store: Store, batch: seq<Topic>)
    ensures var after := ApplyAll(store, Mutations(prefix, Flush(batch)), ZERO_STAMP);
            && (forall t <- batch :: Lookup(after, HotKey(prefix, t)) == Some([0x31]))
            && store.Keys <= after.Keys
  {
    if batch != [] {
      var n := |batch| - 1;
      var ms := Mutations(prefix, Flush(batch));
      assert ms[..n] == Mutations(prefix, Flush(batch[..n]));
      FlushKeeps(prefix, store, batch[..n]);
      assert forall t <- batch :: t == batch[n] || t in batch[..n];
    }
  }

  lemma OneFlushMore(before: seq<Event>, after: seq<Event>, batch: seq<Topic>)
    requires OnlyFlushes(before, after) && |batch| <= CHUNK
    ensures OnlyFlushes(before, after + [Flush(batch)])
  {
  }

  /** One message, and a flush whose only chunk fails: the topic is no longer hot, its hot key is
      absent, and its message is there. */
  method TopicForgotten(prefix: Bytes, topic: Topic, data: Bytes, stamp: Bytes) returns (queue: MessageQueue)
    requires ValidTopic(prefix, topic) && IsStamp(stamp) && Lt(ZERO_STAMP, stamp)
    ensures queue.Valid() && queue.prefix == prefix
    ensures topic !in queue.hotTopics && HotKey(prefix, topic) !in queue.store
    ensures Rows(queue.events, topic) == [Row(stamp, data)]
  {
    queue := new MessageQueue(prefix);
    var mq := new MessageQueueTopic(prefix, topic);
    var pushed := queue.Push(mq, data, [Some(stamp)]);
    assert pushed == Some(stamp);
    var push := Mq.Push(topic, data, stamp);
    assert queue.events == [push] && [push][..0] == [];
    NoHotKey(prefix, topic, push);
    assert queue.hotTopics == {topic};
    var ok, flushed := queue.FlushHotTopics([Fate(0, false)]);
    assert Leading([Fate(0, false)]) == 0;
    RowsOfFlushes(prefix, topic, [push], queue.events);
    assert Rows([push], topic) == Rows([], topic) + [Row(stamp, data)];
  }

  lemma NoHotKey(prefix: Bytes, topic: Topic, push: Event)
    requires push.Push? && push.topic == topic && GoodEvent(prefix, push)
    ensures HotKey(prefix, topic) !in StoreOf(prefix, [push])
  {
    assert [push][..0] == [];
    PushEffect(prefix, map[], topic, push.data, push.stamp);
    KeysDistinct(prefix, topic, topic, push.stamp, push.stamp);
    assert StoreOf(prefix, [push]) == ApplyAll(StoreOf(prefix, []), Mutations(prefix, push), StampOf(push));
  }

  /** Flushes add no message. */
  lemma {:induction false} RowsOfFlushes(prefix: Bytes, t: Topic, before: seq<Event>, after: seq<Event>)
    requires OnlyFlushes(before, after)
    ensures Rows(after, t) == Rows(before, t)
    decreases |after|
  {
    if |after| > |before| {
      RowsOfFlushes(prefix, t, before, after[..|after| - 1]);
    } else {
      assert after == before;
    }
  }
}
