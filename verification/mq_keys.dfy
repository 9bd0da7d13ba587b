/** Key layout of the message queue (src/pubsub/mq.rs): per topic one counter key and one data key
    per message, and one hot key. */
module MqKeys {
  import opened Bytes
  import opened Tuple
  import opened Fdb
  import opened StampedRows

  const QUEUE: Byte := 0x71
  const HOT: Byte := 0x68
  const DATA: Byte := 0x64
  const COUNTER: Byte := 0x63
  const AFTER_DATA: Byte := 0x65

  /** A namespace's sixteen bytes and a topic's name. */
  datatype Topic = Topic(ns: Bytes, name: Bytes)

  function TopicPrefix(prefix: Bytes, kind: Byte, t: Topic): Bytes {
    PackString(prefix) + [kind] + t.ns + PackString(t.name)
  }

  function DataKey(prefix: Bytes, t: Topic, stamp: Bytes): Bytes {
    TopicPrefix(prefix, QUEUE, t) + ([DATA] + stamp)
  }

  function CounterKey(prefix: Bytes, t: Topic): Bytes {
    TopicPrefix(prefix, QUEUE, t) + [COUNTER]
  }

  function HotKey(prefix: Bytes, t: Topic): Bytes {
    TopicPrefix(prefix, HOT, t)
  }

  /** Sixteen namespace bytes, and keys within what a 32-bit offset addresses. */
  predicate ValidTopic(prefix: Bytes, t: Topic) {
    |t.ns| == 16 && Addressable(TopicPrefix(prefix, QUEUE, t))
  }

  /** `copy_from_slice` into part of a buffer. */
  method CopyInto(buffer: array<Byte>, at: nat, src: Bytes)
    requires at + |src| <= buffer.Length
    modifies buffer
    ensures buffer[..] == old(buffer[..at]) + src + old(buffer[at + |src|..])
  {
    for i := 0 to |src|
      invariant buffer[..at] == old(buffer[..at])
      invariant buffer[at..at + i] == src[..i]
      invariant buffer[at + i..] == old(buffer[at + i..])
    {
      buffer[at + i] := src[i];
    }
    assert buffer[..] == buffer[..at] + buffer[at..at + |src|] + buffer[at + |src|..];
  }

  method BufferOf(s: Bytes) returns (buffer: array<Byte>)
    ensures fresh(buffer) && buffer[..] == s
  {
    buffer := new Byte[|s|];
    CopyInto(buffer, 0, s);
  }

  class MessageQueueTopic {
    const prefix: Bytes
    const topic: Topic
    const dataKeyTemplate: Bytes
    const counterKey: Bytes

    ghost predicate Valid() {
      && ValidTopic(prefix, topic)
      && counterKey == CounterKey(prefix, topic)
      && dataKeyTemplate == DataTemplate(prefix, topic)
    }

    constructor (prefix: Bytes, topic: Topic)
      requires ValidTopic(prefix, topic)
      ensures Valid() && this.prefix == prefix && this.topic == topic
      ensures counterKey == PackString(prefix) + [0x71] + topic.ns + PackString(topic.name) + [0x63]
      ensures dataKeyTemplate[..|dataKeyTemplate| - 14] == PackString(prefix) + [0x71] + topic.ns + PackString(topic.name) + [0x64]
    {
      var commonPrefix := PackString(prefix);
      commonPrefix := commonPrefix + [QUEUE];
      commonPrefix := commonPrefix + topic.ns;
      commonPrefix := commonPrefix + PackString(topic.name);
      var template := BufferOf(commonPrefix + [DATA] + ZERO_STAMP + [0, 0, 0, 0]);
      CopyInto(template, template.Length - 4, LittleEndian(template.Length - 14));
      this.prefix := prefix;
      this.topic := topic;
      this.dataKeyTemplate := template[..];
      this.counterKey := commonPrefix + [COUNTER];
    }

    /** The range `pop` reads: from the cursor's place in the template, its last four bytes left
        dirty, to the key that follows all data keys. It holds exactly this topic's messages
        stamped after the cursor: no key of another topic or namespace, no counter, no hot key. */
    method RangeAfter(fromSeq: Bytes) returns (lo: Bytes, hi: Bytes)
      requires Valid() && IsStamp(fromSeq)
      ensures (lo, hi) == PopRange(prefix, topic, fromSeq)
      ensures forall t, s :: ValidTopic(prefix, t) && IsStamp(s) ==>
                (InRange(DataKey(prefix, t, s), lo, hi) <==> t == topic && Lt(fromSeq, s))
      ensures forall t :: ValidTopic(prefix, t) ==>
                !InRange(CounterKey(prefix, t), lo, hi) && !InRange(HotKey(prefix, t), lo, hi)
    {
      var start := BufferOf(dataKeyTemplate);
      CopyInto(start, start.Length - 14, fromSeq);
      lo := start[..];
      TemplateParts(prefix, topic, fromSeq);
      var stripLen := start.Length - 14;
      var end := BufferOf(lo[..stripLen]);
      end[end.Length - 1] := AFTER_DATA;
      hi := end[..];
      assert hi == lo[..stripLen][stripLen - 1 := AFTER_DATA];
      RangeIsExact(prefix, topic, fromSeq);
    }
  }

  lemma TemplateParts(prefix: Bytes, t: Topic, fromSeq: Bytes)
    requires IsStamp(fromSeq)
    ensures var template := DataTemplate(prefix, t);
            var n := |template| - 14;
            var start := template[..n] + fromSeq + template[n + 10..];
            n > 0 && (start, start[..n][n - 1 := AFTER_DATA]) == PopRange(prefix, t, fromSeq)
  {
    var template, common := DataTemplate(prefix, t), TopicPrefix(prefix, QUEUE, t);
    var n := |template| - 14;
    assert template[..n] == common + [DATA] && template[n + 10..] == LittleEndian(|common| + 1);
    var start := template[..n] + fromSeq + template[n + 10..];
    assert start == common + ([DATA] + (fromSeq + LittleEndian(|common| + 1)));
    assert start[..n] == common + [DATA];
    assert (common + [DATA])[n - 1 := AFTER_DATA] == common + [AFTER_DATA];
  }

  function DataTemplate(prefix: Bytes, t: Topic): Bytes {
    Template(TopicPrefix(prefix, QUEUE, t) + [DATA])
  }

  function PopRange(prefix: Bytes, t: Topic, fromSeq: Bytes): (Bytes, Bytes) {
    var common := TopicPrefix(prefix, QUEUE, t);
    (common + ([DATA] + (fromSeq + LittleEndian(|common| + 1))), common + [AFTER_DATA])
  }

  lemma TemplateYieldsDataKey(prefix: Bytes, t: Topic, stamp: Bytes)
    requires ValidTopic(prefix, t) && IsStamp(stamp)
    ensures WellFormed(DataTemplate(prefix, t)) && PutStamp(DataTemplate(prefix, t), stamp) == DataKey(prefix, t, stamp)
  {
    var head := TopicPrefix(prefix, QUEUE, t) + [DATA];
    TemplateFilled(head, stamp);
    assert head + stamp == DataKey(prefix, t, stamp);
  }

  /** If one topic's prefix and a byte that is no escape begin a key of another topic, the topics
      are the same and the byte is the next one, however the packed names overlap. */
  lemma SameTopic(prefix: Bytes, t: Topic, a: Byte, u: Topic, r: Bytes)
    requires |t.ns| == |u.ns| && a != ESCAPE && Clean(r)
    requires TopicPrefix(prefix, QUEUE, t) + [a] <= TopicPrefix(prefix, QUEUE, u) + r
    ensures t == u && [a] <= r
  {
    TopicPrefixSplit(prefix, t, [a]);
    TopicPrefixSplit(prefix, u, r);
    BodyPrefixUnique(t.name, a, u.name, r);
  }

  lemma TopicPrefixSplit(prefix: Bytes, t: Topic, r: Bytes)
    ensures var x := TopicPrefix(prefix, QUEUE, t) + r;
            var n := |PackString(prefix)| + 1;
            && n + |t.ns| < |x| && x[n..n + |t.ns|] == t.ns
            && x[n + |t.ns| + 1..] == Body(t.name) + r
  {
    assert PackString(t.name) == [STRING_CODE] + Body(t.name);
  }

  lemma HotIsNotQueue(prefix: Bytes, t: Topic, u: Topic, r: Bytes)
    ensures !(TopicPrefix(prefix, QUEUE, t) <= HotKey(prefix, u))
    ensures TopicPrefix(prefix, QUEUE, t) + r != HotKey(prefix, u)
  {
    var n := |PackString(prefix)|;
    assert TopicPrefix(prefix, QUEUE, t)[n] == QUEUE && HotKey(prefix, u)[n] == HOT;
    assert (TopicPrefix(prefix, QUEUE, t) + r)[n] == QUEUE;
  }

  /** Keys of the queue never collide. */
  lemma KeysDistinct(prefix: Bytes, t: Topic, u: Topic, s: Bytes, s': Bytes)
    requires ValidTopic(prefix, t) && ValidTopic(prefix, u) && IsStamp(s) && IsStamp(s')
    ensures DataKey(prefix, t, s) == DataKey(prefix, u, s') <==> t == u && s == s'
    ensures CounterKey(prefix, t) == CounterKey(prefix, u) <==> t == u
    ensures DataKey(prefix, t, s) != CounterKey(prefix, u)
    ensures HotKey(prefix, u) != DataKey(prefix, t, s) && HotKey(prefix, u) != CounterKey(prefix, t)
  {
    HotIsNotQueue(prefix, t, u, [DATA] + s);
    HotIsNotQueue(prefix, t, u, [COUNTER]);
    assert TopicPrefix(prefix, QUEUE, t) + [DATA] <= DataKey(prefix, t, s);
    if DataKey(prefix, t, s) == DataKey(prefix, u, s') {
      SameTopic(prefix, t, DATA, u, [DATA] + s');
      assert DataKey(prefix, t, s)[|TopicPrefix(prefix, QUEUE, t)| + 1..] == s;
      assert DataKey(prefix, u, s')[|TopicPrefix(prefix, QUEUE, u)| + 1..] == s';
    }
    if CounterKey(prefix, t) == CounterKey(prefix, u) {
      SameTopic(prefix, t, COUNTER, u, [COUNTER]);
    }
    if DataKey(prefix, t, s) == CounterKey(prefix, u) {
      SameTopic(prefix, t, DATA, u, [COUNTER]);
    }
  }

  /** Hot keys tell their topics apart. */
  lemma HotKeysDistinct(prefix: Bytes, t: Topic, u: Topic)
    requires |t.ns| == |u.ns|
    ensures HotKey(prefix, t) == HotKey(prefix, u) <==> t == u
  {
    if HotKey(prefix, t) == HotKey(prefix, u) {
      var k, n := HotKey(prefix, t), |PackString(prefix)| + 1;
      assert k[n..n + |t.ns|] == t.ns && k[n..n + |u.ns|] == u.ns;
      assert k[n + |t.ns|..] == PackString(t.name) && k[n + |u.ns|..] == PackString(u.name);
      assert PackString(t.name) + [] == PackString(t.name) && PackString(u.name) + [] == PackString(u.name);
      PackStringUnique(t.name, u.name, [], []);
    }
  }

  lemma ByteRange(c: Byte, x: Bytes, r: Bytes)
    requires c < 255
    ensures InRange(r, [c] + x, [c + 1]) <==> r != [] && r[0] == c && Le(x, r[1..])
  {
    var lo: Bytes, hi: Bytes := [c] + x, [c + 1];
    assert lo[0] == c && lo[1..] == x && hi[0] == c + 1 && hi[1..] == [];
    if r != [] {
      assert r == [r[0]] + r[1..];
      assert lo == r <==> r[0] == c && x == r[1..];
      assert Lt(r, hi) <==> r[0] <= c;
      assert Lt(lo, r) <==> c < r[0] || (c == r[0] && Lt(x, r[1..]));
    }
  }

  /** What a key of the range looks like. */
  lemma RangeShape(prefix: Bytes, t: Topic, fromSeq: Bytes, k: Bytes)
    ensures var (lo, hi) := PopRange(prefix, t, fromSeq);
            var common := TopicPrefix(prefix, QUEUE, t);
            InRange(k, lo, hi) <==>
              common + [DATA] <= k && Le(fromSeq + LittleEndian(|common| + 1), k[|common| + 1..])
  {
    var common := TopicPrefix(prefix, QUEUE, t);
    var start := fromSeq + LittleEndian(|common| + 1);
    PrefixRange(common, [DATA] + start, [AFTER_DATA], k);
    if common <= k {
      var r := k[|common|..];
      ByteRange(DATA, start, r);
      assert r != [] ==> k[|common| + 1..] == r[1..];
      assert common + [DATA] <= k <==> r != [] && r[0] == DATA;
    }
  }

  lemma {:induction false} StartBelowStamp(fromSeq: Bytes, dirty: Bytes, s: Bytes)
    requires |fromSeq| == |s| && dirty != []
    ensures Le(fromSeq + dirty, s) <==> Lt(fromSeq, s)
  {
    if fromSeq == [] {
    } else {
      assert (fromSeq + dirty)[1..] == fromSeq[1..] + dirty;
      if fromSeq[0] == s[0] {
        StartBelowStamp(fromSeq[1..], dirty, s[1..]);
      }
      assert |fromSeq + dirty| > |s|;
    }
  }

  lemma DataKeysInRange(prefix: Bytes, t: Topic, fromSeq: Bytes, u: Topic, s: Bytes)
    requires ValidTopic(prefix, t) && ValidTopic(prefix, u) && IsStamp(fromSeq) && IsStamp(s)
    ensures var (lo, hi) := PopRange(prefix, t, fromSeq);
            InRange(DataKey(prefix, u, s), lo, hi) <==> u == t && Lt(fromSeq, s)
  {
    var common, k := TopicPrefix(prefix, QUEUE, t), DataKey(prefix, u, s);
    RangeShape(prefix, t, fromSeq, k);
    if common + [DATA] <= k {
      SameTopic(prefix, t, DATA, u, [DATA] + s);
    }
    if u == t {
      assert k[|common| + 1..] == s && common + [DATA] <= k;
      StartBelowStamp(fromSeq, LittleEndian(|common| + 1), s);
    }
  }

  lemma OtherKeysNotInRange(prefix: Bytes, t: Topic, fromSeq: Bytes, u: Topic)
    requires ValidTopic(prefix, t) && ValidTopic(prefix, u)
    ensures var (lo, hi) := PopRange(prefix, t, fromSeq);
            !InRange(CounterKey(prefix, u), lo, hi) && !InRange(HotKey(prefix, u), lo, hi)
  {
    var common := TopicPrefix(prefix, QUEUE, t);
    RangeShape(prefix, t, fromSeq, CounterKey(prefix, u));
    RangeShape(prefix, t, fromSeq, HotKey(prefix, u));
    if common + [DATA] <= CounterKey(prefix, u) {
      SameTopic(prefix, t, DATA, u, [COUNTER]);
    }
    HotIsNotQueue(prefix, t, u, []);
    assert common + [DATA] <= HotKey(prefix, u) ==> common <= HotKey(prefix, u);
  }

  /** The range holds exactly the topic's messages stamped after the cursor, and nothing else the
      queue stores. */
  lemma RangeIsExact(prefix: Bytes, topic: Topic, fromSeq: Bytes)
    requires ValidTopic(prefix, topic) && IsStamp(fromSeq)
    ensures var (lo, hi) := PopRange(prefix, topic, fromSeq);
            && (forall t, s :: ValidTopic(prefix, t) && IsStamp(s) ==>
                  (InRange(DataKey(prefix, t, s), lo, hi) <==> t == topic && Lt(fromSeq, s)))
            && (forall t :: ValidTopic(prefix, t) ==>
                  !InRange(CounterKey(prefix, t), lo, hi) && !InRange(HotKey(prefix, t), lo, hi))
  {
    var (lo, hi) := PopRange(prefix, topic, fromSeq);
    forall t, s | ValidTopic(prefix, t) && IsStamp(s)
      ensures InRange(DataKey(prefix, t, s), lo, hi) <==> t == topic && Lt(fromSeq, s)
    {
      DataKeysInRange(prefix, topic, fromSeq, t, s);
    }
    forall t | ValidTopic(prefix, t)
      ensures !InRange(CounterKey(prefix, t), lo, hi) && !InRange(HotKey(prefix, t), lo, hi)
    {
      OtherKeysNotInRange(prefix, topic, fromSeq, t);
    }
  }
}
