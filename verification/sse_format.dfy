/** Server-sent event frames (`SseMessage::encode` and the heartbeat comment, src/pubsub/sse.rs)
    against the interpretation of event streams in section 9.2.6 of the WHATWG HTML Standard. */
module SseFormat {
  import opened Bytes
  import opened Tuple
  import Utf8

  const LF: Byte := 10
  const CR: Byte := 13
  const SPACE: Byte := 32
  const COLON: Byte := 58
  const NUL: Byte := 0

  const EVENT: Bytes := [101, 118, 101, 110, 116]  // "event"
  const DATA: Bytes := [100, 97, 116, 97]          // "data"
  const ID: Bytes := [105, 100]                    // "id"
  const DEFAULT_EVENT: Bytes := [109, 101, 115, 115, 97, 103, 101]  // "message"

  // ": heartbeat", then an empty line
  const HEARTBEAT: Bytes := [58, 32, 104, 101, 97, 114, 116, 98, 101, 97, 116, 10, 10]

  datatype Message = Message(event: Bytes, data: Bytes, id: Bytes)

  // Writing.

  function Field(name: Bytes, value: Bytes): Bytes {
    name + [COLON, SPACE] + value
  }

  function Frame(m: Message): Bytes {
    Field(EVENT, m.event) + [LF] + (Field(DATA, m.data) + [LF] + (Field(ID, m.id) + [LF] + ([] + [LF])))
  }

  predicate Encodable(data: Bytes) {
    Utf8.Valid(data) && LF !in data
  }

  method Encode(m: Message) returns (frame: Option<Bytes>)
    ensures frame == if Encodable(m.data) then Some(Frame(m)) else None
  {
    if !Utf8.Valid(m.data) {
      return None;
    }
    for i := 0 to |m.data|
      invariant LF !in m.data[..i]
    {
      if m.data[i] == LF {
        return None;
      }
    }
    return Some(Frame(m));
  }

  // Reading, section 9.2.6.

  /** The event type, data and last event ID buffers. */
  datatype Buffers = Buffers(event: Bytes, data: Bytes, id: Bytes)

  predicate EndsLine(b: Byte) {
    b == LF || b == CR
  }

  /** Length of the first line; None when no line ends in s. */
  function LineLength(s: Bytes): (n: Option<nat>)
    ensures n.Some? ==> n.value < |s| && EndsLine(s[n.value]) && forall i :: 0 <= i < n.value ==> !EndsLine(s[i])
  {
    if s == [] then None
    else if EndsLine(s[0]) then Some(0)
    else
      match LineLength(s[1..])
      case None => None
      case Some(n) => Some(n + 1)
  }

  function IndexOf(b: Byte, s: Bytes): (n: nat)
    ensures n <= |s| && (n < |s| ==> s[n] == b) && forall i :: 0 <= i < n ==> s[i] != b
  {
    if s == [] || s[0] == b then 0 else 1 + IndexOf(b, s[1..])
  }

  function ProcessField(name: Bytes, value: Bytes, b: Buffers): Buffers {
    if name == EVENT then b.(event := value)
    else if name == DATA then b.(data := b.data + value + [LF])
    else if name == ID then (if NUL in value then b else b.(id := value))
    else b
  }

  function ProcessLine(line: Bytes, b: Buffers): Buffers
    requires line != []
  {
    var n := IndexOf(COLON, line);
    if n == 0 then b
    else if n == |line| then ProcessField(line, [], b)
    else
      var value := line[n + 1..];
      ProcessField(line[..n], if value != [] && value[0] == SPACE then value[1..] else value, b)
  }

  /** The message dispatched at an empty line, if any. */
  function Dispatch(b: Buffers): seq<Message> {
    if b.data == [] then []
    else
      var data := if b.data[|b.data| - 1] == LF then b.data[..|b.data| - 1] else b.data;
      [Message(if b.event == [] then DEFAULT_EVENT else b.event, data, b.id)]
  }

  function AfterLine(line: Bytes, b: Buffers): (seq<Message>, Buffers) {
    if line == [] then (Dispatch(b), Buffers([], [], b.id)) else ([], ProcessLine(line, b))
  }

  /** The messages of a stream; what follows the last complete line is discarded. */
  function Parse(s: Bytes, b: Buffers): seq<Message>
    decreases |s|
  {
    match LineLength(s)
    case None => []
    case Some(n) =>
      var next := if s[n] == CR && n + 1 < |s| && s[n + 1] == LF then n + 2 else n + 1;
      var (out, b') := AfterLine(s[..n], b);
      out + Parse(s[next..], b')
  }

  // Reading what was written.

  predicate OneLine(s: Bytes) {
    LF !in s && CR !in s
  }

  /** What the server's own event names and hex ids satisfy. */
  predicate WellNamed(m: Message) {
    m.event != [] && OneLine(m.event) && OneLine(m.id) && NUL !in m.id
  }

  lemma {:induction false} FirstLine(line: Bytes, rest: Bytes)
    requires OneLine(line)
    ensures LineLength(line + [LF] + rest) == Some(|line|)
  {
    if line != [] {
      assert (line + [LF] + rest)[1..] == line[1..] + [LF] + rest;
      FirstLine(line[1..], rest);
    }
  }

  lemma ParseLine(line: Bytes, rest: Bytes, b: Buffers)
    requires OneLine(line)
    ensures Parse(line + [LF] + rest, b) == AfterLine(line, b).0 + Parse(rest, AfterLine(line, b).1)
  {
    var s := line + [LF] + rest;
    FirstLine(line, rest);
    assert s[..|line|] == line && s[|line| + 1..] == rest;
  }

  lemma FieldRead(name: Bytes, value: Bytes, b: Buffers)
    requires name != [] && COLON !in name
    ensures ProcessLine(Field(name, value), b) == ProcessField(name, value, b)
  {
    var line := Field(name, value);
    assert line[|name|] == COLON;
    assert forall i :: 0 <= i < |name| ==> line[i] == name[i];
    assert IndexOf(COLON, line) == |name|;
    assert line[..|name|] == name && line[|name| + 1..] == [SPACE] + value;
    assert ([SPACE] + value)[1..] == value;
  }

  lemma FieldLine(name: Bytes, value: Bytes, rest: Bytes, b: Buffers)
    requires name != [] && COLON !in name && OneLine(name) && OneLine(value)
    ensures Parse(Field(name, value) + [LF] + rest, b) == Parse(rest, ProcessField(name, value, b))
  {
    ParseLine(Field(name, value), rest, b);
    FieldRead(name, value, b);
  }

  /** A frame, whatever follows it, is read as its message and leaves empty buffers. */
  lemma FrameRead(m: Message, rest: Bytes, id: Bytes)
    requires WellNamed(m) && OneLine(m.data)
    ensures Parse(Frame(m) + rest, Buffers([], [], id)) == [m] + Parse(rest, Buffers([], [], m.id))
  {
    var tail0 := [] + [LF] + rest;
    var tail1 := Field(ID, m.id) + [LF] + tail0;
    var tail2 := Field(DATA, m.data) + [LF] + tail1;
    assert Frame(m) + rest == Field(EVENT, m.event) + [LF] + tail2;
    FieldLine(EVENT, m.event, tail2, Buffers([], [], id));
    FieldLine(DATA, m.data, tail1, Buffers(m.event, [], id));
    assert [] + m.data + [LF] == m.data + [LF];
    FieldLine(ID, m.id, tail0, Buffers(m.event, m.data + [LF], id));
    ParseLine([], rest, Buffers(m.event, m.data + [LF], m.id));
    assert (m.data + [LF])[..|m.data|] == m.data;
  }

  lemma HeartbeatRead(rest: Bytes, id: Bytes)
    ensures Parse(HEARTBEAT + rest, Buffers([], [], id)) == Parse(rest, Buffers([], [], id))
  {
    var line := HEARTBEAT[..11];
    assert HEARTBEAT + rest == line + [LF] + ([] + [LF] + rest);
    ParseLine(line, [] + [LF] + rest, Buffers([], [], id));
    ParseLine([], rest, Buffers([], [], id));
  }

  /** What the task writes to the stream. */
  datatype Chunk = Sent(m: Message) | Heartbeat

  function Wire(chunks: seq<Chunk>): Bytes {
    if chunks == [] then []
    else (match chunks[0] case Sent(m) => Frame(m) case Heartbeat => HEARTBEAT) + Wire(chunks[1..])
  }

  function Messages(chunks: seq<Chunk>): seq<Message> {
    if chunks == [] then []
    else (match chunks[0] case Sent(m) => [m] case Heartbeat => []) + Messages(chunks[1..])
  }

  /** Main result: any stream of frames and heartbeats is read as exactly the messages sent. */
  lemma {:induction false} StreamRead(chunks: seq<Chunk>, id: Bytes)
    requires forall c <- chunks :: c.Sent? ==> WellNamed(c.m) && Encodable(c.m.data) && CR !in c.m.data
    ensures Parse(Wire(chunks), Buffers([], [], id)) == Messages(chunks)
  {
    if chunks != [] {
      assert chunks[0] in chunks;
      match chunks[0] {
        case Sent(m) =>
          FrameRead(m, Wire(chunks[1..]), id);
          StreamRead(chunks[1..], m.id);
        case Heartbeat =>
          HeartbeatRead(Wire(chunks[1..]), id);
          StreamRead(chunks[1..], id);
      }
    }
  }

  lemma ProcessLineKeepsOutCr(line: Bytes, b: Buffers)
    requires line != [] && OneLine(line) && CR !in b.data
    ensures CR !in ProcessLine(line, b).data
  {
  }

  /** No message read from any stream has a carriage return in its data. */
  lemma {:induction false} ReadDataHasNoCr(s: Bytes, b: Buffers)
    requires CR !in b.data
    ensures forall m <- Parse(s, b) :: CR !in m.data
    decreases |s|
  {
    var n := LineLength(s);
    if n.Some? {
      var line := s[..n.value];
      var next := if s[n.value] == CR && n.value + 1 < |s| && s[n.value + 1] == LF then n.value + 2 else n.value + 1;
      if line != [] {
        ProcessLineKeepsOutCr(line, b);
      }
      ReadDataHasNoCr(s[next..], AfterLine(line, b).1);
    }
  }

  /** An accepted message survives the trip exactly when its data has no carriage return, which
      `encode` does not check. */
  lemma SurvivesIffNoCr(m: Message)
    requires WellNamed(m) && Encodable(m.data)
    ensures Parse(Frame(m), Buffers([], [], [])) == [m] <==> CR !in m.data
  {
    if CR !in m.data {
      assert Frame(m) + [] == Frame(m);
      FrameRead(m, [], []);
    } else {
      ReadDataHasNoCr(Frame(m), Buffers([], [], []));
      assert m in [m];
    }
  }

  /** Data "a" followed by a carriage return is accepted and does not arrive as sent. */
  lemma CrIsLost()
    ensures var m := Message(DEFAULT_EVENT, [97, CR], []);
            Encodable(m.data) && Parse(Frame(m), Buffers([], [], [])) != [m]
  {
    var m := Message(DEFAULT_EVENT, [97, CR], []);
    assert m.data[1..] == [CR] && m.data[1..][1..] == [];
    assert Utf8.Valid([CR]);
    SurvivesIffNoCr(m);
  }
}
