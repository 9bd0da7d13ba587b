/** The parts of FoundationDB this system relies on: a map of byte strings, transactions that read
    one snapshot and their own writes, and the two mutations that place the commit's versionstamp
    at a little-endian offset held in the last four bytes of their template. */
module Fdb {
  import opened Bytes
  import opened Tuple

  type Store = map<Bytes, Bytes>

  /** Ten bytes. That the database's stamps increase and are never all zero is for the runs to say. */
  predicate IsStamp(s: Bytes) {
    |s| == 10
  }

  const ZERO_STAMP: Bytes := [0, 0, 0, 0, 0, 0, 0, 0, 0, 0]

  datatype Mutation =
    | Set(key: Bytes, value: Bytes)
    | Clear(key: Bytes)
    | StampedKey(template: Bytes, value: Bytes)
    | StampedValue(key: Bytes, template: Bytes)

  /** `u32::to_le_bytes` of a length cast with `as u32`. */
  function LittleEndian(n: nat): (b: Bytes)
    ensures |b| == 4
  {
    [n % 256, n / 256 % 256, n / 256 / 256 % 256, n / 256 / 256 / 256 % 256]
  }

  function FromLittleEndian(b: Bytes): nat
    requires |b| == 4
  {
    var d := seq(4, i requires 0 <= i < 4 => b[i] as int);
    d[0] + 0x100 * d[1] + 0x1_0000 * d[2] + 0x100_0000 * d[3]
  }

  /** Lowest byte first. */
  lemma LittleEndianBytes(a: Byte, b: Byte, c: Byte, d: Byte)
    ensures FromLittleEndian([a, b, c, d]) == a + 0x100 * b + 0x1_0000 * c + 0x100_0000 * d
    ensures LittleEndian(a + 0x100 * b + 0x1_0000 * c + 0x100_0000 * d) == [a, b, c, d]
  {
    var n: nat := a + 0x100 * b + 0x1_0000 * c + 0x100_0000 * d;
    assert n / 256 == b + 0x100 * c + 0x1_0000 * d;
    assert n / 256 / 256 == c + 0x100 * d && n / 256 / 256 / 256 == d;
  }

  lemma RemainderBelow(d: nat, f: nat)
    requires f < 0x1_0000_0000
    ensures (0x1_0000_0000 * d + f) % 0x1_0000_0000 == f
  {
  }

  lemma LittleEndianRoundTrip(n: nat)
    ensures FromLittleEndian(LittleEndian(n)) == n % 0x1_0000_0000
  {
    var a := n / 256;
    var b := a / 256;
    var c := b / 256;
    var d := c / 256;
    var f := n % 256 + 0x100 * (a % 256) + 0x1_0000 * (b % 256) + 0x100_0000 * (c % 256);
    assert n == 256 * a + n % 256 && a == 256 * b + a % 256 && b == 256 * c + b % 256 && c == 256 * d + c % 256;
    RemainderBelow(d, f);
  }

  function OffsetOf(template: Bytes): nat
    requires |template| >= 4
  {
    FromLittleEndian(template[|template| - 4..])
  }

  predicate WellFormed(template: Bytes) {
    |template| >= 4 && OffsetOf(template) + 14 <= |template|
  }

  /** The template with the stamp at its offset and the offset dropped. */
  function PutStamp(template: Bytes, stamp: Bytes): Bytes
    requires WellFormed(template) && IsStamp(stamp)
  {
    var n := OffsetOf(template);
    template[..n] + stamp + template[n + 10..|template| - 4]
  }

  /** A key head, room for the stamp, and the head's length as the offset. */
  function Template(head: Bytes): Bytes {
    head + ZERO_STAMP + LittleEndian(|head|)
  }

  lemma TemplateFilled(head: Bytes, stamp: Bytes)
    requires |head| < 0x1_0000_0000 && IsStamp(stamp)
    ensures WellFormed(Template(head)) && PutStamp(Template(head), stamp) == head + stamp
  {
    var t := Template(head);
    LittleEndianRoundTrip(|head|);
    assert t[|t| - 4..] == LittleEndian(|head|);
    assert t[..|head|] == head && t[|head| + 10..|t| - 4] == [];
  }

  /** What a mutation does at commit; the database refuses malformed templates. */
  function Apply(store: Store, m: Mutation, stamp: Bytes): Store
    requires IsStamp(stamp)
  {
    match m
    case Set(key, value) => store[key := value]
    case Clear(key) => store - {key}
    case StampedKey(template, value) =>
      if WellFormed(template) then store[PutStamp(template, stamp) := value] else store
    case StampedValue(key, template) =>
      if WellFormed(template) then store[key := PutStamp(template, stamp)] else store
  }

  function ApplyAll(store: Store, ms: seq<Mutation>, stamp: Bytes): Store
    requires IsStamp(stamp)
  {
    if ms == [] then store
    else Apply(ApplyAll(store, ms[..|ms| - 1], stamp), ms[|ms| - 1], stamp)
  }

  /** The key a mutation writes. */
  function Target(m: Mutation, stamp: Bytes): Bytes
    requires IsStamp(stamp)
  {
    match m
    case Set(key, _) => key
    case Clear(key) => key
    case StampedKey(template, _) => if WellFormed(template) then PutStamp(template, stamp) else []
    case StampedValue(key, _) => key
  }

  function Targets(ms: seq<Mutation>, stamp: Bytes): set<Bytes>
    requires IsStamp(stamp)
  {
    set i | 0 <= i < |ms| :: Target(ms[i], stamp)
  }

  function Lookup(store: Store, key: Bytes): Option<Bytes> {
    if key in store then Some(store[key]) else None
  }

  /** A commit changes no key outside its targets. */
  lemma {:induction false} ApplyFrame(store: Store, ms: seq<Mutation>, stamp: Bytes, key: Bytes)
    requires IsStamp(stamp) && key !in Targets(ms, stamp)
    ensures Lookup(ApplyAll(store, ms, stamp), key) == Lookup(store, key)
  {
    if ms != [] {
      var n := |ms| - 1;
      assert Target(ms[n], stamp) in Targets(ms, stamp);
      forall i | 0 <= i < n ensures Target(ms[..n][i], stamp) in Targets(ms, stamp) {
        assert ms[..n][i] == ms[i];
      }
      ApplyFrame(store, ms[..n], stamp, key);
    }
  }

  /** The value a transaction's own sets and clears give a key, if they touch it. */
  function OwnWrite(ms: seq<Mutation>, key: Bytes): Option<Option<Bytes>> {
    if ms == [] then None
    else
      match ms[|ms| - 1]
      case Set(k, v) => if k == key then Some(Some(v)) else OwnWrite(ms[..|ms| - 1], key)
      case Clear(k) => if k == key then Some(None) else OwnWrite(ms[..|ms| - 1], key)
      case _ => OwnWrite(ms[..|ms| - 1], key)
  }

  /** What a transaction reads: its own write, else its snapshot. */
  function Read(snapshot: Store, ms: seq<Mutation>, key: Bytes): Option<Bytes> {
    match OwnWrite(ms, key)
    case Some(v) => v
    case None => Lookup(snapshot, key)
  }

  /** Keys read from the snapshot rather than from own writes are checked at commit. */
  function ReadConflict(ms: seq<Mutation>, key: Bytes): set<Bytes> {
    if OwnWrite(ms, key).None? then {key} else {}
  }

  /** The order rows come in. */
  predicate Before(reverse: bool, a: Bytes, b: Bytes) {
    if reverse then Lt(b, a) else Lt(a, b)
  }

  /** What one `get_range` call may return: the first rows of the range in the asked direction, at
      most `limit` of them, and at least one when the range holds any. */
  ghost predicate IsBatch(store: Store, lo: Bytes, hi: Bytes, reverse: bool, limit: nat, rows: seq<Bytes>) {
    && |rows| <= limit
    && (forall k <- rows :: k in store && InRange(k, lo, hi))
    && (forall i, j :: 0 <= i < j < |rows| ==> Before(reverse, rows[i], rows[j]))
    && (forall k, i :: k in store && InRange(k, lo, hi) && 0 <= i < |rows| && Before(reverse, k, rows[i])
          ==> k in rows)
    && (rows == [] ==> forall k <- store :: !InRange(k, lo, hi))
  }

  /** A client transaction. */
  class Transaction {
    var snapshot: Store
    var readKeys: set<Bytes>
    var mutations: seq<Mutation>

    constructor (snapshot: Store)
      ensures this.snapshot == snapshot && readKeys == {} && mutations == []
    {
      this.snapshot := snapshot;
      this.readKeys := {};
      this.mutations := [];
    }

    /** `on_error`: start again on a newer snapshot. */
    method Reset(snapshot: Store)
      modifies this
      ensures this.snapshot == snapshot && readKeys == {} && mutations == []
    {
      this.snapshot := snapshot;
      readKeys := {};
      mutations := [];
    }

    method Get(key: Bytes) returns (value: Option<Bytes>)
      modifies this`readKeys
      ensures value == Read(snapshot, mutations, key)
      ensures readKeys == old(readKeys) + ReadConflict(mutations, key)
    {
      value := Read(snapshot, mutations, key);
      readKeys := readKeys + ReadConflict(mutations, key);
    }

    method Mutate(m: Mutation)
      modifies this`mutations
      ensures mutations == old(mutations) + [m]
    {
      mutations := mutations + [m];
    }
  }
}
