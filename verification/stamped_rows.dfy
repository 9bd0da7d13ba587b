/** Rows appended under a base key with a versionstamp (src/api/kv/mod.rs, the
    `WithVersionstampedKey` set): base key, 0x32, the commit's stamp. */
module StampedRows {
  import opened Bytes
  import opened Tuple
  import opened UserKeys
  import opened Fdb

  const ROW_MARK: Byte := 0x32

  /** The template the handler builds; `len() as u32 + 1` is the stamp's offset. */
  function RowTemplate(key: Bytes): Bytes {
    Template(key + [ROW_MARK])
  }

  function RowKey(key: Bytes, stamp: Bytes): Bytes {
    key + [ROW_MARK] + stamp
  }

  /** Keys FoundationDB can hold are far shorter than what the 32-bit offset can address. */
  predicate Addressable(key: Bytes) {
    |key| + 1 < 0x1_0000_0000
  }

  lemma TemplateYieldsRow(key: Bytes, stamp: Bytes)
    requires Addressable(key) && IsStamp(stamp)
    ensures WellFormed(RowTemplate(key)) && PutStamp(RowTemplate(key), stamp) == RowKey(key, stamp) == key + [0x32] + stamp
  {
    TemplateFilled(key + [ROW_MARK], stamp);
  }

  /** No packed key, in this namespace or another, equals a row of any packed base key. */
  lemma RowIsNoPathKey(base: seq<Bytes>, stamp: Bytes, segs: seq<Bytes>)
    ensures RowKey(Pack(base), stamp) != Pack(segs)
  {
    if RowKey(Pack(base), stamp) == Pack(segs) {
      assert Pack(segs) == Pack(base) + ([ROW_MARK] + stamp);
      PackPrefixOnlyIf(base, segs, [ROW_MARK] + stamp);
    }
  }

  /** The rows of a path come after the paths below it and before those after it. */
  lemma RowAmongPathKeys(xs: seq<Bytes>, stamp: Bytes, ys: seq<Bytes>)
    ensures Lt(RowKey(Pack(xs), stamp), Pack(ys)) <==> SegmentsLt(xs, ys) && !(xs <= ys)
  {
    var p, k, row := Pack(xs), Pack(ys), [ROW_MARK] + stamp;
    assert RowKey(p, stamp) == p + row;
    PackPrefix(xs, ys);
    PackOrder(xs, ys);
    if p <= k {
      var rest := k[|p|..];
      assert k == p + rest && p == p + [];
      LtCancelPrefix(p, row, rest);
      LtCancelPrefix(p, [], rest);
      if xs <= ys {
        PackConcat(xs, ys[|xs|..]);
        assert ys == xs + ys[|xs|..];
      }
    } else {
      LtOutsidePrefix(p, k, row);
    }
  }

  /** A row tells its base key and its stamp; rows of one base key sort in commit order. */
  lemma RowsDistinctAndOrdered(a: Bytes, b: Bytes, s: Bytes, t: Bytes)
    requires IsStamp(s) && IsStamp(t)
    ensures RowKey(a, s) == RowKey(b, t) <==> a == b && s == t
    ensures Lt(RowKey(a, s), RowKey(a, t)) <==> Lt(s, t)
  {
    LtCancelPrefix(a + [ROW_MARK], s, t);
    if RowKey(a, s) == RowKey(b, t) {
      assert RowKey(a, s)[..|a|] == a && RowKey(b, t)[..|b|] == b;
      assert RowKey(a, s)[|a| + 1..] == s && RowKey(b, t)[|b| + 1..] == t;
    }
  }

  /** A row does not unpack, so a listing never reports it. */
  lemma RowDoesNotUnpack(ns: Namespace, segs: seq<Bytes>, stamp: Bytes)
    ensures UnpackUserKey(ns, RowKey(KeyOf(ns, segs), stamp)) == None
  {
    var key := RowKey(KeyOf(ns, segs), stamp);
    PackConcat(Root(ns), segs);
    var rest := key[|Pack(Root(ns))|..];
    assert key == Pack(Root(ns)) + rest;
    assert rest == RowKey(Pack(segs), stamp);
    if Unpack(rest).Some? {
      PackOfUnpack(rest);
      RowIsNoPathKey(segs, stamp, Unpack(rest).value);
    }
  }
}
