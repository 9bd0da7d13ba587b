/** The string part of the FoundationDB tuple layer: 0x02, the bytes with 0x00 escaped as
    0x00 0xFF, then 0x00. The encoding is not prefix-free: the encoding of "a" without its
    neighbours is a prefix of that of "a\0b". */
module Tuple {
  import opened Bytes
  import Utf8

  const STRING_CODE: Byte := 0x02
  const NIL: Byte := 0x00
  const ESCAPE: Byte := 0xFF

  datatype Option<+T> = None | Some(value: T)

  function Escape(s: Bytes): Bytes {
    if s == [] then []
    else (if s[0] == NIL then [NIL, ESCAPE] else [s[0]]) + Escape(s[1..])
  }

  /** A string after its type code: the escaped bytes and the terminator. */
  function Body(s: Bytes): Bytes {
    Escape(s) + [NIL]
  }

  function PackString(s: Bytes): Bytes {
    [STRING_CODE] + Body(s)
  }

  function Pack(segs: seq<Bytes>): Bytes {
    if segs == [] then [] else PackString(segs[0]) + Pack(segs[1..])
  }

  /** Reads one escaped string; None when the terminator is missing. */
  function UnpackBody(b: Bytes): (r: Option<(Bytes, Bytes)>)
    ensures r.Some? ==> |r.value.1| < |b|
  {
    if b == [] then None
    else if b[0] != NIL then
      match UnpackBody(b[1..])
      case None => None
      case Some((s, rest)) => Some(([b[0]] + s, rest))
    else if |b| > 1 && b[1] == ESCAPE then
      match UnpackBody(b[2..])
      case None => None
      case Some((s, rest)) => Some(([NIL] + s, rest))
    else Some(([], b[1..]))
  }

  /** Reads one string element: another type code, a missing terminator or bytes that are not
      UTF-8 make it fail. */
  function UnpackString(b: Bytes): (r: Option<(Bytes, Bytes)>)
    ensures r.Some? ==> |r.value.1| < |b|
  {
    if b == [] || b[0] != STRING_CODE then None
    else
      match UnpackBody(b[1..])
      case None => None
      case Some((s, rest)) => if Utf8.Valid(s) then Some((s, rest)) else None
  }

  /** Reads strings until the input is used up, as unpacking into `Vec<String>` does. */
  function Unpack(b: Bytes): Option<seq<Bytes>>
    decreases |b|
  {
    if b == [] then Some([])
    else
      match UnpackString(b)
      case None => None
      case Some((s, rest)) =>
        match Unpack(rest)
        case None => None
        case Some(segs) => Some([s] + segs)
  }

  /** The bytes of a string, as the tuple layer fixes them: type code 2, the bytes, NUL to end; */
  lemma PlainString(x: Bytes)
    requires 0 !in x
    ensures PackString(x) == [2] + x + [0]
  {
    EscapePlain(x);
  }

  /** a NUL in it is 0x00 0xFF; */
  lemma StringWithNul(x: Bytes, y: Bytes)
    requires 0 !in x && 0 !in y
    ensures PackString(x + [0] + y) == [2] + x + [0, 0xFF] + y + [0]
  {
    EscapeConcat(x + [0], y);
    EscapeConcat(x, [0]);
    assert Escape([0]) == [0, 0xFF] + Escape([0][1..]);
    EscapePlain(x);
    EscapePlain(y);
    assert x + ([0, 0xFF] + []) + y == x + [0, 0xFF] + y;
  }

  /** and a list is its strings one after the other. */
  lemma PackTwo(x: Bytes, y: Bytes)
    ensures Pack([x]) == PackString(x) && Pack([x, y]) == PackString(x) + PackString(y)
  {
    assert [x][1..] == [] && [y][1..] == [] && [x, y][1..] == [y];
    assert Pack([y]) == PackString(y) + Pack([]);
  }

  lemma {:induction false} EscapePlain(x: Bytes)
    requires 0 !in x
    ensures Escape(x) == x
  {
    if x != [] {
      EscapePlain(x[1..]);
      assert x == [x[0]] + x[1..];
    }
  }

  lemma {:induction false} EscapeConcat(x: Bytes, y: Bytes)
    ensures Escape(x + y) == Escape(x) + Escape(y)
  {
    if x == [] {
      assert x + y == y;
    } else {
      assert (x + y)[1..] == x[1..] + y;
      EscapeConcat(x[1..], y);
    }
  }

  /** What may follow a packed string: nothing that reads as an escape. */
  predicate Clean(r: Bytes) {
    r == [] || r[0] != ESCAPE
  }

  lemma CleanIsBelowEscape(r: Bytes)
    ensures Clean(r) <==> Lt(r, [ESCAPE])
  {
    assert [ESCAPE][1..] == [];
  }

  lemma PackIsClean(segs: seq<Bytes>)
    ensures Clean(Pack(segs))
  {
  }

  /** Reading undoes writing ... */
  lemma {:induction false} UnpackBodyOfBody(s: Bytes, r: Bytes)
    requires Clean(r)
    ensures UnpackBody(Body(s) + r) == Some((s, r))
  {
    var b := Body(s) + r;
    if s == [] {
      assert b == [NIL] + r;
    } else if s[0] == NIL {
      assert b[2..] == Body(s[1..]) + r;
      UnpackBodyOfBody(s[1..], r);
      assert s == [NIL] + s[1..];
    } else {
      assert b[1..] == Body(s[1..]) + r;
      UnpackBodyOfBody(s[1..], r);
      assert s == [s[0]] + s[1..];
    }
  }

  /** ... and writing undoes reading, so no other bytes read as this string. */
  lemma {:induction false} BodyOfUnpackBody(b: Bytes)
    requires UnpackBody(b).Some?
    ensures var (s, r) := UnpackBody(b).value; b == Body(s) + r && Clean(r)
  {
    if b[0] != NIL {
      BodyOfUnpackBody(b[1..]);
      var (s, r) := UnpackBody(b[1..]).value;
      assert ([b[0]] + s)[1..] == s;
      assert b == [b[0]] + b[1..];
    } else if |b| > 1 && b[1] == ESCAPE {
      BodyOfUnpackBody(b[2..]);
      var (s, r) := UnpackBody(b[2..]).value;
      assert ([NIL] + s)[1..] == s;
      assert b == [NIL, ESCAPE] + b[2..];
    } else {
      assert b == [NIL] + b[1..];
    }
  }

  lemma UnpackStringOfPackString(s: Bytes, rest: Bytes)
    requires Clean(rest) && Utf8.Valid(s)
    ensures UnpackString(PackString(s) + rest) == Some((s, rest))
  {
    assert (PackString(s) + rest)[1..] == Body(s) + rest;
    UnpackBodyOfBody(s, rest);
  }

  lemma PackStringOfUnpackString(b: Bytes)
    requires UnpackString(b).Some?
    ensures var (s, rest) := UnpackString(b).value; b == PackString(s) + rest && Utf8.Valid(s)
  {
    BodyOfUnpackBody(b[1..]);
    assert b == [STRING_CODE] + b[1..];
  }

  /** Unpacking inverts packing, for every list of valid strings. */
  lemma {:induction false} UnpackOfPack(segs: seq<Bytes>)
    requires forall s <- segs :: Utf8.Valid(s)
    ensures Unpack(Pack(segs)) == Some(segs)
  {
    if segs != [] {
      PackIsClean(segs[1..]);
      UnpackOfPack(segs[1..]);
      UnpackStringOfPackString(segs[0], Pack(segs[1..]));
      assert segs == [segs[0]] + segs[1..];
    }
  }

  /** Whatever unpacks was packed from just that list. */
  lemma {:induction false} PackOfUnpack(b: Bytes)
    requires Unpack(b).Some?
    ensures Pack(Unpack(b).value) == b && forall s <- Unpack(b).value :: Utf8.Valid(s)
    decreases |b|
  {
    if b != [] {
      PackStringOfUnpackString(b);
      var (s, rest) := UnpackString(b).value;
      PackOfUnpack(rest);
      assert ([s] + Unpack(rest).value)[1..] == Unpack(rest).value;
    }
  }

  /** A packed string followed by a clean byte is read in one way only. */
  lemma BodyUnique(x: Bytes, y: Bytes, r: Bytes, r': Bytes)
    requires Clean(r) && Clean(r') && Body(x) + r == Body(y) + r'
    ensures x == y && r == r'
  {
    UnpackBodyOfBody(x, r);
    UnpackBodyOfBody(y, r');
  }

  /** If one packed string plus a clean byte begins another packed string's bytes, they are the
      same string and the byte is the next one. */
  lemma BodyPrefixUnique(x: Bytes, a: Byte, y: Bytes, r: Bytes)
    requires a != ESCAPE && Clean(r) && Body(x) + [a] <= Body(y) + r
    ensures x == y && [a] <= r
  {
    var b := Body(y) + r;
    var tail := b[|Body(x)| + 1..];
    assert b == Body(x) + ([a] + tail);
    BodyUnique(x, y, [a] + tail, r);
  }

  lemma {:induction false} PackConcat(xs: seq<Bytes>, ys: seq<Bytes>)
    ensures Pack(xs + ys) == Pack(xs) + Pack(ys)
  {
    if xs == [] {
      assert xs + ys == ys;
    } else {
      assert (xs + ys)[1..] == xs[1..] + ys;
      PackConcat(xs[1..], ys);
    }
  }

  lemma PackStringUnique(x: Bytes, y: Bytes, r: Bytes, r': Bytes)
    requires Clean(r) && Clean(r') && PackString(x) + r == PackString(y) + r'
    ensures x == y && r == r'
  {
    assert (PackString(x) + r)[1..] == Body(x) + r && (PackString(y) + r')[1..] == Body(y) + r';
    BodyUnique(x, y, r, r');
  }

  lemma {:induction false} PackInjective(xs: seq<Bytes>, ys: seq<Bytes>)
    requires Pack(xs) == Pack(ys)
    ensures xs == ys
  {
    if xs != [] && ys != [] {
      PackIsClean(xs[1..]);
      PackIsClean(ys[1..]);
      PackStringUnique(xs[0], ys[0], Pack(xs[1..]), Pack(ys[1..]));
      PackInjective(xs[1..], ys[1..]);
      assert xs == [xs[0]] + xs[1..] && ys == [ys[0]] + ys[1..];
    }
  }

  /** Lexicographic order of segment lists, segments compared as byte strings. */
  predicate SegmentsLt(xs: seq<Bytes>, ys: seq<Bytes>) {
    ys != [] && (xs == [] || Lt(xs[0], ys[0]) || (xs[0] == ys[0] && SegmentsLt(xs[1..], ys[1..])))
  }

  lemma {:induction false} BodyOrder(x: Bytes, y: Bytes, r: Bytes, r': Bytes)
    requires x != y && Clean(r) && Clean(r')
    ensures Lt(Body(x) + r, Body(y) + r') == Lt(x, y)
  {
    var b, b' := Body(x) + r, Body(y) + r';
    if x == [] {
      assert b == [NIL] + r;
      assert b' == (if y[0] == NIL then [NIL, ESCAPE] else [y[0]]) + (Body(y[1..]) + r');
      if y[0] == NIL {
        assert b'[1..][0] == ESCAPE && b[1..] == r;
      }
    } else if y == [] {
      assert b' == [NIL] + r';
      assert b == (if x[0] == NIL then [NIL, ESCAPE] else [x[0]]) + (Body(x[1..]) + r);
      if x[0] == NIL {
        assert b[1..][0] == ESCAPE && b'[1..] == r';
      }
    } else {
      var e := if x[0] == NIL then [NIL, ESCAPE] else [x[0]];
      var e' := if y[0] == NIL then [NIL, ESCAPE] else [y[0]];
      assert b == e + (Body(x[1..]) + r) && b' == e' + (Body(y[1..]) + r');
      if x[0] == y[0] {
        assert x == [x[0]] + x[1..] && y == [y[0]] + y[1..];
        LtCancelPrefix(e, Body(x[1..]) + r, Body(y[1..]) + r');
        BodyOrder(x[1..], y[1..], r, r');
      }
    }
  }

  lemma PackStringOrder(x: Bytes, y: Bytes, r: Bytes, r': Bytes)
    requires Clean(r) && Clean(r')
    ensures Lt(PackString(x) + r, PackString(y) + r') == if x == y then Lt(r, r') else Lt(x, y)
  {
    assert PackString(x) + r == [STRING_CODE] + (Body(x) + r);
    assert PackString(y) + r' == [STRING_CODE] + (Body(y) + r');
    LtCancelPrefix([STRING_CODE], Body(x) + r, Body(y) + r');
    if x == y {
      LtCancelPrefix(Body(x), r, r');
    } else {
      BodyOrder(x, y, r, r');
    }
  }

  /** Packing embeds the order of segment lists into the order of byte strings. */
  lemma {:induction false} PackOrder(xs: seq<Bytes>, ys: seq<Bytes>)
    ensures Lt(Pack(xs), Pack(ys)) <==> SegmentsLt(xs, ys)
  {
    if xs != [] && ys != [] {
      PackIsClean(xs[1..]);
      PackIsClean(ys[1..]);
      PackStringOrder(xs[0], ys[0], Pack(xs[1..]), Pack(ys[1..]));
      LtIrreflexive(xs[0]);
      PackOrder(xs[1..], ys[1..]);
    }
  }

  lemma PackHead(xs: seq<Bytes>, r: Bytes)
    requires xs != []
    ensures Pack(xs) + r == PackString(xs[0]) + (Pack(xs[1..]) + r)
  {
    assert Pack(xs) == PackString(xs[0]) + Pack(xs[1..]);
  }

  lemma FirstStringsAgree(xs: seq<Bytes>, ys: seq<Bytes>, r: Bytes)
    requires xs != [] && ys != [] && Pack(ys) + [] == Pack(xs) + r && Clean(r)
    ensures xs[0] == ys[0] && Pack(ys[1..]) == Pack(xs[1..]) + r
  {
    PackHead(xs, r);
    PackHead(ys, []);
    PackIsClean(xs[1..]);
    PackIsClean(ys[1..]);
    var a, b := Pack(xs[1..]) + r, Pack(ys[1..]) + [];
    assert Clean(a);
    PackStringUnique(xs[0], ys[0], a, b);
  }

  lemma {:induction false} PackPrefixOnlyIf(xs: seq<Bytes>, ys: seq<Bytes>, r: Bytes)
    requires Pack(ys) == Pack(xs) + r && Clean(r)
    ensures xs <= ys && Pack(ys[|xs|..]) == r
  {
    if xs != [] {
      PackHead(xs, r);
      assert ys != [] && Pack(ys) + [] == Pack(ys);
      FirstStringsAgree(xs, ys, r);
      PackPrefixOnlyIf(xs[1..], ys[1..], r);
      assert xs == [xs[0]] + xs[1..] && ys == [ys[0]] + ys[1..];
    }
  }

  /** Packed lists extend each other as byte strings, up to a clean next byte, exactly when the
      lists do: "a\0b" is no extension of "a". */
  lemma PackPrefix(xs: seq<Bytes>, ys: seq<Bytes>)
    ensures Pack(xs) <= Pack(ys) && Clean(Pack(ys)[|Pack(xs)|..]) <==> xs <= ys
  {
    if xs <= ys {
      PackConcat(xs, ys[|xs|..]);
      assert ys == xs + ys[|xs|..];
      PackIsClean(ys[|xs|..]);
      assert Pack(ys)[|Pack(xs)|..] == Pack(ys[|xs|..]);
    } else if Pack(xs) <= Pack(ys) && Clean(Pack(ys)[|Pack(xs)|..]) {
      assert Pack(ys) == Pack(xs) + Pack(ys)[|Pack(xs)|..];
      PackPrefixOnlyIf(xs, ys, Pack(ys)[|Pack(xs)|..]);
    }
  }
}
