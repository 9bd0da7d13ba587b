/** Byte strings and their lexicographic order, the order FoundationDB keeps its keys in. */
module Bytes {
  type Byte = x: int | 0 <= x < 256

  type Bytes = seq<Byte>

  /** Strict lexicographic order; a proper prefix comes first. */
  predicate Lt(a: Bytes, b: Bytes) {
    b != [] && (a == [] || a[0] < b[0] || (a[0] == b[0] && Lt(a[1..], b[1..])))
  }

  predicate Le(a: Bytes, b: Bytes) {
    a == b || Lt(a, b)
  }

  /** Membership in the half-open key range [lo, hi). */
  predicate InRange(k: Bytes, lo: Bytes, hi: Bytes) {
    Le(lo, k) && Lt(k, hi)
  }

  lemma {:induction false} LtIrreflexive(a: Bytes)
    ensures !Lt(a, a)
  {
    if a != [] {
      LtIrreflexive(a[1..]);
    }
  }

  lemma {:induction false} LtTransitive(a: Bytes, b: Bytes, c: Bytes)
    requires Lt(a, b) && Lt(b, c)
    ensures Lt(a, c)
  {
    if a != [] && a[0] == b[0] == c[0] {
      LtTransitive(a[1..], b[1..], c[1..]);
    }
  }

  lemma {:induction false} LtTotal(a: Bytes, b: Bytes)
    ensures a == b || Lt(a, b) || Lt(b, a)
  {
    if a != [] && b != [] && a[0] == b[0] {
      LtTotal(a[1..], b[1..]);
      assert a == [a[0]] + a[1..] && b == [b[0]] + b[1..];
    }
  }

  /** Exactly one of the three cases of the order holds. */
  lemma LtTrichotomy(a: Bytes, b: Bytes)
    ensures a == b || Lt(a, b) || Lt(b, a)
    ensures !(a == b && Lt(a, b)) && !(Lt(a, b) && Lt(b, a))
  {
    LtTotal(a, b);
    LtIrreflexive(a);
    if Lt(a, b) && Lt(b, a) {
      LtTransitive(a, b, a);
    }
  }

  lemma {:induction false} LtCancelPrefix(p: Bytes, a: Bytes, b: Bytes)
    ensures Lt(p + a, p + b) == Lt(a, b)
  {
    if p == [] {
      assert p + a == a && p + b == b;
    } else {
      assert (p + a)[1..] == p[1..] + a && (p + b)[1..] == p[1..] + b;
      LtCancelPrefix(p[1..], a, b);
    }
  }

  /** A key not under the prefix p compares with every extension of p as it compares with p. */
  lemma {:induction false} LtOutsidePrefix(p: Bytes, k: Bytes, s: Bytes)
    requires !(p <= k)
    ensures Lt(k, p + s) == Lt(k, p)
    ensures Lt(p + s, k) == Lt(p, k)
  {
    if k != [] && k[0] == p[0] {
      assert (p + s)[1..] == p[1..] + s;
      assert p == [p[0]] + p[1..] && k == [k[0]] + k[1..];
      LtOutsidePrefix(p[1..], k[1..], s);
    }
  }

  /** The range [p+lo, p+hi) holds exactly the keys p+r with r in [lo, hi). */
  lemma PrefixRange(p: Bytes, lo: Bytes, hi: Bytes, k: Bytes)
    ensures InRange(k, p + lo, p + hi) <==> p <= k && InRange(k[|p|..], lo, hi)
  {
    if p <= k {
      assert k == p + k[|p|..];
      LtCancelPrefix(p, lo, k[|p|..]);
      LtCancelPrefix(p, k[|p|..], hi);
      assert p + lo == k <==> lo == k[|p|..];
    } else {
      LtOutsidePrefix(p, k, lo);
      LtOutsidePrefix(p, k, hi);
      LtTrichotomy(k, p);
    }
  }
}
