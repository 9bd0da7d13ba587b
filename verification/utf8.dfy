/** Well-formed UTF-8, as Rust's `str::from_utf8` accepts it. */
module Utf8 {
  import opened Bytes
  import opened Paths

  predicate Continuation(b: Byte) {
    0x80 <= b < 0xC0
  }

  /** Length of the scalar value that starts a byte string; 0 when none does. */
  function ScalarLength(s: Bytes): (n: nat)
    ensures n <= |s|
  {
    if s == [] then 0
    else if s[0] < 0x80 then 1
    else if |s| < 2 || !Continuation(s[1]) then 0
    else if 0xC2 <= s[0] < 0xE0 then 2
    else if |s| < 3 || !Continuation(s[2]) then 0
    else if s[0] == 0xE0 then (if s[1] >= 0xA0 then 3 else 0)
    else if s[0] == 0xED then (if s[1] < 0xA0 then 3 else 0)
    else if 0xE1 <= s[0] < 0xF0 then 3
    else if |s| < 4 || !Continuation(s[3]) then 0
    else if s[0] == 0xF0 then (if s[1] >= 0x90 then 4 else 0)
    else if s[0] == 0xF4 then (if s[1] < 0x90 then 4 else 0)
    else if 0xF1 <= s[0] < 0xF4 then 4
    else 0
  }

  predicate Valid(s: Bytes) {
    s == [] || (ScalarLength(s) > 0 && Valid(s[ScalarLength(s)..]))
  }

  /** An ASCII byte never sits inside a longer scalar, so it cuts a string into two valid ones. */
  lemma {:induction false} ValidAroundAscii(a: Bytes, c: Byte, b: Bytes)
    requires c < 0x80
    ensures Valid(a + [c] + b) <==> Valid(a) && Valid(b)
    decreases |a|
  {
    var s := a + [c] + b;
    if a == [] {
      assert s[1..] == b;
    } else {
      var n := ScalarLength(s);
      assert s[|a|] == c && n <= |a|;
      if n > 0 {
        assert ScalarLength(a) == n;
        assert s[n..] == a[n..] + [c] + b;
        ValidAroundAscii(a[n..], c, b);
      } else {
        assert ScalarLength(a) == 0;
      }
    }
  }

  /** A path is valid exactly when every piece between its separators is. */
  lemma {:induction false} ValidJoin(xs: seq<Bytes>, sep: Byte)
    requires sep < 0x80
    ensures Valid(Join(xs, sep)) <==> forall x <- xs :: Valid(x)
  {
    if |xs| > 1 {
      ValidAroundAscii(xs[0], sep, Join(xs[1..], sep));
      ValidJoin(xs[1..], sep);
      assert forall x :: x in xs <==> x == xs[0] || x in xs[1..];
    }
  }
}
