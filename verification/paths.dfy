/** Splitting at a separator and joining again, for the byte and the character strings of this
    system: Rust's `str::split` and `join`, and JavaScript's `String.split`. */
module Paths {
  /** The pieces between separators; always at least one. */
  function Split<T(==)>(s: seq<T>, sep: T): (r: seq<seq<T>>)
    ensures r != []
  {
    if s == [] then [[]]
    else if s[0] == sep then [[]] + Split(s[1..], sep)
    else
      var r := Split(s[1..], sep);
      [[s[0]] + r[0]] + r[1..]
  }

  function Join<T>(xs: seq<seq<T>>, sep: T): seq<T> {
    if xs == [] then []
    else if |xs| == 1 then xs[0]
    else xs[0] + [sep] + Join(xs[1..], sep)
  }

  function Filter<T>(xs: seq<T>, keep: T -> bool): (r: seq<T>)
    ensures forall x <- r :: keep(x) && x in xs
  {
    if xs == [] then []
    else (if keep(xs[0]) then [xs[0]] else []) + Filter(xs[1..], keep)
  }

  predicate SepFree<T(==)>(xs: seq<seq<T>>, sep: T) {
    forall x <- xs :: sep !in x
  }

  lemma {:induction false} SplitSepFree<T>(s: seq<T>, sep: T)
    ensures SepFree(Split(s, sep), sep)
  {
    if s != [] {
      SplitSepFree(s[1..], sep);
    }
  }

  /** Joining the pieces of a split gives the string back. */
  lemma {:induction false} JoinSplit<T>(s: seq<T>, sep: T)
    ensures Join(Split(s, sep), sep) == s
  {
    if s != [] {
      JoinSplit(s[1..], sep);
      var r := Split(s[1..], sep);
      if s[0] == sep {
        assert ([[]] + r)[1..] == r;
      } else {
        var t := [[s[0]] + r[0]] + r[1..];
        assert t[1..] == r[1..];
      }
    }
  }

  /** A separator splits a string into two independent halves. */
  lemma {:induction false} SplitConcat<T>(a: seq<T>, sep: T, b: seq<T>)
    ensures Split(a + [sep] + b, sep) == Split(a, sep) + Split(b, sep)
  {
    var s := a + [sep] + b;
    if a == [] {
      assert s[1..] == b;
    } else {
      assert s[1..] == a[1..] + [sep] + b;
      SplitConcat(a[1..], sep, b);
    }
  }

  lemma {:induction false} SplitPiece<T>(x: seq<T>, sep: T)
    requires sep !in x
    ensures Split(x, sep) == [x]
  {
    if x != [] {
      SplitPiece(x[1..], sep);
      assert [x[0]] + x[1..] == x;
    }
  }

  /** Splitting a join of separator-free pieces gives the pieces back. */
  lemma {:induction false} SplitJoin<T>(xs: seq<seq<T>>, sep: T)
    requires xs != [] && SepFree(xs, sep)
    ensures Split(Join(xs, sep), sep) == xs
  {
    SplitPiece(xs[0], sep);
    if |xs| > 1 {
      SplitConcat(xs[0], sep, Join(xs[1..], sep));
      SplitJoin(xs[1..], sep);
      assert xs == [xs[0]] + xs[1..];
    } else {
      assert xs == [xs[0]];
    }
  }

  lemma {:induction false} JoinConcat<T>(xs: seq<seq<T>>, ys: seq<seq<T>>, sep: T)
    requires xs != [] && ys != []
    ensures Join(xs + ys, sep) == Join(xs, sep) + [sep] + Join(ys, sep)
  {
    assert (xs + ys)[1..] == xs[1..] + ys;
    if |xs| > 1 {
      JoinConcat(xs[1..], ys, sep);
    } else {
      assert xs[1..] + ys == ys;
    }
  }

  lemma {:induction false} FilterConcat<T>(xs: seq<T>, ys: seq<T>, keep: T -> bool)
    ensures Filter(xs + ys, keep) == Filter(xs, keep) + Filter(ys, keep)
  {
    if xs == [] {
      assert xs + ys == ys;
    } else {
      assert (xs + ys)[1..] == xs[1..] + ys;
      FilterConcat(xs[1..], ys, keep);
    }
  }

  lemma {:induction false} FilterAll<T>(xs: seq<T>, keep: T -> bool)
    requires forall x <- xs :: keep(x)
    ensures Filter(xs, keep) == xs
  {
    if xs != [] {
      FilterAll(xs[1..], keep);
      assert xs == [xs[0]] + xs[1..];
    }
  }

  /** Segments that survive a filter refusing empty pieces come back from their join. */
  lemma FilterSplitJoin<T>(xs: seq<seq<T>>, sep: T, keep: seq<T> -> bool)
    requires SepFree(xs, sep) && !keep([]) && forall x <- xs :: keep(x)
    ensures Filter(Split(Join(xs, sep), sep), keep) == xs
  {
    if xs == [] {
      assert Split<T>([], sep) == [[]];
      assert Filter([[]], keep) == Filter([], keep);
    } else {
      SplitJoin(xs, sep);
      FilterAll(xs, keep);
    }
  }
}
