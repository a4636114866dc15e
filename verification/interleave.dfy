/** Interleavings of two sequential actors. The two relay goroutines of a
    spawned process run concurrently; the order in which their sends reach a
    shared channel is chosen by the scheduler, which the model takes as an
    input `pick` (true: the first actor moves next). */
module Interleave {

  /** The interleaving of `a` and `b` that `pick` selects. Once `pick` runs
      out, or one side is exhausted, the rest follows in order.
      `MergeInterleaves` and `PickFor` show that these are exactly the
      interleavings of `a` and `b`. */
  function Merge<T>(a: seq<T>, b: seq<T>, pick: seq<bool>): (r: seq<T>)
    ensures |r| == |a| + |b|
    ensures multiset(r) == multiset(a) + multiset(b)
    decreases |a| + |b|
  {
    if |a| == 0 then b
    else if |b| == 0 then a
    else if |pick| == 0 then a + b
    else if pick[0] then
      assert a == [a[0]] + a[1..];
      [a[0]] + Merge(a[1..], b, pick[1..])
    else
      assert b == [b[0]] + b[1..];
      [b[0]] + Merge(a, b[1..], pick[1..])
  }

  /** `x` occurs in `y` in order, possibly with other elements in between. */
  ghost predicate Subseq<T>(x: seq<T>, y: seq<T>)
    decreases |y|
  {
    if |x| == 0 then true
    else if |y| == 0 then false
    else (x[0] == y[0] && Subseq(x[1..], y[1..])) || Subseq(x, y[1..])
  }

  lemma {:induction false} SubseqOfAppend<T>(x: seq<T>, y: seq<T>)
    ensures Subseq(x, x + y)
    decreases |x|
  {
    if |x| > 0 {
      assert (x + y)[1..] == x[1..] + y;
      SubseqOfAppend(x[1..], y);
    }
  }

  lemma {:induction false} SubseqOfPrepend<T>(x: seq<T>, y: seq<T>)
    ensures Subseq(x, y + x)
    decreases |y|
  {
    if |y| == 0 {
      assert y + x == x + [];
      SubseqOfAppend(x, []);
    } else if |x| > 0 {
      assert (y + x)[1..] == y[1..] + x;
      SubseqOfPrepend(x, y[1..]);
    }
  }

  /** Each actor's own steps keep their program order in the interleaving. */
  lemma {:induction false} MergeKeepsOrder<T>(a: seq<T>, b: seq<T>, pick: seq<bool>)
    ensures Subseq(a, Merge(a, b, pick))
    ensures Subseq(b, Merge(a, b, pick))
    decreases |a| + |b|
  {
    var r := Merge(a, b, pick);
    if |a| == 0 {
      assert b == b + [];
      SubseqOfAppend(b, []);
    } else if |b| == 0 {
      assert a == a + [];
      SubseqOfAppend(a, []);
    } else if |pick| == 0 {
      SubseqOfAppend(a, b);
      SubseqOfPrepend(b, a);
    } else if pick[0] {
      MergeKeepsOrder(a[1..], b, pick[1..]);
      assert r[1..] == Merge(a[1..], b, pick[1..]);
    } else {
      MergeKeepsOrder(a, b[1..], pick[1..]);
      assert r[1..] == Merge(a, b[1..], pick[1..]);
    }
  }

  /** `r` is `a` and `b` shuffled together, each keeping its own order. */
  ghost predicate Interleaving<T>(r: seq<T>, a: seq<T>, b: seq<T>)
    decreases |r|
  {
    if |r| == 0 then |a| == 0 && |b| == 0
    else
      || (|a| > 0 && r[0] == a[0] && Interleaving(r[1..], a[1..], b))
      || (|b| > 0 && r[0] == b[0] && Interleaving(r[1..], a, b[1..]))
  }

  lemma {:induction false} InterleavingAlone<T>(r: seq<T>, a: seq<T>)
    requires Interleaving(r, a, []) || Interleaving(r, [], a)
    ensures r == a
    decreases |r|
  {
    if |r| > 0 {
      if Interleaving(r, a, []) {
        InterleavingAlone(r[1..], a[1..]);
      } else {
        InterleavingAlone(r[1..], a[1..]);
      }
    }
  }

  lemma {:induction false} SelfInterleaving<T>(a: seq<T>)
    ensures Interleaving(a, a, []) && Interleaving(a, [], a)
    decreases |a|
  {
    if |a| > 0 {
      SelfInterleaving(a[1..]);
    }
  }

  lemma {:induction false} InterleavingAppend<T>(a: seq<T>, b: seq<T>)
    ensures Interleaving(a + b, a, b)
    decreases |a|
  {
    if |a| == 0 {
      SelfInterleaving(b);
      assert a + b == b;
    } else {
      InterleavingAppend(a[1..], b);
      assert (a + b)[1..] == a[1..] + b;
    }
  }

  /** Whatever `pick` says, the result is an interleaving of `a` and `b`. */
  lemma {:induction false} MergeInterleaves<T>(a: seq<T>, b: seq<T>, pick: seq<bool>)
    ensures Interleaving(Merge(a, b, pick), a, b)
    decreases |a| + |b|
  {
    var r := Merge(a, b, pick);
    if |a| == 0 {
      SelfInterleaving(b);
    } else if |b| == 0 {
      SelfInterleaving(a);
    } else if |pick| == 0 {
      InterleavingAppend(a, b);
    } else if pick[0] {
      MergeInterleaves(a[1..], b, pick[1..]);
      assert r[1..] == Merge(a[1..], b, pick[1..]);
    } else {
      MergeInterleaves(a, b[1..], pick[1..]);
      assert r[1..] == Merge(a, b[1..], pick[1..]);
    }
  }

  /** Every interleaving of `a` and `b` is selected by some `pick`, so a
      property of `Merge(a, b, pick)` for every `pick` holds of every order
      the scheduler can produce. */
  lemma {:induction false} PickFor<T>(r: seq<T>, a: seq<T>, b: seq<T>) returns (pick: seq<bool>)
    requires Interleaving(r, a, b)
    ensures Merge(a, b, pick) == r
    decreases |r|
  {
    if |a| == 0 {
      InterleavingAlone(r, b);
      pick := [];
    } else if |b| == 0 {
      InterleavingAlone(r, a);
      pick := [];
    } else if r[0] == a[0] && Interleaving(r[1..], a[1..], b) {
      var rest := PickFor(r[1..], a[1..], b);
      pick := [true] + rest;
      assert pick[1..] == rest;
    } else {
      var rest := PickFor(r[1..], a, b[1..]);
      pick := [false] + rest;
      assert pick[1..] == rest;
    }
  }

  /** Every element of a subsequence occurs in the larger sequence. */
  lemma {:induction false} SubseqHas<T>(x: seq<T>, t: seq<T>, j: int)
    requires Subseq(x, t) && 0 <= j < |x|
    ensures x[j] in t
    decreases |t|
  {
    if x[0] == t[0] && Subseq(x[1..], t[1..]) {
      if j > 0 {
        SubseqHas(x[1..], t[1..], j - 1);
      }
    } else {
      SubseqHas(x, t[1..], j);
    }
  }

  /** Concatenation of `f` over every element, in order. */
  function FlatMap<T, U>(f: T -> seq<U>, s: seq<T>): seq<U>
    decreases |s|
  {
    if |s| == 0 then [] else f(s[0]) + FlatMap(f, s[1..])
  }

  lemma {:induction false} FlatMapAppend<T, U>(f: T -> seq<U>, a: seq<T>, b: seq<T>)
    ensures FlatMap(f, a + b) == FlatMap(f, a) + FlatMap(f, b)
    decreases |a|
  {
    if |a| == 0 {
      assert a + b == b;
    } else {
      assert (a + b)[1..] == a[1..] + b;
      FlatMapAppend(f, a[1..], b);
    }
  }

  /** What the two actors emit, interleaved, is exactly what each emits. */
  lemma {:induction false} FlatMapMerge<T, U>(f: T -> seq<U>, a: seq<T>, b: seq<T>, pick: seq<bool>)
    ensures multiset(FlatMap(f, Merge(a, b, pick))) == multiset(FlatMap(f, a)) + multiset(FlatMap(f, b))
    decreases |a| + |b|
  {
    var r := Merge(a, b, pick);
    if |a| == 0 {
    } else if |b| == 0 {
    } else if |pick| == 0 {
      FlatMapAppend(f, a, b);
    } else if pick[0] {
      FlatMapMerge(f, a[1..], b, pick[1..]);
      assert r[1..] == Merge(a[1..], b, pick[1..]);
      assert FlatMap(f, a) == f(a[0]) + FlatMap(f, a[1..]);
    } else {
      FlatMapMerge(f, a, b[1..], pick[1..]);
      assert r[1..] == Merge(a, b[1..], pick[1..]);
      assert FlatMap(f, b) == f(b[0]) + FlatMap(f, b[1..]);
    }
  }

  /** A common prefix keeps a subsequence a subsequence. */
  lemma {:induction false} SubseqPrefix<T>(u: seq<T>, v: seq<T>, w: seq<T>)
    requires Subseq(v, w)
    ensures Subseq(u + v, u + w)
    decreases |u|
  {
    if |u| > 0 {
      SubseqPrefix(u[1..], v, w);
      assert (u + v)[1..] == u[1..] + v;
      assert (u + w)[1..] == u[1..] + w;
      assert (u + v)[0] == (u + w)[0] && Subseq((u + v)[1..], (u + w)[1..]);
    } else {
      assert u + v == v && u + w == w;
    }
  }

  /** Extra elements in front of the larger sequence do no harm. */
  lemma {:induction false} SubseqSkip<T>(u: seq<T>, v: seq<T>, w: seq<T>)
    requires Subseq(v, w)
    ensures Subseq(v, u + w)
    decreases |u|
  {
    if |u| > 0 {
      SubseqSkip(u[1..], v, w);
      assert (u + w)[1..] == u[1..] + w;
      if |v| > 0 {
        assert Subseq(v, (u + w)[1..]);
        assert Subseq(v, u + w);
      }
    } else {
      assert u + w == w;
    }
  }

  /** Mapping each element to a block keeps blocks of a subsequence in order. */
  lemma {:induction false} SubseqFlatMap<T, U>(f: T -> seq<U>, x: seq<T>, y: seq<T>)
    requires Subseq(x, y)
    ensures Subseq(FlatMap(f, x), FlatMap(f, y))
    decreases |y|
  {
    if |x| == 0 {
    } else if x[0] == y[0] && Subseq(x[1..], y[1..]) {
      SubseqFlatMap(f, x[1..], y[1..]);
      SubseqPrefix(f(x[0]), FlatMap(f, x[1..]), FlatMap(f, y[1..]));
    } else {
      SubseqFlatMap(f, x, y[1..]);
      SubseqSkip(f(y[0]), FlatMap(f, x), FlatMap(f, y[1..]));
    }
  }

  lemma FlatMapPair<T, U>(f: T -> seq<U>, x: T, y: T)
    ensures FlatMap(f, [x, y]) == f(x) + f(y)
  {
    assert [x, y][1..] == [y];
    assert FlatMap(f, [y]) == f(y) + FlatMap(f, []);
  }

  lemma FlatMapTriple<T, U>(f: T -> seq<U>, x: T, y: T, z: T)
    ensures FlatMap(f, [x, y, z]) == f(x) + f(y) + f(z)
  {
    assert [x, y, z][1..] == [y, z];
    FlatMapPair(f, y, z);
  }

  lemma FlatMapFive<T, U>(f: T -> seq<U>, a: seq<T>, b: seq<T>, c: seq<T>, d: seq<T>, e: seq<T>)
    ensures FlatMap(f, a + b + c + d + e) == FlatMap(f, a) + FlatMap(f, b) + FlatMap(f, c) + FlatMap(f, d) + FlatMap(f, e)
  {
    FlatMapAppend(f, a + b + c + d, e);
    FlatMapAppend(f, a + b + c, d);
    FlatMapAppend(f, a + b, c);
    FlatMapAppend(f, a, b);
  }
}
