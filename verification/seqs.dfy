/** The array operations the components chain: `filter`, a filter-and-map, and distinctness. */
module Seqs {
  import opened Wrappers

  /** `xs.filter(p)`: the elements that satisfy `p`, in order. */
  function Filter<T(!new)>(xs: seq<T>, p: T -> bool): (ys: seq<T>)
    ensures |ys| <= |xs|
  {
    if xs == [] then []
    else if p(xs[0]) then [xs[0]] + Filter(xs[1..], p)
    else Filter(xs[1..], p)
  }

  /** The kept elements are exactly the elements that satisfy `p`. */
  lemma {:induction false} FilterMembers<T(!new)>(xs: seq<T>, p: T -> bool, y: T)
    ensures y in Filter(xs, p) <==> y in xs && p(y)
  {
    if xs != [] {
      FilterMembers(xs[1..], p, y);
      assert xs == [xs[0]] + xs[1..];
    }
  }

  /** `ys` is `xs` with some elements dropped and the rest in their original order. */
  predicate IsSubsequence<T(==)>(ys: seq<T>, xs: seq<T>)
  {
    if ys == [] then true
    else if xs == [] then false
    else if ys[0] == xs[0] then IsSubsequence(ys[1..], xs[1..])
    else IsSubsequence(ys, xs[1..])
  }

  /** A subsequence of `xs[1..]` is a subsequence of `xs`. */
  lemma {:induction false} SubsequenceDrop<T>(ys: seq<T>, xs: seq<T>)
    requires xs != [] && IsSubsequence(ys, xs[1..])
    ensures IsSubsequence(ys, xs)
    decreases |xs|, 0
  {
    if ys != [] && ys[0] == xs[0] {
      SubsequenceTail(ys, xs[1..]);
    }
  }

  /** Dropping the first element of a subsequence leaves a subsequence. */
  lemma {:induction false} SubsequenceTail<T>(ys: seq<T>, xs: seq<T>)
    requires ys != [] && IsSubsequence(ys, xs)
    ensures IsSubsequence(ys[1..], xs)
    decreases |xs|, 1
  {
    if ys[0] == xs[0] {
      SubsequenceDrop(ys[1..], xs);
    } else {
      SubsequenceTail(ys, xs[1..]);
      SubsequenceDrop(ys[1..], xs);
    }
  }

  /** Filtering keeps the surviving elements in their original order. */
  lemma {:induction false} FilterSubsequence<T(!new)>(xs: seq<T>, p: T -> bool)
    ensures IsSubsequence(Filter(xs, p), xs)
  {
    if xs != [] {
      FilterSubsequence(xs[1..], p);
      if !p(xs[0]) {
        SubsequenceDrop(Filter(xs[1..], p), xs);
      }
    }
  }

  /** When every element satisfies `p`, filtering keeps everything. */
  lemma {:induction false} FilterAll<T(!new)>(xs: seq<T>, p: T -> bool)
    requires forall x :: x in xs ==> p(x)
    ensures Filter(xs, p) == xs
  {
    if xs != [] {
      assert xs[0] in xs;
      assert forall x :: x in xs[1..] ==> x in xs;
      FilterAll(xs[1..], p);
    }
  }

  /** Filtering a concatenation filters each part: the order of the input is kept. */
  lemma {:induction false} FilterAppend<T(!new)>(a: seq<T>, b: seq<T>, p: T -> bool)
    ensures Filter(a + b, p) == Filter(a, p) + Filter(b, p)
  {
    if a == [] {
      assert a + b == b;
    } else {
      var ab := a + b;
      assert ab[0] == a[0];
      assert ab[1..] == a[1..] + b;
      var rest := Filter(a[1..], p);
      FilterAppend(a[1..], b, p);
      if p(a[0]) {
        assert Filter(ab, p) == [a[0]] + (rest + Filter(b, p));
        assert [a[0]] + (rest + Filter(b, p)) == ([a[0]] + rest) + Filter(b, p);
      }
    }
  }

  /** The values `f` gives for the elements it accepts, in order. */
  function FilterMap<T(!new), U(!new)>(xs: seq<T>, f: T -> Option<U>): (ys: seq<U>)
    ensures |ys| <= |xs|
  {
    if xs == [] then []
    else match f(xs[0])
      case Some(y) => [y] + FilterMap(xs[1..], f)
      case None => FilterMap(xs[1..], f)
  }

  lemma {:induction false} FilterMapAppend<T(!new), U(!new)>(a: seq<T>, b: seq<T>, f: T -> Option<U>)
    ensures FilterMap(a + b, f) == FilterMap(a, f) + FilterMap(b, f)
  {
    if a == [] {
      assert a + b == b;
    } else {
      var ab := a + b;
      assert ab[0] == a[0];
      assert ab[1..] == a[1..] + b;
      var rest := FilterMap(a[1..], f);
      FilterMapAppend(a[1..], b, f);
      match f(a[0])
      case Some(y) =>
        assert FilterMap(ab, f) == [y] + (rest + FilterMap(b, f));
        assert [y] + (rest + FilterMap(b, f)) == ([y] + rest) + FilterMap(b, f);
      case None =>
    }
  }

  /** The value an option holds, as a sequence of zero or one elements. */
  function Emit<U>(o: Option<U>): (ys: seq<U>)
    ensures |ys| <= 1
  {
    match o
    case Some(y) => [y]
    case None => []
  }

  /** Extending a window of `xs` by one element appends what `f` gives for it. */
  lemma FilterMapStep<T(!new), U(!new)>(xs: seq<T>, lo: int, i: int, f: T -> Option<U>)
    requires 0 <= lo <= i < |xs|
    ensures FilterMap(xs[lo..i + 1], f) == FilterMap(xs[lo..i], f) + Emit(f(xs[i]))
  {
    FilterMapAppend(xs[lo..i], [xs[i]], f);
    assert xs[lo..i + 1] == xs[lo..i] + [xs[i]];
    assert [xs[i]][1..] == [];
  }

  /**
   * One pass over the elements from index `lo` on that appends what `read`
   * gives for each element it accepts.
   */
  method CollectFrom<T(!new), U(!new)>(xs: seq<T>, lo: nat, read: T -> Option<U>) returns (ys: seq<U>)
    requires lo <= |xs|
    ensures ys == FilterMap(xs[lo..], read)
  {
    ys := [];
    var i := lo;
    assert xs[lo..i] == [];
    while i < |xs|
      invariant lo <= i <= |xs|
      invariant ys == FilterMap(xs[lo..i], read)
    {
      FilterMapStep(xs, lo, i, read);
      var r := read(xs[i]);
      if r.Some? {
        ys := ys + [r.value];
      }
      i := i + 1;
    }
    assert xs[lo..i] == xs[lo..];
  }

  /** Every value comes from an element `f` accepts. */
  lemma {:induction false} FilterMapSource<T(!new), U(!new)>(xs: seq<T>, f: T -> Option<U>, y: U)
    requires y in FilterMap(xs, f)
    ensures exists x :: x in xs && f(x) == Some(y)
  {
    var head := match f(xs[0]) case Some(v) => [v] case None => [];
    if y !in head {
      FilterMapSource(xs[1..], f, y);
      var x :| x in xs[1..] && f(x) == Some(y);
      assert x in xs;
    }
  }

  /** No element occurs twice. */
  predicate Distinct<T(==)>(xs: seq<T>)
  {
    forall i, j :: 0 <= i < j < |xs| ==> xs[i] != xs[j]
  }
}
