/**
 * Keeping and dropping the elements of a sequence in one ordered pass, the
 * shape of the `reduce` and `filter(Boolean)` passes of the scheme generator.
 */
module Sequences {
  import opened Wrappers

  /** `reduce` with a step that keeps or drops each element: the kept results, in order. */
  function FilterMap<T, U>(f: T -> Option<U>, xs: seq<T>): (r: seq<U>)
    ensures |r| <= |xs|
  {
    if xs == [] then []
    else
      var last := match f(xs[|xs| - 1]) case Some(y) => [y] case None => [];
      FilterMap(f, xs[..|xs| - 1]) + last
  }

  /** Positions of the elements `f` keeps, in increasing order. */
  function KeptIndices<T, U>(f: T -> Option<U>, xs: seq<T>): (idx: seq<nat>)
    ensures forall k :: 0 <= k < |idx| ==> idx[k] < |xs| && f(xs[idx[k]]).Some?
    ensures forall a, b :: 0 <= a < b < |idx| ==> idx[a] < idx[b]
    ensures forall i :: 0 <= i < |xs| && f(xs[i]).Some? ==> i in idx
  {
    if xs == [] then []
    else
      var n := |xs| - 1;
      var init := xs[..n];
      var earlier := KeptIndices(f, init);
      assert forall k :: 0 <= k < |earlier| ==> xs[earlier[k]] == init[earlier[k]];
      assert forall i :: 0 <= i < n ==> xs[i] == init[i];
      if f(xs[n]).Some? then earlier + [n] else earlier
  }

  /** As many results are kept as there are kept positions. */
  lemma {:induction false} FilterMapLength<T, U>(f: T -> Option<U>, xs: seq<T>)
    ensures |FilterMap(f, xs)| == |KeptIndices(f, xs)|
  {
    if xs != [] {
      FilterMapLength(f, xs[..|xs| - 1]);
    }
  }

  /** The `k`-th kept result is `f` at the `k`-th kept position. */
  lemma {:induction false} FilterMapIndex<T, U>(f: T -> Option<U>, xs: seq<T>, k: nat)
    requires k < |KeptIndices(f, xs)|
    ensures k < |FilterMap(f, xs)|
    ensures FilterMap(f, xs)[k] == f(xs[KeptIndices(f, xs)[k]]).value
  {
    var n := |xs| - 1;
    var init := xs[..n];
    var idx := KeptIndices(f, xs);
    var earlier := KeptIndices(f, init);
    FilterMapLength(f, xs);
    FilterMapLength(f, init);
    assert idx[..|earlier|] == earlier;
    if k < |earlier| {
      FilterMapIndex(f, init, k);
      assert idx[k] == earlier[k];
      assert FilterMap(f, xs)[k] == FilterMap(f, init)[k];
      assert xs[earlier[k]] == init[earlier[k]];
    } else {
      assert idx[k] == n;
    }
  }

  /** The kept results are exactly `f` at the kept positions, in order. */
  lemma FilterMapAt<T, U>(f: T -> Option<U>, xs: seq<T>)
    ensures |FilterMap(f, xs)| == |KeptIndices(f, xs)|
    ensures forall k :: 0 <= k < |KeptIndices(f, xs)| ==>
      FilterMap(f, xs)[k] == f(xs[KeptIndices(f, xs)[k]]).value
  {
    FilterMapLength(f, xs);
    forall k | 0 <= k < |KeptIndices(f, xs)|
      ensures FilterMap(f, xs)[k] == f(xs[KeptIndices(f, xs)[k]]).value
    {
      FilterMapIndex(f, xs, k);
    }
  }

  /** When `f` maps what it keeps to itself, a second pass changes nothing. */
  lemma {:induction false} FilterMapIdempotent<T>(f: T -> Option<T>, xs: seq<T>)
    requires forall x :: f(x).Some? ==> f(f(x).value) == f(x)
    ensures FilterMap(f, FilterMap(f, xs)) == FilterMap(f, xs)
  {
    if xs != [] {
      var init := xs[..|xs| - 1];
      var out := FilterMap(f, xs);
      FilterMapIdempotent(f, init);
      match f(xs[|xs| - 1])
      case None =>
        assert FilterMap(f, init) + [] == FilterMap(f, init);
        assert out == FilterMap(f, init);
      case Some(y) =>
        assert out[..|out| - 1] == FilterMap(f, init);
    }
  }

  /** The numbers `lo`, `lo + 1`, …, `hi - 1`. */
  function Range(lo: nat, hi: nat): (r: seq<nat>)
    requires lo <= hi
    ensures |r| == hi - lo
    ensures forall k :: 0 <= k < |r| ==> r[k] == lo + k
  {
    seq(hi - lo, k requires 0 <= k < hi - lo => lo + k)
  }
}
