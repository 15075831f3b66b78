/** Generic sequence helpers: repetition, filtering, mapping and flat-mapping. */
module Seqs {

  /** `n` copies of `x`, as a loop that appends `x` n times produces. */
  function Repeat<T>(x: T, n: nat): (r: seq<T>)
    ensures |r| == n
    ensures forall i :: 0 <= i < n ==> r[i] == x
  {
    if n == 0 then [] else Repeat(x, n - 1) + [x]
  }

  /** The elements of `xs` that satisfy `p`, in their original order (PHP
      array_filter/array_intersect followed by array_values). */
  function Filter<T(!new)>(xs: seq<T>, p: T -> bool): (r: seq<T>)
    ensures |r| <= |xs|
    ensures forall x :: x in r <==> x in xs && p(x)
    ensures forall x :: p(x) ==> multiset(r)[x] == multiset(xs)[x]
  {
    if xs == [] then []
    else
      var rest := Filter(xs[1..], p);
      assert xs == [xs[0]] + xs[1..];
      if p(xs[0]) then [xs[0]] + rest else rest
  }

  /** Filtering distributes over concatenation, so it keeps the relative order. */
  lemma {:induction false} FilterAppend<T(!new)>(xs: seq<T>, ys: seq<T>, p: T -> bool)
    ensures Filter(xs + ys, p) == Filter(xs, p) + Filter(ys, p)
  {
    if xs == [] {
      assert xs + ys == ys;
    } else {
      var zs := xs + ys;
      assert zs[0] == xs[0];
      assert zs[1..] == xs[1..] + ys;
      FilterAppend(xs[1..], ys, p);
      if p(xs[0]) {
        calc {
          Filter(zs, p);
          [xs[0]] + Filter(xs[1..] + ys, p);
          [xs[0]] + (Filter(xs[1..], p) + Filter(ys, p));
          ([xs[0]] + Filter(xs[1..], p)) + Filter(ys, p);
        }
      }
    }
  }

  /** The concatenation of f(x) over the elements x of xs, in order. */
  function FlatMap<A, B>(xs: seq<A>, f: A -> seq<B>): seq<B>
  {
    if xs == [] then [] else f(xs[0]) + FlatMap(xs[1..], f)
  }

  lemma {:induction false} FlatMapAppend<A, B>(xs: seq<A>, ys: seq<A>, f: A -> seq<B>)
    ensures FlatMap(xs + ys, f) == FlatMap(xs, f) + FlatMap(ys, f)
  {
    if xs == [] {
      assert xs + ys == ys;
    } else {
      assert (xs + ys)[1..] == xs[1..] + ys;
      FlatMapAppend(xs[1..], ys, f);
    }
  }

  lemma FlatMapSingle<A, B>(x: A, f: A -> seq<B>)
    ensures FlatMap([x], f) == f(x)
  {
    assert [x][1..] == [];
  }

  lemma FlatMapCons<A, B>(x: A, xs: seq<A>, f: A -> seq<B>)
    ensures FlatMap([x] + xs, f) == f(x) + FlatMap(xs, f)
  {
    assert ([x] + xs)[1..] == xs;
  }

  /** A list is its first element followed by the rest. */
  lemma ConsSplit<T>(xs: seq<T>, ys: seq<T>)
    requires xs != []
    ensures xs == [xs[0]] + xs[1..]
    ensures xs + ys == [xs[0]] + (xs[1..] + ys)
  {
  }

  /** A list that begins with p is p followed by the rest. */
  lemma PrefixSplit<T>(p: seq<T>, s: seq<T>)
    requires p <= s
    ensures s == p + s[|p|..]
  {
  }

  /** What a list lacks, its tail lacks. */
  lemma NotInTail<T>(x: T, xs: seq<T>)
    requires xs != [] && x !in xs
    ensures xs[0] != x && x !in xs[1..]
  {
    assert xs[0] in xs;
    assert forall y :: y in xs[1..] ==> y in xs;
  }

  /** Filtering keeps a list every element of which passes. */
  lemma {:induction false} FilterAll<T(!new)>(xs: seq<T>, p: T -> bool)
    requires forall i :: 0 <= i < |xs| ==> p(xs[i])
    ensures Filter(xs, p) == xs
  {
    if xs != [] {
      FilterAll(xs[1..], p);
      assert xs == [xs[0]] + xs[1..];
    }
  }

  /** `f` applied to every element (PHP array_map). */
  function Map<A, B>(xs: seq<A>, f: A -> B): (r: seq<B>)
    ensures |r| == |xs|
    ensures forall i :: 0 <= i < |xs| ==> r[i] == f(xs[i])
  {
    seq(|xs|, i requires 0 <= i < |xs| => f(xs[i]))
  }
}
