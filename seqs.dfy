/** Sequence helpers shared by the pipeline's modules. */
module Seqs {
  import opened Wrappers

  /** The elements of `xs` that satisfy `p`, in order (a list comprehension with a condition). */
  function Filter<T(!new)>(xs: seq<T>, p: T -> bool): (r: seq<T>)
    ensures |r| <= |xs|
    ensures forall x :: x in r <==> x in xs && p(x)
  {
    if xs == [] then []
    else (if p(xs[0]) then [xs[0]] else []) + Filter(xs[1..], p)
  }

  /** Filtering distributes over concatenation. */
  lemma {:induction false} FilterAppend<T(!new)>(xs: seq<T>, ys: seq<T>, p: T -> bool)
    ensures Filter(xs + ys, p) == Filter(xs, p) + Filter(ys, p)
  {
    if xs == [] {
      assert xs + ys == ys;
    } else {
      assert (xs + ys)[1..] == xs[1..] + ys;
      FilterAppend(xs[1..], ys, p);
    }
  }

  /** Filtering a sequence one element longer. */
  lemma FilterSnoc<T(!new)>(xs: seq<T>, x: T, p: T -> bool)
    ensures Filter(xs + [x], p) == Filter(xs, p) + (if p(x) then [x] else [])
  {
    FilterAppend(xs, [x], p);
    assert [x][1..] == [];
  }

  /** A filter every element passes keeps the whole sequence. */
  lemma {:induction false} FilterAll<T(!new)>(xs: seq<T>, p: T -> bool)
    requires forall x :: x in xs ==> p(x)
    ensures Filter(xs, p) == xs
  {
    if xs != [] {
      assert xs[0] in xs;
      forall x | x in xs[1..] ensures p(x) {
        assert x in xs;
      }
      FilterAll(xs[1..], p);
    }
  }

  /** A filter no element passes leaves nothing. */
  lemma {:induction false} FilterNone<T(!new)>(xs: seq<T>, p: T -> bool)
    requires forall x :: x in xs ==> !p(x)
    ensures Filter(xs, p) == []
  {
    if xs != [] {
      assert xs[0] in xs;
      forall x | x in xs[1..] ensures !p(x) {
        assert x in xs;
      }
      FilterNone(xs[1..], p);
    }
  }

  /** Filtering by `p` and then by a stronger `q` is filtering by `q`. */
  lemma {:induction false} FilterNested<T(!new)>(xs: seq<T>, p: T -> bool, q: T -> bool)
    requires forall x :: q(x) ==> p(x)
    ensures Filter(Filter(xs, p), q) == Filter(xs, q)
  {
    if xs != [] {
      FilterNested(xs[1..], p, q);
      var head := if p(xs[0]) then [xs[0]] else [];
      FilterAppend(head, Filter(xs[1..], p), q);
      if p(xs[0]) {
        assert Filter(head, q) == (if q(xs[0]) then [xs[0]] else []) by {
          assert head[1..] == [];
        }
      }
    }
  }

  /** `f` applied to each element in turn, stopping at the first failure (a loop that may raise). */
  function MapAll<T, U, E>(xs: seq<T>, f: T -> Result<U, E>): Result<seq<U>, E> {
    if xs == [] then Ok([])
    else
      var head :- f(xs[0]);
      var tail :- MapAll(xs[1..], f);
      Ok([head] + tail)
  }

  /** The whole map succeeds exactly when every element does, and then holds their results in order. */
  lemma {:induction false} MapAllPointwise<T, U, E>(xs: seq<T>, f: T -> Result<U, E>)
    ensures MapAll(xs, f).Ok? <==> forall k :: 0 <= k < |xs| ==> f(xs[k]).Ok?
    ensures MapAll(xs, f).Ok? ==>
      |MapAll(xs, f).value| == |xs| && forall k :: 0 <= k < |xs| ==> MapAll(xs, f).value[k] == f(xs[k]).value
  {
    if xs != [] {
      MapAllPointwise(xs[1..], f);
      assert forall k :: 1 <= k < |xs| ==> xs[k] == xs[1..][k - 1];
    }
  }

  /** `f(i, xs[i])` for the positions `from, from + 1, ...`, stopping at the first failure (a loop over `enumerate`). */
  function MapIndexed<T, U, E>(from: nat, xs: seq<T>, f: (nat, T) -> Result<U, E>): Result<seq<U>, E>
    decreases |xs|
  {
    if xs == [] then Ok([])
    else
      var head :- f(from, xs[0]);
      var tail :- MapIndexed(from + 1, xs[1..], f);
      Ok([head] + tail)
  }

  lemma {:induction false} MapIndexedPointwise<T, U, E>(from: nat, xs: seq<T>, f: (nat, T) -> Result<U, E>)
    ensures MapIndexed(from, xs, f).Ok? <==> forall k :: 0 <= k < |xs| ==> f(from + k, xs[k]).Ok?
    ensures MapIndexed(from, xs, f).Ok? ==>
      |MapIndexed(from, xs, f).value| == |xs| && forall k :: 0 <= k < |xs| ==> MapIndexed(from, xs, f).value[k] == f(from + k, xs[k]).value
    decreases |xs|
  {
    if xs != [] {
      MapIndexedPointwise(from + 1, xs[1..], f);
      assert forall k :: 1 <= k < |xs| ==> xs[k] == xs[1..][k - 1] && from + k == (from + 1) + (k - 1);
    }
  }
}
