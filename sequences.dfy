/** Facts about sequences shared by the list-processing loops: a loop that
    walks a list in order and appends what each element contributes computes
    a `FlatMap`. */
module Sequences {
  /** Concatenation regroups freely. */
  lemma ConcatAssoc<T>(a: seq<T>, b: seq<T>, c: seq<T>)
    ensures (a + b) + c == a + (b + c)
  {
  }

  /** Dropping the last element of `a + b`, for a non-empty `b`. */
  lemma DropLast<T>(a: seq<T>, b: seq<T>)
    requires b != []
    ensures (a + b)[..|a + b| - 1] == a + b[..|b| - 1]
    ensures (a + b)[|a + b| - 1] == b[|b| - 1]
  {
  }

  /** What each element of `xs` contributes, in order; defined from the end,
      as a loop that appends builds it. */
  function FlatMap<T, U>(xs: seq<T>, f: T -> seq<U>): seq<U> {
    if xs == [] then [] else FlatMap(xs[..|xs| - 1], f) + f(xs[|xs| - 1])
  }

  /** When every element contributes at most one item, there are at most as
      many items as elements. */
  lemma {:induction false} FlatMapBound<T, U>(xs: seq<T>, f: T -> seq<U>)
    requires forall x :: |f(x)| <= 1
    ensures |FlatMap(xs, f)| <= |xs|
  {
    if xs != [] {
      FlatMapBound(xs[..|xs| - 1], f);
    }
  }

  /** A `FlatMap` of two parts is the `FlatMap` of each, in order. */
  lemma {:induction false} FlatMapAppend<T, U>(a: seq<T>, b: seq<T>, f: T -> seq<U>)
    ensures FlatMap(a + b, f) == FlatMap(a, f) + FlatMap(b, f)
    decreases |b|
  {
    if b == [] {
      assert a + b == a;
    } else {
      var init, last := b[..|b| - 1], b[|b| - 1];
      DropLast(a, b);
      FlatMapAppend(a, init, f);
      ConcatAssoc(FlatMap(a, f), FlatMap(init, f), f(last));
    }
  }

  /** An item is in a `FlatMap` exactly when some element contributes it. */
  lemma {:induction false} FlatMapMembers<T, U>(xs: seq<T>, f: T -> seq<U>, y: U)
    ensures y in FlatMap(xs, f) <==> exists i :: 0 <= i < |xs| && y in f(xs[i])
  {
    if xs != [] {
      var init, last := xs[..|xs| - 1], xs[|xs| - 1];
      FlatMapMembers(init, f, y);
      if exists i :: 0 <= i < |init| && y in f(init[i]) {
        var i :| 0 <= i < |init| && y in f(init[i]);
        assert xs[i] == init[i];
      }
      if exists i :: 0 <= i < |xs| && y in f(xs[i]) {
        var i :| 0 <= i < |xs| && y in f(xs[i]);
        if i < |init| {
          assert init[i] == xs[i];
        }
      }
    }
  }

  /** The position of the first element satisfying `p`, or `|xs|` when there
      is none. */
  function FirstIndex<T>(xs: seq<T>, p: T -> bool): (k: nat)
    ensures k <= |xs|
    ensures k < |xs| ==> p(xs[k])
    ensures forall j :: 0 <= j < k ==> !p(xs[j])
  {
    if xs == [] then 0
    else if p(xs[0]) then 0
    else
      var k := FirstIndex(xs[1..], p);
      assert forall j :: 1 <= j < k + 1 ==> xs[j] == xs[1..][j - 1];
      k + 1
  }

  /** Some element satisfies `p` exactly when the first match is inside the
      sequence. */
  lemma FirstIndexFound<T>(xs: seq<T>, p: T -> bool)
    ensures FirstIndex(xs, p) < |xs| <==> exists i :: 0 <= i < |xs| && p(xs[i])
  {
    if exists i :: 0 <= i < |xs| && p(xs[i]) {
      var i :| 0 <= i < |xs| && p(xs[i]);
      assert FirstIndex(xs, p) <= i;
    }
  }

  /** Scanning from the front: a match at `i`, with none before it, is the
      first match. */
  lemma FirstIndexAt<T>(xs: seq<T>, p: T -> bool, i: nat)
    requires i < |xs| && i <= FirstIndex(xs, p) && p(xs[i])
    ensures FirstIndex(xs, p) == i
  {
  }

  /** Scanning from the front: no match at `i`, and none before it, leaves
      the first match further on. */
  lemma FirstIndexPast<T>(xs: seq<T>, p: T -> bool, i: nat)
    requires i < |xs| && i <= FirstIndex(xs, p) && !p(xs[i])
    ensures i + 1 <= FirstIndex(xs, p)
  {
  }

  /** An element that does not satisfy `p`, put in front, moves the first
      match one place on. */
  lemma FirstIndexCons<T>(x: T, rest: seq<T>, p: T -> bool)
    requires !p(x)
    ensures FirstIndex([x] + rest, p) == 1 + FirstIndex(rest, p)
  {
    assert ([x] + rest)[1..] == rest;
  }
}
