/**
 * Concatenating the outputs of a per-element function, as a `forEach` that
 * pushes onto one shared array does, and the facts about it the blocking
 * lemmas need.
 */
module Sequences {

  /** `f(xs[0]) + f(xs[1]) + ...`, built from the back as the pushes happen. */
  function FlatMap<T, U>(f: T -> seq<U>, xs: seq<T>): seq<U> {
    if |xs| == 0 then []
    else FlatMap(f, xs[..|xs| - 1]) + f(xs[|xs| - 1])
  }

  /** Sum of the lengths of the pieces. */
  function SumLengths<T, U>(f: T -> seq<U>, xs: seq<T>): nat {
    if |xs| == 0 then 0 else |f(xs[0])| + SumLengths(f, xs[1..])
  }

  /** Number of pieces that contain `y`. */
  function CountContaining<T, U(==)>(f: T -> seq<U>, xs: seq<T>, y: U): nat {
    if |xs| == 0 then 0
    else CountContaining(f, xs[..|xs| - 1], y) + (if y in f(xs[|xs| - 1]) then 1 else 0)
  }

  /** No element occurs twice in `s`. */
  predicate Distinct<U(==)>(s: seq<U>) {
    forall i, j | 0 <= i < j < |s| :: s[i] != s[j]
  }

  lemma {:induction false} FlatMapAppend<T, U>(f: T -> seq<U>, a: seq<T>, b: seq<T>)
    ensures FlatMap(f, a + b) == FlatMap(f, a) + FlatMap(f, b)
    decreases |b|
  {
    if |b| == 0 {
      assert a + b == a;
    } else {
      var b' := b[..|b| - 1];
      var ab := a + b;
      assert ab[..|ab| - 1] == a + b';
      assert ab[|ab| - 1] == b[|b| - 1];
      FlatMapAppend(f, a, b');
    }
  }

  lemma FlatMapCons<T, U>(f: T -> seq<U>, x: T, xs: seq<T>)
    ensures FlatMap(f, [x] + xs) == f(x) + FlatMap(f, xs)
  {
    FlatMapAppend(f, [x], xs);
    assert [x][..0] == [];
  }

  lemma {:induction false} FlatMapLength<T, U>(f: T -> seq<U>, xs: seq<T>)
    ensures |FlatMap(f, xs)| == SumLengths(f, xs)
    decreases |xs|
  {
    if |xs| > 0 {
      FlatMapCons(f, xs[0], xs[1..]);
      assert [xs[0]] + xs[1..] == xs;
      FlatMapLength(f, xs[1..]);
    }
  }

  lemma {:induction false} FlatMapMembers<T, U>(f: T -> seq<U>, xs: seq<T>, y: U)
    requires y in FlatMap(f, xs)
    ensures exists i | 0 <= i < |xs| :: y in f(xs[i])
    decreases |xs|
  {
    var init := xs[..|xs| - 1];
    if y in FlatMap(f, init) {
      FlatMapMembers(f, init, y);
      var i :| 0 <= i < |init| && y in f(init[i]);
      assert xs[i] == init[i];
    } else {
      assert y in f(xs[|xs| - 1]);
    }
  }

  lemma {:induction false} DistinctCount<U>(s: seq<U>, y: U)
    requires Distinct(s)
    ensures multiset(s)[y] == if y in s then 1 else 0
    decreases |s|
  {
    if |s| > 0 {
      var rest := s[1..];
      assert s == [s[0]] + rest;
      DistinctCount(rest, y);
      if s[0] == y {
        assert y !in rest;
      }
    }
  }

  lemma {:induction false} FlatMapMultiplicity<T, U>(f: T -> seq<U>, xs: seq<T>, y: U)
    requires forall i | 0 <= i < |xs| :: Distinct(f(xs[i]))
    ensures multiset(FlatMap(f, xs))[y] == CountContaining(f, xs, y)
    decreases |xs|
  {
    if |xs| > 0 {
      FlatMapMultiplicity(f, xs[..|xs| - 1], y);
      DistinctCount(f(xs[|xs| - 1]), y);
    }
  }
}
