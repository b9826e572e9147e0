/**
 * The few JavaScript built-ins the appointment store leans on, written out
 * for the values that reach them: `x || fallback` defaulting,
 * `Array.prototype.indexOf`, and `Math.ceil(a / b)` on integers.
 */
module Js {
  import opened Wrappers

  /** Truthiness of a nullable number column: `null`, `undefined` and `0` are falsy. */
  predicate TruthyNumber(x: Option<int>) {
    x.Some? && x.value != 0
  }

  /** Truthiness of a nullable string column: `null`, `undefined` and `''` are falsy. */
  predicate TruthyString(x: Option<string>) {
    x.Some? && x.value != ""
  }

  /** `x || fallback` for a nullable number. */
  function NumberOr(x: Option<int>, fallback: int): (r: int)
    ensures TruthyNumber(x) ==> r == x.value
    ensures !TruthyNumber(x) ==> r == fallback
  {
    match x
    case Some(v) => if v != 0 then v else fallback
    case None => fallback
  }

  /** The store's fallback for a falsy duration column, the 60 of `duration || 60`. */
  const DefaultDuration: int := 60

  /** `x || fallback` for a nullable string. */
  function StringOr(x: Option<string>, fallback: string): (r: string)
    ensures TruthyString(x) ==> r == x.value
    ensures !TruthyString(x) ==> r == fallback
  {
    match x
    case Some(v) => if v != "" then v else fallback
    case None => fallback
  }

  /**
   * `xs.indexOf(x)`: the position of the first element equal to `x`, or -1
   * when there is none.
   */
  function IndexOf<T(==)>(xs: seq<T>, x: T): (r: int)
    ensures -1 <= r < |xs|
    ensures r == -1 <==> x !in xs
    ensures r >= 0 ==> xs[r] == x && x !in xs[..r]
  {
    if |xs| == 0 then -1
    else if xs[0] == x then 0
    else
      var k := IndexOf(xs[1..], x);
      assert xs[1..] == xs[1..][..|xs| - 1];
      if k == -1 then -1
      else
        assert xs[..k + 1] == [xs[0]] + xs[1..][..k];
        k + 1
  }

  /** `Math.ceil(a / b)` for an integer `a` and a positive integer `b`. */
  function CeilDiv(a: int, b: int): (r: int)
    requires b > 0
    ensures b * (r - 1) < a <= b * r
  {
    -((-a) / b)
  }

  function Min(a: int, b: int): int {
    if a <= b then a else b
  }
}
