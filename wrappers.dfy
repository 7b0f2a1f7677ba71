/** Option and Result, and the raising `map` that every codec in this model is built on. */
module Wrappers {

  /** `None` stands for Ruby's `nil` wherever an argument may be absent. */
  datatype Option<+T> = None | Some(value: T)

  /** A value, or the error a Ruby method would have raised. */
  datatype Result<+T, +E> = Success(value: T) | Failure(error: E)

  /** Ruby's `xs.map { |x| f(x) }` where the block may raise: the first raising element
      aborts the whole map and its error is the error of the call. */
  function MapAll<T, U, E>(xs: seq<T>, f: T -> Result<U, E>): (r: Result<seq<U>, E>)
    ensures r.Success? <==> forall i :: 0 <= i < |xs| ==> f(xs[i]).Success?
    ensures r.Success? ==> |r.value| == |xs|
    ensures r.Success? ==> forall i :: 0 <= i < |xs| ==> f(xs[i]) == Success(r.value[i])
    ensures r.Failure? ==> exists i :: 0 <= i < |xs| && f(xs[i]) == Failure(r.error)
  {
    if xs == [] then Success([])
    else
      match f(xs[0])
      case Failure(e) => Failure(e)
      case Success(y) =>
        match MapAll(xs[1..], f)
        case Failure(e) =>
          assert forall i :: 0 < i < |xs| ==> xs[i] == xs[1..][i - 1];
          Failure(e)
        case Success(ys) =>
          assert forall i :: 0 < i < |xs| ==> xs[i] == xs[1..][i - 1];
          Success([y] + ys)
  }

  /** Mapping two sequences whose elements the two blocks treat alike gives the same outcome. */
  lemma {:induction false} MapAllCongruent<T, U, E>(xs: seq<T>, ys: seq<T>, f: T -> Result<U, E>, g: T -> Result<U, E>)
    requires |xs| == |ys|
    requires forall i :: 0 <= i < |xs| ==> f(xs[i]) == g(ys[i])
    ensures MapAll(xs, f) == MapAll(ys, g)
  {
    if xs != [] {
      assert forall i :: 0 <= i < |xs| - 1 ==> xs[1..][i] == xs[i + 1] && ys[1..][i] == ys[i + 1];
      MapAllCongruent(xs[1..], ys[1..], f, g);
    }
  }
}
