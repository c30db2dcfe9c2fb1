/** Option and Result datatypes standing for Rust's `Option` and `Result`. */
module Wrappers {

  datatype Option<+T> = None | Some(value: T)

  datatype Result<+R, +E> = Ok(value: R) | Err(error: E)

  /** A `Result<(), E>`: success carries no value. */
  datatype Status<+E> = Pass | Fail(error: E)

  /**
   * Collecting `xs.iter().map(f)` into a `Result<Vec<_>, _>`: every value in order, or the
   * first error met.
   */
  function CollectAll<T, U, E>(f: T -> Result<U, E>, xs: seq<T>): (r: Result<seq<U>, E>)
    ensures r.Ok? ==> |r.value| == |xs|
    decreases |xs|
  {
    if xs == [] then Ok([])
    else
      match f(xs[0])
      case Err(e) => Err(e)
      case Ok(y) =>
        match CollectAll(f, xs[1..])
        case Err(e) => Err(e)
        case Ok(ys) => Ok([y] + ys)
  }

  /**
   * The collection succeeds exactly when every element maps to a value, holds those values
   * in order, and otherwise reports the error of the first element that fails.
   */
  lemma {:induction false} CollectAllIsPerElement<T, U, E>(f: T -> Result<U, E>, xs: seq<T>)
    ensures CollectAll(f, xs).Ok? <==> forall i :: 0 <= i < |xs| ==> f(xs[i]).Ok?
    ensures CollectAll(f, xs).Ok? ==>
      forall i :: 0 <= i < |xs| ==> f(xs[i]) == Ok(CollectAll(f, xs).value[i])
    ensures CollectAll(f, xs).Err? ==>
      exists i :: 0 <= i < |xs| && f(xs[i]) == Err(CollectAll(f, xs).error) &&
                  forall j :: 0 <= j < i ==> f(xs[j]).Ok?
    decreases |xs|
  {
    if xs != [] {
      CollectAllIsPerElement(f, xs[1..]);
      if f(xs[0]).Ok? && CollectAll(f, xs[1..]).Err? {
        var k :| 0 <= k < |xs[1..]| && f(xs[1..][k]) == Err(CollectAll(f, xs[1..]).error) &&
                 forall j :: 0 <= j < k ==> f(xs[1..][j]).Ok?;
        assert f(xs[k + 1]) == Err(CollectAll(f, xs).error);
      }
    }
  }
}
