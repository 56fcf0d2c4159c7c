/** Small shared datatypes: Python's `None`-or-value and the sum helpers the
    reports use. */
module Basics {

  /** A value that may be absent (a nullable column, a missing POST field). */
  datatype Option<+T> = None | Some(value: T) {

    /** The value, or `default` when absent (Python's `x or default` for
        values that are falsy only when absent). */
    function GetOr(default: T): T {
      match this
      case Some(v) => v
      case None => default
    }
  }

  /** The elements of `xs` that are present, in order. */
  function Present<T(==,!new)>(xs: seq<Option<T>>): (r: seq<T>)
    ensures |r| <= |xs|
    ensures forall v :: v in r <==> Some(v) in xs
  {
    if xs == [] then []
    else
      var rest := Present(xs[1..]);
      assert forall v :: Some(v) in xs <==> Some(v) == xs[0] || Some(v) in xs[1..];
      match xs[0]
      case Some(v) => [v] + rest
      case None => rest
  }
}
