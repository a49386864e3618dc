/** The result shapes and small functions shared by the modules of this project. */
module Wrappers {

  datatype Option<+T> = None | Some(value: T) {
    function GetOr(default: T): T {
      match this
      case None => default
      case Some(v) => v
    }
  }

  datatype Result<+T, +E> = Ok(value: T) | Err(error: E)

  /** Takes the elements one by one, stopping at the first error. */
  function TryFold<A, X, E>(step: (A, X) -> Result<A, E>, acc: A, xs: seq<X>): Result<A, E> {
    if xs == [] then Ok(acc)
    else match step(acc, xs[0])
      case Err(e) => Err(e)
      case Ok(next) => TryFold(step, next, xs[1..])
  }

  function Min(a: nat, b: nat): (m: nat)
    ensures m <= a && m <= b && m in [a, b]
  {
    if a <= b then a else b
  }

  /** Index of the first occurrence of `x`. */
  function Position<T(==)>(xs: seq<T>, x: T): (i: Option<nat>)
    ensures i.None? ==> x !in xs
    ensures i.Some? ==> i.value < |xs| && xs[i.value] == x && x !in xs[..i.value]
  {
    if xs == [] then None
    else if xs[0] == x then Some(0)
    else match Position(xs[1..], x)
      case None => None
      case Some(i) => Some(i + 1)
  }
}
