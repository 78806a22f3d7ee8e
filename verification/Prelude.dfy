/** Failure-compatible result types shared by every module. */
module Prelude {

  datatype Option<+T> = None | Some(value: T)

  /** A Python call: it returns a value or raises an error. */
  datatype Result<+T, +E> = Ok(value: T) | Raised(error: E) {
    predicate IsFailure() {
      Raised?
    }

    function PropagateFailure<U>(): Result<U, E>
      requires Raised?
    {
      Raised(error)
    }

    function Extract(): T
      requires Ok?
    {
      value
    }
  }

  ghost predicate Distinct<T(!new)>(s: seq<T>) {
    forall i, j :: 0 <= i < j < |s| ==> s[i] != s[j]
  }
}
