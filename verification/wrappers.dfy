/** Failure-carrying values shared by the readers: the source signals failure by raising
    (IndexError, AttributeError), which the model returns as a Failure value instead. */
module Wrappers {

  datatype Option<+T> = None | Some(value: T)

  datatype Result<+R, +E> = Success(value: R) | Failure(error: E)

  /** The last element of `s`, or None when `s` is empty. */
  function LastOf<T>(s: seq<T>): Option<T>
  {
    if |s| == 0 then None else Some(s[|s| - 1])
  }
}
