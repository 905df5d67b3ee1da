/** Result types shared by the models: an absent value and an operation that may be refused. */
module Wrappers {

  datatype Option<+T> = None | Some(value: T)

  datatype Result<+T, +E> = Success(value: T) | Failure(error: E)

  /** One success less of a number of successes; no number stands for all. */
  function OneLess(left: Option<nat>): Option<nat>
    requires left != Some(0)
  {
    if left.Some? then Some(left.value - 1) else None
  }
}
