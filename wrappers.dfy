/** Small failure-carrying datatypes shared by the whole model.
    `Option` stands for a C# nullable value, `Result` for a call that returns a value or
    throws, `Outcome` for a call that returns nothing (a `Task`) or throws. */
module Wrappers {

  datatype Option<+T> = None | Some(value: T) {
    function GetOr(default: T): T {
      match this
      case Some(v) => v
      case None => default
    }
  }

  datatype Result<+R, +E> = Success(value: R) | Failure(error: E)

  datatype Outcome<+E> = Pass | Fail(error: E)
}
