/** Option and Result values used across the model in place of null and of thrown errors. */
module Wrappers {

  datatype Option<+T> = None | Some(value: T) {
    function GetOr(default: T): T {
      match this
      case Some(v) => v
      case None => default
    }
  }

  /** `Failure` stands for an exception the source throws (its message is kept). */
  datatype Result<+R> = Success(value: R) | Failure(error: string)
}
