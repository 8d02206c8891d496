/** Optional values and error-carrying results shared by every module of the model. */
module Wrappers {
  /** A value that may be absent; stands for a nullable reference. */
  datatype Option<T> = None | Some(value: T)
  {
    function GetOr(default: T): T
    {
      match this
      case None => default
      case Some(v) => v
    }
  }

  /**
   * The result of an operation that may throw. `Fail` carries a description of the
   * exception the source would raise.
   */
  datatype Result<T> = Ok(value: T) | Fail(error: string)
}
