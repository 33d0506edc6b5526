/** Option and Result values used for the nil cases and the raised errors of the system. */
module Wrappers {

  datatype Option<T> = None | Some(value: T)
  {
    function GetOr(default: T): T
    {
      match this
      case Some(v) => v
      case None => default
    }
  }

  datatype Result<T, E> = Success(value: T) | Failure(error: E)

}
