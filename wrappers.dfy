/** Optional values and results shared by every module of the model. */
module Wrappers {

  /** A value that may be absent: JavaScript's `null` / `undefined`. */
  datatype Option<+T> = None | Some(value: T) {
    function GetOr(default: T): T {
      match this
      case Some(v) => v
      case None => default
    }
  }

  /** The outcome of a call that can fail: a value or an error message. */
  datatype Result<+T, +E> = Ok(value: T) | Err(error: E)

  /** What a backend query or procedure answered: rows (`null` when there is no data), or an error message. */
  datatype RpcResult<T> = RpcData(rows: Option<seq<T>>) | RpcError(message: string)
}
