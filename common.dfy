/** Failure-carrying values shared by every module of the model. */
module Common {

  /** A value that may be absent; stands for a Java `null` or a missing JSON key. */
  datatype Option<T> = None | Some(value: T) {
    function GetOr(default: T): T {
      if Some? then value else default
    }
  }

  /** The outcome of an operation that can fail (a thrown exception or an error reply). */
  datatype Result<T, E> = Ok(value: T) | Err(error: E)

  /** The backend's response envelope: `Result.success(data)` or `Result.error(message)`. */
  datatype Response<T> = Success(data: T) | Failure(message: string)
}
