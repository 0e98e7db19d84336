/** Optional values and error-carrying results, standing in for the
    `undefined`/`null` values and thrown errors of the original code. */
module Results {

  /** A value that may be absent (`null` or `undefined` in the original). */
  datatype Option<+T> = None | Some(value: T)

  /** Either a value or the message of the error that was thrown. */
  datatype Result<+T> = Ok(value: T) | Err(message: string)
}
