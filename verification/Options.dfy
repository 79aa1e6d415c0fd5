/** Values that may be missing, and results that may be errors. */
module Options {

  datatype Option<+T> = None | Some(value: T)

  /** The code of a failure. */
  type Code = code: string | code != "" witness "failed"

  datatype Result<+T, +E> = Ok(value: T) | Err(error: E)
}
