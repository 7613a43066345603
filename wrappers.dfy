/** Optional values and the one failure the modelled code can raise. */
module Wrappers {

  /** A value that may be absent (Python's None). */
  datatype Option<+T> = None | Some(value: T)

  /** The exceptions of the modelled code that abort a pipeline run. */
  datatype Error =
    | IndexError  // `hypotheses[0]` on an empty list

  /** The outcome of an operation that either returns a value or raises. */
  datatype Result<+T> = Ok(value: T) | Err(error: Error)
}
