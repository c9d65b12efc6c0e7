/** Optional values and results with an error, used for "no match" and for a
    run that stops on an error. */
module Wrappers {

  datatype Option<+T> = None | Some(value: T)

  datatype Result<+T, +E> = Ok(value: T) | Err(error: E)
}
