/** Optional values and results with an error, used for absent command-line
    options and for the rejected-configuration path. */
module Wrappers {

  datatype Option<+T> = None | Some(value: T)

  datatype Result<+R, +E> = Ok(value: R) | Err(error: E)
}
