/** Option and Result, the two wrappers the model uses for "nothing rendered"
    and for a render that throws. */
module Wrappers {

  datatype Option<+T> = None | Some(value: T)

  datatype Result<+T, +E> = Ok(value: T) | Err(error: E)
}
