/** Option and Result, the two failure-carrying wrappers the model uses for
    C++'s std::optional and for thrown exceptions. */
module Wrappers {

  datatype Option<+T> = None | Some(value: T)

  datatype Result<+T, +E> = Ok(value: T) | Err(error: E)
}
