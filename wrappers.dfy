/** The outcome types shared by the modules: an optional value, and a value
    or the error that stands for the exception the code raises. */
module Wrappers {
  datatype Option<T> = None | Some(value: T)

  datatype Result<T, E> = Ok(value: T) | Err(error: E)
}
