/** What may be missing, and what may have failed. */
module Wrappers {

  datatype Option<T> = None | Some(v: T)

  datatype Result<T, E> = Ok(v: T) | Err(e: E)
}
