/** Option and Result values standing in for Python's None and for the
    exceptions the modelled code lets escape. */
module Wrappers {

  datatype Option<+T> = None | Some(value: T)

  datatype Result<+T, +E> = Ok(value: T) | Err(error: E)

  /** The only exception the modelled code raises by itself: an IndexError
      from indexing a list that is too short. */
  datatype PyError = IndexError
}
