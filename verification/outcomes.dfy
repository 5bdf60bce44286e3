/** Failure-carrying results: the model's replacement for the source's empty
    `std::optional`, thrown lookups and `exit(0)` calls. */
module Outcomes {

  /** A value that may be absent (`std::optional`). */
  datatype Option<T> = None | Some(value: T)

  /** Either a value or an error describing why there is none. */
  datatype Result<T, E> = Ok(value: T) | Err(error: E)
}
