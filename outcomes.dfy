/** Failure-carrying results shared by both benchmarks: every panic of the
    source becomes an Err value. */
module Outcomes {

  datatype Option<T> = None | Some(value: T)

  datatype Result<T, E> = Ok(value: T) | Err(failure: E)
}
