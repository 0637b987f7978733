/** Failure-carrying results. Every `expect`/`unwrap`/`assert!` panic of the
    puzzle solvers becomes an `Err` carrying the panic message. */
module Wrappers {

  datatype Option<T> = None | Some(value: T)

  datatype Result<T> = Ok(value: T) | Err(error: string)
}
