/** Failure-compatible result types shared by the modules of the storefront model. */
module Wrappers {

  /** A value that may be absent (JavaScript's `null` / `undefined`, an SQL row not found). */
  datatype Option<T> = None | Some(value: T)

  /** A request that either produced a value or was answered with an error. */
  datatype Result<T, E> = Ok(value: T) | Err(error: E)

  /** A request that produced no value: it either went through or was answered with an error. */
  datatype Outcome<E> = Pass | Fail(error: E)
}
