/** Failure-carrying results for the snapshot lookups. */
module Wrappers {
  datatype Result<+T, +E> = Ok(value: T) | Err(error: E)
}
