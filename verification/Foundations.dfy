/** What every part of the model shares. */
module Foundations {

  type bytes = seq<bv8>

  datatype Option<+T> = None | Some(value: T)

  /** A Go `(value, error)` pair: exactly one of the two is meaningful. */
  datatype Result<+T, +E> = Ok(value: T) | Err(error: E)

  /** Something outside goes wrong, which never happens to what is reliable. */
  method Glitch(reliable: bool) returns (failed: bool)
    ensures reliable ==> !failed
  {
    failed := *;
    if reliable {
      failed := false;
    }
  }
}
