/** Small option and outcome datatypes shared by the ledger modules. */
module Wrappers {

  /** A value that may be absent, like a lookup that finds nothing. */
  datatype Option<+T> = None | Some(value: T)

  /** The outcome of an operation that returns nothing on success and
      raises a typed error on failure. */
  datatype Outcome<+E> = Pass | Fail(error: E)
}
