/** Small failure-carrying datatypes shared by the model. */
module Wrappers {

  /** A value that may be absent: Python's `None` for an optional field. */
  datatype Option<+T> = None | Some(value: T)

  /**
   * The outcome of a Django `clean`-style validator: it either returns
   * normally, or raises a `ValidationError` carrying `errors` (a single
   * error, a dictionary of field errors or a list of errors).
   */
  datatype Validation<+E> = Passed | Raised(errors: E)
}
