/** Option and Result, the two failure-carrying shapes the rest of the model uses. */
module Wrappers {

  /** A value that may be missing: `None` stands for JavaScript's `undefined`
      (an absent request field), for `NaN` (a failed numeric parse) or for an
      invalid `Date`, depending on where it is used. */
  datatype Option<+T> = None | Some(value: T)

  /** The outcome of a schema parse: the typed value, or the list of issues. */
  datatype Result<+R, +E> = Ok(value: R) | Err(error: E)
}
