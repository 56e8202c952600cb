/** Identifiers, and results for the source's optional values and exceptions. */
module Wrappers {
  /** An identifier of any kind: compared, sorted and prefixed, never taken apart. */
  datatype Id = Id(text: string)

  datatype Option<+T> = None | Some(value: T)
  datatype Result<+R, +E> = Success(value: R) | Failure(error: E)
}
