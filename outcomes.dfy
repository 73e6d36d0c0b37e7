/** Optional values and the outcome of an operation that may raise. */
module Outcomes {

  datatype Option<+T> = None | Some(value: T)

  /** The result of Python code that either returns a value or raises an exception
      (the message names the exception the source raises or runs into). */
  datatype Outcome<+T> = Ok(value: T) | Raised(msg: string)

  /** Python truthiness of an optional string: None and "" are false. */
  predicate Truthy(o: Option<string>) {
    o.Some? && o.value != ""
  }
}
