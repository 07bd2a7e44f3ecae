/** Shared value types: optional values, handler results and JSON scalars of request bodies. */
module Common {

  datatype Option<+T> = None | Some(value: T)

  /** The outcome of a route handler: a response body, or one of its early error exits. */
  datatype Result<+T, +E> = Ok(value: T) | Err(error: E)

  /** A scalar from a JSON request body. */
  datatype Json = JBool(b: bool) | JNum(n: real) | JStr(s: string)

  /** JavaScript truthiness of a string that may be absent (undefined and "" are falsy). */
  predicate Truthy(s: Option<string>) {
    s.Some? && s.value != ""
  }
}
