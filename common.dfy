/** Small shared vocabulary: optional values, results and truthiness. */
module Common {

  /** A value that may be absent (Python None, JavaScript null/undefined). */
  datatype Option<+T> = None | Some(value: T)

  /** The outcome of an operation that can fail with an error the caller sees. */
  datatype Result<+T, +E> = Ok(value: T) | Err(error: E)

  /** Python and JavaScript truthiness of an optional string: present and non-empty. */
  predicate Truthy(s: Option<string>)
  {
    s.Some? && s.value != ""
  }
}
