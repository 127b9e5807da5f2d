/**
 * Small shared vocabulary: optional values, results, and the JavaScript
 * notion of a "truthy" optional string that the request handlers branch on.
 */
module Common {

  /** A value that may be absent (`null`/`undefined` in the original program). */
  datatype Option<+T> = None | Some(value: T)

  /** The outcome of an operation that may fail with an error value. */
  datatype Result<+T, +E> = Ok(value: T) | Err(error: E)

  /** JavaScript truthiness of an optional string: present and non-empty. */
  predicate Truthy(o: Option<string>) {
    o.Some? && o.value != ""
  }

  /** `a <= b ? a : b` on integers. */
  function Min(a: int, b: int): int {
    if a <= b then a else b
  }

  /** `a >= b ? a : b` on integers. */
  function Max(a: int, b: int): int {
    if a >= b then a else b
  }
}
