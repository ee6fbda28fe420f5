/**
 * Values shared by the three services: optional values, the errors the
 * services raise (or that the store raises on their behalf), and the
 * JavaScript truthiness tests that guard most of their branches.
 */
module Common {

  datatype Option<T> = None | Some(value: T)

  /** The failures a service call can end in. */
  datatype Error =
    | NotFound   // a NotFoundException, or the store's "record to update or delete does not exist"
    | Conflict   // the store's unique constraint on a slug column was violated
    | Malformed  // the store rejected an id that is not an integer (NaN)
    | Fault      // a TypeError: a field was read from a relation that is null

  datatype Result<T> = Ok(value: T) | Err(error: Error)

  /** A JavaScript number, restricted to the integers; `None` stands for NaN. */
  type JsNumber = Option<int>

  /** `if (s)` on an optional query parameter: present and not the empty string. */
  predicate Present(s: Option<string>) {
    s.Some? && |s.value| > 0
  }

  /** `if (n)` on a number: neither 0 nor NaN. */
  predicate Truthy(n: JsNumber) {
    n.Some? && n.value != 0
  }
}
