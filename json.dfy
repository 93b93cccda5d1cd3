/** Shapes of the JSON values the pipeline reads: an optional value, as Python's
    `dict.get` returns it, and a key of a JSON object, which may be absent,
    present with `null`, or present with a value. */
module Json {

  /** A value that may be `None`. */
  datatype Option<+T> = None | Some(value: T)

  /** The outcome of an operation that may raise. */
  datatype Result<+T, +E> = Ok(value: T) | Err(error: E)

  /** One key of a JSON object. `dict.get(key, default)` gives the default
      only for `Missing`; an explicit `null` comes back as `None`. */
  datatype Field<+T> = Missing | Null | Present(value: T)

  /** Python truthiness of an optional string: `None` and `""` are falsy. */
  predicate Truthy(s: Option<string>)
  {
    s.Some? && s.value != ""
  }
}
