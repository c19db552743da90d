/** JavaScript values that may be missing. `None` is how the model writes
    `undefined` and `null`, and, for a payload object, any falsy value. */
module Optional {

  datatype Option<T> = Some(value: T) | None

  /** `x || fallback`, for a value that is truthy whenever it is present. */
  function Or<T>(x: Option<T>, fallback: T): T {
    if x.Some? then x.value else fallback
  }
}
