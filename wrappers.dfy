/** Optional values and results, used for JavaScript's `undefined`/`null` and for thrown errors. */
module Wrappers {

  datatype Option<+T> = None | Some(value: T)

  datatype Result<+T, +E> = Ok(value: T) | Err(error: E)

  /** The truthiness of a string that may be `null` or `undefined`: present and not
      empty (`if (param)`). */
  predicate Given(v: Option<string>) {
    v.Some? && v.value != ""
  }
}
