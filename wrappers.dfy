/** Optional values, results, and the JavaScript notion of a "truthy" request field. */
module Wrappers {

  /** A value that may be absent (JavaScript `null` / `undefined`). */
  datatype Option<+T> = None | Some(value: T)

  /** The outcome of a request handler: a payload or a typed error. */
  datatype Result<+T, +E> = Success(value: T) | Failure(error: E)

  /** `!field` in JavaScript is false exactly for an absent field or the empty string. */
  predicate Truthy(field: Option<string>)
    ensures Truthy(field) <==> field != None && field != Some("")
  {
    field.Some? && field.value != ""
  }
}
