/** Values as the TypeScript sources see them: optional fields of a JSON body,
    nullable React state, and JavaScript's notion of a "truthy" string. */
module JsValues {

  /** A field that may be absent: `null`/`undefined` is None. */
  datatype Option<+T> = None | Some(value: T)

  /** A success value or an error, for early returns of a request handler. */
  datatype Result<+R, +E> = Success(value: R) | Failure(error: E)

  /** JavaScript truthiness of a `string | null | undefined`:
      absent values and the empty string are falsy, every other string is truthy. */
  predicate Truthy(s: Option<string>) {
    s.Some? && s.value != ""
  }

  /** `a || b` on optional strings: the first operand when it is truthy, else the second. */
  function OrElse(a: Option<string>, b: string): (r: string)
    ensures Truthy(a) ==> r == a.value
    ensures !Truthy(a) ==> r == b
  {
    if a.Some? && a.value != "" then a.value else b
  }
}
