/** Optional values and JavaScript truthiness of the values the panel handles. */
module Base {

  /** A value that may be `undefined`/`null` in the source. */
  datatype Option<+T> = None | Some(value: T) {
    function GetOr(default: T): T {
      match this
      case Some(v) => v
      case None => default
    }
  }

  /** The outcome of an operation that can fail with an error value. */
  datatype Result<+T, +E> = Ok(value: T) | Err(error: E)

  /** A string field is truthy in JavaScript when it is present and not empty. */
  predicate Truthy(s: Option<string>) {
    s.Some? && s.value != ""
  }

  /** `a || b` over optional strings: the first operand when truthy, else the second. */
  function Or(a: Option<string>, b: Option<string>): Option<string>
  {
    if Truthy(a) then a else b
  }

  /** `s || ''`: the string when truthy, else the empty string. */
  function OrEmpty(s: Option<string>): string
  {
    if Truthy(s) then s.value else ""
  }

  /** `s || d` for a string default. */
  function OrDefault(s: Option<string>, d: string): string
  {
    if Truthy(s) then s.value else d
  }
}
