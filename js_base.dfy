/** The few pieces of JavaScript semantics the editor's entity code relies on:
    optional values, truthiness of optional strings, `String.prototype.includes`
    and the truncating remainder operator `%`. */
module JsBase {

  datatype Option<T> = None | Some(value: T)

  /** JavaScript truthiness of a value that is either `undefined` or a string:
      `undefined` and the empty string are falsy. */
  predicate Truthy(s: Option<string>) {
    s.Some? && s.value != ""
  }

  /** `s.includes(sub)`: `sub` occurs as a contiguous piece of `s`. */
  predicate Includes(s: string, sub: string)
    decreases |s|
  {
    sub <= s || (|s| > 0 && Includes(s[1..], sub))
  }

  /** JavaScript's `a % b` for a positive divisor: the remainder has the sign of
      the dividend (it truncates toward zero), unlike Dafny's Euclidean `%`. */
  function JsRem(a: int, b: int): (r: int)
    requires b > 0
    ensures a >= 0 ==> r == a % b
    ensures a < 0 ==> -b < r <= 0
  {
    if a >= 0 then a % b else -((-a) % b)
  }
}
