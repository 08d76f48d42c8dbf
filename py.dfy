/** The fragment of Python's value semantics that the salary code relies on:
    `None`, truthiness of numbers, exceptions, and `int()` on a float. */
module Py {

  /** A JSON number that may be `null` (Python `None`). */
  datatype Option<+T> = None | Some(value: T)

  /** The exceptions the modelled code can raise on its own (HTTP errors are not modelled). */
  datatype Exception =
    | TypeError          // arithmetic on `None`: `0.8 * None`, `total += None`
    | ZeroDivisionError  // `summary_salary / count` with `count == 0`

  /** A Python call either returns a value or raises. */
  datatype Result<+T> = Ok(value: T) | Raise(exc: Exception)

  /** Python truthiness of a number-or-None: `None` and `0` are false, every other number is true. */
  predicate Truthy(x: Option<real>) {
    x.Some? && x.value != 0.0
  }

  /** A bound that is absent or not negative. */
  predicate NonNegative(x: Option<real>) {
    x.Some? ==> 0.0 <= x.value
  }

  /** Python's `int(x)` on a float: the integer part, rounding toward zero for either sign. */
  function Trunc(x: real): (n: int)
    ensures 0.0 <= x ==> 0 <= n && n as real <= x < n as real + 1.0
    ensures x < 0.0 ==> n <= 0 && n as real - 1.0 < x <= n as real
  {
    if 0.0 <= x then x.Floor else -((-x).Floor)
  }
}
