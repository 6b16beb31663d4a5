/**
 * Machine-integer ranges, two small arithmetic helpers and the abstract
 * square root shared by every metric of the model.
 */
module Primitives {

  /** Element type of the Levenshtein distance (`Distance<u16>`). */
  type u16 = x: int | 0 <= x < 0x1_0000

  /** Result count requested from `query` (`n: u32`). */
  type u32 = x: int | 0 <= x < 0x1_0000_0000

  function Min(x: int, y: int): (m: int)
  {
    if x <= y then x else y
  }

  function Abs(x: int): (a: nat)
  {
    if x < 0 then -x else x
  }

  /**
   * The floating-point square root, kept abstract. The model only relies on
   * it sending 0 to 0 and every positive value to a positive value.
   */
  type Root = f: real -> real | f(0.0) == 0.0 && forall x: real :: x > 0.0 ==> f(x) > 0.0
    witness (x: real) => x
}
