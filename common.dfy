/** Basic types shared by the model: C++ unsigned/signed 32-bit integers and Option. */
module Common {

  const UINT_MAX: int := 0xFFFF_FFFF
  const INT_MIN: int := -0x8000_0000
  const INT_MAX: int := 0x7FFF_FFFF

  /** `unsigned int` of the source (32 bits). */
  type Uint32 = x: int | 0 <= x <= UINT_MAX

  /** `int` of the source (32 bits). */
  type Int32 = x: int | INT_MIN <= x <= INT_MAX

  /** Addition and subtraction on `unsigned int`, wrapping modulo 2^32 as C++ does. */
  function AddU32(a: Uint32, b: Uint32): (r: Uint32)
    ensures a + b <= UINT_MAX ==> r == a + b
    ensures a + b > UINT_MAX ==> r == a + b - (UINT_MAX + 1)
  {
    (a + b) % (UINT_MAX + 1)
  }

  function SubU32(a: Uint32, b: Uint32): (r: Uint32)
    ensures b <= a ==> r == a - b
    ensures a < b ==> r == a - b + (UINT_MAX + 1)
  {
    (a - b) % (UINT_MAX + 1)
  }

  /**
   * The conversion of an `unsigned int` argument to an `int` parameter: the
   * `int` congruent to it modulo 2^32 (two's complement), which Int32Unique
   * shows is the only such value.
   */
  function ToInt32(x: Uint32): (r: Int32)
    ensures (r - x) % (UINT_MAX + 1) == 0
  {
    if x <= INT_MAX then x else x - (UINT_MAX + 1)
  }

  /** Two `int`s congruent modulo 2^32 are equal, so ToInt32's contract fixes its result. */
  lemma Int32Unique(a: Int32, b: Int32)
    requires (a - b) % (UINT_MAX + 1) == 0
    ensures a == b
  {
  }

  /** A SmartObject snapshot; its structure is not part of this model. */
  type Payload = seq<char>

  datatype Option<+T> = None | Some(value: T)
}
