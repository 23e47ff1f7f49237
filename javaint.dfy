/** Java's 32-bit `int` and the two operations on it that the copy loop
    uses: the increment `++`, which wraps from the largest value to the
    smallest, and the remainder `%`, which truncates toward zero. */
module JavaInt {

  const INT_MIN: int := -0x8000_0000
  const INT_MAX: int := 0x7fff_ffff

  newtype int32 = x: int | -0x8000_0000 <= x < 0x8000_0000

  /** `++i` on an `int`. */
  function Inc(i: int32): (r: int32)
    ensures i as int < INT_MAX ==> r as int == i as int + 1
    ensures i as int == INT_MAX ==> r as int == INT_MIN
  {
    if i == 0x7fff_ffff then -0x8000_0000 else i + 1
  }

  /** `a % b` on Java integers: on a non-negative dividend it is the usual
      remainder; on a negative one it is the negated remainder of `-a`, so it
      has the sign of `a` and is smaller than `b` in magnitude. */
  function Rem(a: int, b: int): (r: int)
    requires b > 0
    ensures a >= 0 ==> r == a % b
    ensures a < 0 ==> -r == (-a) % b
    ensures -b < r < b
  {
    if a >= 0 then a % b else -((-a) % b)
  }
}
