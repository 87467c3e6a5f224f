/** The C library's constants and integer conversions the tools depend on, with glibc's values on a 64-bit target. */
module Platform {

  /** unsigned char */
  type byte = b: int | 0 <= b < 256

  /** stdlib.h */
  const EXIT_SUCCESS: int := 0
  const EXIT_FAILURE: int := 1

  /** stdio.h: the size of a buffer that can hold any file name, its terminating NUL included. */
  const FILENAME_MAX: nat := 4096

  /** limits.h: int is 32 bits wide, long 64. */
  const INT_MIN: int := -0x8000_0000
  const INT_MAX: int := 0x7fff_ffff
  const LONG_MIN: int := -0x8000_0000_0000_0000
  const LONG_MAX: int := 0x7fff_ffff_ffff_ffff

  predicate IsInt(x: int) {
    INT_MIN <= x <= INT_MAX
  }

  /** strtol's result for a value it has read: out-of-range values saturate at LONG_MIN or LONG_MAX. */
  function SaturateLong(x: int): (r: int)
    ensures LONG_MIN <= r <= LONG_MAX
    ensures LONG_MIN <= x <= LONG_MAX ==> r == x
  {
    if x < LONG_MIN then LONG_MIN else if x > LONG_MAX then LONG_MAX else x
  }

  /**
   * Assigning a long to an int: the value modulo 2^32, in int's range (what
   * gcc does with this implementation-defined conversion).
   */
  function IntOfLong(x: int): (r: int)
    ensures IsInt(r)
    ensures (r - x) % 0x1_0000_0000 == 0
    ensures IsInt(x) ==> r == x
  {
    var m := x % 0x1_0000_0000;
    if m > INT_MAX then m - 0x1_0000_0000 else m
  }
}
