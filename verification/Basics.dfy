/** Machine words, powers of two, optional values and the names of threads. */
module Basics {

  const UINT16 := 0x1_0000
  const UINT32 := 0x1_0000_0000

  datatype Option<+T> = None | Some(value: T)

  /** A thread, named by its pid. */
  type Tid = nat

  /** Two's complement truncation to 32 bits. */
  function Int32(x: int): int {
    (x + 0x8000_0000) % UINT32 - 0x8000_0000
  }

  predicate IsInt32(x: int) {
    -0x8000_0000 <= x < 0x8000_0000
  }

  function Pow2(n: nat): nat {
    if n == 0 then 1 else 2 * Pow2(n - 1)
  }
}
