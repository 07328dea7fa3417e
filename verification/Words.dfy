/**
  Machine integers of the kernel's 32-bit platform, as mathematical integers
  with every wrap written out: `unsigned int` is `word`, a half word is `half`,
  `unsigned long long` is `dword` and `long long` is `sdword`.
  Follows common/gcc-millicode/longlong.h.
*/
module Words {

  const BASE: int := 0x1_0000
  const WORD: int := 0x1_0000_0000
  const DWORD: int := 0x1_0000_0000_0000_0000

  type half = x: int | 0 <= x < 0x1_0000
  type word = x: int | 0 <= x < 0x1_0000_0000
  type dword = x: int | 0 <= x < 0x1_0000_0000_0000_0000
  type sword = x: int | -0x8000_0000 <= x < 0x8000_0000
  type sdword = x: int | -0x8000_0000_0000_0000 <= x < 0x8000_0000_0000_0000

  /** An `unsigned int` operation keeps its result modulo 2^32. */
  function Wrap32(x: int): word { x % WORD }

  /** An `unsigned long long` operation keeps its result modulo 2^64. */
  function Wrap64(x: int): dword { x % DWORD }

  function Neg32(x: int): word { Wrap32(-x) }

  function Neg64(x: int): dword { Wrap64(-x) }

  function Mul32(x: int, y: int): word { Wrap32(x * y) }

  /** The two's complement reading of an `unsigned long long`. */
  function AsSigned64(x: dword): sdword { if x < 0x8000_0000_0000_0000 then x else x - DWORD }

  // The half-word macros HHALF, LHALF and LHUP, and the union's ui[H] and ui[L].

  function HighHalf(x: word): half { x / BASE }

  function LowHalf(x: word): half { x % BASE }

  function LowHalfUp(x: word): word { Wrap32(x * BASE) }

  function HighWord(x: dword): word { x / WORD }

  function LowWord(x: dword): word { x % WORD }

  function Join(high: word, low: word): dword { high * WORD + low }

  /** COMBINE: the shifted left operand has no bit in common with the right one, so `|` adds. */
  function Combine(a: half, b: half): word { a * BASE + b }
}
