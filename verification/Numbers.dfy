/** Machine and JavaScript number conversions used along the request path.
    Moduli are written as literals (0x1_0000_0000 is 2^32, 0x1_0000_0000_0000_0000
    is 2^64) so that divisions by them stay linear. */
module Numbers {

  type Byte = x: int | 0 <= x < 256
  type CodeUnit = x: int | 0 <= x < 65536
  type U32 = x: int | 0 <= x < 0x1_0000_0000
  type I32 = x: int | -0x8000_0000 <= x < 0x8000_0000
  type U64 = x: int | 0 <= x < 0x1_0000_0000_0000_0000
  type I64 = x: int | -0x8000_0000_0000_0000 <= x < 0x8000_0000_0000_0000

  /** 2^53: every integer of smaller size is an exact double. */
  const TWO_53: int := 0x20_0000_0000_0000

  /** A JavaScript string: UTF-16 code units. */
  type Text = seq<CodeUnit>

  /** ToInt32 of ECMA-262 edition 5.1, section 9.5; also the C++ narrowing of a
      wider integer to `int`. */
  function ToInt32(x: int): I32 {
    var u := x % 0x1_0000_0000;
    if u >= 0x8000_0000 then u - 0x1_0000_0000 else u
  }

  /** C++ narrowing to a 32-bit unsigned integer. */
  function ToUint32(x: int): U32 { x % 0x1_0000_0000 }

  /** Storing an integer in a `void *` slot: a signed value is sign-extended. */
  function ToWord(x: int): U64 { x % 0x1_0000_0000_0000_0000 }

  /** The cast `(long)` of a slot. */
  function ToLong(w: U64): I64 {
    if w >= 0x8000_0000_0000_0000 then w - 0x1_0000_0000_0000_0000 else w
  }

  /** Left shift by five, section 11.7.1: on 32 bits. */
  function ShiftLeft5(h: I32): I32 { ToInt32(h * 32) }

  /** Bitwise AND of a number with itself, section 11.10: only ToInt32 remains. */
  function AndSelf(x: int): I32 { ToInt32(x) }

  function Abs(x: int): (r: nat)
    ensures r == x || r == -x
  {
    if x < 0 then -x else x
  }

  /** ToInt32 moves its argument by a multiple of 2^32 ... */
  lemma Wraps(x: int) returns (k: int)
    ensures x == ToInt32(x) + k * 0x1_0000_0000
  {
    k := (x - ToInt32(x)) / 0x1_0000_0000;
  }

  /** ... into the signed 32-bit range, which holds only one such value. */
  lemma WrapsTo(x: int, r: I32, k: int)
    requires x == r + k * 0x1_0000_0000
    ensures ToInt32(x) == r
  {
  }
}
