/** Machine integers and pin levels of the AVR target, written out explicitly
    because Dafny's integers are unbounded. */
module Bytes {

  /** The Arduino `byte`: an unsigned 8-bit value. */
  type byte = x: int | 0 <= x < 256

  /** The AVR `unsigned long`, as returned by `millis()`: an unsigned 32-bit value. */
  type u32 = x: int | 0 <= x < 0x1_0000_0000

  const BYTE_RANGE: int := 256
  const U32_RANGE: int := 0x1_0000_0000

  /** A digital pin level. */
  datatype Level = Low | High

  function Toggle(l: Level): Level {
    if l == Low then High else Low
  }

  /** `v += 1` on a byte: 255 wraps around to 0. */
  function Inc8(v: byte): (r: byte)
    ensures v < 255 ==> r == v + 1
    ensures v == 255 ==> r == 0
  {
    (v + 1) % BYTE_RANGE
  }

  /** `v -= 1` on a byte: 0 wraps around to 255. */
  function Dec8(v: byte): (r: byte)
    ensures v > 0 ==> r == v - 1
    ensures v == 0 ==> r == 255
  {
    (v - 1) % BYTE_RANGE
  }

  /** `v = !v` on a byte: C's logical negation, stored back as 0 or 1. */
  function LogicalNot(v: byte): (r: byte)
    ensures r <= 1
    ensures r == 1 <==> v == 0
  {
    if v == 0 then 1 else 0
  }

  /** `now - since` on two `unsigned long` values: the time elapsed since
      `since`, correct across one wrap-around of the 32-bit millisecond counter. */
  function Elapsed(since: u32, now: u32): (d: u32)
    ensures since <= now ==> d == now - since
    ensures now < since ==> d == now + U32_RANGE - since
  {
    (now - since) % U32_RANGE
  }
}
