/** The fixed-width integer types of the Rust source, as subset types of int,
    and the wrap-around and truncating conversions the source relies on. */
module Ints {

  const U32_LIMIT: int := 0x1_0000_0000

  type u8 = x: int | 0 <= x < 0x100
  type u16 = x: int | 0 <= x < 0x1_0000
  type u32 = x: int | 0 <= x < 0x1_0000_0000
  type i8 = x: int | -0x80 <= x < 0x80
  type i32 = x: int | -0x8000_0000 <= x < 0x8000_0000
  type isize = x: int | -0x8000_0000_0000_0000 <= x < 0x8000_0000_0000_0000

  /** Truncating cast of a length or index to u32 (`as u32`). */
  function AsU32(n: nat): (r: u32)
    ensures (r - n) % U32_LIMIT == 0
    ensures n < U32_LIMIT ==> r == n
  {
    n % U32_LIMIT
  }

  /** Two's-complement wrap of an exact result into i32 (Rust's `wrapping_add`). */
  function WrapI32(x: int): (r: i32)
    ensures (r - x) % U32_LIMIT == 0
    ensures -0x8000_0000 <= x < 0x8000_0000 ==> r == x
  {
    (x + 0x8000_0000) % U32_LIMIT - 0x8000_0000
  }

  /** Truncating cast of an i32 to u8 (`as u8`): keeps the low 8 bits. */
  function TruncU8(x: i32): (r: u8)
    ensures (r - x) % 0x100 == 0
  {
    x % 0x100
  }

  /** Truncating cast of an i32 to u16 (`as u16`): keeps the low 16 bits. */
  function TruncU16(x: i32): (r: u16)
    ensures (r - x) % 0x1_0000 == 0
  {
    x % 0x1_0000
  }

  /** Adding a multiple of 2^32 does not change the wrapped value. */
  lemma WrapI32Shift(x: int, k: int)
    ensures WrapI32(x + k * U32_LIMIT) == WrapI32(x)
  {
  }

  /** Wrapping first and then truncating to 8 or 16 bits is the same as
      reducing the exact sum: 2^32 is a multiple of both moduli. */
  lemma WrapThenTruncate(x: int)
    ensures TruncU8(WrapI32(x)) == x % 0x100
    ensures TruncU16(WrapI32(x)) == x % 0x1_0000
  {
    var w := WrapI32(x);
    var k := (w - x) / U32_LIMIT;
    assert w == x + k * U32_LIMIT;
    ShiftMod256(x, k * 0x100_0000);
    ShiftMod65536(x, k * 0x1_0000);
  }

  lemma ShiftMod256(x: int, k: int)
    ensures (x + k * 0x100) % 0x100 == x % 0x100
  {
  }

  lemma ShiftMod65536(x: int, k: int)
    ensures (x + k * 0x1_0000) % 0x1_0000 == x % 0x1_0000
  {
  }

  /** Wrapping addition is associative: fusing `a` and `b` first and then
      adding to `s` wraps to the same i32 as adding them one at a time. */
  lemma {:induction false} WrapAddAssoc(s: int, a: int, b: int)
    ensures WrapI32(WrapI32(s + a) + b) == WrapI32(s + WrapI32(a + b))
  {
    var w1 := WrapI32(s + a);
    var k1 := (w1 - (s + a)) / U32_LIMIT;
    assert w1 == s + a + k1 * U32_LIMIT;
    WrapI32Shift(s + a + b, k1);
    var w2 := WrapI32(a + b);
    var k2 := (w2 - (a + b)) / U32_LIMIT;
    assert w2 == a + b + k2 * U32_LIMIT;
    WrapI32Shift(s + a + b, k2);
  }
}
