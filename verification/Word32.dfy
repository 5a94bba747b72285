/** 32-bit words: unsigned wrap-around and the signed reading of a word. */
module Word32 {
  const W := 0x1_0000_0000

  type u32 = x: int | 0 <= x < 0x1_0000_0000

  function U32(x: int): u32 { x % W }

  function S32(x: int): int {
    if x % W < 0x8000_0000 then x % W else x % W - W
  }
}
