/** Fixed-width machine words, with the wrap-around of their operators written out. */
module Words {
  const USIZE: int := 0x1_0000_0000_0000_0000
  const U32: int := 0x1_0000_0000

  type usize = x: int | 0 <= x < USIZE
  type u32 = x: int | 0 <= x < U32
  type u16 = x: int | 0 <= x < 0x1_0000

  function WrapAdd(a: usize, b: usize): usize {
    if a + b < USIZE then a + b else a + b - USIZE
  }

  function WrapSub(a: usize, b: usize): usize {
    if b <= a then a - b else a - b + USIZE
  }

}
