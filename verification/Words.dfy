/** The machine's word sizes, and what a result keeps of itself in them. */
module Words {
  type byte = x: nat | x < 0x100
  type word = x: nat | x < 0x1_0000
  type dword = x: nat | x < 0x1_0000_0000

  function U32(x: int): nat { x % 0x1_0000_0000 }

  function U64(x: int): nat { x % 0x1_0000_0000_0000_0000 }
}
