/** The widths of the machine's unsigned words, as the number of values each can hold. */
module Widths {
  const UINT16: nat := 0x1_0000
  const UINT32: nat := 0x1_0000_0000
  const UINT64: nat := 0x1_0000_0000_0000_0000
}
