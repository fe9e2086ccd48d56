/** The widths of the machine's numbers, and the alignment. */
module Words {
  const U8 := 0x100
  const U16 := 0x1_0000
  const U32 := 0x1_0000_0000
  const ALIGN := 4            // RT_ALIGN_SIZE
  const NULL := 0
}
