// Small shared vocabulary of the collector's model.
module Common {
  datatype Option<+T> = None | Some(value: T)

  const MAX_WORD: int := 0xFFFF_FFFF_FFFF_FFFF

  type Word = x: int | 0 <= x <= MAX_WORD
  type Int64 = x: int | -0x8000_0000_0000_0000 <= x <= 0x7FFF_FFFF_FFFF_FFFF
}
