/** The machine integers and the option type the models share. */
module Machine {

  const TWO_TO_THE_32 := 0x1_0000_0000
  const TWO_TO_THE_64 := 0x1_0000_0000_0000_0000

  type byte = n: int | 0 <= n < 0x100

  type i16 = n: int | -0x8000 <= n < 0x8000

  type u32 = n: int | 0 <= n < TWO_TO_THE_32

  type u64 = n: int | 0 <= n < TWO_TO_THE_64

  /** A big-endian 16-bit word. */
  function Word(high: int, low: int): int { high * 0x100 + low }

  datatype Option<+T> = None | Some(value: T)
}
