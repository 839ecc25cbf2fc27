/** Machine words, and the number of frequency bands every part of the pipeline shares
    (src/dsp/mod.rs). */
module Words {
  const WORD32: nat := 0x1_0000_0000
  const WORD64: nat := 0x1_0000_0000_0000_0000

  type Byte = b: nat | b < 256
  type U32 = w: nat | w < WORD32
  type U64 = w: nat | w < WORD64

  const BAND_COUNT: nat := 32
}
