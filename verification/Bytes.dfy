/** Bytes, which all arenas are made of. */
module Bytes {
  newtype Byte = b: int | 0 <= b < 256

  const BLANK: Byte := 32

  /** A name, as it lies in the arena. */
  type Name = seq<Byte>

  predicate IsUpper(c: Byte) {
    65 <= c <= 90
  }

  /** `tolower`. */
  function Lower(c: Byte): Byte {
    if IsUpper(c) then c + 32 else c
  }
}
