// Machine widths of the simulator: `byte` is the C++ `unsigned char` and
// `word` the C++ `unsigned short` (include/component.h). Both are bit-vectors,
// so masking, shifting and 16-bit wrap-around behave exactly as in the source.
module Bits {

  type byte = bv8
  type word = bv16

  /** Low byte of a word (`value & 0x00FF`). */
  function Lo(w: word): byte {
    (w & 0xFF) as byte
  }

  /** High byte of a word (`(value & 0xFF00) >> 8`). */
  function Hi(w: word): byte {
    ((w & 0xFF00) >> 8) as byte
  }

  /** The word `hi << 8 | lo`; the inverse of (Hi, Lo). */
  function Join(hi: byte, lo: byte): (w: word)
    ensures Hi(w) == hi && Lo(w) == lo
  {
    ((hi as word) << 8) | (lo as word)
  }

  lemma SplitJoin(w: word)
    ensures Join(Hi(w), Lo(w)) == w
  {
  }

  /** Masking off the low byte and or-ing in `lo` replaces the low half. */
  lemma ReplaceLow(w: word, lo: byte)
    ensures (w & 0xFF00) | (lo as word) == Join(Hi(w), lo)
  {
  }

  /** Masking off the high byte and or-ing in `hi << 8` replaces the high half. */
  lemma ReplaceHigh(w: word, hi: byte)
    ensures (w & 0x00FF) | ((hi as word) << 8) == Join(hi, Lo(w))
  {
  }

  /** The byte read as a two's-complement number. */
  function Signed(b: byte): int {
    if b < 0x80 then b as int else b as int - 256
  }

  /** Bit 7 of a byte. */
  predicate Sign(b: byte) {
    b & 0x80 != 0
  }
}

// The error codes every phase hook and reset returns (include/component.h).
module Errors {

  datatype SystemError =
    | NoError
    | InvalidComponentID
    | ProtectedMemory
    | InvalidInstruction
    | InvalidMicroCode
    | NoMicroCode
    | GeneralError
}

// Component identifiers on the bus (include/registers.h).
module Ids {
  import opened Bits

  const GP_A: byte := 0
  const GP_B: byte := 1
  const GP_C: byte := 2
  const GP_D: byte := 3
  const LHS: byte := 4
  const RHS: byte := 5
  const IR: byte := 6
  const MEM: byte := 7
  const PC: byte := 8
  const SP: byte := 9
  const Si: byte := 10
  const Di: byte := 11
  const TX: byte := 12
  const CONTROLLER: byte := 13
  const DEREFCONTROLLER: byte := 14
  const MEMADDR: byte := 15
}

// Optional values and results with an error, for lookups that can miss and
// operations that can fail.
module Wrappers {

  datatype Option<T> = None | Some(value: T)

  datatype Result<T, E> = Success(value: T) | Failure(error: E)
}
