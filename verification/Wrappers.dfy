/** The one wrapper type shared by the modules of this project. */
module Wrappers {
  datatype Option<+T> = None | Some(value: T)
}

/** Bytes and 32-bit words. */
module Words {
  const M32 := 0x1_0000_0000

  type Byte = b: int | 0 <= b < 256
  type Word = w: int | 0 <= w < M32

  /** The value of `x` in a signed 32-bit word. */
  function Wrap32(x: int): int {
    (x + 0x8000_0000) % M32 - 0x8000_0000
  }

  /** The value of a byte taken as signed, and the word it extends to. */
  function SignedByte(b: Byte): int { if b < 128 then b else b - 256 }

  function Extended(b: Byte): Word { if b < 128 then b else M32 - 256 + b }

  /** The word that four bytes stand for, low byte first. */
  function Unle(b: seq<Byte>): Word
    requires |b| == 4
  {
    (b[0] as int) + 256 * (b[1] as int) + 65536 * (b[2] as int) + 16777216 * (b[3] as int)
  }

  /** Bit by bit. */
  function OfBits(b: bv32): Word { b as int }

  function ToBits(x: Word): bv32 { x as bv32 }

  function And(x: Word, y: Word): Word { OfBits(ToBits(x) & ToBits(y)) }

  function Or(x: Word, y: Word): Word { OfBits(ToBits(x) | ToBits(y)) }

  function Xor(x: Word, y: Word): Word { OfBits(ToBits(x) ^ ToBits(y)) }
}
