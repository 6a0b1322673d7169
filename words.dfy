/** Machine words, nibbles and bytes, and the two JavaScript number
    conversions the simulator relies on: the bitwise complement `~x` and the
    truncating store into a `Uint16Array`. */
module Words {

  /** A 16-bit machine word: the value of every register and memory cell. */
  type Word = x: int | 0 <= x < 0x1_0000

  /** A 4-bit field of an instruction word. */
  type Nibble = x: int | 0 <= x < 16

  /** An 8-bit immediate operand. */
  type Byte = x: int | 0 <= x < 256

  /** The result of an operation that can fail. */
  datatype Result<+T, +E> = Success(value: T) | Failure(error: E)

  /** The outcome of an operation that returns nothing but can fail. */
  datatype Outcome<+E> = Pass | Fail(error: E)

  /** JavaScript's `~x` on a word (bitwise complement of its 32-bit
      two's-complement form): a negative number, which a `Uint16Array` store
      turns into the 16-bit complement 0xFFFF - x. */
  function JsNot(x: Word): (r: int)
    ensures -0x1_0000 <= r < 0
    ensures ToUint16(r) == 0xFFFF - x
  {
    -(x as int) - 1
  }

  /** Storing a number into a `Uint16Array` element: reduction modulo 2^16
      (for the integers the simulator produces). */
  function ToUint16(x: int): (w: Word)
    ensures (x - w) % 0x1_0000 == 0
  {
    x % 0x1_0000
  }

  /** `a & b` on two words. */
  function BitAnd(a: Word, b: Word): Word {
    ((a as bv16) & (b as bv16)) as int
  }

  /** `a | b` on two words. */
  function BitOr(a: Word, b: Word): Word {
    ((a as bv16) | (b as bv16)) as int
  }

  /** `a ^ b` on two words. */
  function BitXor(a: Word, b: Word): Word {
    ((a as bv16) ^ (b as bv16)) as int
  }

  /** Quotient and remainder by a power of two up to 2^16 are the unique
      pair with 0 <= r < d. */
  lemma DivMod(x: int, d: int, q: int, r: int)
    requires d == 1 || d == 2 || d == 4 || d == 8 || d == 0x10 || d == 0x20 || d == 0x40 ||
      d == 0x80 || d == 0x100 || d == 0x200 || d == 0x400 || d == 0x800 || d == 0x1000 ||
      d == 0x2000 || d == 0x4000 || d == 0x8000 || d == 0x10000
    requires x == q * d + r && 0 <= r < d
    ensures x / d == q && x % d == r
  {
    if d == 1 {
    } else if d == 2 {
    } else if d == 4 {
    } else if d == 8 {
    } else if d == 0x10 {
    } else if d == 0x20 {
    } else if d == 0x40 {
    } else if d == 0x80 {
    } else if d == 0x100 {
    } else if d == 0x200 {
    } else if d == 0x400 {
    } else if d == 0x800 {
    } else if d == 0x1000 {
    } else if d == 0x2000 {
    } else if d == 0x4000 {
    } else if d == 0x8000 {
    } else {
    }
  }
}
