/** The arithmetic/logic unit: the sign tests on words, the adder with its
    carry and overflow flags, and the shifter with its carry-out bit.

    The adder works on JavaScript numbers, not on words: `sub` and `sbi` pass
    it the 32-bit complement `~b`, which is the negative number -b - 1, so
    their sum is the plain difference a - b. */
module Alu {
  import opened Words
  import opened Decode

  /** A word whose sign bit is set. No negative number (such as `~b`) is
      negative in this sense. */
  function IsNegative(word: int): (r: bool)
    ensures 0 <= word < 0x1_0000 ==> (r <==> word / 0x8000 == 1)
    ensures word < 0 ==> !r
  {
    word >= 0x8000
  }

  /** A word whose sign bit is clear: on every number, exactly the
      complement of `IsNegative`, so every negative number passes. */
  function IsPositiveOrZero(word: int): (r: bool)
    ensures r <==> !IsNegative(word)
    ensures 0 <= word < 0x1_0000 ==> (r <==> word / 0x8000 == 0)
  {
    word < 0x8000
  }

  /** The two's-complement value of a word. */
  function Signed(w: Word): (v: int)
    ensures -0x8000 <= v < 0x8000
    ensures (v - w) % 0x1_0000 == 0
    ensures v < 0 <==> IsNegative(w)
  {
    if IsPositiveOrZero(w) then w else w - 0x1_0000
  }

  /** What the adder writes: the 16-bit sum and the two flags. */
  datatype Sum = Sum(value: Word, carry: bool, overflow: bool)

  /** The adder: a + b + c over the integers, truncated to 16 bits; carry
      when the sum reaches 2^16; overflow when two operands of the same sign
      give a result of the other sign. */
  function BasicAdd(a: int, b: int, c: int): (r: Sum)
    ensures (a + b + c - r.value) % 0x1_0000 == 0
  {
    var sum := a + b + c;
    var sum16Bit := sum % 0x1_0000;
    Sum(sum16Bit, sum >= 0x1_0000,
        (IsNegative(a) && IsNegative(b) && IsPositiveOrZero(sum16Bit)) ||
        (IsPositiveOrZero(a) && IsPositiveOrZero(b) && IsNegative(sum16Bit)))
  }

  /** For `add`: the stored word and the carry together are the exact
      unsigned sum. */
  lemma AddIsExact(a: Word, b: Word, c: int)
    requires 0 <= c <= 1
    ensures var r := BasicAdd(a, b, c);
      r.value + (if r.carry then 0x1_0000 else 0) == a + b + c
  {
  }

  /** For `add`: overflow is exactly signed overflow, and without it the
      stored word is the signed sum. */
  lemma AddOverflowIsSignedOverflow(a: Word, b: Word, c: int)
    requires 0 <= c <= 1
    ensures var r := BasicAdd(a, b, c);
      && (r.overflow <==> !(-0x8000 <= Signed(a) + Signed(b) + c < 0x8000))
      && (!r.overflow ==> Signed(r.value) == Signed(a) + Signed(b) + c)
  {
  }

  /** For `sub` (and `sbi`, whose b is a literal nibble): the stored word is
      a - b modulo 2^16, the carry is never set, and overflow is set exactly
      when a is non-negative and the result is negative. */
  lemma SubtractFlags(a: Word, b: Word)
    ensures var r := BasicAdd(a, JsNot(b), 1);
      && r.value == ToUint16(a - b)
      && !r.carry
      && (r.overflow <==> IsPositiveOrZero(a) && IsNegative(r.value))
  {
  }

  /** For `adi`: the literal is a small non-negative addend. */
  lemma AddImmediateFlags(a: Word, k: Nibble)
    ensures var r := BasicAdd(a, k, 0);
      && r.value == ToUint16(a + k)
      && (r.carry <==> a + k >= 0x1_0000)
      && (r.overflow <==> a < 0x8000 <= a + k)
  {
  }

  /** The subtraction flags are not those of 16-bit two's-complement
      subtraction: 0 - 1 = -1 is representable yet sets overflow, -32768 - 1
      is not yet leaves it clear, and 5 - 3 leaves the carry clear where
      5 + 0xFFFC + 1 would set it. */
  lemma SubtractFlagsAreNotTwosComplement()
    ensures BasicAdd(0, JsNot(1), 1).overflow && -0x8000 <= Signed(0) - Signed(1) < 0x8000
    ensures !BasicAdd(0x8000, JsNot(1), 1).overflow && Signed(0x8000) - Signed(1) < -0x8000
    ensures !BasicAdd(5, JsNot(3), 1).carry && BasicAdd(5, 0xFFFF - 3, 1).carry
  {
  }

  /** Adding -32768 and -1 wraps to 0x7FFF and sets both flags. */
  lemma AddNegativeOverflowExample()
    ensures BasicAdd(0x8000, 0xFFFF, 0) == Sum(0x7FFF, true, true)
  {
  }

  /** 2^k for the bit positions of a word. */
  function Pow2(k: nat): (p: nat)
    requires k <= 16
  {
    match k
    case 0 => 1      case 1 => 2      case 2 => 4      case 3 => 8
    case 4 => 16     case 5 => 32     case 6 => 64     case 7 => 128
    case 8 => 256    case 9 => 512    case 10 => 1024  case 11 => 2048
    case 12 => 4096  case 13 => 8192  case 14 => 16384 case 15 => 32768
    case 16 => 65536
  }

  /** The carry of a shift: bit 16 - amount of the operand for a left shift,
      bit amount - 1 for a right shift. Either way it is the last bit moved
      out of the word: bit 16 of the unbounded product for a left shift, the
      highest of the bits dropped off the bottom for a right shift. */
  function ShiftCarry(value: Word, direction: Direction, amount: ShiftAmount): (carry: bool)
    ensures direction == Left ==> (carry <==> ((value * Pow2(amount)) / 0x1_0000) % 2 == 1)
    ensures direction == Right ==> (carry <==> value % Pow2(amount) >= Pow2(amount - 1))
  {
    ShiftFacts(value, amount);
    var position := if direction == Left then 16 - amount else amount - 1;
    (value / Pow2(position)) % 2 == 1
  }

  /** The shifted word: a left shift keeps the low 16 - amount bits and
      moves them up, a right shift is unsigned (no sign extension) and drops
      the low `amount` bits. */
  function Shift(value: Word, direction: Direction, amount: ShiftAmount): (r: Word)
    ensures direction == Left ==> r == (value % Pow2(16 - amount)) * Pow2(amount)
    ensures direction == Right ==> r * Pow2(amount) + value % Pow2(amount) == value
  {
    ShiftFacts(value, amount);
    if direction == Left then (value * Pow2(amount)) % 0x1_0000 else value / Pow2(amount)
  }

  /** Shifting left and back right clears the top `amount` bits. */
  lemma ShiftLeftThenRight(value: Word, amount: ShiftAmount)
    ensures Shift(Shift(value, Left, amount), Right, amount) == value % Pow2(16 - amount)
  {
    ShiftFacts(value, amount);
  }

  /** Shifting right and back left clears the bottom `amount` bits. */
  lemma ShiftRightThenLeft(value: Word, amount: ShiftAmount)
    ensures Shift(Shift(value, Right, amount), Left, amount) == value - value % Pow2(amount)
  {
    ShiftFacts(value, amount);
  }

  /** The facts about multiplying and dividing a word by 2^amount that the
      shifter needs, for every shift amount. */
  lemma ShiftFacts(value: Word, amount: ShiftAmount)
    ensures ((value * Pow2(amount)) / 0x1_0000) % 2 == (value / Pow2(16 - amount)) % 2
    ensures (value / Pow2(amount - 1)) % 2 == 1 <==> value % Pow2(amount) >= Pow2(amount - 1)
    ensures (value * Pow2(amount)) % 0x1_0000 == (value % Pow2(16 - amount)) * Pow2(amount)
    ensures ((value * Pow2(amount)) % 0x1_0000) / Pow2(amount) == value % Pow2(16 - amount)
    ensures ((value / Pow2(amount)) * Pow2(amount)) % 0x1_0000 == value - value % Pow2(amount)
  {
    match amount
    case 1 => ShiftBy1Facts(value);
    case 2 => ShiftBy2Facts(value);
    case 3 => ShiftBy3Facts(value);
    case 4 => ShiftBy4Facts(value);
    case 5 => ShiftBy5Facts(value);
    case 6 => ShiftBy6Facts(value);
    case 7 => ShiftBy7Facts(value);
    case 8 => ShiftBy8Facts(value);
  }

  // ShiftFacts one shift amount at a time, in constants.

  lemma ShiftBy1Facts(value: Word)
    ensures ((value * 2) / 0x1_0000) % 2 == (value / 32768) % 2
    ensures (value / 1) % 2 == 1 <==> value % 2 >= 1
    ensures (value * 2) % 0x1_0000 == (value % 32768) * 2
    ensures ((value * 2) % 0x1_0000) / 2 == value % 32768
    ensures ((value / 2) * 2) % 0x1_0000 == value - value % 2
  {
    var q, r := value / 0x8000, value % 0x8000;
    DivMod(value * 2, 0x1_0000, q, r * 2);
    DivMod(r * 2, 2, r, 0);
    var u, v := value / 2, value % 2;
    DivMod(value, 1, u * 2 + v / 1, v % 1);
    DivMod(u * 2 + v / 1, 2, u, v / 1);
    DivMod(u * 2, 0x1_0000, 0, u * 2);
  }

  lemma ShiftBy2Facts(value: Word)
    ensures ((value * 4) / 0x1_0000) % 2 == (value / 16384) % 2
    ensures (value / 2) % 2 == 1 <==> value % 4 >= 2
    ensures (value * 4) % 0x1_0000 == (value % 16384) * 4
    ensures ((value * 4) % 0x1_0000) / 4 == value % 16384
    ensures ((value / 4) * 4) % 0x1_0000 == value - value % 4
  {
    var q, r := value / 0x4000, value % 0x4000;
    DivMod(value * 4, 0x1_0000, q, r * 4);
    DivMod(r * 4, 4, r, 0);
    var u, v := value / 4, value % 4;
    DivMod(value, 2, u * 2 + v / 2, v % 2);
    DivMod(u * 2 + v / 2, 2, u, v / 2);
    DivMod(u * 4, 0x1_0000, 0, u * 4);
  }

  lemma ShiftBy3Facts(value: Word)
    ensures ((value * 8) / 0x1_0000) % 2 == (value / 8192) % 2
    ensures (value / 4) % 2 == 1 <==> value % 8 >= 4
    ensures (value * 8) % 0x1_0000 == (value % 8192) * 8
    ensures ((value * 8) % 0x1_0000) / 8 == value % 8192
    ensures ((value / 8) * 8) % 0x1_0000 == value - value % 8
  {
    var q, r := value / 0x2000, value % 0x2000;
    DivMod(value * 8, 0x1_0000, q, r * 8);
    DivMod(r * 8, 8, r, 0);
    var u, v := value / 8, value % 8;
    DivMod(value, 4, u * 2 + v / 4, v % 4);
    DivMod(u * 2 + v / 4, 2, u, v / 4);
    DivMod(u * 8, 0x1_0000, 0, u * 8);
  }

  lemma ShiftBy4Facts(value: Word)
    ensures ((value * 16) / 0x1_0000) % 2 == (value / 4096) % 2
    ensures (value / 8) % 2 == 1 <==> value % 16 >= 8
    ensures (value * 16) % 0x1_0000 == (value % 4096) * 16
    ensures ((value * 16) % 0x1_0000) / 16 == value % 4096
    ensures ((value / 16) * 16) % 0x1_0000 == value - value % 16
  {
    var q, r := value / 0x1000, value % 0x1000;
    DivMod(value * 0x10, 0x1_0000, q, r * 0x10);
    DivMod(r * 0x10, 0x10, r, 0);
    var u, v := value / 0x10, value % 0x10;
    DivMod(value, 8, u * 2 + v / 8, v % 8);
    DivMod(u * 2 + v / 8, 2, u, v / 8);
    DivMod(u * 0x10, 0x1_0000, 0, u * 0x10);
  }

  lemma ShiftBy5Facts(value: Word)
    ensures ((value * 32) / 0x1_0000) % 2 == (value / 2048) % 2
    ensures (value / 16) % 2 == 1 <==> value % 32 >= 16
    ensures (value * 32) % 0x1_0000 == (value % 2048) * 32
    ensures ((value * 32) % 0x1_0000) / 32 == value % 2048
    ensures ((value / 32) * 32) % 0x1_0000 == value - value % 32
  {
    var q, r := value / 0x800, value % 0x800;
    DivMod(value * 0x20, 0x1_0000, q, r * 0x20);
    DivMod(r * 0x20, 0x20, r, 0);
    var u, v := value / 0x20, value % 0x20;
    DivMod(value, 0x10, u * 2 + v / 0x10, v % 0x10);
    DivMod(u * 2 + v / 0x10, 2, u, v / 0x10);
    DivMod(u * 0x20, 0x1_0000, 0, u * 0x20);
  }

  lemma ShiftBy6Facts(value: Word)
    ensures ((value * 64) / 0x1_0000) % 2 == (value / 1024) % 2
    ensures (value / 32) % 2 == 1 <==> value % 64 >= 32
    ensures (value * 64) % 0x1_0000 == (value % 1024) * 64
    ensures ((value * 64) % 0x1_0000) / 64 == value % 1024
    ensures ((value / 64) * 64) % 0x1_0000 == value - value % 64
  {
    var q, r := value / 0x400, value % 0x400;
    DivMod(value * 0x40, 0x1_0000, q, r * 0x40);
    DivMod(r * 0x40, 0x40, r, 0);
    var u, v := value / 0x40, value % 0x40;
    DivMod(value, 0x20, u * 2 + v / 0x20, v % 0x20);
    DivMod(u * 2 + v / 0x20, 2, u, v / 0x20);
    DivMod(u * 0x40, 0x1_0000, 0, u * 0x40);
  }

  lemma ShiftBy7Facts(value: Word)
    ensures ((value * 128) / 0x1_0000) % 2 == (value / 512) % 2
    ensures (value / 64) % 2 == 1 <==> value % 128 >= 64
    ensures (value * 128) % 0x1_0000 == (value % 512) * 128
    ensures ((value * 128) % 0x1_0000) / 128 == value % 512
    ensures ((value / 128) * 128) % 0x1_0000 == value - value % 128
  {
    var q, r := value / 0x200, value % 0x200;
    DivMod(value * 0x80, 0x1_0000, q, r * 0x80);
    DivMod(r * 0x80, 0x80, r, 0);
    var u, v := value / 0x80, value % 0x80;
    DivMod(value, 0x40, u * 2 + v / 0x40, v % 0x40);
    DivMod(u * 2 + v / 0x40, 2, u, v / 0x40);
    DivMod(u * 0x80, 0x1_0000, 0, u * 0x80);
  }

  lemma ShiftBy8Facts(value: Word)
    ensures ((value * 256) / 0x1_0000) % 2 == (value / 256) % 2
    ensures (value / 128) % 2 == 1 <==> value % 256 >= 128
    ensures (value * 256) % 0x1_0000 == (value % 256) * 256
    ensures ((value * 256) % 0x1_0000) / 256 == value % 256
    ensures ((value / 256) * 256) % 0x1_0000 == value - value % 256
  {
    var q, r := value / 0x100, value % 0x100;
    DivMod(value * 0x100, 0x1_0000, q, r * 0x100);
    DivMod(r * 0x100, 0x100, r, 0);
    var u, v := value / 0x100, value % 0x100;
    DivMod(value, 0x80, u * 2 + v / 0x80, v % 0x80);
    DivMod(u * 2 + v / 0x80, 2, u, v / 0x80);
    DivMod(u * 0x100, 0x1_0000, 0, u * 0x100);
  }

  /** 0x4005 shifted left by two is 0x0014, and bit 14 (set) is the carry. */
  lemma ShiftLeftExample()
    ensures Shift(0x4005, Left, 2) == 0x0014 && ShiftCarry(0x4005, Left, 2)
  {
  }
}
