/** The instruction decoder: a 16-bit word is split into four nibbles (opcode,
    a, b, c from the most to the least significant) and the opcode selects one
    of sixteen instruction variants, each keeping only the operand fields it
    needs. Every word decodes: there is no illegal opcode. */
module Decode {
  import opened Words

  datatype Direction = Left | Right

  /** The number of bit positions a `shf` moves its operand. */
  type ShiftAmount = x: int | 1 <= x <= 8 witness 1

  datatype Instruction =
    | End
      /** Load `immediate` into the high byte of register `dest`. */
    | Hby(immediate: Byte, dest: Nibble)
      /** Load `immediate` into the low byte of register `dest`. */
    | Lby(immediate: Byte, dest: Nibble)
      /** dest := memory[src1]. */
    | Lod(src1: Nibble, dest: Nibble)
      /** memory[src1] := src2. */
    | Str(src1: Nibble, src2: Nibble)
    | Add(src1: Nibble, src2: Nibble, dest: Nibble)
    | Sub(src1: Nibble, src2: Nibble, dest: Nibble)
      /** Add the literal `src2` (0..15), not a register. */
    | Adi(src1: Nibble, src2: Nibble, dest: Nibble)
      /** Subtract the literal `src2` (0..15), not a register. */
    | Sbi(src1: Nibble, src2: Nibble, dest: Nibble)
    | And(src1: Nibble, src2: Nibble, dest: Nibble)
    | Orr(src1: Nibble, src2: Nibble, dest: Nibble)
    | Xor(src1: Nibble, src2: Nibble, dest: Nibble)
    | Not(src1: Nibble, dest: Nibble)
    | Shf(src1: Nibble, direction: Direction, amount: ShiftAmount, dest: Nibble)
      /** Jump to register `src2` when the sign or zero-ness of register
          `src1` is one of the selected conditions. */
    | Brv(src1: Nibble, src2: Nibble, negative: bool, zero: bool, positive: bool)
      /** Jump to register `src2` when a selected flag is set. */
    | Brf(src2: Nibble, overflow: bool, carry: bool)

  /** Splits a word into its opcode and its a, b and c fields; the four
      nibbles reassemble to the word. */
  function GetNibbles(word: Word): (n: (Nibble, Nibble, Nibble, Nibble))
    ensures word == n.0 * 0x1000 + n.1 * 0x100 + n.2 * 0x10 + n.3
  {
    var high := word / 0x10;
    var top := high / 0x10;
    (top / 0x10, top % 0x10, high % 0x10, word % 0x10)
  }

  /** The opcode table: one constructor per opcode, so the variant built
      for an opcode is the one that opcode selects. */
  function OpCode2Instruction(opCode: Nibble, a: Nibble, b: Nibble, c: Nibble): (i: Instruction)
    ensures OpCode(i) == opCode
  {
    match opCode
    case 0 => End
    case 1 => Hby(a * 16 + b, c)
    case 2 => Lby(a * 16 + b, c)
    case 3 => Lod(a, c)
    case 4 => Str(a, b)
    case 5 => Add(a, b, c)
    case 6 => Sub(a, b, c)
    case 7 => Adi(a, b, c)
    case 8 => Sbi(a, b, c)
    case 9 => And(a, b, c)
    case 10 => Orr(a, b, c)
    case 11 => Xor(a, b, c)
    case 12 => Not(a, c)
    case 13 => Shf(a, if b >= 8 then Right else Left, b % 8 + 1, c)
    case 14 => Brv(a, b, (c / 4) % 2 == 1, (c / 2) % 2 == 1, c % 2 == 1)
    case 15 => Brf(b, (c / 2) % 2 == 1, c % 2 == 1)
  }

  /** The opcode that selects each variant. */
  function OpCode(i: Instruction): (op: Nibble)
  {
    match i
    case End => 0
    case Hby(_, _) => 1
    case Lby(_, _) => 2
    case Lod(_, _) => 3
    case Str(_, _) => 4
    case Add(_, _, _) => 5
    case Sub(_, _, _) => 6
    case Adi(_, _, _) => 7
    case Sbi(_, _, _) => 8
    case And(_, _, _) => 9
    case Orr(_, _, _) => 10
    case Xor(_, _, _) => 11
    case Not(_, _) => 12
    case Shf(_, _, _, _) => 13
    case Brv(_, _, _, _, _) => 14
    case Brf(_, _, _) => 15
  }

  /** Decodes one program word; the variant is selected by the top four
      bits. */
  function Decode(word: Word): (i: Instruction)
    ensures OpCode(i) == word / 0x1000
  {
    var (opCode, a, b, c) := GetNibbles(word);
    DivMod(word, 0x1000, opCode, a * 0x100 + b * 0x10 + c);
    OpCode2Instruction(opCode, a, b, c)
  }

  /** The a, b and c fields the canonical word of an instruction carries
      (unused fields zero). */
  function Operands(i: Instruction): (Nibble, Nibble, Nibble) {
    match i
    case End => (0, 0, 0)
    case Hby(imm, d) => (imm / 16, imm % 16, d)
    case Lby(imm, d) => (imm / 16, imm % 16, d)
    case Lod(s1, d) => (s1, 0, d)
    case Str(s1, s2) => (s1, s2, 0)
    case Add(s1, s2, d) => (s1, s2, d)
    case Sub(s1, s2, d) => (s1, s2, d)
    case Adi(s1, s2, d) => (s1, s2, d)
    case Sbi(s1, s2, d) => (s1, s2, d)
    case And(s1, s2, d) => (s1, s2, d)
    case Orr(s1, s2, d) => (s1, s2, d)
    case Xor(s1, s2, d) => (s1, s2, d)
    case Not(s1, d) => (s1, 0, d)
    case Shf(s1, dir, k, d) => (s1, (if dir == Right then 8 else 0) + (k - 1), d)
    case Brv(s1, s2, n, z, p) =>
      (s1, s2, (if n then 4 else 0) + (if z then 2 else 0) + (if p then 1 else 0))
    case Brf(s2, v, cy) => (0, s2, (if v then 2 else 0) + (if cy then 1 else 0))
  }

  /** The canonical word of an instruction: what an assembler emits. */
  function Encode(i: Instruction): Word {
    var (a, b, c) := Operands(i);
    OpCode(i) * 0x1000 + a * 0x100 + b * 0x10 + c
  }

  /** Four nibbles assembled into a word split back into the same four. */
  lemma GetNibblesOfAssembled(opCode: Nibble, a: Nibble, b: Nibble, c: Nibble)
    ensures GetNibbles(opCode * 0x1000 + a * 0x100 + b * 0x10 + c) == (opCode, a, b, c)
  {
    var word := opCode * 0x1000 + a * 0x100 + b * 0x10 + c;
    DivMod(word, 0x10, opCode * 0x100 + a * 0x10 + b, c);
    DivMod(opCode * 0x100 + a * 0x10 + b, 0x10, opCode * 0x10 + a, b);
    DivMod(opCode * 0x10 + a, 0x10, opCode, a);
  }

  /** Every instruction survives a round trip through its canonical word. */
  lemma DecodeEncode(i: Instruction)
    ensures Decode(Encode(i)) == i
  {
    var (a, b, c) := Operands(i);
    GetNibblesOfAssembled(OpCode(i), a, b, c);
    TableOfOperands(i);
  }

  /** The table rebuilds every instruction from its opcode and operands. */
  lemma TableOfOperands(i: Instruction)
    ensures var (a, b, c) := Operands(i); OpCode2Instruction(OpCode(i), a, b, c) == i
  {
    match i
    case End =>
    case Hby(imm, _) => DivMod(imm, 0x10, imm / 16, imm % 16);
    case Lby(imm, _) => DivMod(imm, 0x10, imm / 16, imm % 16);
    case Lod(s1, d) => assert OpCode2Instruction(3, s1, 0, d) == i;
    case Str(s1, s2) => assert OpCode2Instruction(4, s1, s2, 0) == i;
    case Add(s1, s2, d) => assert OpCode2Instruction(5, s1, s2, d) == i;
    case Sub(s1, s2, d) => assert OpCode2Instruction(6, s1, s2, d) == i;
    case Adi(s1, s2, d) => assert OpCode2Instruction(7, s1, s2, d) == i;
    case Sbi(s1, s2, d) => assert OpCode2Instruction(8, s1, s2, d) == i;
    case And(s1, s2, d) => assert OpCode2Instruction(9, s1, s2, d) == i;
    case Orr(s1, s2, d) => assert OpCode2Instruction(10, s1, s2, d) == i;
    case Xor(s1, s2, d) => assert OpCode2Instruction(11, s1, s2, d) == i;
    case Not(s1, d) => assert OpCode2Instruction(12, s1, 0, d) == i;
    case Shf(_, dir, k, _) =>
      DivMod(Operands(i).1, 8, if dir == Right then 1 else 0, k - 1);
    case Brv(_, _, n, z, p) =>
      var (hi, mid, lo) := (if n then 1 else 0, if z then 1 else 0, if p then 1 else 0);
      DivMod(Operands(i).2, 4, hi, mid * 2 + lo);
      DivMod(Operands(i).2, 2, hi * 2 + mid, lo);
      DivMod(hi * 2 + mid, 2, hi, mid);
    case Brf(_, v, cy) =>
      var (hi, lo) := (if v then 1 else 0, if cy then 1 else 0);
      DivMod(Operands(i).2, 2, hi, lo);
  }

  /** Decoding is field-exact: each operand is read from its bit positions
      (opcode 15..12, a 11..8, b 7..4, c 3..0). */
  lemma DecodeFields(word: Word)
    ensures var i := Decode(word);
      var a, b, c := (word / 0x100) % 16, (word / 0x10) % 16, word % 16;
      && ((i.Hby? || i.Lby?) ==> i.immediate == (word / 0x10) % 0x100 && i.dest == c)
      && (i.Lod? ==> i.src1 == a && i.dest == c)
      && (i.Str? ==> i.src1 == a && i.src2 == b)
      && ((i.Add? || i.Sub? || i.Adi? || i.Sbi? || i.And? || i.Orr? || i.Xor?) ==>
            i.src1 == a && i.src2 == b && i.dest == c)
      && (i.Not? ==> i.src1 == a && i.dest == c)
      && (i.Shf? ==> i.src1 == a && i.dest == c
                     && (i.direction == Right <==> (word / 0x80) % 2 == 1)
                     && i.amount == (word / 0x10) % 8 + 1)
      && (i.Brv? ==> i.src1 == a && i.src2 == b
                     && (i.negative <==> (word / 4) % 2 == 1)
                     && (i.zero <==> (word / 2) % 2 == 1)
                     && (i.positive <==> word % 2 == 1))
      && (i.Brf? ==> i.src2 == b
                     && (i.overflow <==> (word / 2) % 2 == 1)
                     && (i.carry <==> word % 2 == 1))
  {
    var (opCode, a, b, c) := GetNibbles(word);
    FieldArithmetic(word, opCode, a, b, c);
    TableFields(opCode, a, b, c);
  }

  /** The operands the table gives each variant, in terms of its nibbles. */
  lemma TableFields(opCode: Nibble, a: Nibble, b: Nibble, c: Nibble)
    ensures var i := OpCode2Instruction(opCode, a, b, c);
      && ((i.Hby? || i.Lby?) ==> i.immediate == a * 0x10 + b && i.dest == c)
      && (i.Lod? ==> i.src1 == a && i.dest == c)
      && (i.Str? ==> i.src1 == a && i.src2 == b)
      && ((i.Add? || i.Sub? || i.Adi? || i.Sbi? || i.And? || i.Orr? || i.Xor?) ==>
            i.src1 == a && i.src2 == b && i.dest == c)
      && (i.Not? ==> i.src1 == a && i.dest == c)
      && (i.Shf? ==> i.src1 == a && i.dest == c
                     && (i.direction == Right <==> b / 8 == 1)
                     && i.amount == b % 8 + 1)
      && (i.Brv? ==> i.src1 == a && i.src2 == b
                     && (i.negative <==> (c / 4) % 2 == 1)
                     && (i.zero <==> (c / 2) % 2 == 1)
                     && (i.positive <==> c % 2 == 1))
      && (i.Brf? ==> i.src2 == b
                     && (i.overflow <==> (c / 2) % 2 == 1)
                     && (i.carry <==> c % 2 == 1))
  {
  }

  /** Where each decoded operand sits in a word assembled from four
      nibbles. */
  lemma FieldArithmetic(word: Word, opCode: Nibble, a: Nibble, b: Nibble, c: Nibble)
    requires word == opCode * 0x1000 + a * 0x100 + b * 0x10 + c
    ensures (word / 0x10) % 0x100 == a * 0x10 + b
    ensures (word / 0x10) % 8 == b % 8
    ensures (word / 0x80) % 2 == b / 8
    ensures (word / 4) % 2 == (c / 4) % 2
    ensures (word / 2) % 2 == (c / 2) % 2
    ensures word % 2 == c % 2
  {
    var high := opCode * 0x100 + a * 0x10 + b;
    DivMod(word, 0x10, high, c);
    DivMod(high, 0x100, opCode, a * 0x10 + b);
    assert b == (b / 8) * 8 + b % 8;
    DivMod(high, 8, opCode * 0x20 + a * 2 + b / 8, b % 8);
    DivMod(word, 0x80, opCode * 0x20 + a * 2 + b / 8, (b % 8) * 0x10 + c);
    DivMod(opCode * 0x20 + a * 2 + b / 8, 2, opCode * 0x10 + a, b / 8);
    assert c == (c / 4) * 4 + c % 4 && c / 4 == ((c / 4) / 2) * 2 + (c / 4) % 2;
    DivMod(word, 4, high * 4 + c / 4, c % 4);
    DivMod(high * 4 + c / 4, 2, high * 2 + (c / 4) / 2, (c / 4) % 2);
    assert c == (c / 2) * 2 + c % 2 && c / 2 == ((c / 2) / 2) * 2 + (c / 2) % 2;
    DivMod(word, 2, high * 8 + c / 2, c % 2);
    DivMod(high * 8 + c / 2, 2, high * 4 + (c / 2) / 2, (c / 2) % 2);
  }
}
