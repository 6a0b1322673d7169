/** The fetch/execute state machine as functions on the architectural state:
    what one `step` does, what a bounded sequence of steps does, and what a
    whole `run` (start from I/O word 0, step, swap the I/O buffers) does.
    The class in cpu.dfy is proved to follow these functions. */
module Machine {
  import opened Words
  import opened Decode
  import opened Alu
  import opened Memory

  /** Which of the two I/O buffers the running program sees. */
  datatype Buffer = One | Two

  /** Everything a step can read or change, except the read-only program and
      data ROM. */
  datatype State = State(
    registers: seq<Word>,
    dataRam: seq<Word>,
    ioRam1: seq<Word>,
    ioRam2: seq<Word>,
    activeBuffer: Buffer,
    instructionCounter: Word,
    carryFlag: bool,
    overflowFlag: bool)

  /** The decoded program (one instruction per program address) and the data
      ROM. */
  datatype Program = Program(instructions: seq<Instruction>, dataRom: seq<Word>)

  predicate ValidProgram(p: Program) {
    |p.instructions| == 0x1_0000 && |p.dataRom| == DataRomSize
  }

  predicate ValidState(s: State) {
    && |s.registers| == 16
    && |s.dataRam| == DataRamSize
    && |s.ioRam1| == IoRamSize
    && |s.ioRam2| == IoRamSize
  }

  /** The I/O buffer the program sees. */
  function IoRam(s: State): seq<Word> {
    if s.activeBuffer == One then s.ioRam1 else s.ioRam2
  }

  /** The I/O buffer the host owns. */
  function Inactive(s: State): seq<Word> {
    if s.activeBuffer == One then s.ioRam2 else s.ioRam1
  }

  /** Replaces the contents of the active I/O buffer. */
  function WithIoRam(s: State, io: seq<Word>): (t: State)
    ensures IoRam(t) == io && Inactive(t) == Inactive(s)
    ensures t == s.(ioRam1 := t.ioRam1, ioRam2 := t.ioRam2)
  {
    if s.activeBuffer == One then s.(ioRam1 := io) else s.(ioRam2 := io)
  }

  /** A data read, or the fault for an unmapped address. */
  function Load(p: Program, s: State, address: Word): (r: Result<Word, Fault>)
    requires ValidProgram(p) && ValidState(s)
    ensures r.Failure? <==> Route(address).Unmapped?
    ensures r.Failure? ==> r.error == ReadOutOfBounds(address)
    ensures address < 0x8000 ==> r == Success(p.dataRom[address])
    ensures 0x8000 <= address < 0xF800 ==> r == Success(s.dataRam[address - 0x8000])
    ensures 0xF800 <= address < 0xFC00 ==> r == Success(IoRam(s)[address - 0xF800])
  {
    match Route(address)
    case DataRom(i) => Success(p.dataRom[i])
    case DataRam(i) => Success(s.dataRam[i])
    case IoRam(i) => Success(IoRam(s)[i])
    case Unmapped => Failure(ReadOutOfBounds(address))
  }

  /** A data write: the new state, or the fault for a ROM or unmapped
      address. */
  function Store(s: State, address: Word, value: Word): (r: Result<State, Fault>)
    requires ValidState(s)
    ensures r.Failure? <==> Route(address).DataRom? || Route(address).Unmapped?
    ensures Route(address).DataRom? ==> r == Failure(RomWrite(address))
    ensures Route(address).Unmapped? ==> r == Failure(WriteOutOfBounds(address))
    ensures r.Success? ==> ValidState(r.value)
  {
    match Route(address)
    case DataRom(_) => Failure(RomWrite(address))
    case DataRam(i) => Success(s.(dataRam := s.dataRam[i := value]))
    case IoRam(i) => Success(WithIoRam(s, IoRam(s)[i := value]))
    case Unmapped => Failure(WriteOutOfBounds(address))
  }

  /** A successful write changes the one cell its address selects: reading
      that address gives the value written, every other address reads as
      before, and no register, flag or buffer choice changes. */
  lemma StoreThenLoad(p: Program, s: State, address: Word, value: Word, other: Word)
    requires ValidProgram(p) && ValidState(s) && Store(s, address, value).Success?
    ensures var t := Store(s, address, value).value;
      && Load(p, t, address) == Success(value)
      && (other != address ==> Load(p, t, other) == Load(p, s, other))
      && t.registers == s.registers && t.activeBuffer == s.activeBuffer
      && t.instructionCounter == s.instructionCounter
      && t.carryFlag == s.carryFlag && t.overflowFlag == s.overflowFlag
      && Inactive(t) == Inactive(s)
  {
  }

  /** `incInstructionCounter`: the program counter moves to the next address,
      wrapping from 0xFFFF to 0. */
  function IncInstructionCounter(s: State): (t: State)
    ensures t.instructionCounter == if s.instructionCounter == 0xFFFF then 0 else s.instructionCounter + 1
    ensures t == s.(instructionCounter := t.instructionCounter)
  {
    s.(instructionCounter := (s.instructionCounter + 1) % 0x1_0000)
  }

  /** What the adder leaves behind: the sum in `rd` and both flags. */
  function WithSum(s: State, r: Sum, rd: Nibble): State
    requires ValidState(s)
  {
    s.(registers := s.registers[rd := r.value], carryFlag := r.carry, overflowFlag := r.overflow)
  }

  /** How a step ended: normally, on `end`, or on a memory fault. */
  datatype Status = Running | Ended | Faulted(fault: Fault)

  datatype Next = Next(state: State, status: Status)

  function Continue(s: State): Next {
    Next(IncInstructionCounter(s), Running)
  }

  /** The branch condition of `brv` on the value tested: a test of the sign
      of its two's-complement value. */
  function BranchOnValue(value: Word, negative: bool, zero: bool, positive: bool): (taken: bool)
    ensures taken <==>
      (negative && Signed(value) < 0) || (zero && Signed(value) == 0) || (positive && Signed(value) > 0)
  {
    (negative && IsNegative(value)) ||
    (zero && value == 0) ||
    (positive && value != 0 && IsPositiveOrZero(value))
  }

  /** The instruction at the program counter. */
  function Fetch(p: Program, s: State): Instruction
    requires ValidProgram(p)
  {
    p.instructions[s.instructionCounter]
  }

  /** The instructions that compute a register (and, for the adder and the
      shifter, flags) from registers and immediates. */
  predicate IsCompute(i: Instruction) {
    !(i.End? || i.Lod? || i.Str? || i.Brv? || i.Brf?)
  }

  /** What a computing instruction does to the state. */
  function Execute(s: State, i: Instruction): (t: State)
    requires ValidState(s) && IsCompute(i)
    ensures ValidState(t)
    ensures t.activeBuffer == s.activeBuffer && t.instructionCounter == s.instructionCounter
    ensures t.dataRam == s.dataRam && t.ioRam1 == s.ioRam1 && t.ioRam2 == s.ioRam2
  {
    var regs := s.registers;
    match i
    case Hby(immediate, rd) =>
      s.(registers := regs[rd := immediate * 0x100 + regs[rd] % 0x100])
    case Lby(immediate, rd) =>
      s.(registers := regs[rd := (regs[rd] / 0x100) * 0x100 + immediate])
    case Add(rs1, rs2, rd) => WithSum(s, BasicAdd(regs[rs1], regs[rs2], 0), rd)
    case Sub(rs1, rs2, rd) => WithSum(s, BasicAdd(regs[rs1], JsNot(regs[rs2]), 1), rd)
    case Adi(rs1, k, rd) => WithSum(s, BasicAdd(regs[rs1], k, 0), rd)
    case Sbi(rs1, k, rd) => WithSum(s, BasicAdd(regs[rs1], JsNot(k), 1), rd)
    case And(rs1, rs2, rd) => s.(registers := regs[rd := BitAnd(regs[rs1], regs[rs2])])
    case Orr(rs1, rs2, rd) => s.(registers := regs[rd := BitOr(regs[rs1], regs[rs2])])
    case Xor(rs1, rs2, rd) => s.(registers := regs[rd := BitXor(regs[rs1], regs[rs2])])
    case Not(rs1, rd) => s.(registers := regs[rd := ToUint16(JsNot(regs[rs1]))])
    case Shf(rs1, direction, amount, rd) =>
      var value := regs[rs1];
      s.(carryFlag := ShiftCarry(value, direction, amount),
         registers := regs[rd := Shift(value, direction, amount)])
  }

  /** Whether a `brv` or `brf` jumps. */
  predicate BranchTaken(s: State, i: Instruction)
    requires ValidState(s) && (i.Brv? || i.Brf?)
  {
    if i.Brv? then BranchOnValue(s.registers[i.src1], i.negative, i.zero, i.positive)
    else (i.overflow && s.overflowFlag) || (i.carry && s.carryFlag)
  }

  /** A branch: to `target` when taken, else to the next address. */
  function Jump(s: State, taken: bool, target: Word): Next {
    if taken then Next(s.(instructionCounter := target), Running) else Continue(s)
  }

  /** One clock: fetch the instruction at the program counter and execute
      it. `end` and faults change nothing. */
  function Step(p: Program, s: State): (n: Next)
    requires ValidProgram(p) && ValidState(s)
    ensures ValidState(n.state)
    ensures n.status.Ended? <==> Fetch(p, s).End?
    ensures n.status.Faulted? ==> Fetch(p, s).Lod? || Fetch(p, s).Str?
    ensures !n.status.Running? ==> n.state == s
    ensures n.state.activeBuffer == s.activeBuffer
  {
    var i := Fetch(p, s);
    var regs := s.registers;
    if i.End? then Next(s, Ended)
    else if i.Lod? then
      (match Load(p, s, regs[i.src1])
       case Failure(fault) => Next(s, Faulted(fault))
       case Success(value) => Continue(s.(registers := regs[i.dest := value])))
    else if i.Str? then
      (match Store(s, regs[i.src1], regs[i.src2])
       case Failure(fault) => Next(s, Faulted(fault))
       case Success(stored) => Continue(stored))
    else if i.Brv? || i.Brf? then Jump(s, BranchTaken(s, i), regs[i.src2])
    else Continue(Execute(s, i))
  }

  /** Up to `count` steps, stopping early on `end` or a fault. */
  function Steps(p: Program, s: State, count: nat): (n: Next)
    requires ValidProgram(p) && ValidState(s)
    ensures ValidState(n.state)
    ensures n.status.Ended? ==> p.instructions[n.state.instructionCounter].End?
    ensures n.status.Faulted? ==> Step(p, n.state) == Next(n.state, n.status)
    ensures n.state.activeBuffer == s.activeBuffer
    decreases count
  {
    if count == 0 then Next(s, Running)
    else
      var n := Step(p, s);
      if n.status.Running? then Steps(p, n.state, count - 1) else n
  }

  /** The end-of-run buffer swap: the outgoing buffer's word 0 is copied into
      the incoming one, which becomes active. */
  function Swap(s: State): (t: State)
    requires ValidState(s)
    ensures ValidState(t)
    ensures t.activeBuffer != s.activeBuffer
    ensures Inactive(t) == IoRam(s)
    ensures IoRam(t) == Inactive(s)[0 := IoRam(s)[0]]
    ensures t.registers == s.registers && t.dataRam == s.dataRam
    ensures t.instructionCounter == s.instructionCounter
    ensures t.carryFlag == s.carryFlag && t.overflowFlag == s.overflowFlag
  {
    if s.activeBuffer == One then s.(ioRam2 := s.ioRam2[0 := s.ioRam1[0]], activeBuffer := Two)
    else s.(ioRam1 := s.ioRam1[0 := s.ioRam2[0]], activeBuffer := One)
  }

  /** One frame: load the program counter from word 0 of the active I/O
      buffer, run up to `count` steps, then swap the buffers. A fault ends
      the frame at once, without the swap. */
  function Run(p: Program, s: State, count: nat): (n: Next)
    requires ValidProgram(p) && ValidState(s)
    ensures ValidState(n.state)
    ensures n.status.Faulted? <==> Steps(p, Start(s), count).status.Faulted?
    ensures n.status.Faulted? ==> n == Steps(p, Start(s), count)
    ensures !n.status.Faulted? ==>
      var m := Steps(p, Start(s), count);
      && n.status == m.status
      && n.state.activeBuffer != s.activeBuffer
      && Inactive(n.state) == IoRam(m.state)
      && IoRam(n.state) == Inactive(m.state)[0 := IoRam(m.state)[0]]
      && n.state == m.state.(ioRam1 := n.state.ioRam1, ioRam2 := n.state.ioRam2,
                             activeBuffer := n.state.activeBuffer)
  {
    var n := Steps(p, Start(s), count);
    if n.status.Faulted? then n else Next(Swap(n.state), n.status)
  }

  /** The state a frame starts executing from: the program counter loaded
      from word 0 of the active I/O buffer, and nothing else changed. */
  function Start(s: State): (t: State)
    requires ValidState(s)
    ensures ValidState(t) && IoRam(t) == IoRam(s)
    ensures t.instructionCounter == IoRam(s)[0]
    ensures t == s.(instructionCounter := t.instructionCounter)
  {
    s.(instructionCounter := IoRam(s)[0])
  }

  /** Every instruction except `end` and the two branches falls through to
      the next address, wrapping after 0xFFFF. */
  lemma StepFallsThrough(p: Program, s: State)
    requires ValidProgram(p) && ValidState(s)
    requires !Fetch(p, s).End? && !Fetch(p, s).Brv? && !Fetch(p, s).Brf?
    ensures var n := Step(p, s);
      n.status.Running? ==> n.state.instructionCounter == NextAddress(s.instructionCounter)
  {
  }

  /** Only the arithmetic instructions and `shf` touch the flags. */
  lemma StepKeepsFlags(p: Program, s: State)
    requires ValidProgram(p) && ValidState(s)
    requires !(Fetch(p, s).Add? || Fetch(p, s).Sub? || Fetch(p, s).Adi? || Fetch(p, s).Sbi?)
    ensures var n := Step(p, s);
      && n.state.overflowFlag == s.overflowFlag
      && (!Fetch(p, s).Shf? ==> n.state.carryFlag == s.carryFlag)
  {
  }

  /** Only `str` touches memory. */
  lemma StepKeepsMemory(p: Program, s: State)
    requires ValidProgram(p) && ValidState(s) && !Fetch(p, s).Str?
    ensures var n := Step(p, s);
      n.state.dataRam == s.dataRam && n.state.ioRam1 == s.ioRam1 && n.state.ioRam2 == s.ioRam2
  {
  }

  /** `hby` replaces the high byte of its register and `lby` the low byte;
      the other byte and every other register are kept. */
  lemma StepLoadByte(p: Program, s: State)
    requires ValidProgram(p) && ValidState(s) && (Fetch(p, s).Hby? || Fetch(p, s).Lby?)
    ensures var n := Step(p, s);
      var rd := Fetch(p, s).dest;
      var imm := Fetch(p, s).immediate;
      var v := n.state.registers[rd];
      && n.status.Running?
      && n.state.registers == s.registers[rd := v]
      && (Fetch(p, s).Hby? ==> v / 0x100 == imm && v % 0x100 == s.registers[rd] % 0x100)
      && (Fetch(p, s).Lby? ==> v / 0x100 == s.registers[rd] / 0x100 && v % 0x100 == imm)
  {
    var rd := Fetch(p, s).dest;
    var before := s.registers[rd];
    assert (before / 0x100) * 0x100 + before % 0x100 == before;
  }

  /** `lod` reads the address held in its first register into its
      destination, and faults exactly on the unmapped window. */
  lemma StepLoad(p: Program, s: State)
    requires ValidProgram(p) && ValidState(s) && Fetch(p, s).Lod?
    ensures var n := Step(p, s);
      var address := s.registers[Fetch(p, s).src1];
      && (n.status.Faulted? <==> 0xFC00 <= address)
      && (n.status.Faulted? ==> n.status.fault == ReadOutOfBounds(address))
      && (n.status.Running? ==>
            n.state.registers == s.registers[Fetch(p, s).dest := Load(p, s, address).value])
  {
  }

  /** `str` writes its second register to the address held in its first:
      afterwards that address reads back the value, every other address
      reads as before, and the registers are kept. It faults on the data ROM
      and on the unmapped window. */
  lemma StepStore(p: Program, s: State, other: Word)
    requires ValidProgram(p) && ValidState(s) && Fetch(p, s).Str?
    ensures var n := Step(p, s);
      var address := s.registers[Fetch(p, s).src1];
      var value := s.registers[Fetch(p, s).src2];
      && (n.status.Faulted? <==> address < 0x8000 || 0xFC00 <= address)
      && (address < 0x8000 ==> n.status == Faulted(RomWrite(address)))
      && (0xFC00 <= address ==> n.status == Faulted(WriteOutOfBounds(address)))
      && (n.status.Running? ==>
            && Load(p, n.state, address) == Success(value)
            && (other != address ==> Load(p, n.state, other) == Load(p, s, other))
            && n.state.registers == s.registers
            && Inactive(n.state) == Inactive(s))
  {
    var address := s.registers[Fetch(p, s).src1];
    var value := s.registers[Fetch(p, s).src2];
    if Store(s, address, value).Success? {
      StoreThenLoad(p, s, address, value, other);
      assert Step(p, s).state == IncInstructionCounter(Store(s, address, value).value);
    }
  }

  /** `add` and `adi` store the sum modulo 2^16; the carry is the bit that
      falls off the top and overflow is two's-complement overflow. */
  lemma StepAdd(p: Program, s: State)
    requires ValidProgram(p) && ValidState(s) && (Fetch(p, s).Add? || Fetch(p, s).Adi?)
    ensures var n := Step(p, s);
      var i := Fetch(p, s);
      var a := s.registers[i.src1];
      var b := if i.Add? then s.registers[i.src2] else i.src2;
      var v := n.state.registers[i.dest];
      && n.status.Running?
      && n.state.registers == s.registers[i.dest := v]
      && v as int + (if n.state.carryFlag then 0x1_0000 else 0) == a as int + b as int
      && (n.state.overflowFlag <==> !(-0x8000 <= Signed(a) + Signed(b) < 0x8000))
  {
    var i := Fetch(p, s);
    var a := s.registers[i.src1];
    var b: Word := if i.Add? then s.registers[i.src2] else i.src2;
    AddIsExact(a, b, 0);
    AddOverflowIsSignedOverflow(a, b, 0);
  }

  /** `sub` and `sbi` store the difference modulo 2^16, never set the carry,
      and set overflow exactly when a non-negative minuend gives a negative
      result. */
  lemma StepSubtract(p: Program, s: State)
    requires ValidProgram(p) && ValidState(s) && (Fetch(p, s).Sub? || Fetch(p, s).Sbi?)
    ensures var n := Step(p, s);
      var i := Fetch(p, s);
      var a := s.registers[i.src1];
      var b := if i.Sub? then s.registers[i.src2] else i.src2;
      var v := n.state.registers[i.dest];
      && n.status.Running?
      && n.state.registers == s.registers[i.dest := v]
      && v == ToUint16(a - b)
      && !n.state.carryFlag
      && (n.state.overflowFlag <==> IsPositiveOrZero(a) && IsNegative(v))
  {
    var i := Fetch(p, s);
    var a := s.registers[i.src1];
    var b: Word := if i.Sub? then s.registers[i.src2] else i.src2;
    SubtractFlags(a, b);
  }

  /** `not` stores the 16-bit complement of its operand. */
  lemma StepNot(p: Program, s: State)
    requires ValidProgram(p) && ValidState(s) && Fetch(p, s).Not?
    ensures var n := Step(p, s);
      var i := Fetch(p, s);
      n.state.registers == s.registers[i.dest := 0xFFFF - s.registers[i.src1]]
  {
  }

  /** `and`, `orr` and `xor` store the bitwise combination of their source
      registers into the destination only, and keep both flags. */
  lemma StepBitwise(p: Program, s: State)
    requires ValidProgram(p) && ValidState(s) && (Fetch(p, s).And? || Fetch(p, s).Orr? || Fetch(p, s).Xor?)
    ensures var n := Step(p, s);
      var i := Fetch(p, s);
      var a, b := s.registers[i.src1], s.registers[i.src2];
      && n.status.Running?
      && n.state.registers == s.registers[i.dest :=
           if i.And? then BitAnd(a, b) else if i.Orr? then BitOr(a, b) else BitXor(a, b)]
      && n.state.carryFlag == s.carryFlag && n.state.overflowFlag == s.overflowFlag
  {
  }

  /** `shf` stores the shifted operand and sets the carry to the last bit
      shifted out; overflow is kept. */
  lemma StepShift(p: Program, s: State)
    requires ValidProgram(p) && ValidState(s) && Fetch(p, s).Shf?
    ensures var n := Step(p, s);
      var i := Fetch(p, s);
      var value := s.registers[i.src1];
      var k := i.amount;
      && n.state.overflowFlag == s.overflowFlag
      && (i.direction == Left ==>
            && n.state.registers == s.registers[i.dest := (value * Pow2(k)) % 0x1_0000]
            && (n.state.carryFlag <==> ((value * Pow2(k)) / 0x1_0000) % 2 == 1))
      && (i.direction == Right ==>
            && n.state.registers == s.registers[i.dest := value / Pow2(k)]
            && (n.state.carryFlag <==> value % Pow2(k) >= Pow2(k - 1)))
  {
  }

  /** The branches change nothing but the program counter: it becomes the
      target register when the condition holds and the next address
      otherwise. */
  lemma StepBranch(p: Program, s: State)
    requires ValidProgram(p) && ValidState(s) && (Fetch(p, s).Brv? || Fetch(p, s).Brf?)
    ensures var n := Step(p, s);
      var i := Fetch(p, s);
      var taken := if i.Brv?
        then (i.negative && Signed(s.registers[i.src1]) < 0) || (i.zero && s.registers[i.src1] == 0)
             || (i.positive && Signed(s.registers[i.src1]) > 0)
        else (i.overflow && s.overflowFlag) || (i.carry && s.carryFlag);
      && n.status.Running?
      && n.state == s.(instructionCounter := n.state.instructionCounter)
      && n.state.instructionCounter ==
           if taken then s.registers[i.src2] else (s.instructionCounter + 1) % 0x1_0000
  {
  }

  /** The address after `pc`, wrapping from 0xFFFF to 0. */
  function NextAddress(pc: Word): Word {
    if pc == 0xFFFF then 0 else pc + 1
  }

  /** The address `count` fall-throughs after `pc`. */
  function AddressAfter(pc: Word, count: nat): Word
    decreases count
  {
    if count == 0 then pc else AddressAfter(NextAddress(pc), count - 1)
  }

  /** Falling through `count` times adds `count` modulo 2^16. */
  lemma {:induction false} AddressAfterWraps(pc: Word, count: nat)
    ensures AddressAfter(pc, count) == (pc + count) % 0x1_0000
    decreases count
  {
    if count > 0 {
      AddressAfterWraps(NextAddress(pc), count - 1);
    }
  }

  /** The `count` instructions from address `pc` on (wrapping around the
      program) hold no `end` and no branch. */
  predicate StraightLine(p: Program, pc: Word, count: nat)
    requires ValidProgram(p)
    decreases count
  {
    count == 0 ||
    (var i := p.instructions[pc];
     !i.End? && !i.Brv? && !i.Brf? && StraightLine(p, NextAddress(pc), count - 1))
  }

  /** Code without `end` or branches never reaches `end`. */
  lemma {:induction false} StraightLineNeverEnds(p: Program, s: State, count: nat)
    requires ValidProgram(p) && ValidState(s) && StraightLine(p, s.instructionCounter, count)
    ensures !Steps(p, s, count).status.Ended?
    decreases count
  {
    if count > 0 {
      StepFallsThrough(p, s);
      var m := Step(p, s);
      if m.status.Running? {
        assert Steps(p, s, count) == Steps(p, m.state, count - 1);
        StraightLineNeverEnds(p, m.state, count - 1);
      }
    }
  }

  /** Code without `end` or branches runs through consecutive addresses:
      unless a memory access faults, the program counter has moved on by the
      number of steps. */
  lemma {:induction false} StepsStraightLine(p: Program, s: State, count: nat)
    requires ValidProgram(p) && ValidState(s) && StraightLine(p, s.instructionCounter, count)
    ensures var n := Steps(p, s, count);
      n.status.Running? ==> n.state.instructionCounter == AddressAfter(s.instructionCounter, count)
    decreases count
  {
    if count > 0 {
      StepFallsThrough(p, s);
      var m := Step(p, s);
      if m.status.Running? {
        assert Steps(p, s, count) == Steps(p, m.state, count - 1);
        StepsStraightLine(p, m.state, count - 1);
      }
    }
  }

  /** Running a + b steps is running a steps and then, if the machine is
      still running, b more. */
  lemma {:induction false} StepsAdd(p: Program, s: State, a: nat, b: nat)
    requires ValidProgram(p) && ValidState(s)
    ensures Steps(p, s, a + b) ==
      var m := Steps(p, s, a);
      if m.status.Running? then Steps(p, m.state, b) else m
    decreases a
  {
    if a > 0 {
      var n := Step(p, s);
      if n.status.Running? {
        assert Steps(p, s, a + b) == Steps(p, n.state, (a - 1) + b);
        assert Steps(p, s, a) == Steps(p, n.state, a - 1);
        StepsAdd(p, n.state, a - 1, b);
      } else {
        assert Steps(p, s, a + b) == n && Steps(p, s, a) == n;
      }
    } else {
      assert Steps(p, s, a) == Next(s, Running);
    }
  }

  /** Once the machine has stopped, more steps change nothing. */
  lemma StepsStayStopped(p: Program, s: State, a: nat, b: nat)
    requires ValidProgram(p) && ValidState(s) && !Steps(p, s, a).status.Running?
    ensures Steps(p, s, a + b) == Steps(p, s, a)
  {
    StepsAdd(p, s, a, b);
  }

  /** A frame of no steps only swaps the buffers: the host's buffer becomes
      the program's, with word 0 (the start address) carried over, and the
      program counter is loaded from that word. */
  lemma RunZero(p: Program, s: State)
    requires ValidProgram(p) && ValidState(s)
    ensures var n := Run(p, s, 0);
      && n.status == Running
      && n.state.activeBuffer != s.activeBuffer
      && IoRam(n.state) == Inactive(s)[0 := IoRam(s)[0]]
      && Inactive(n.state) == IoRam(s)
      && n.state.instructionCounter == IoRam(s)[0]
      && n.state.registers == s.registers && n.state.dataRam == s.dataRam
      && n.state.carryFlag == s.carryFlag && n.state.overflowFlag == s.overflowFlag
  {
  }

  /** Two empty frames give the program its own buffer back unchanged; the
      host's buffer differs at most in word 0, which now holds the start
      address. */
  lemma RunZeroTwice(p: Program, s: State)
    requires ValidProgram(p) && ValidState(s)
    ensures var t := Run(p, Run(p, s, 0).state, 0).state;
      && t.activeBuffer == s.activeBuffer
      && IoRam(t) == IoRam(s)
      && Inactive(t) == Inactive(s)[0 := IoRam(s)[0]]
  {
    RunZero(p, s);
    RunZero(p, Run(p, s, 0).state);
  }
}
