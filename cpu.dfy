/** The simulator object: a `Cpu` whose registers, RAM and I/O buffers are
    arrays updated in place, as in the simulator, and whose methods are proved
    to follow the state machine of module Machine. Host-visible failures
    (a faulting memory access, a ROM of the wrong length) are returned as
    `Failure` values where the simulator throws. */
module LjdCpu {
  import opened Words
  import opened Decode
  import opened Alu
  import opened Memory
  import opened Machine

  /** The argument checks of the constructor and of `makeDebugCpu`. */
  datatype ArgumentError =
    | LengthMustBe(name: string, length: nat)
    | LengthMustBeAtMost(name: string, length: nat)

  /** What `step` reports: `true` on `end`, `false` otherwise, or the fault
      it throws. */
  function Report(status: Status): (r: Result<bool, Fault>)
    ensures r.Failure? <==> status.Faulted?
  {
    match status
    case Running => Success(false)
    case Ended => Success(true)
    case Faulted(fault) => Failure(fault)
  }

  class Cpu {
    var overflowFlag: bool
    var carryFlag: bool
    var instructionCounter: Word
    const registers: array<Word>
    const dataRam: array<Word>
    /** The I/O buffer the program currently sees: one of the two below. */
    var ioRam: array<Word>
    /** The program ROM, decoded once when the CPU is built. */
    const instructions: seq<Instruction>
    var activeBuffer: Buffer
    const dataRom: seq<Word>
    const ioRam1: array<Word>
    const ioRam2: array<Word>

    /** The sizes of every store, the buffer choice, and no two stores
        sharing an array. */
    ghost predicate Valid()
      reads this
    {
      && ValidProgram(Prog())
      && registers.Length == 16
      && dataRam.Length == DataRamSize
      && ioRam1.Length == IoRamSize && ioRam2.Length == IoRamSize
      && ioRam == (if activeBuffer == One then ioRam1 else ioRam2)
      && registers != dataRam && registers != ioRam1 && registers != ioRam2
      && dataRam != ioRam1 && dataRam != ioRam2 && ioRam1 != ioRam2
    }

    /** The read-only part of the machine. */
    function Prog(): Program {
      Program(instructions, dataRom)
    }

    /** The machine state the object holds. */
    ghost function Abs(): State
      reads this, registers, dataRam, ioRam1, ioRam2
    {
      State(registers[..], dataRam[..], ioRam1[..], ioRam2[..],
            activeBuffer, instructionCounter, carryFlag, overflowFlag)
    }

    /** A CPU with zeroed registers, RAM and flags, starting at address 0
        with the first I/O buffer active. The program ROM is decoded word by
        word. */
    constructor (programRom: array<Word>, dataRom: array<Word>, ioRam1: array<Word>, ioRam2: array<Word>)
      requires programRom.Length == 0x1_0000 && dataRom.Length == DataRomSize
      requires ioRam1.Length == IoRamSize && ioRam2.Length == IoRamSize && ioRam1 != ioRam2
      ensures Valid() && fresh(registers) && fresh(dataRam)
      ensures this.ioRam1 == ioRam1 && this.ioRam2 == ioRam2
      ensures Abs() == State(seq(16, _ => 0), seq(DataRamSize, _ => 0), ioRam1[..], ioRam2[..],
                             One, 0, false, false)
      ensures Prog().dataRom == dataRom[..]
      ensures forall i :: 0 <= i < 0x1_0000 ==> Prog().instructions[i] == Decode.Decode(programRom[i])
    {
      overflowFlag := false;
      carryFlag := false;
      instructionCounter := 0;
      registers := new Word[16](_ => 0);
      dataRam := new Word[DataRamSize](_ => 0);
      activeBuffer := One;
      this.dataRom := dataRom[..];
      this.ioRam1 := ioRam1;
      this.ioRam2 := ioRam2;
      instructions := seq(programRom.Length, i requires 0 <= i < programRom.Length reads programRom =>
                            Decode.Decode(programRom[i]));
      ioRam := ioRam1;
    }

    /** The constructor's argument checks: the program ROM must hold exactly
        65536 words and the data ROM exactly 32768. */
    static method Create(programRom: array<Word>, dataRom: array<Word>, ioRam1: array<Word>, ioRam2: array<Word>)
      returns (r: Result<Cpu, ArgumentError>)
      requires ioRam1.Length == IoRamSize && ioRam2.Length == IoRamSize && ioRam1 != ioRam2
      ensures r.Failure? <==> programRom.Length != 0x1_0000 || dataRom.Length != DataRomSize
      ensures programRom.Length != 0x1_0000 ==> r == Failure(LengthMustBe("programRom", 0x1_0000))
      ensures programRom.Length == 0x1_0000 && dataRom.Length != DataRomSize ==>
        r == Failure(LengthMustBe("dataRom", DataRomSize))
      ensures r.Success? ==>
        var cpu := r.value;
        && fresh(cpu) && cpu.Valid()
        && cpu.ioRam1 == ioRam1 && cpu.ioRam2 == ioRam2
        && cpu.Abs() == State(seq(16, _ => 0), seq(DataRamSize, _ => 0), ioRam1[..], ioRam2[..],
                              One, 0, false, false)
        && cpu.Prog().dataRom == dataRom[..]
        && forall i :: 0 <= i < 0x1_0000 ==> cpu.Prog().instructions[i] == Decode.Decode(programRom[i])
    {
      if programRom.Length != 0x1_0000 {
        return Failure(LengthMustBe("programRom", 0x1_0000));
      }
      if dataRom.Length != DataRomSize {
        return Failure(LengthMustBe("dataRom", DataRomSize));
      }
      var cpu := new Cpu(programRom, dataRom, ioRam1, ioRam2);
      return Success(cpu);
    }

    /** `read`: a data read through the address decoder. */
    function Read(address: Word): (r: Result<Word, Fault>)
      requires Valid()
      reads this, registers, dataRam, ioRam1, ioRam2
      ensures r == Load(Prog(), Abs(), address)
    {
      if address < 0x8000 then Success(dataRom[address])
      else if address < 0xF800 then Success(dataRam[address % 0x8000])
      else if address < 0xFC00 then Success(ioRam[address % 0x400])
      else Failure(ReadOutOfBounds(address))
    }

    /** `write`: a data write through the address decoder; the ROM and the
        unmapped window fault and change nothing. */
    method Write(address: Word, value: Word) returns (r: Outcome<Fault>)
      requires Valid()
      modifies dataRam, ioRam1, ioRam2
      ensures Valid()
      ensures match Store(old(Abs()), address, value)
        case Success(t) => r == Pass && Abs() == t
        case Failure(fault) => r == Fail(fault) && Abs() == old(Abs())
    {
      if address < 0x8000 {
        return Fail(RomWrite(address));
      } else if address < 0xF800 {
        dataRam[address % 0x8000] := value;
      } else if address < 0xFC00 {
        ioRam[address % 0x400] := value;
      } else {
        return Fail(WriteOutOfBounds(address));
      }
      return Pass;
    }

    /** `basicAdd`: the adder's sum into `rd` and both flags. */
    method BasicAdd(a: int, b: int, c: int, rd: Nibble)
      requires Valid()
      modifies this, registers
      ensures Valid()
      ensures Abs() == WithSum(old(Abs()), Alu.BasicAdd(a, b, c), rd)
    {
      var sum := a + b + c;
      carryFlag := sum >= 0x1_0000;
      var sum16Bit := sum % 0x1_0000;
      overflowFlag :=
        (IsNegative(a) && IsNegative(b) && IsPositiveOrZero(sum16Bit)) ||
        (IsPositiveOrZero(a) && IsPositiveOrZero(b) && IsNegative(sum16Bit));
      registers[rd] := sum16Bit;
    }

    /** `incInstructionCounter`. */
    method IncInstructionCounter()
      requires Valid()
      modifies this
      ensures Valid()
      ensures Abs() == Machine.IncInstructionCounter(old(Abs()))
    {
      instructionCounter := (instructionCounter + 1) % 0x1_0000;
    }

    /** `step`: executes the instruction at the program counter. */
    method Step() returns (r: Result<bool, Fault>)
      requires Valid()
      modifies this, registers, dataRam, ioRam1, ioRam2
      ensures Valid()
      ensures var n := Machine.Step(Prog(), old(Abs()));
        Abs() == n.state && r == Report(n.status)
    {
      var instruction := instructions[instructionCounter];
      if instruction.End? {
        return Success(true);
      } else if instruction.Lod? {
        var address := registers[instruction.src1];
        var loaded := Read(address);
        if loaded.Failure? {
          return Failure(loaded.error);
        }
        SetRegister(instruction.dest, loaded.value);
        IncInstructionCounter();
        return Success(false);
      } else if instruction.Str? {
        var address := registers[instruction.src1];
        var written := Write(address, registers[instruction.src2]);
        if written.Fail? {
          return Failure(written.error);
        }
        IncInstructionCounter();
        return Success(false);
      } else if instruction.Brv? || instruction.Brf? {
        Branch();
        return Success(false);
      } else if instruction.Add? || instruction.Sub? || instruction.Adi? || instruction.Sbi? {
        Arithmetic();
        IncInstructionCounter();
        return Success(false);
      } else {
        Compute();
        IncInstructionCounter();
        return Success(false);
      }
    }

    /** `run`: one frame of at most `n` clocks, started from the address in
        word 0 of the active I/O buffer and stopped early by `end`; then the
        buffers swap and the one the program used is handed to the host. A
        fault ends the frame without the swap. */
    method Run(n: nat) returns (r: Result<array<Word>, Fault>)
      requires Valid()
      modifies this, registers, dataRam, ioRam1, ioRam2
      ensures Valid()
      ensures var m := Machine.Run(Prog(), old(Abs()), n);
        && Abs() == m.state
        && (r.Failure? <==> m.status.Faulted?)
        && (r.Failure? ==> r.error == m.status.fault)
        && (r.Success? ==> r.value == old(ioRam) && ioRam != r.value)
    {
      instructionCounter := ioRam[0];
      ghost var start := Abs();
      assert start == Start(old(Abs()));
      var count: nat := n;
      while count > 0
        invariant Valid()
        invariant count <= n
        invariant activeBuffer == old(activeBuffer)
        invariant Steps(Prog(), start, n) == Steps(Prog(), Abs(), count)
        decreases count
      {
        count := count - 1;
        var done := Step();
        if done.Failure? {
          return Failure(done.error);
        }
        if done.value {
          break;
        }
      }
      var outgoing := SwapBuffers();
      return Success(outgoing);
    }

    /** The buffer swap at the end of `run`: returns the buffer the program
        was using. */
    method SwapBuffers() returns (outgoing: array<Word>)
      requires Valid()
      modifies this, ioRam1, ioRam2
      ensures Valid()
      ensures Abs() == Swap(old(Abs()))
      ensures outgoing == old(ioRam) && ioRam != outgoing
    {
      if activeBuffer == One {
        ioRam2[0] := ioRam1[0];
        activeBuffer := Two;
        ioRam := ioRam2;
        return ioRam1;
      } else {
        ioRam1[0] := ioRam2[0];
        activeBuffer := One;
        ioRam := ioRam1;
        return ioRam2;
      }
    }

    /** The cases of `step` for `brv` and `brf`: jump to the target register
        when the condition holds, else fall through. */
    method Branch()
      requires Valid()
      requires instructions[instructionCounter].Brv? || instructions[instructionCounter].Brf?
      modifies this
      ensures Valid()
      ensures var i := old(instructions[instructionCounter]);
        Abs() == Jump(old(Abs()), BranchTaken(old(Abs()), i), old(registers[i.src2])).state
    {
      var instruction := instructions[instructionCounter];
      var jump := false;
      if instruction.Brv? {
        var value := registers[instruction.src1];
        if instruction.negative && IsNegative(value) {
          jump := true;
        } else if instruction.zero && value == 0 {
          jump := true;
        } else if instruction.positive && value != 0 && IsPositiveOrZero(value) {
          jump := true;
        }
      } else {
        if instruction.overflow && overflowFlag {
          jump := true;
        } else if instruction.carry && carryFlag {
          jump := true;
        }
      }
      if jump {
        instructionCounter := registers[instruction.src2];
      } else {
        IncInstructionCounter();
      }
    }

    /** The cases of `step` that compute a register from registers and
        immediates without the adder (`shf` also sets the carry). */
    method Compute()
      requires Valid()
      requires var i := instructions[instructionCounter];
        IsCompute(i) && !(i.Add? || i.Sub? || i.Adi? || i.Sbi?)
      modifies this, registers
      ensures Valid()
      ensures Abs() == Execute(old(Abs()), old(instructions[instructionCounter]))
    {
      match instructions[instructionCounter] {
      case Hby(immediate, rd) =>
        var value := registers[rd];
        SetRegister(rd, immediate * 0x100 + value % 0x100);
      case Lby(immediate, rd) =>
        var value := registers[rd];
        SetRegister(rd, (value / 0x100) * 0x100 + immediate);
      case And(rs1, rs2, rd) =>
        SetRegister(rd, BitAnd(registers[rs1], registers[rs2]));
      case Orr(rs1, rs2, rd) =>
        SetRegister(rd, BitOr(registers[rs1], registers[rs2]));
      case Xor(rs1, rs2, rd) =>
        SetRegister(rd, BitXor(registers[rs1], registers[rs2]));
      case Not(rs1, rd) =>
        SetRegister(rd, ToUint16(JsNot(registers[rs1])));
      case Shf(rs1, direction, amount, rd) =>
        var value := registers[rs1];
        carryFlag := ShiftCarry(value, direction, amount);
        SetRegister(rd, Shift(value, direction, amount));
      }
    }

    /** The cases of `step` that use the adder. */
    method Arithmetic()
      requires Valid()
      requires var i := instructions[instructionCounter]; i.Add? || i.Sub? || i.Adi? || i.Sbi?
      modifies this, registers
      ensures Valid()
      ensures Abs() == Execute(old(Abs()), old(instructions[instructionCounter]))
    {
      match instructions[instructionCounter] {
      case Add(rs1, rs2, rd) =>
        BasicAdd(registers[rs1], registers[rs2], 0, rd);
      case Sub(rs1, rs2, rd) =>
        BasicAdd(registers[rs1], JsNot(registers[rs2]), 1, rd);
      case Adi(rs1, k, rd) =>
        BasicAdd(registers[rs1], k, 0, rd);
      case Sbi(rs1, k, rd) =>
        BasicAdd(registers[rs1], JsNot(k), 1, rd);
      }
    }

    /** A store into one register. */
    method SetRegister(rd: Nibble, value: Word)
      requires Valid()
      modifies registers
      ensures Valid()
      ensures Abs() == old(Abs()).(registers := old(Abs()).registers[rd := value])
    {
      registers[rd] := value;
    }
  }

  /** A CPU together with the I/O buffer the host fills for its first
      frame. */
  datatype CpuWithIoRam = CpuWithIoRam(cpu: Cpu, ioRam: array<Word>)

  /** `count` words: the numbers of `xs` stored into a `Uint16Array`, then
      zeros. */
  function Padded(xs: seq<int>, count: nat): (w: seq<Word>)
    requires |xs| <= count
    ensures |w| == count
  {
    seq(count, i requires 0 <= i < count => if i < |xs| then ToUint16(xs[i]) else 0)
  }

  /** `makeDebugCpu` (and its alias `makeCpu`): checks the ROM images are not
      too long, pads them with zeros, and builds a CPU over two zeroed I/O
      buffers; the second buffer goes to the host. */
  method MakeDebugCpu(programRom: seq<int>, dataRom: seq<int>) returns (r: Result<CpuWithIoRam, ArgumentError>)
    ensures r.Failure? <==> |programRom| > 0x1_0000 || |dataRom| > DataRomSize
    ensures |programRom| > 0x1_0000 ==> r == Failure(LengthMustBeAtMost("programRom", 0x1_0000))
    ensures |programRom| <= 0x1_0000 && |dataRom| > DataRomSize ==>
      r == Failure(LengthMustBeAtMost("dataRom", DataRomSize))
    ensures r.Success? ==>
      var cpu := r.value.cpu;
      && fresh(cpu) && fresh(cpu.ioRam1) && fresh(cpu.ioRam2)
      && cpu.Valid()
      && r.value.ioRam == cpu.ioRam2
      && cpu.Abs() == State(seq(16, _ => 0), seq(DataRamSize, _ => 0),
                            seq(IoRamSize, _ => 0), seq(IoRamSize, _ => 0), One, 0, false, false)
      && cpu.Prog().dataRom == Padded(dataRom, DataRomSize)
      && forall i :: 0 <= i < 0x1_0000 ==>
           cpu.Prog().instructions[i] == Decode.Decode(Padded(programRom, 0x1_0000)[i])
  {
    if |programRom| > 0x1_0000 {
      return Failure(LengthMustBeAtMost("programRom", 0x1_0000));
    }
    if |dataRom| > DataRomSize {
      return Failure(LengthMustBeAtMost("dataRom", DataRomSize));
    }
    var pRom := new Word[0x1_0000](i => if 0 <= i < |programRom| then ToUint16(programRom[i]) else 0);
    var dRom := new Word[DataRomSize](i => if 0 <= i < |dataRom| then ToUint16(dataRom[i]) else 0);
    assert pRom[..] == Padded(programRom, 0x1_0000);
    assert dRom[..] == Padded(dataRom, DataRomSize);
    var ioRam1 := new Word[IoRamSize](_ => 0);
    var ioRam2 := new Word[IoRamSize](_ => 0);
    var cpu := new Cpu(pRom, dRom, ioRam1, ioRam2);
    return Success(CpuWithIoRam(cpu, ioRam2));
  }
}
