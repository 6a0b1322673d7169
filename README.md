# LJD 16-bit CPU — a verified model

This project models the simulator of the LJD 16-bit CPU (`src/ljd_16_bit_cpu.ts`)
in Dafny and proves properties of the model. It covers four parts:

- **Instruction decoder** (module `Decode`, decode.dfy). `getNibbles` splits a
  16-bit program word into an opcode and three operand nibbles. The opcode table
  then selects one of sixteen instruction variants. Decoding is total. It is proved
  field-exact, and every instruction round-trips through its canonical word.
- **Memory address decoder** (module `Memory`, memory.dfy). The data address space
  is cut into four ranges:
  - data ROM, `[0x0000, 0x8000)`;
  - data RAM, `[0x8000, 0xF800)`;
  - the active I/O buffer, `[0xF800, 0xFC00)`;
  - an unmapped window, from `0xFC00` up.

  The ranges are proved disjoint and to cover every cell.
- **ALU** (module `Alu`, alu.dfy):
  - the sign tests;
  - `basicAdd` with its carry and overflow flags, kept exactly as the simulator
    computes them on JavaScript numbers;
  - the shifter and its carry bit (`getShiftCarry`).
- **Fetch/execute machine.** Module `Machine` (machine.dfy) gives `step`, a bounded
  run of steps and a whole `run` frame as functions on the architectural state.
  Module `LjdCpu` (cpu.dfy) holds the simulator object. It is a class `Cpu` whose
  registers, RAM and I/O buffers are arrays updated in place. Each of its methods
  is proved to leave the object in the state the `Machine` function prescribes.

Three JavaScript details are kept as written:

- **Truncating stores.** A store into a `Uint16Array` reduces modulo 2^16
  (`Words.ToUint16`). So `not` stores `0xFFFF - x` (`Words.JsNot`).
- **`sub` and `sbi` pass `~b` to the adder.** `~b` is the negative number `-b - 1`,
  so the adder sees the plain difference `a - b`. As a result, the carry is never
  set. Overflow is set exactly when a non-negative `a` gives a negative result.
  These are not the flags of 16-bit two's-complement subtraction.
  `Alu.SubtractFlagsAreNotTwosComplement` exhibits inputs where they differ.
- **`adi` and `sbi` take the `b` nibble as a literal** 0..15, not as a register.

Words are integers in `0..0xFFFF`. The constant masks of the source are written as
the arithmetic they compute:

| source | model |
|---|---|
| `& 0x7fff`, `& 0x3ff` | `% 0x8000`, `% 0x400` |
| `>> 4`, `& 0xf` | `/ 0x10`, `% 0x10` |
| `(a << 4) \| b` | `a * 16 + b` |

Register-to-register `&`, `|` and `^` go through 16-bit bit-vectors.

## Model

| member | source | states |
|---|---|---|
| Words.JsNot | src/ljd_16_bit_cpu.ts:147-197 | `~x` on a word is a negative number in [-65536, 0), so no `isNegative` test holds of it. Stored into a `Uint16Array` it becomes the 16-bit complement `0xFFFF - x`, which is what `not` writes |
| Words.ToUint16 | src/ljd_16_bit_cpu.ts:193-195 | a `Uint16Array` store keeps a word congruent to the number modulo 2^16 |
| Decode.GetNibbles | src/ljd_16_bit_cpu.ts:447-452 | the four nibbles, most significant first, reassemble to the word |
| Decode.OpCode2Instruction | src/ljd_16_bit_cpu.ts:400-417 | the table builds, for each opcode, the variant that opcode selects. The operands each variant keeps are stated by `Decode.TableFields` |
| Decode.Decode | src/ljd_16_bit_cpu.ts:78-81 | every word decodes, and the variant's opcode is the top four bits of the word |
| Decode.DecodeEncode | src/ljd_16_bit_cpu.ts:400-417 | every instruction decodes back from its canonical word, so the table loses no operand |
| Decode.DecodeFields | src/ljd_16_bit_cpu.ts:400-417 | each operand comes from its bit field. `hby`/`lby` take immediate `(a<<4)\|b` and destination `c`. `shf` goes right iff bit 7 is set, and its amount is bits 6..4 plus one. `brv` takes N/Z/P from bits 2/1/0 and `brf` takes V/C from bits 1/0 |
| Decode.GetNibblesOfAssembled | src/ljd_16_bit_cpu.ts:447-452 | splitting a word assembled from four nibbles gives back those nibbles |
| Decode.TableOfOperands | src/ljd_16_bit_cpu.ts:400-417 | the table rebuilds every instruction from its opcode and canonical operands |
| Decode.TableFields | src/ljd_16_bit_cpu.ts:400-417 | the operands the table stores in each variant, in terms of its nibbles |
| Memory.Route | src/ljd_16_bit_cpu.ts:246-272 | the four address ranges, each iff its bounds. The offset into ROM, RAM and I/O is the distance from the range's base, and it is below the store's size |
| Memory.RouteInjective | src/ljd_16_bit_cpu.ts:246-272 | two mapped addresses that select the same cell are equal |
| Memory.RouteCoversStores | src/ljd_16_bit_cpu.ts:246-272 | every cell of ROM, RAM and I/O buffer is reached, by base + offset |
| Alu.IsNegative | src/ljd_16_bit_cpu.ts:445 | on a word, holds iff the sign bit (bit 15) is set. It never holds of a negative number |
| Alu.IsPositiveOrZero | src/ljd_16_bit_cpu.ts:443 | is exactly the complement of `isNegative` on every number. On a word, it holds iff the sign bit is clear |
| Alu.Signed | src/ljd_16_bit_cpu.ts:443-445 | the two's-complement value lies in [-32768, 32768), is congruent to the word, and is negative iff `isNegative` |
| Alu.BasicAdd | src/ljd_16_bit_cpu.ts:274-282 | the stored word is `a + b + c` modulo 2^16 |
| Alu.AddIsExact | src/ljd_16_bit_cpu.ts:274-282 | for `add`, the stored word plus 2^16 times the carry is the exact unsigned sum |
| Alu.AddOverflowIsSignedOverflow | src/ljd_16_bit_cpu.ts:274-282 | for `add`, overflow holds iff the signed sum is out of range. Without overflow the stored word is the signed sum |
| Alu.SubtractFlags | src/ljd_16_bit_cpu.ts:147-173 | for `sub` and `sbi`, the stored word is `a - b` modulo 2^16 and the carry is never set. Overflow holds iff `a` is non-negative and the result negative |
| Alu.AddImmediateFlags | src/ljd_16_bit_cpu.ts:156-164 | for `adi`, the word is `a + k` modulo 2^16. Carry holds iff the sum reaches 2^16, and overflow iff `a < 0x8000 <= a + k` |
| Alu.SubtractFlagsAreNotTwosComplement | src/ljd_16_bit_cpu.ts:147-155 | concrete operands where the subtraction's overflow and carry differ from two's-complement subtraction |
| Alu.AddNegativeOverflowExample | src/ljd_16_bit_cpu.ts:274-282 | -32768 + -1 stores 0x7FFF with carry and overflow set |
| Alu.ShiftCarry | src/ljd_16_bit_cpu.ts:433-441 | the shift carry is the last bit moved out of the word. For a left shift by k it is bit 16 of the unbounded product, and for a right shift it is the highest of the k bits dropped |
| Alu.Shift | src/ljd_16_bit_cpu.ts:202-204 | a left shift by k keeps the low 16-k bits and moves them up by k. A right shift is unsigned: the result times 2^k plus the dropped low bits is the operand |
| Alu.ShiftFacts | src/ljd_16_bit_cpu.ts:198-207 | for every amount 1..8, the product and quotient identities by 2^k that `Alu.ShiftCarry` and `Alu.Shift` rest on |
| Alu.ShiftLeftThenRight | src/ljd_16_bit_cpu.ts:198-207 | a left shift followed by a right shift clears exactly the top k bits |
| Alu.ShiftRightThenLeft | src/ljd_16_bit_cpu.ts:198-207 | a right shift followed by a left shift clears exactly the bottom k bits |
| Alu.ShiftLeftExample | src/ljd_16_bit_cpu.ts:198-207 | 0x4005 shifted left by 2 is 0x0014 with the carry set |
| Machine.WithIoRam | src/ljd_16_bit_cpu.ts:266-267 | a write to the I/O window replaces the active buffer only. The host's buffer, the buffer choice, registers, program counter, flags and data RAM are all kept |
| Machine.Load | src/ljd_16_bit_cpu.ts:246-258 | a read fails iff the address is unmapped, with `ReadOutOfBounds(address)`. Below 0x8000 it returns `dataRom[address]`, in `[0x8000, 0xF800)` it returns `dataRam[address - 0x8000]`, and in `[0xF800, 0xFC00)` it returns word `address - 0xF800` of the active buffer |
| Machine.Store | src/ljd_16_bit_cpu.ts:260-272 | a write fails iff the address is in ROM (`RomWrite`) or unmapped (`WriteOutOfBounds`). Otherwise the state stays well-formed |
| Machine.StoreThenLoad | src/ljd_16_bit_cpu.ts:246-272 | after a successful write the address reads back the value and every other address reads as before. Registers, program counter, flags, buffer choice and the host's buffer are unchanged |
| Machine.IncInstructionCounter | src/ljd_16_bit_cpu.ts:284-286 | the program counter moves to the next address, wrapping 0xFFFF to 0, and nothing else changes |
| Machine.Execute | src/ljd_16_bit_cpu.ts:112-207 | a computing instruction changes no memory, no buffer and not the program counter |
| Machine.Step | src/ljd_16_bit_cpu.ts:107-244 | the step ends iff the instruction is `end`, and it faults only on `lod` or `str`. A stopped step changes no state, and the buffer choice is kept |
| Machine.Steps | src/ljd_16_bit_cpu.ts:87-93 | after up to `count` steps, an ended run stands on an `end` and a faulted run stands on the faulting instruction. The buffer choice is kept |
| Machine.Swap | src/ljd_16_bit_cpu.ts:94-104 | the buffers trade roles: the host gets the program's buffer, and the program's new buffer is the host's with word 0 copied over. Nothing else changes |
| Machine.Run | src/ljd_16_bit_cpu.ts:85-105 | a frame faults iff its steps fault, and then it has no swap. Otherwise the status, registers, data RAM, program counter and flags are those the steps left. The buffers are flipped: the host holds the buffer the program ended with, and the program's new buffer is the host's old one with word 0 copied in |
| Machine.Start | src/ljd_16_bit_cpu.ts:86 | a frame starts with the program counter loaded from word 0 of the active I/O buffer, and nothing else changed |
| Machine.StepFallsThrough | src/ljd_16_bit_cpu.ts:284-286 | every instruction except `end` and the branches moves the program counter to the next address, with wrap-around |
| Machine.StepKeepsFlags | src/ljd_16_bit_cpu.ts:107-244 | only `add`/`sub`/`adi`/`sbi` change overflow, and only those and `shf` change the carry |
| Machine.StepKeepsMemory | src/ljd_16_bit_cpu.ts:107-244 | only `str` changes data RAM or I/O |
| Machine.StepLoadByte | src/ljd_16_bit_cpu.ts:112-125 | `hby` replaces only the high byte of its register and `lby` only the low byte. Other registers are kept |
| Machine.StepLoad | src/ljd_16_bit_cpu.ts:126-131 | `lod` faults iff the address is at least 0xFC00. Otherwise it writes the loaded word into the destination only |
| Machine.StepStore | src/ljd_16_bit_cpu.ts:132-137 | `str` faults iff the address is in ROM or unmapped, with the matching fault. Otherwise exactly one address changes, to the value stored, and registers and the host's buffer are kept |
| Machine.StepAdd | src/ljd_16_bit_cpu.ts:138-164 | `add`/`adi` change only the destination register. The word and carry are the exact sum, and overflow is signed overflow |
| Machine.StepSubtract | src/ljd_16_bit_cpu.ts:147-173 | `sub`/`sbi` change only the destination, to `a - b` modulo 2^16. Carry is cleared, and overflow holds iff `a` is non-negative and the result negative |
| Machine.StepNot | src/ljd_16_bit_cpu.ts:192-197 | `not` stores `0xFFFF - x` into the destination only |
| Machine.StepBitwise | src/ljd_16_bit_cpu.ts:174-191 | `and`, `orr` and `xor` change only the destination register, to the bitwise combination of the two sources. Both flags are kept |
| Machine.StepShift | src/ljd_16_bit_cpu.ts:198-207 | `shf` stores the shifted word and sets the carry to the last bit shifted out. Overflow is unchanged |
| Machine.BranchOnValue | src/ljd_16_bit_cpu.ts:211-219 | the `brv` condition holds iff N is selected and the signed value is negative, or Z and the value is zero, or P and the signed value is positive |
| Machine.StepBranch | src/ljd_16_bit_cpu.ts:208-242 | branches change only the program counter. It becomes the target register when the condition holds, else `(pc + 1) mod 2^16` |
| Machine.AddressAfterWraps | src/ljd_16_bit_cpu.ts:284-286 | falling through `count` times adds `count` to the program counter modulo 2^16 |
| Machine.StraightLineNeverEnds | src/ljd_16_bit_cpu.ts:87-93 | code with no `end` and no branch never stops with `end` |
| Machine.StepsStraightLine | src/ljd_16_bit_cpu.ts:87-93 | code with no `end` and no branch that runs `count` steps without a fault leaves the program counter `count` addresses on |
| Machine.StepsAdd | src/ljd_16_bit_cpu.ts:87-93 | `a + b` steps are `a` steps, then `b` more if still running |
| Machine.StepsStayStopped | src/ljd_16_bit_cpu.ts:87-93 | once stopped by `end` or a fault, further steps change nothing |
| Machine.RunZero | src/ljd_16_bit_cpu.ts:85-105 | `run(0)` only swaps: the program counter is loaded from word 0 and the buffers trade roles with word 0 carried over |
| Machine.RunZeroTwice | src/ljd_16_bit_cpu.ts:85-105 | two `run(0)` frames restore the active buffer and its contents. The host's buffer differs at most in word 0 |
| LjdCpu.Report | src/ljd_16_bit_cpu.ts:107-244 | `step` throws iff the step faulted |
| LjdCpu.Cpu.constructor | src/ljd_16_bit_cpu.ts:60-83 | a CPU starts with zeroed registers, RAM, flags and program counter, with the first buffer active and the ROM decoded word by word |
| LjdCpu.Cpu.Create | src/ljd_16_bit_cpu.ts:70-83 | building fails iff the program ROM is not 65536 words or the data ROM not 32768, with the first failing check reported. Otherwise it gives the constructor's CPU: zeroed registers, RAM, flags and program counter, the first buffer active, the given buffers in order, and the program ROM decoded word by word |
| LjdCpu.Cpu.Read | src/ljd_16_bit_cpu.ts:246-258 | `read` on the arrays is `Load` on the state they hold |
| LjdCpu.Cpu.Write | src/ljd_16_bit_cpu.ts:260-272 | `write` updates the arrays as `Store` prescribes, or faults and changes nothing |
| LjdCpu.Cpu.BasicAdd | src/ljd_16_bit_cpu.ts:274-282 | `basicAdd` writes the adder's word into `rd` and sets both flags from it |
| LjdCpu.Cpu.IncInstructionCounter | src/ljd_16_bit_cpu.ts:284-286 | the in-place increment follows `Machine.IncInstructionCounter` |
| LjdCpu.Cpu.Step | src/ljd_16_bit_cpu.ts:107-244 | the in-place step leaves the state `Machine.Step` prescribes. It returns `true` on `end` and `false` otherwise, and it fails with the fault exactly when the step faults |
| LjdCpu.Cpu.Branch | src/ljd_16_bit_cpu.ts:208-242 | the `brv`/`brf` cases follow `Machine.Jump` on `Machine.BranchTaken` |
| LjdCpu.Cpu.Compute | src/ljd_16_bit_cpu.ts:112-207 | the non-adder computing cases (`hby`, `lby`, `and`, `orr`, `xor`, `not`, `shf`) follow `Machine.Execute` |
| LjdCpu.Cpu.Arithmetic | src/ljd_16_bit_cpu.ts:138-173 | the adder cases follow `Machine.Execute` |
| LjdCpu.Cpu.Run | src/ljd_16_bit_cpu.ts:85-105 | the in-place frame leaves the state `Machine.Run` prescribes and fails iff it faults. Otherwise it returns the buffer that was active, which is no longer the active one |
| LjdCpu.Cpu.SwapBuffers | src/ljd_16_bit_cpu.ts:94-104 | the in-place swap follows `Machine.Swap` and returns the outgoing buffer |
| LjdCpu.Padded | src/ljd_16_bit_cpu.ts:51-54 | the padded ROM image has exactly the size of the store |
| LjdCpu.MakeDebugCpu | src/ljd_16_bit_cpu.ts:48-58 | fails iff a ROM image is too long, with the first failing check reported. Otherwise it gives a fresh, zeroed CPU over the zero-padded, truncated images, and the host gets the second I/O buffer |

## Left out

- Error messages. `ensure`, `ensureLength`, `ensureMaxLength` and the `throw`s of
  `read`/`write` produce formatted strings. Here they are `Failure` values naming
  the failing check (`ArgumentError`, `Fault`).
- JavaScript numbers in the ROM images that are not integers (fractions, `NaN`,
  infinities). `MakeDebugCpu` takes integer sequences. Their `Uint16Array`
  conversion is `ToUint16`, which reduces modulo 2^16.
- `run(n)` with a negative or fractional `n`. The model takes `n: nat`. A
  non-positive `n` behaves like 0 in the source.
- LjdCpu.Cpu.constructor: the source does not check that the two I/O buffers
  hold 1024 words and are distinct arrays. The model requires both, because the
  address decoder indexes them up to 1023 and the swap assumes two buffers.
- LjdCpu.Cpu.constructor: the data ROM is copied into an immutable sequence rather
  than kept by reference. The simulator never writes it, but a host that keeps a
  reference to the array and mutates it would be seen by the source and not by
  the model.
- `makeCpu` is an alias of `makeDebugCpu` and has no member of its own.
- The interfaces `ICpu` and `ICpuWithIoRam`. The class `CpuWithIoRam` is a
  datatype pairing the CPU with the host's buffer. The host-side protocol is left
  out: the host fills the returned buffer while the CPU runs on the other one, but
  that protocol cannot be expressed inside the model, and host writes to
  the buffers between frames are not modelled.
- The eager decoding of all 65536 program words is kept as a sequence of decoded
  instructions, built by `Decode.Decode` per word. The intermediate
  `Array.from(...).map(...)` is not modelled separately.
- Exceptions are not propagated as such. A fault inside `step` throws out of `run`
  in the source. The model stops the frame and returns the fault. The state left
  behind is the state before the faulting instruction, which is also what the
  source leaves, since `read` and `write` throw before changing anything.
