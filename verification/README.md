# Register file of a Game Boy (Z80-family) CPU, in Dafny

This project models `src/cpu.rs` of punydmg: the CPU's register file. Eight
byte registers (B, C, D, E, H, L, A, F) each own one 8-bit cell that starts
at 0; four 16-bit pairs (BC, DE, HL, AF) are views over two byte registers
and own nothing; the flags Z, N, H and C are bits 7, 6, 5 and 4 of F; the
program counter and stack pointer are plain 16-bit values.

The state is an immutable record (`CpuState.Cpu`) of eight `bv8` cells and
two `bv16` values, and every operation is a pure function from state to
state. An access of the wrong width (a 16-bit access to a byte register, an
8-bit access to a pair) panics in the source; here it returns
`Failure(InvalidAccessWidth(name, direction, width))`, and a refused write
commits nothing (`Access.Commit(s, r) == s`). The `u16 -> u8`
`try_into().unwrap()` of `write_u16` is `Access.Unwrap`, whose precondition
`x <= 0xff` holds exactly when the unwrap does not panic, so each call in
`WriteU16` is an obligation that it cannot fail.

Modules, one per concern of the source file:

- `Wrappers` (wrappers.dfy): the `Result` type.
- `RegNames` (reg_names.dfy): `RegName`, the byte/pair kinds, the pair table `View`.
- `CpuState` (cpu_state.dfy): the cells, `Cpu::new`, byte-register read and write.
- `Access` (access.dfy): width-checked `read_u8`, `write_u8`, `read_u16` and
  `write_u16` by name, with pairs read and written through their upper (high
  byte) and lower (low byte) registers. This is the intended behaviour; the
  flag operations use it.
- `AsWritten` (as_written.dfy): `read_u16` and `write_u16` exactly as the
  source writes them, and lemmas stating how they differ from `Access`
  (see Findings).
- `Flags` (flags.dfy): `FlagName`, `set_flag`, `set_flags`.

The code of `read_u16` and `write_u16` (src/cpu.rs:157, 167) disagrees with
the doc comment on `RegName` (src/cpu.rs:73-74) and with the pair table
(src/cpu.rs:30-33): it looks up `upper` where the second lookup should be
`lower`. `Access` follows the doc comment and the pair table; `AsWritten`
follows the code line for line.

## Model

| member | source | states |
|---|---|---|
| RegNames.KindsPartitionNames | src/cpu.rs:76-92 | every register name is either a byte register or a pair, never both |
| RegNames.View | src/cpu.rs:30-33 | each pair is a view over two distinct byte registers, and its name is the upper register's name followed by the lower register's |
| RegNames.ViewDeterminedByName | src/cpu.rs:30-33 | the pair table is the naming convention: two byte registers whose names spell a pair's name are its upper and lower halves |
| RegNames.ViewsDisjoint | src/cpu.rs:30-33 | two different pairs share no byte register |
| RegNames.EveryByteInSomePair | src/cpu.rs:19-33 | the four pairs together cover all eight byte registers |
| CpuState.New | src/cpu.rs:16-35 | a new CPU has every byte register, pc and sp equal to 0 |
| CpuState.Set | src/cpu.rs:130-132 | a byte write stores the value in that register and leaves every other register, pc and sp unchanged |
| CpuState.Extensionality | src/cpu.rs:6-13 | the eight cells with pc and sp are the whole state: states that agree on them are equal |
| CpuState.SetSetSame | src/cpu.rs:130-132 | writing a register twice keeps only the second value |
| CpuState.SetSetCommute | src/cpu.rs:130-132 | writes to different registers can be reordered |
| CpuState.SetGetIdentity | src/cpu.rs:122-132 | writing back a register's current value changes nothing |
| Access.ReadU8 | src/cpu.rs:122-124 | an 8-bit read succeeds exactly for byte registers and returns the register's cell; for a pair it is refused with the pair's name |
| Access.WriteU8 | src/cpu.rs:130-132 | an 8-bit write succeeds exactly for byte registers, stores the value there and changes no other register, pc or sp; for a pair it is refused |
| Access.Unwrap | src/cpu.rs:171-172 | the `u16 -> u8` conversion is defined for values up to 0xff and preserves the number |
| Access.SplitReconstructs | src/cpu.rs:168-172 | `(v >> 8) & 0xff` and `v & 0xff` both fit in a byte, so the unwraps cannot fail, and high * 256 + low equals v |
| Access.Join | src/cpu.rs:158 | shifting hi left by 8 and or-ing in lo gives the number hi * 256 + lo |
| Access.HighByte | src/cpu.rs:168 | `(v >> 8) & 0xff` is v div 256 |
| Access.LowByte | src/cpu.rs:169 | `v & 0xff` is v mod 256 |
| Access.JoinSplit | src/cpu.rs:158-172 | splitting a 16-bit value into bytes and joining them are inverse to each other |
| Access.ReadU16 | src/cpu.rs:155-159 | a 16-bit read succeeds exactly for pairs; its high byte is the upper register and its low byte the lower register; for a byte register it is refused |
| Access.WriteU16 | src/cpu.rs:165-173 | a 16-bit write succeeds exactly for pairs, puts the high byte of v in the upper and the low byte in the lower register, and changes no other register, pc or sp; for a byte register it is refused |
| Access.ByteWriteThenRead | src/cpu.rs:122-132 | after writing v to a byte register, reading it returns v and reads of every other byte register, pc and sp are unchanged |
| Access.PairWriteThenRead | src/cpu.rs:155-173 | round trip: after writing v to a pair, reading the pair returns v |
| Access.PairWriteOwnValue | src/cpu.rs:155-173 | writing a pair's current value back to it leaves the whole state unchanged |
| Access.PairWriteVisibleInBytes | src/cpu.rs:165-173 | after writing v to a pair, the upper register reads v >> 8, the lower reads v & 0xff, and every other byte register reads as before |
| Access.ByteWritesVisibleInPair | src/cpu.rs:155-158 | after writing hi to the upper and lo to the lower register, the pair reads hi * 256 + lo |
| Access.PairWriteFramesOtherPairs | src/cpu.rs:165-173 | writing one pair leaves the value of every other pair unchanged |
| Access.WidthMismatchRejected | src/cpu.rs:126-162 | a 16-bit read or write of a byte register, and an 8-bit read or write of a pair, are refused with the register's name, the direction and the width, and a refused write leaves the state as it was |
| Access.FreshStateReadsZero | src/cpu.rs:16-35 | on a new CPU every byte register and every pair reads 0, and pc and sp are 0 |
| AsWritten.ReadU16 | src/cpu.rs:155-158 | as written, a pair read returns the upper register's value times 257, and a byte register is refused |
| AsWritten.WriteU16 | src/cpu.rs:165-173 | as written, a pair write leaves the low byte of v in the upper register and changes no other register, the lower one included |
| AsWritten.ReadIgnoresLower | src/cpu.rs:156-158 | as written, two states that agree on the upper register read the same pair value even when their lower registers differ, although the intended reads differ |
| AsWritten.WriteMissesLower | src/cpu.rs:166-173 | as written, a pair write never changes the lower register and leaves v & 0xff in the upper one |
| AsWritten.ReadAgreesIff | src/cpu.rs:155-158 | the as-written pair read equals the intended one exactly when the upper and lower registers hold the same byte |
| AsWritten.RoundTripIff | src/cpu.rs:155-173 | the as-written round trip returns v exactly when the high and low bytes of v are equal |
| AsWritten.ReadFailsAt0x1234 | src/cpu.rs:155-158 | with B = 0x12 and C = 0x34, reading BC gives 0x1212 as written, but 0x1234 with the intended access |
| AsWritten.RoundTripFailsAt0x1234 | src/cpu.rs:165-173 | writing 0x1234 to BC on a new CPU and reading BC gives 0x3434 as written, but 0x1234 with the intended access |
| Flags.Index | src/cpu.rs:39-44 | every flag's bit lies in the upper nibble of F (bits 4 to 7) |
| Flags.SetBitOnly | src/cpu.rs:46-49 | or-ing with the mask 1 << k sets bit k and leaves the other seven bits alone |
| Flags.ClearBitOnly | src/cpu.rs:50-51 | and-ing with the complement of 1 << k clears bit k and leaves the other seven bits alone |
| Flags.UpdateBit | src/cpu.rs:46-52 | the masking step makes bit k equal to the requested value and changes no other bit |
| Flags.SetFlag | src/cpu.rs:38-53 | after `set_flag(f, b)` the flag's bit equals b, every other bit of F is unchanged, and every other register, pc and sp are unchanged |
| Flags.AsU8 | src/cpu.rs:56 | `b as u8` is 1 for true and 0 for false |
| Flags.SetFlags | src/cpu.rs:55-59 | after `set_flags(z, n, h, c)` F equals the or of z << 7, n << 6, h << 5 and c << 4: the Z, N, H and C bits equal z, n, h and c, bits 0 to 3 of F are clear, and no other register changes |
| Flags.SetFlagIdempotent | src/cpu.rs:38-53 | applying the same `set_flag` call twice has the effect of applying it once |
| Flags.SetFlagCommutes | src/cpu.rs:38-53 | `set_flag` calls on different flags can be reordered |
| Flags.SetFlagsIgnoresPriorF | src/cpu.rs:55-59 | the result of `set_flags` does not depend on the previous value of F |
| Flags.FlagWritesFrame | src/cpu.rs:38-53 | after any sequence of `set_flag` calls each flag holds the last value written to it (or its old value), bits 0 to 3 of F are unchanged, and no other register, pc or sp changes |
| Flags.SetFlagsIsFourSetFlags | src/cpu.rs:38-59 | `set_flags(z, n, h, c)` equals clearing F and then calling `set_flag` for Z, N, H and C in turn |
| Flags.FlagExamples | src/cpu.rs:38-59 | from a new CPU, setting Z gives F = 0x80 and then setting C gives 0x90; `set_flags(true, false, true, false)` gives 0xA0 whatever F held |

## Left out

- `RefCell` interior mutability, the `BTreeMap<RegName, Box<dyn RegValue>>` and trait-object dispatch: the state is an immutable record and the dispatch is a test of the register's kind. Map lookups cannot miss, because `Cpu::new` inserts all twelve names.
- The `Display` impl and the wording of the panic messages: only the fact that an access is refused, with the register's name, the direction and the width, is kept. A pair's name as printed by the messages (upper then lower) equals its own name, as `RegNames.View` states.
- Panics are modelled as `Failure` results; unwinding itself is not modelled.
- Advancing pc or sp, opcode decoding, memory and timing: none of these exist in `src/cpu.rs`. pc and sp are only stored.

## Findings

| source | as written | input that shows it | evidently intended | confidence | as-written member | corrected member |
|---|---|---|---|---|---|---|
| src/cpu.rs:157 | `read_u16` binds `lower` to `cpu.regs[&self.upper]`, so a pair read returns the upper register twice (upper * 257) | B = 0x12, C = 0x34: reading BC gives 0x1212 | `cpu.regs[&self.lower]`, so the read gives 0x1234 | high (not executed) | AsWritten.ReadFailsAt0x1234 | Access.ByteWritesVisibleInPair |
| src/cpu.rs:167 | `write_u16` binds `lower` to `cpu.regs[&self.upper]`, so the low byte overwrites the upper register and the lower register is never written | writing 0x1234 to BC leaves B = 0x34 and C unchanged; reading BC back gives 0x3434 | `cpu.regs[&self.lower]`, so B = 0x12, C = 0x34 and the round trip returns 0x1234 | high (not executed) | AsWritten.RoundTripFailsAt0x1234 | Access.PairWriteThenRead |
