# A verified model of the CPU, APU and mapper 87 of a NES emulator

This project models three parts of a NES emulator written in TypeScript:

- the MOS 6502 interpreter `Cpu` (src/nes/cpu.ts);
- the audio processing unit `Apu` (src/nes/apu.ts), with its two game pads and its five sound channels (two pulse, one triangle, one noise and one DMC);
- the write handler of mapper 87 (src/nes/mapper/mapper087.ts), which selects a CHR bank.

Each part has two layers:

- A pure specification: datatypes and functions over values. This layer is NesCpuSpec, NesApuSpec, and the bank function of NesMapper087.
- An imperative layer with the source's own classes. These are `Cpu`, `GamePad`, `Channel`, `Apu` and `Mapper087`. Their fields are updated in place, and every method is proved to produce exactly the state that its specification function describes.

The properties the source promises are proved as lemmas about the specification functions, in NesCpuProps, NesApuProps, NesApuChannelProps, NesApuStateProps and NesMapper087.

Files:

- `types.dfy` (NesTypes): the `Byte` type, powers of two, bit tests, bitwise AND/OR/XOR on integers with their bit-by-bit meaning, and facts about division.
- `cpu_spec.dfy` (NesCpuSpec): the machine state (registers, P as a `bv8`, the paused flag, the step log, the debug hooks and a 64 KiB bus) and one function per operation of `Cpu`.
- `cpu.dfy` (NesCpu): the class `Cpu` and the loop that builds `kNZTable`.
- `cpu_props.dfy` (NesCpuProps): ADC/SBC/compare semantics, branches, the stack, interrupts, reset, save/load.
- `apu_spec.dfy` (NesApuSpec): the pads, the channel state, the APU state and their operations.
- `apu.dfy` (NesApu): the classes `GamePad`, `Channel` and `Apu`.
- `apu_props.dfy` (NesApuProps): the pads, the status register, and arithmetic on bits.
- `apu_channel_props.dfy` (NesApuChannelProps): counter ranges, silencing by the length counter, the envelope, the sweep, the DMC, and output ranges.
- `apu_state_props.dfy` (NesApuStateProps): register writes, reset, h-blank, counter ranges across the APU, save/load.
- `mapper087.dfy` (NesMapper087): the bank selection.

How the model represents the source:

- Data bytes are integers 0..255.
- Tests `(v & MASK) !== 0` become `HasBit(v, MASK)`.
- Floating-point outputs stay exact integers. A volume is a numerator over 15, a duty ratio is counted in eighths, and a frequency is an integer division, as `| 0` truncates it.
- The `triggerIrq` callback is not called. `Apu.OnHblank` returns which calls it would make (`IrqCalls`), and `Channel.DmcUpdateLength` returns whether the DMC would call it.
- The APU's `frameInterrupt` and `dmcInterrupt` fields only ever hold 0 or 0x40 and 0 or 0x80, so they are booleans here.
- The four channel subclasses are one class, `Channel`. Its constant `kind` selects what the subclass does in each method.

## Model

A specification function whose imperative counterpart is a method proved equal to it is covered by that method's row. For example, `NesApuSpec.Write` is covered by `NesApu.Apu.Write` and `NesCpuSpec.Step` by `NesCpu.Cpu.Step`. The lemmas that state what such a function does have rows of their own.

| member | source | states |
|---|---|---|
| NesCpuSpec.SetReset | src/nes/cpu.ts:50-54 | the bits of `mask` are all set when `flag` holds and all clear otherwise; every other bit of P is kept |
| NesCpuSpec.NZTableEntry | src/nes/cpu.ts:37-48 | the `kNZTable` entry of `v` has Z exactly when v is 0, N exactly when v ≥ 0x80, and no other bit |
| NesCpuSpec.Inc8 | src/nes/cpu.ts:56-58 | increment modulo 256: the result is 0 exactly for 0xFF, otherwise v + 1 |
| NesCpuSpec.Dec8 | src/nes/cpu.ts:60-62 | decrement modulo 256: the result is 0xFF exactly for 0, otherwise v - 1 |
| NesCpuSpec.ToSigned | src/nes/cpu.ts:64-66 | the two's-complement reading: in -128..127, congruent to v modulo 256, negative exactly when bit 7 is set |
| NesCpuSpec.SetNZ | src/nes/cpu.ts:591-593 | Z is set exactly when the value is 0 and N exactly when it is ≥ 0x80; the other flags are kept |
| NesCpuSpec.SetNZC | src/nes/cpu.ts:596-598 | as SetNZ, and C is the given carry; the other flags are kept |
| NesCpuSpec.AddWithCarry | src/nes/cpu.ts:270-293 | the adder of ADC and SBC: the value is (A + M + C) mod 256 and the carry is set exactly when the sum reaches 256 |
| NesCpuSpec.Compare | src/nes/cpu.ts:408-428 | C exactly when reg ≥ M, Z exactly when they are equal, N is bit 7 of reg - M mod 256; the other flags are kept |
| NesCpuSpec.BitTest | src/nes/cpu.ts:398-406 | BIT: Z exactly when A & M is 0, N and V copied from bits 7 and 6 of M, the other flags kept |
| NesCpuSpec.ShiftLeft | src/nes/cpu.ts:374-385 | ASL: the carry and the 8-bit value together are 2·v |
| NesCpuSpec.ShiftRight | src/nes/cpu.ts:386-397 | LSR: 2·value + carry is v |
| NesCpuSpec.RotateLeft | src/nes/cpu.ts:348-360 | ROL: the carry and the value together are 2·v + old carry |
| NesCpuSpec.RotateRight | src/nes/cpu.ts:361-373 | ROR: 2·value + carry is v + 256·old carry |
| NesCpuSpec.BranchTarget | src/nes/cpu.ts:661-668 | the branch target is in 0..0xFFFF and congruent to PC plus the signed offset |
| NesCpuSpec.TakenPenalty | src/nes/cpu.ts:661-668 | a taken branch costs 1 or 2 extra cycles, and 2 exactly when bit 8 of the page changes |
| NesCpuSpec.AddLog | src/nes/cpu.ts:608-616 | the step log grows by one up to 200 entries; the new entry is last and the others are the most recent of the old ones |
| NesCpuSpec.Read8 | src/nes/cpu.ts:528-536 | answers the bus cell; only `paused` changes, and it is set when the address is watched |
| NesCpuSpec.Read16 | src/nes/cpu.ts:538-542 | a 16-bit read changes nothing but `paused` |
| NesCpuSpec.IndirectHighAddress | src/nes/cpu.ts:544-548 | the high byte of an indirect word is read from the same page, at the low address byte + 1 modulo 256 |
| NesCpuSpec.Read16Indirect | src/nes/cpu.ts:544-548 | an indirect read changes nothing but `paused` |
| NesCpuSpec.Push | src/nes/cpu.ts:562-565 | `push` changes only the bus and S, which drops by one modulo 256 |
| NesCpuSpec.Push16 | src/nes/cpu.ts:567-573 | `push16` changes only the bus and S, which drops by two modulo 256 |
| NesCpuSpec.Pop | src/nes/cpu.ts:575-578 | `pop` changes only S, which rises by one modulo 256, and `paused` |
| NesCpuSpec.Pop16 | src/nes/cpu.ts:580-588 | `pop16` changes only S, which rises by two modulo 256, and `paused` |
| NesCpuSpec.GetAdr | src/nes/cpu.ts:618-659 | resolving an operand address changes nothing but `paused`; the address of each mode is stated in NesCpuProps.NoMemoryAdr, ZeroPageAdr, AbsoluteAdr, IndirectXAdr, IndirectYAdr and IndirectAbsAdr |
| NesCpuSpec.DirectAdr | src/nes/cpu.ts:626-637 | the direct addressing modes change nothing but `paused`; their addresses are stated in NesCpuProps.ZeroPageAdr and AbsoluteAdr |
| NesCpuSpec.IndirectAdr | src/nes/cpu.ts:638-653 | the indirect addressing modes change nothing but `paused`; their addresses are stated in NesCpuProps.IndirectXAdr, IndirectYAdr and IndirectAbsAdr |
| NesCpu.BuildNZTable | src/nes/cpu.ts:37-48 | the loop fills 256 entries; entry i has Z exactly when i is 0 and N exactly when i ≥ 0x80 |
| NesCpu.Cpu.constructor | src/nes/cpu.ts:119-124 | A, X, Y and S start at 0, not paused, with an empty log and no break or watch points; P and PC also start at 0, where the source leaves them undefined (see Left out) |
| NesCpu.Cpu.Reset | src/nes/cpu.ts:125-130 | the new state is `Reset` of the old one (P = I\|B\|R, S - 3, PC from the reset vector, log emptied; see NesCpuProps.ResetState) |
| NesCpu.Cpu.Save | src/nes/cpu.ts:132-141 | answers the snapshot of A, X, Y, S, P and PC |
| NesCpu.Cpu.Load | src/nes/cpu.ts:143-150 | the registers take the snapshot's values and nothing else changes |
| NesCpu.Cpu.DeleteAllBreakPoints | src/nes/cpu.ts:152-156 | break points, the NMI break and both watch sets are emptied |
| NesCpu.Cpu.Pause | src/nes/cpu.ts:158-160 | `paused` takes the given value |
| NesCpu.Cpu.Nmi | src/nes/cpu.ts:167-181 | the new state is `Nmi` of the old one (see NesCpuProps.NmiEntry) |
| NesCpu.Cpu.NmiEnter | src/nes/cpu.ts:174-180 | the new state is `NmiEnter` of the old one: the frame is pushed and PC jumps to the vector with I set |
| NesCpu.Cpu.RequestIrq | src/nes/cpu.ts:183-195 | answers whether the IRQ was taken and leaves `RequestIrq` of the old state (see NesCpuProps.IrqTaken, IrqBlocked) |
| NesCpu.Cpu.Step | src/nes/cpu.ts:197-526 | the new state and the cycle count are `Step` of the old state and the instruction table |
| NesCpu.Cpu.Fetch | src/nes/cpu.ts:198-202 | logs the step when debugging, then reads the opcode at PC |
| NesCpu.Cpu.Decode | src/nes/cpu.ts:203-208 | an opcode without a table entry pauses and takes 0 cycles; a defined one is dispatched |
| NesCpu.Cpu.Dispatch | src/nes/cpu.ts:210-212 | PC moves past the instruction, the operand is resolved, then the instruction runs |
| NesCpu.Cpu.Operand | src/nes/cpu.ts:210-211 | PC moves by the instruction length and the operand address is resolved from the byte after the opcode |
| NesCpu.Cpu.Run | src/nes/cpu.ts:214-525 | the instruction executes; a break point at the new PC pauses |
| NesCpu.Cpu.Execute | src/nes/cpu.ts:216-517 | the dispatch on the operation type gives `Execute`'s state and cycles |
| NesCpu.Cpu.ExecLoadStore | src/nes/cpu.ts:222-245 | LDA/LDX/LDY load the register and set N, Z; STA/STX/STY write the register to the bus |
| NesCpu.Cpu.ExecTransfer | src/nes/cpu.ts:220-269 | NOP and TAX/TAY/TXA/TYA/TXS/TSX copy the register and set N, Z (TXS sets none), as `ExecTransfer` of the old state (see NesCpuProps.TransferSemantics) |
| NesCpu.Cpu.ExecAddSub | src/nes/cpu.ts:270-294 | ADC and SBC through the shared adder (see NesCpuProps.AdcSemantics, SbcSemantics) |
| NesCpu.Cpu.ExecIncDec | src/nes/cpu.ts:295-326 | INX/INY/DEX/DEY and INC/DEC on memory, modulo 256, with N and Z |
| NesCpu.Cpu.ExecLogic | src/nes/cpu.ts:327-347 | AND/ORA/EOR combine A with M and set N, Z; BIT sets the test flags; as `ExecLogic` of the old state (see NesCpuProps.LogicSemantics) |
| NesCpu.Cpu.SetBitTest | src/nes/cpu.ts:398-406 | P becomes `BitTest` of the old P, A and M |
| NesCpu.Cpu.ExecCompare | src/nes/cpu.ts:408-428 | CMP/CPX/CPY set the compare flags (see NesCpuProps.CompareSemantics) |
| NesCpu.Cpu.ExecShift | src/nes/cpu.ts:348-397 | ROL/ROR/ASL/LSR on A or memory, with the carry and N, Z |
| NesCpu.Cpu.ExecJump | src/nes/cpu.ts:430-443 | JMP, JSR, RTS and RTI give `ExecJump`'s state (see NesCpuProps.JsrRts, RtiPopsFrame) |
| NesCpu.Cpu.ExecJsr | src/nes/cpu.ts:433-436 | JSR pushes PC - 1 and jumps |
| NesCpu.Cpu.ExecRti | src/nes/cpu.ts:440-443 | RTI pulls P (reserved bit set), then PC |
| NesCpu.Cpu.ExecBreak | src/nes/cpu.ts:511-516 | BRK pushes PC + 1 and P with B set, then jumps through the IRQ vector with I set |
| NesCpu.Cpu.Trace | src/nes/cpu.ts:199-201 | the entry is logged when the debug switch is on |
| NesCpu.Cpu.PushState | src/nes/cpu.ts:177-178 | the interrupt frame is pushed (see NesCpuProps.PushStateFrame) |
| NesCpu.Cpu.EnterVector | src/nes/cpu.ts:192-193 | PC is read from the vector and I is set |
| NesCpu.Cpu.ExecStack | src/nes/cpu.ts:470-482 | PHA/PHP push A or P with B set; PLA pulls A with N, Z; PLP pulls P with the reserved bit |
| NesCpu.Cpu.ExecFlag | src/nes/cpu.ts:484-509 | CLC/SEC/SEI/CLI/CLV/SED/CLD clear or set their one flag, as `ExecFlag` of the old P (see NesCpuProps.FlagInstruction) |
| NesCpu.Cpu.Read8 | src/nes/cpu.ts:528-536 | answers the bus cell and pauses on a watched address |
| NesCpu.Cpu.BusWrite8 | src/nes/cpu.ts:226-228 | the bus cell at the address takes the value |
| NesCpu.Cpu.Read16 | src/nes/cpu.ts:538-542 | answers the little-endian word at the address |
| NesCpu.Cpu.Read16Indirect | src/nes/cpu.ts:544-548 | answers the word whose high byte comes from the same page |
| NesCpu.Cpu.Push | src/nes/cpu.ts:562-565 | writes at 0x100 + S and decrements S |
| NesCpu.Cpu.Push16 | src/nes/cpu.ts:567-573 | writes the high byte, then the low byte, below S |
| NesCpu.Cpu.Pop | src/nes/cpu.ts:575-578 | increments S and reads at 0x100 + S |
| NesCpu.Cpu.Pop16 | src/nes/cpu.ts:580-588 | reads the low byte, then the high byte, above S |
| NesCpu.Cpu.SetNZFlag | src/nes/cpu.ts:591-593 | P becomes `SetNZ` of the old P |
| NesCpu.Cpu.SetNZCFlag | src/nes/cpu.ts:596-598 | P becomes `SetNZC` of the old P |
| NesCpu.Cpu.SetZero | src/nes/cpu.ts:600-602 | only Z changes, to the given value |
| NesCpu.Cpu.SetOverFlow | src/nes/cpu.ts:604-606 | only V changes, to the given value |
| NesCpu.Cpu.AddStepLog | src/nes/cpu.ts:608-616 | the log becomes `AddLog` of the old log |
| NesCpu.Cpu.GetAdr | src/nes/cpu.ts:618-659 | the state and the address become `GetAdr` of the old state, whose address per mode NesCpuProps.NoMemoryAdr, ZeroPageAdr, AbsoluteAdr, IndirectXAdr, IndirectYAdr and IndirectAbsAdr state |
| NesCpu.Cpu.DirectAdr | src/nes/cpu.ts:618-637 | implied, immediate, zero-page and absolute modes, as `GetAdr` of the old state (see NesCpuProps.NoMemoryAdr, ZeroPageAdr, AbsoluteAdr) |
| NesCpu.Cpu.IndirectAdr | src/nes/cpu.ts:638-658 | (zp,X), (zp),Y and (abs) modes and an unknown mode, which pauses, as `GetAdr` of the old state (see NesCpuProps.IndirectXAdr, IndirectYAdr, IndirectAbsAdr, NoMemoryAdr) |
| NesCpu.Cpu.Branch | src/nes/cpu.ts:661-668 | a branch moves PC by the signed offset when its condition holds and answers the extra cycles |
| NesCpuProps.AddOverflowIsSignedOverflow | src/nes/cpu.ts:274-277 | V is set exactly when the signed sum of A, M and C is outside -128..127 |
| NesCpuProps.AddSubResult | src/nes/cpu.ts:270-293 | ADC and SBC give A the adder's value and set N, Z, C, V from it, keeping the other flags; apart from A and P the only change is `paused`, set when the operand address is watched |
| NesCpuProps.AdcSemantics | src/nes/cpu.ts:270-280 | ADC: A = A + M + C mod 256, C is the unsigned carry, V the signed overflow |
| NesCpuProps.SbcSemantics | src/nes/cpu.ts:281-293 | SBC: A = A - M - (1 - C) mod 256, C exactly when no borrow, V the signed overflow |
| NesCpuProps.SubtractAsAdd | src/nes/cpu.ts:281-293 | subtracting M with borrow equals adding 255 - M with carry |
| NesCpuProps.FlagsAfterAdd | src/nes/cpu.ts:277-279 | after the adder N, Z, C, V come from the result and the other flags are kept |
| NesCpuProps.TransferSemantics | src/nes/cpu.ts:246-268 | TAX, TAY, TXA, TYA, TXS and TSX copy one register into another and change no other register; all but TXS set N and Z from the copied value and keep the other flags, and TXS keeps P |
| NesCpuProps.FlagInstruction | src/nes/cpu.ts:484-509 | SEC, SEI and SED set, and CLC, CLI, CLV and CLD clear, their one flag of P; every other bit of P is kept |
| NesCpuProps.CompareSemantics | src/nes/cpu.ts:408-428 | CMP/CPX/CPY set C when reg ≥ M, Z when reg = M, and N to bit 7 of reg - M, keeping the other flags; apart from P the only change is `paused`, set when the operand address is watched |
| NesTypes.BitwiseBit | src/nes/cpu.ts:327-347 | bit k of `x & y`, `x \| y` and `x ^ y` within the width is the and, or, or exclusive-or of bit k of x and bit k of y |
| NesCpuProps.LogicSemantics | src/nes/cpu.ts:327-347 | bit k of A after AND, ORA or EOR is bit k of A and, or, or exclusive-or bit k of M; N and Z follow the new A and the other flags are kept; BIT keeps A and sets P by `BitTest`; apart from A and P the only change is `paused`, set when the operand address is watched |
| NesCpuProps.BranchNotTaken | src/nes/cpu.ts:661-663 | a branch whose condition fails changes nothing and costs 0 extra cycles |
| NesCpuProps.BranchTaken | src/nes/cpu.ts:661-668 | a taken branch moves PC by the signed offset and costs 2 exactly on a page crossing, 1 otherwise |
| NesCpuProps.PageCrossFlipsBit8 | src/nes/cpu.ts:667 | for a jump of at most 128 bytes, `(pc ^ newPc) & 0x100` detects exactly a change of page |
| NesCpuProps.StackCells | src/nes/cpu.ts:562-573 | the three cells an interrupt writes are distinct addresses of page 1 |
| NesCpuProps.PushPop | src/nes/cpu.ts:562-578 | `pop` after `push` answers the pushed byte and restores S |
| NesCpuProps.Push16Pop16 | src/nes/cpu.ts:567-588 | `pop16` after `push16` answers the pushed word and restores S |
| NesCpuProps.JsrRts | src/nes/cpu.ts:433-439 | JSR then RTS resumes after the JSR instruction with S restored |
| NesCpuProps.StatusByteValue | src/nes/cpu.ts:473-475 | the byte pushed for P is the unsigned value of its bits |
| NesCpuProps.StatusByteRoundTrip | src/nes/cpu.ts:473-482 | that byte read back as a status register is P itself |
| NesCpuProps.PullPushedStatus | src/nes/cpu.ts:480-482 | PLP/RTI read back the pushed P with the reserved bit set |
| NesCpuProps.PhpPlp | src/nes/cpu.ts:473-482 | PHP then PLP restores P (with B and R set) and S |
| NesCpuProps.IrqBlocked | src/nes/cpu.ts:183-186 | while I is set `requestIrq` answers false and changes nothing |
| NesCpuProps.PushStateWrites | src/nes/cpu.ts:190-191 | the three bus writes and the change of S of an interrupt, written out |
| NesCpuProps.PushStateFrame | src/nes/cpu.ts:190-191 | an interrupt saves PC high byte first, then P, below S; S drops by 3 and nothing outside the stack page changes |
| NesCpuProps.StackWritesStayInStack | src/nes/cpu.ts:562-573 | writes to the three stack cells leave every cell outside page 1 unchanged |
| NesCpuProps.RtiPopsFrame | src/nes/cpu.ts:440-443 | RTI on a saved frame returns to the saved PC, restores P from the saved byte and restores S |
| NesCpuProps.PopReturnAddress | src/nes/cpu.ts:580-588 | `pop16` on a saved return address answers it and restores S |
| NesCpuProps.VectorAfterFrame | src/nes/cpu.ts:192 | the vector read after the frame is pushed is the one stored before |
| NesCpuProps.IrqTaken | src/nes/cpu.ts:183-195 | a taken IRQ pushes PC and P with B clear, drops S by 3, makes P the old P with I set, keeps A, X and Y, and continues at the IRQ vector |
| NesCpuProps.IrqRti | src/nes/cpu.ts:183-195 | RTI after a taken IRQ returns to the interrupted PC with P and S restored |
| NesCpuProps.NmiEnterFrame | src/nes/cpu.ts:177-180 | the end of `nmi` pushes the frame, makes P the old P with I set, keeps A, X and Y, and jumps to the vector |
| NesCpuProps.TraceKeepsMachine | src/nes/cpu.ts:608-616 | logging a step changes no register, memory cell or the paused flag |
| NesCpuProps.NmiReadsVector | src/nes/cpu.ts:168-172 | `nmi` reads the vector first and pauses when breaking on NMI |
| NesCpuProps.NmiEntry | src/nes/cpu.ts:167-181 | `nmi` saves the same frame as an IRQ whatever I is, makes P the old P with I set, keeps A, X and Y, continues at the NMI vector, and pauses exactly on a break on NMI or a watched vector read |
| NesCpuProps.ResetState | src/nes/cpu.ts:125-130 | `reset` sets P to 0x34, drops S by 3 modulo 256, reads PC from the reset vector and empties the log |
| NesCpuProps.Read16IndirectSamePage | src/nes/cpu.ts:544-548 | an indirect word at 0x..FF takes its high byte from 0x..00 of the same page, and elsewhere it is the plain word |
| NesCpuProps.NoMemoryAdr | src/nes/cpu.ts:619-625 | accumulator and implied modes give no address, immediate and relative modes the operand's own address; an unknown mode gives no address and pauses (cpu.ts:654-658); nothing else changes |
| NesCpuProps.ZeroPageAdr | src/nes/cpu.ts:626-631 | zero-page modes: the operand byte plus X, Y or nothing, modulo 256 |
| NesCpuProps.AbsoluteAdr | src/nes/cpu.ts:632-637 | absolute modes: the operand word plus X, Y or nothing, modulo 65536 |
| NesCpuProps.IndirectXAdr | src/nes/cpu.ts:638-642 | (zp,X): the page-0 word at the operand byte plus X modulo 256, its high byte taken from the same page |
| NesCpuProps.IndirectYAdr | src/nes/cpu.ts:643-648 | (zp),Y: the page-wrapped word at the operand byte, plus Y, modulo 65536 |
| NesCpuProps.IndirectAbsAdr | src/nes/cpu.ts:649-653 | (abs): the word at the operand word, its high byte taken from the same page |
| NesCpuProps.PageWordRead | src/nes/cpu.ts:544-548 | `read16Indirect` answers the page-wrapped word |
| NesCpuProps.StepUndefined | src/nes/cpu.ts:203-208 | an opcode without a table entry pauses, costs 0 cycles and leaves the registers alone |
| NesCpuProps.OperandImmediate | src/nes/cpu.ts:210-211 | an immediate operand is the byte after the opcode, and PC moves past the instruction |
| NesCpuProps.StepLdaImmediate | src/nes/cpu.ts:222-225 | `LDA #v` loads v, sets N and Z from it and moves PC by 2 |
| NesCpuProps.SaveLoadRoundTrip | src/nes/cpu.ts:132-150 | `load` of a `save` into any state gives that state with A, X, Y, S, P and PC replaced by the saved ones; nothing else changes |
| NesApuSpec.SetPadStatus | src/nes/apu.ts:94-102 | the pad's byte is the masked status; the other pad and the latches are kept |
| NesApuSpec.Latch | src/nes/apu.ts:104-107 | both latches take the live status |
| NesApuSpec.Shift | src/nes/apu.ts:109-113 | only the latches change |
| NesApuSpec.NewChannel | src/nes/apu.ts:118-120 | a new channel is stopped |
| NesApuSpec.ChannelWrite | src/nes/apu.ts:127-129 | the register takes the value and the kind is kept |
| NesApuSpec.SetEnable | src/nes/apu.ts:134-137 | the registers and the kind are kept |
| NesApuSpec.Period | src/nes/apu.ts:193-196 | the timer period fits in 11 bits |
| NesApuSpec.PulseLength | src/nes/apu.ts:211-225 | only the length counter and `stopped` change; the countdown itself is stated in NesApuChannelProps.PulseLengthCountdown |
| NesApuSpec.PulseEnvelope | src/nes/apu.ts:227-252 | only the envelope fields change |
| NesApuSpec.SweptPeriod | src/nes/apu.ts:268-280 | the swept period is at most twice the old one |
| NesApuSpec.TriangleLength | src/nes/apu.ts:327-341 | only the length counter and `stopped` change; the countdown itself is stated in NesApuChannelProps.TriangleLengthCountdown |
| NesApuSpec.NoiseLength | src/nes/apu.ts:382-398 | only the length counter and `stopped` change; the countdown itself is stated in NesApuChannelProps.NoiseLengthCountdown |
| NesApuSpec.DmcLength | src/nes/apu.ts:457-477 | only the DMA length and `stopped` change |
| NesApuSpec.ChannelTypes | src/nes/apu.ts:68-74 | five channel kinds, the DMC last |
| NesApuSpec.PlayingBits | src/nes/apu.ts:527-530 | the playing bits of the first n channels are below 2^n |
| NesApu.GamePad.constructor | src/nes/apu.ts:91-92 | both pads and both latches start at 0 |
| NesApu.GamePad.SetStatus | src/nes/apu.ts:94-102 | the state becomes `SetPadStatus` of the old one |
| NesApu.GamePad.Latch | src/nes/apu.ts:104-107 | the state becomes `Latch` of the old one |
| NesApu.GamePad.Shift | src/nes/apu.ts:109-113 | answers bit 0 of the latch, which is halved |
| NesApu.Channel.constructor | src/nes/apu.ts:118-120 | a new channel of the given kind is `NewChannel(kind)` |
| NesApu.Channel.Reset | src/nes/apu.ts:122-125 | the state becomes `ChannelReset` of the old one (pulse: 153-157) |
| NesApu.Channel.Write | src/nes/apu.ts:127-129 | the state becomes `ChannelWrite` (pulse 159-181, triangle 295-307, noise 347-358, DMC 420-431) |
| NesApu.Channel.SetEnable | src/nes/apu.ts:134-137 | the state becomes `SetEnable` (DMC: 409-418) |
| NesApu.Channel.IsPlaying | src/nes/apu.ts:140-142 | a channel plays exactly when it is not stopped |
| NesApu.Channel.GetVolume | src/nes/apu.ts:183-191 | answers `Volume` (triangle 309-313, noise 360-368, DMC 433-441) |
| NesApu.Channel.GetFrequency | src/nes/apu.ts:193-196 | answers `Frequency` (triangle 315-318, noise 370-373, DMC 443-446) |
| NesApu.Channel.GetDutyRatio | src/nes/apu.ts:198-200 | answers `DutyEighths` |
| NesApu.Channel.Update | src/nes/apu.ts:202-209 | the state becomes `Update` (triangle 320-325, noise 375-380, DMC 448-451) |
| NesApu.Channel.PulseUpdateLength | src/nes/apu.ts:211-225 | the state becomes `PulseLength` |
| NesApu.Channel.PulseUpdateEnvelope | src/nes/apu.ts:227-252 | the state becomes `PulseEnvelope` |
| NesApu.Channel.PulseSweep | src/nes/apu.ts:255-289 | the state becomes `PulseSweep` |
| NesApu.Channel.SweepPeriod | src/nes/apu.ts:268-281 | the state becomes `SweepPeriod` |
| NesApu.Channel.TriangleUpdateLength | src/nes/apu.ts:327-341 | the state becomes `TriangleLength` |
| NesApu.Channel.NoiseUpdateLength | src/nes/apu.ts:382-398 | the state becomes `NoiseLength` |
| NesApu.Channel.DmcUpdateLength | src/nes/apu.ts:457-477 | the state and the IRQ call are `DmcLength` of the old state |
| NesApu.Apu.constructor | src/nes/apu.ts:483-495 | registers 0, the five new channels, frame interrupt clear, DMC flag set, pads 0 |
| NesApu.Apu.GetChannelTypes | src/nes/apu.ts:497-499 | answers the kinds, which are the kinds of the channels |
| NesApu.Apu.Reset | src/nes/apu.ts:501-507 | the state becomes `Reset` of the old one (see NesApuStateProps.ResetState) |
| NesApu.Apu.FillRegisters | src/nes/apu.ts:502-503 | the register file is 0 except 0x40 at 0x17 |
| NesApu.Apu.ResetEach | src/nes/apu.ts:506 | every channel is reset |
| NesApu.Apu.Save | src/nes/apu.ts:509-513 | answers the register file |
| NesApu.Apu.Load | src/nes/apu.ts:515-519 | the state is that of writing each byte at 0x4000 + its index, in order |
| NesApu.Apu.Read | src/nes/apu.ts:521-542 | the answer and the new state are `Read` (see NesApuProps.StatusRead, NesApuStateProps.ReadPad) |
| NesApu.Apu.ReadStatus | src/nes/apu.ts:525-530 | the loop answers `StatusValue` |
| NesApu.Apu.Write | src/nes/apu.ts:544-571 | the state becomes `Write` (see NesApuStateProps.WriteSoundRoutes, WriteStatusEnables) |
| NesApu.Apu.WriteSound | src/nes/apu.ts:551-555 | channel reg / 4 gets register reg % 4 |
| NesApu.Apu.WriteControl | src/nes/apu.ts:557-570 | 0x15 clears the DMC flag and enables the channels; 0x16 with bit 0 clear latches |
| NesApu.Apu.WriteOneChannel | src/nes/apu.ts:552-554 | only that channel changes |
| NesApu.Apu.EnableEach | src/nes/apu.ts:560-561 | every channel gets `setEnable` of its bit |
| NesApu.Apu.EnableChannel | src/nes/apu.ts:561 | only that channel changes |
| NesApu.Apu.GetVolume | src/nes/apu.ts:573-577 | 0 unless enabled in 0x4015, otherwise the channel's volume |
| NesApu.Apu.GetFrequency | src/nes/apu.ts:579-581 | the channel's frequency |
| NesApu.Apu.GetDutyRatio | src/nes/apu.ts:583-585 | the channel's duty ratio |
| NesApu.Apu.SetPadStatus | src/nes/apu.ts:587-589 | only the pads change, by `SetPadStatus` |
| NesApu.Apu.OnHblank | src/nes/apu.ts:591-605 | the state and the IRQ calls are `OnHblank` (see NesApuStateProps.OnHblankEffect) |
| NesApu.Apu.DmcStep | src/nes/apu.ts:592 | only the DMC changes, by `DmcLength` |
| NesApu.Apu.RaiseFrameIrq | src/nes/apu.ts:596-599 | the frame interrupt is raised and called exactly when enabled |
| NesApu.Apu.UpdateEach | src/nes/apu.ts:596 | every channel is updated |
| NesApu.Apu.UpdateChannel | src/nes/apu.ts:596 | only that channel changes, by `Update` |
| NesApu.Apu.IsIrqEnabled | src/nes/apu.ts:607-611 | answers `IrqEnabled` of the state |
| NesApu.NewChannels | src/nes/apu.ts:489-495 | five fresh, distinct channels, pulse, pulse, triangle, noise, DMC |
| NesApuProps.PairBits | src/nes/apu.ts:96-100 | left+right are both pressed exactly when the top two bits read 3; up+down likewise for bits 4-5 |
| NesApuProps.MaskOppositesBits | src/nes/apu.ts:96-100 | `setStatus` keeps the low nibble and clears a pair of opposite directions exactly when both are pressed |
| NesApuProps.NoOppositeButtons | src/nes/apu.ts:94-102 | after `setStatus` a pad never reports left with right, or up with down |
| NesApuProps.ShiftReturnsBits | src/nes/apu.ts:109-113 | the k-th `shift` after a latch answers bit k; the latch is the byte / 2^n and the other pad is kept |
| NesApuProps.ShiftExhausted | src/nes/apu.ts:109-113 | after eight or more shifts every further `shift` answers 0 |
| NesApuProps.StrobeLatches | src/nes/apu.ts:563-566 | a write to 0x4016 stores the byte and latches both pads exactly when bit 0 is clear; the channels, the live pads and both interrupt flags are kept, and nothing else changes |
| NesApuProps.PlayingBitsBit | src/nes/apu.ts:527-530 | bit k of the playing bits is set exactly when channel k is enabled in 0x4015 and playing |
| NesApuProps.StatusRead | src/nes/apu.ts:523-537 | reading 0x4015: bit 7 is the DMC flag, bit 6 the frame flag, bit 5 is 0, bit ch is enabled-and-playing; the read clears only the frame flag |
| NesApuProps.FlagBits | src/nes/apu.ts:525 | bits 5-7 of the status value are the flags above the five channel bits |
| NesApuChannelProps.LengthTableBound | src/nes/apu.ts:76-79 | every entry of `kLengthTable` is at most 0xFE |
| NesApuChannelProps.NewChannelInRange | src/nes/apu.ts:146-151 | a new channel's length and envelope counters are in range |
| NesApuChannelProps.ResetKeepsRange | src/nes/apu.ts:153-157 | `reset` keeps the length counter in 0..0xFE and the envelope in 0..15 |
| NesApuChannelProps.WriteKeepsRange | src/nes/apu.ts:159-181 | a register write keeps both counters in range |
| NesApuChannelProps.SetEnableKeepsRange | src/nes/apu.ts:409-418 | `setEnable` keeps both counters in range |
| NesApuChannelProps.UpdateKeepsRange | src/nes/apu.ts:202-252 | a frame update keeps both counters in range |
| NesApuChannelProps.DmcLengthKeepsRange | src/nes/apu.ts:457-477 | the DMC step keeps both counters in range |
| NesApuChannelProps.VolumeRange | src/nes/apu.ts:183-191 | a volume is 0..15 over 15, 0 when stopped, and full for a playing triangle |
| NesApuChannelProps.FrequencyRange | src/nes/apu.ts:193-196 | a pulse sounds at 54..111860 Hz, a triangle at 27..55930 Hz, noise and DMC at 4..4068 Hz |
| NesApuChannelProps.DutyValues | src/nes/apu.ts:198-200 | a pulse duty is 1/8, 2/8, 4/8 or -2/8 of the `kPulseDutyRatio` table; the others 4/8 |
| NesApuChannelProps.TimerHighStarts | src/nes/apu.ts:173-177 | writing TIMER_H starts pulse, noise and DMC; the triangle starts exactly when its 7-bit length is non-zero |
| NesApuChannelProps.SetEnableEffect | src/nes/apu.ts:134-137 | disabling stops every kind; enabling starts only the DMC and leaves the others unchanged |
| NesApuChannelProps.DmcEnableLength | src/nes/apu.ts:409-418 | enabling the DMC reloads an exhausted DMA length; disabling clears it |
| NesApuChannelProps.UpdateNeverStarts | src/nes/apu.ts:202-209 | a frame update never starts a channel and leaves a stopped one unchanged |
| NesApuChannelProps.LengthStepDown | src/nes/apu.ts:211-289 | one frame of an unhalted counter: a counter at 0 stops the channel; a positive one is lowered by the kind's step (floored at 0), and then a triangle or noise channel is not stopped, and a pulse channel stops exactly when its sweep is enabled, due, has a non-zero shift, and the swept period mutes |
| NesApuChannelProps.PulseLengthCountdown | src/nes/apu.ts:211-225 | a halted pulse counter leaves the channel unchanged; otherwise the counter drops by 4, floored at 0, and the channel stops exactly when it was stopped or the counter was already 0 |
| NesApuChannelProps.TriangleLengthCountdown | src/nes/apu.ts:327-341 | a halted triangle counter leaves the channel unchanged; otherwise the counter drops by 4, floored at 0, and the channel stops exactly when it was stopped or the counter was already 0 |
| NesApuChannelProps.NoiseLengthCountdown | src/nes/apu.ts:382-398 | a halted noise counter leaves the channel unchanged; otherwise the counter drops by 1, floored at 0, and the channel stops exactly when it was stopped or the counter was already 0 with the loop bit clear |
| NesApuChannelProps.LengthSilences | src/nes/apu.ts:211-225 | an unhalted counter l stops the channel within l / step + 2 frames |
| NesApuChannelProps.StoppedStays | src/nes/apu.ts:203-204 | a stopped channel stays unchanged however many frames pass |
| NesApuChannelProps.HaltedLengthKept | src/nes/apu.ts:213-215 | a halted length counter keeps its value |
| NesApuChannelProps.EnvelopeSteps | src/nes/apu.ts:227-252 | a reset envelope reloads 15; otherwise the divider counts it down, and at 0 it wraps to 15 only when looping |
| NesApuChannelProps.ConstantVolumeFreezesEnvelope | src/nes/apu.ts:228-229 | with constant volume the envelope does not move |
| NesApuChannelProps.SweepDirection | src/nes/apu.ts:268-276 | the sweep raises the period unless negating, by at most half the period |
| NesApuChannelProps.ElevenBits | src/nes/apu.ts:278-279 | TIMER_L and the low 3 bits of TIMER_H together hold the period modulo 0x800 |
| NesApuChannelProps.SweepWriteBack | src/nes/apu.ts:265-281 | the new period is the swept one mod 0x800; TIMER_H's length bits and registers 0-1 are kept; the channel stops exactly when the sweep mutes |
| NesApuChannelProps.SweepKeepsCounters | src/nes/apu.ts:255-289 | the sweep leaves the length and envelope counters alone |
| NesApuChannelProps.SweepNeverStarts | src/nes/apu.ts:255-289 | the sweep never starts a stopped channel |
| NesApuChannelProps.SweepKeepsHaltBits | src/nes/apu.ts:255-289 | the sweep keeps the halt and volume register, so a halted length stays halted |
| NesApuChannelProps.SweepMuteSilences | src/nes/apu.ts:270-276 | a muting sweep makes the channel silent |
| NesApuChannelProps.DmcCountsDown | src/nes/apu.ts:469-474 | a playing DMC counts its DMA length down by one per line, and none of those lines raises the IRQ |
| NesApuChannelProps.DmcRunsOut | src/nes/apu.ts:461-468 | at the end of the length the DMC reloads when looping, or stops and calls the IRQ exactly when it is enabled |
| NesApuChannelProps.DmcStoppedQuiet | src/nes/apu.ts:458-459 | a stopped DMC neither counts nor interrupts |
| NesApuChannelProps.DmcLengthRegister | src/nes/apu.ts:424-426 | the DMC length is `((v << 4) + 1) * 8`, a multiple of 8 in 8..0x7F88 |
| NesApuStateProps.WriteStoresRegister | src/nes/apu.ts:544-549 | writes from 0x4020 up are ignored; the others store the byte |
| NesApuStateProps.WriteSoundRoutes | src/nes/apu.ts:551-555 | a write to 0x4000-0x4013 reaches only channel reg / 4, register reg % 4 |
| NesApuStateProps.WriteOtherStoresOnly | src/nes/apu.ts:557-570 | writes to 0x4014 and 0x4017-0x401F only store the byte |
| NesApuStateProps.WriteStatusEnables | src/nes/apu.ts:558-561 | writing 0x4015 clears the DMC flag; a channel then plays exactly when its bit is set and it played, or it is the DMC |
| NesApuStateProps.IrqEnabledIff | src/nes/apu.ts:607-611 | the frame IRQ is enabled exactly when 0x4017 < 0x40 |
| NesApuStateProps.ResetState | src/nes/apu.ts:501-507 | after `reset` every register is 0 but 0x4017 = 0x40, the IRQ is disabled, the DMC flag set, every channel stopped and silent, the pads kept |
| NesApuStateProps.OnHblankEffect | src/nes/apu.ts:591-605 | every line steps the DMC; line 241 updates the other channels and raises the frame IRQ exactly when enabled; other lines change nothing else |
| NesApuStateProps.ResetInRange | src/nes/apu.ts:501-507 | `reset` keeps every counter in range |
| NesApuStateProps.WriteInRange | src/nes/apu.ts:544-571 | a register write keeps every counter in range |
| NesApuStateProps.OnHblankInRange | src/nes/apu.ts:591-605 | an h-blank keeps every counter in range |
| NesApuStateProps.ReadInRange | src/nes/apu.ts:521-542 | a read keeps every counter in range |
| NesApuStateProps.LoadPrefixInRange | src/nes/apu.ts:515-519 | loading any bytes keeps every counter in range |
| NesApuStateProps.ApuVolumeRange | src/nes/apu.ts:573-577 | the APU's volume of a channel is 0..15 over 15, and 0 unless it is enabled in 0x4015 |
| NesApuStateProps.ReadPad | src/nes/apu.ts:538-539 | reading 0x4016 or 0x4017 answers bit 0 of that pad's latch and halves it, changing nothing else |
| NesApuStateProps.ReadOtherZero | src/nes/apu.ts:540-541 | every other address reads 0 and changes nothing |
| NesApuStateProps.LoadPrefixRegs | src/nes/apu.ts:515-519 | after n loaded bytes the first n registers hold them and the rest are kept |
| NesApuStateProps.SaveLoadRegs | src/nes/apu.ts:509-519 | `load` of a `save` restores the whole register file, whatever state it is loaded into |
| NesMapper087.BankOf | src/nes/mapper/mapper087.ts:13 | the bank fits in a byte |
| NesMapper087.BankSwapsLowBits | src/nes/mapper/mapper087.ts:13 | the bank is bit 1 of the value as bit 0 plus bit 0 as bit 1 |
| NesMapper087.BankInRange | src/nes/mapper/mapper087.ts:13 | the bank is 0..3 |
| NesMapper087.BankOfLowBits | src/nes/mapper/mapper087.ts:13 | only the two low bits of the value matter |
| NesMapper087.BankInvolution | src/nes/mapper/mapper087.ts:13 | swapping twice gives back the two low bits |
| NesMapper087.BankIsBijective | src/nes/mapper/mapper087.ts:13 | two values select the same bank exactly when their low two bits agree |
| NesMapper087.Mapper087.constructor | src/nes/mapper/mapper087.ts:8-16 | the mapper starts with the CHR bank it is given; the source's constructor installs the write handler, which `Write` models |
| NesMapper087.Mapper087.Write | src/nes/mapper/mapper087.ts:12-15 | a write to 0x6000-0x7FFF selects `BankOf(value)`; any other address leaves the bank alone |

## Left out

- The bus: the CPU's bus is 64 KiB of RAM. The routing of src/nes/bus.ts to the PPU, the APU and the cartridge is not part of this model, so reads have no side effects on other devices.
- `Cpu.Pause` and `Cpu.IsPaused` are plain field accesses, modelled with no further property.
- PC: the model does not mask PC to 16 bits where the source does not. JavaScript's 32-bit conversion of the `|`, `&` and `>>` operands is not modelled, because every operand here is a byte or a 16-bit word.
- `disasm`, `dump`, the `console` messages and the text of the step log are left out, because they are output only. A log entry keeps just its kind and its PC.
- `window.$DEBUG` is read once, as the constructor's `debug` parameter.
- The contents of `kInstTable` (src/nes/inst.ts) are not part of this model. The table is a parameter of `Step`.
- Base64: `Apu.save` and `Apu.load` convert the register file to and from Base64 text. That encoding is left out, and the model saves and loads the bytes themselves.
- `Apu.write` below 0x4000: the source would index the channel table at a negative position. The model requires `adr >= 0x4000`, which is the window the bus routes to the APU.
- `GamePad` methods require the pad number to be 0 or 1, the only pads that exist.
- `triggerIrq`: the callback is represented by the calls that `onHblank` reports, not by a call into the CPU.
- `dmcInterrupt`: the source sets it only in `reset` and the constructor, and clears it on a write to 0x4015. The DMC running out calls `triggerIrq` without setting the flag. The model does the same.
- The sweep: the assignment of `sweepCounter` inside `if (c <= 0)` (src/nes/apu.ts:285) is overwritten on the next line. The model keeps only the value that stays.
- The pad strobe: every write to 0x4016 with bit 0 clear latches the pads. The model follows the code, not a 1-to-0 edge of the strobe bit.
- The status read: the source ORs the channel bits into `dmcInterrupt | frameInterrupt`. The fields occupy disjoint bits, so the model adds them.
- The `Mapper` base class, `MapperOptions` and the PRG side of mapper 87 are not part of this model. `Mapper087` keeps only the bank that `setChrBank` receives.
- NesCpu.Cpu.constructor: P and PC start at 0. The source's constructor (src/nes/cpu.ts:119-123) leaves them undefined until `reset` or `load`, and Dafny fields need a value.
- NesCpuSpec.OrZero: an instruction that has no operand address but reads or writes memory would pass `null` to the bus and look up `watchRead[null]` in the source. The model uses address 0 instead. Only an instruction table that pairs such an operation with the accumulator or implied mode reaches this case.
- NesApuChannelProps.LengthSilences: proved for pulse, triangle and noise channels whose halt bit is clear, and for noise also whose loop bit is clear. A halted counter never expires (HaltedLengthKept).
