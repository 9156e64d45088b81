/**
 * Pure semantics of the MOS 6502 interpreter of src/nes/cpu.ts.
 *
 * The whole observable state of the interpreter is a value of type `Machine`:
 * the registers, the `paused` flag, the step log, the debug hooks and the bus,
 * which is modelled as a 64 KiB array of bytes (every cell behaves as RAM; an
 * address is taken modulo 0x10000).  Every operation of the class `Cpu`
 * (module NesCpu) is specified by one of the functions below, and the
 * properties the source relies on are lemmas about these functions.
 *
 * Data bytes (A, X, Y, S and the bus cells) are integers in 0..255; the status
 * register P is a bit-vector of 8 bits, manipulated with the masks of the source.
 */
module NesCpuSpec {
  import opened NesTypes

  /** An operand address; Null is the source's `null` (no operand in memory). */
  datatype Address = Null | At(value: int)

  /** An entry of kInstTable; opcodes without an entry are Undefined. */
  datatype TableEntry = Undefined | Defined(inst: Instruction)

  /** Number of addressable bytes on the bus. */
  const BUS_SIZE := 0x10000

  /** The status register P [NVRBDIZC]. */
  type Status = bv8

  const CARRY_FLAG: Status := 0x01
  const ZERO_FLAG: Status := 0x02
  const IRQBLK_FLAG: Status := 0x04
  const DECIMAL_FLAG: Status := 0x08
  const BREAK_FLAG: Status := 0x10
  const RESERVED_FLAG: Status := 0x20
  const OVERFLOW_FLAG: Status := 0x40
  const NEGATIVE_FLAG: Status := 0x80

  const NZ_MASK: Status := !(NEGATIVE_FLAG | ZERO_FLAG)
  const NZC_MASK: Status := !(NEGATIVE_FLAG | ZERO_FLAG | CARRY_FLAG)

  const VEC_NMI := 0xFFFA
  const VEC_RESET := 0xFFFC
  const VEC_IRQ := 0xFFFE

  const MAX_STEP_LOG := 200

  // ---------------------------------------------------------------------
  // The status register

  /** Whether the flag (or any of the flags) of `mask` is set in `p`. */
  predicate Flag(p: Status, mask: Status) { p & mask != 0 }

  /** `setReset`: the bits of `mask` set when `flag` holds and cleared otherwise. */
  function SetReset(p: Status, flag: bool, mask: Status): (r: Status)
    ensures r & mask == (if flag then mask else 0)
    ensures r & !mask == p & !mask
  {
    if flag then p | mask else p & !mask
  }

  /** Entry `v` of the N/Z lookup table kNZTable. */
  function NZFlags(v: Byte): Status
  {
    (if v == 0 then ZERO_FLAG else 0) | (if Bit(v, 7) then NEGATIVE_FLAG else 0)
  }

  /** Entry `v` of kNZTable holds Z exactly when `v` is 0, N exactly when `v` is negative, and nothing else. */
  lemma NZTableEntry(v: Byte)
    ensures Flag(NZFlags(v), ZERO_FLAG) <==> v == 0
    ensures Flag(NZFlags(v), NEGATIVE_FLAG) <==> v >= 0x80
    ensures NZFlags(v) & NZ_MASK == 0
  {
    assert Pow2(7) == 0x80;
  }

  // ---------------------------------------------------------------------
  // Small helpers

  /** Bit 8 of an integer, as JavaScript's `x & 0x100` sees it. */
  predicate Bit8(x: int) { (x / 0x100) % 2 == 1 }

  function Inc8(v: Byte): (r: Byte)
    ensures r == 0 <==> v == 0xFF
    ensures v < 0xFF ==> r == v + 1
  {
    (v + 1) % 0x100
  }

  function Dec8(v: Byte): (r: Byte)
    ensures r == 0xFF <==> v == 0
    ensures v > 0 ==> r == v - 1
  {
    (v - 1) % 0x100
  }

  /** Two's-complement reading of a byte. */
  function ToSigned(v: Byte): (r: int)
    ensures -0x80 <= r < 0x80
    ensures (r - v) % 0x100 == 0
    ensures r < 0 <==> Bit(v, 7)
  {
    if v < 0x80 then v else v - 0x100
  }

  // ---------------------------------------------------------------------
  // Flag arithmetic

  /** `setNZFlag`: N and Z taken from the table, every other flag kept. */
  function SetNZ(p: Status, v: Byte): (r: Status)
    ensures Flag(r, ZERO_FLAG) <==> v == 0
    ensures Flag(r, NEGATIVE_FLAG) <==> v >= 0x80
    ensures r & NZ_MASK == p & NZ_MASK
  {
    NZTableEntry(v);
    (p & NZ_MASK) | NZFlags(v)
  }

  /** `setNZCFlag`: N and Z from the table, C from `carry`, every other flag kept. */
  function SetNZC(p: Status, v: Byte, carry: bool): (r: Status)
    ensures Flag(r, ZERO_FLAG) <==> v == 0
    ensures Flag(r, NEGATIVE_FLAG) <==> v >= 0x80
    ensures Flag(r, CARRY_FLAG) == carry
    ensures r & NZC_MASK == p & NZC_MASK
  {
    NZTableEntry(v);
    (p & NZC_MASK) | NZFlags(v) | (if carry then CARRY_FLAG else 0)
  }

  function CarryIn(p: Status): int { if Flag(p, CARRY_FLAG) then 1 else 0 }

  datatype AluResult = AluResult(value: Byte, carry: bool, overflow: bool)

  /**
   * The addition shared by ADC and SBC: `result = a + operand + carry`,
   * the value is its low byte, C is `result >= 0x100` and V is
   * `((a ^ result) & (operand ^ result) & 0x80) != 0`.
   */
  function AddWithCarry(a: Byte, operand: Byte, carry: int): (r: AluResult)
    requires carry == 0 || carry == 1
    ensures r.value == (a + operand + carry) % 0x100
    ensures r.carry <==> a + operand + carry >= 0x100
  {
    var result := a + operand + carry;
    AluResult(result % 0x100, result >= 0x100, Bit(a, 7) != Bit(result, 7) && Bit(operand, 7) != Bit(result, 7))
  }

  /** CMP/CPX/CPY: the flags after comparing `reg` with `operand`. */
  function Compare(p: Status, reg: Byte, operand: Byte): (r: Status)
    ensures Flag(r, CARRY_FLAG) <==> reg >= operand
    ensures Flag(r, ZERO_FLAG) <==> reg == operand
    ensures Flag(r, NEGATIVE_FLAG) <==> (reg - operand) % 0x100 >= 0x80
    ensures r & NZC_MASK == p & NZC_MASK
  {
    var result := reg - operand;
    SetNZC(p, result % 0x100, result >= 0)
  }

  /** BIT: Z from `a & value`, N and V copied from bits 7 and 6 of `value`. */
  function BitTest(p: Status, a: Byte, value: Byte): (r: Status)
    ensures Flag(r, ZERO_FLAG) <==> And8(a, value) == 0
    ensures Flag(r, NEGATIVE_FLAG) <==> Flag(value as Status, NEGATIVE_FLAG)
    ensures Flag(r, OVERFLOW_FLAG) <==> Flag(value as Status, OVERFLOW_FLAG)
    ensures r & !(NEGATIVE_FLAG | OVERFLOW_FLAG | ZERO_FLAG) == p & !(NEGATIVE_FLAG | OVERFLOW_FLAG | ZERO_FLAG)
  {
    var p1 := SetReset(p, And8(a, value) == 0, ZERO_FLAG);
    var mask := NEGATIVE_FLAG | OVERFLOW_FLAG;
    (p1 & !mask) | (value as Status & mask)
  }

  datatype ShiftResult = ShiftResult(value: Byte, carry: bool)

  /** ASL: the 9-bit result `carry:value` is twice the input. */
  function ShiftLeft(v: Byte): (r: ShiftResult)
    ensures r.value + (if r.carry then 0x100 else 0) == 2 * v
  {
    ShiftResult((v * 2) % 0x100, Bit(v, 7))
  }

  /** LSR: the input is twice the result plus the bit shifted out. */
  function ShiftRight(v: Byte): (r: ShiftResult)
    ensures 2 * r.value + (if r.carry then 1 else 0) == v
  {
    ShiftResult(v / 2, Bit(v, 0))
  }

  /** ROL: shift left through the carry. */
  function RotateLeft(v: Byte, carry: bool): (r: ShiftResult)
    ensures r.value + (if r.carry then 0x100 else 0) == 2 * v + (if carry then 1 else 0)
  {
    ShiftResult((v * 2 + (if carry then 1 else 0)) % 0x100, Bit(v, 7))
  }

  /** ROR: shift right through the carry. */
  function RotateRight(v: Byte, carry: bool): (r: ShiftResult)
    ensures 2 * r.value + (if r.carry then 1 else 0) == v + (if carry then 0x100 else 0)
  {
    ShiftResult(v / 2 + (if carry then 0x80 else 0), Bit(v, 0))
  }

  /** Target of a taken branch: PC plus the signed offset, masked to 16 bits. */
  function BranchTarget(pc: int, offset: Byte): (r: int)
    ensures 0 <= r < 0x10000
    ensures (r - pc - ToSigned(offset)) % 0x10000 == 0
  {
    (pc + ToSigned(offset)) % 0x10000
  }

  /** Extra cycles of a taken branch: 2 when bit 8 of PC changes, else 1. */
  function TakenPenalty(pc: int, newPc: int): (r: int)
    ensures r == 1 || r == 2
    ensures r == 2 <==> (pc / 0x100) % 2 != (newPc / 0x100) % 2
  {
    if Bit8(pc) != Bit8(newPc) then 2 else 1
  }

  // ---------------------------------------------------------------------
  // Instructions

  /** The operation types of the instruction table (OpType in ./inst). */
  datatype OpType =
    | UNKNOWN | NOP
    | LDA | STA | LDX | STX | LDY | STY
    | TAX | TAY | TXA | TYA | TXS | TSX
    | ADC | SBC
    | INX | INY | INC | DEX | DEY | DEC
    | AND | ORA | EOR
    | ROL | ROR | ASL | LSR
    | BIT | CMP | CPX | CPY
    | JMP | JSR | RTS | RTI
    | BCC | BCS | BPL | BMI | BNE | BEQ | BVC | BVS
    | PHA | PHP | PLA | PLP
    | CLC | SEC | SEI | CLI | CLV | SED | CLD
    | BRK
  {
    predicate IsLoadStore() { LDA? || STA? || LDX? || STX? || LDY? || STY? }
    predicate IsTransfer() { NOP? || TAX? || TAY? || TXA? || TYA? || TXS? || TSX? }
    predicate IsAddSub() { ADC? || SBC? }
    predicate IsIncDec() { INX? || INY? || INC? || DEX? || DEY? || DEC? }
    predicate IsLogic() { AND? || ORA? || EOR? || BIT? }
    predicate IsCompare() { CMP? || CPX? || CPY? }
    predicate IsShift() { ROL? || ROR? || ASL? || LSR? }
    predicate IsJump() { JMP? || JSR? || RTS? || RTI? }
    predicate IsBranch() { BCC? || BCS? || BPL? || BMI? || BNE? || BEQ? || BVC? || BVS? }
    predicate IsStack() { PHA? || PHP? || PLA? || PLP? }
    predicate IsFlag() { CLC? || SEC? || SEI? || CLI? || CLV? || SED? || CLD? }
  }

  /** The addressing modes (Addressing in ./inst). */
  datatype Addressing =
    | ACCUMULATOR | IMPLIED | IMMEDIATE | RELATIVE
    | ZEROPAGE | ZEROPAGE_X | ZEROPAGE_Y
    | ABSOLUTE | ABSOLUTE_X | ABSOLUTE_Y
    | INDIRECT_X | INDIRECT_Y | INDIRECT
    | UNKNOWN

  /** One entry of kInstTable. */
  datatype Instruction = Instruction(opType: OpType, addressing: Addressing, bytes: nat, cycle: nat)

  /** The table has one optional entry per opcode byte. */
  type InstTable = t: seq<TableEntry> | |t| == 256 witness seq(256, _ => Undefined)

  /** What the branch instruction `op` tests in P. */
  function BranchCondition(op: OpType, p: Status): bool
    requires op.IsBranch()
  {
    match op
    case BCC => !Flag(p, CARRY_FLAG)
    case BCS => Flag(p, CARRY_FLAG)
    case BPL => !Flag(p, NEGATIVE_FLAG)
    case BMI => Flag(p, NEGATIVE_FLAG)
    case BNE => !Flag(p, ZERO_FLAG)
    case BEQ => Flag(p, ZERO_FLAG)
    case BVC => !Flag(p, OVERFLOW_FLAG)
    case BVS => Flag(p, OVERFLOW_FLAG)
  }

  // ---------------------------------------------------------------------
  // Machine state

  /** An entry of the step log: the disassembled text is abstracted to its PC. */
  datatype LogEntry = StepAt(pc: int) | NmiAt(pc: int) | IrqAt(pc: int)

  datatype Machine = Machine(
    a: Byte, x: Byte, y: Byte, s: Byte, p: Status, pc: int,
    paused: bool,
    mem: seq<Byte>,
    stepLogs: seq<LogEntry>,
    debug: bool,
    breakPoints: set<int>, breakOnNmi: bool,
    watchRead: set<int>, watchWrite: set<int>)
  {
    ghost predicate Valid() { |mem| == BUS_SIZE && |stepLogs| <= MAX_STEP_LOG }
  }

  /** The register snapshot of `save`/`load`. */
  datatype Snapshot = Snapshot(a: Byte, x: Byte, y: Byte, s: Byte, p: Status, pc: int)

  /** `addStepLog`: append, dropping the oldest entry once the log is full. */
  function AddLog(logs: seq<LogEntry>, e: LogEntry): (r: seq<LogEntry>)
    requires |logs| <= MAX_STEP_LOG
    ensures |r| == if |logs| < MAX_STEP_LOG then |logs| + 1 else MAX_STEP_LOG
    ensures r[|r| - 1] == e
    ensures r[..|r| - 1] == (logs + [e])[|logs| + 1 - |r|..|logs|]
  {
    if |logs| < MAX_STEP_LOG then logs + [e] else logs[1..] + [e]
  }

  /** Bus cell that serves address `adr`. */
  function BusIndex(adr: int): (r: nat)
    ensures r < BUS_SIZE
    ensures 0 <= adr < BUS_SIZE ==> r == adr
  {
    adr % BUS_SIZE
  }

  /** `read8`: a bus read that pauses on a read watchpoint. */
  function Read8(m: Machine, adr: int): (r: (Byte, Machine))
    requires m.Valid()
    ensures r.1.Valid() && r.1 == m.(paused := r.1.paused)
    ensures r.0 == m.mem[BusIndex(adr)]
    ensures r.1.paused <==> m.paused || adr in m.watchRead
  {
    (m.mem[BusIndex(adr)], if adr in m.watchRead then m.(paused := true) else m)
  }

  /** `bus.write8`. */
  function Write8(m: Machine, adr: int, v: Byte): (r: Machine)
    requires m.Valid()
    ensures r.Valid() && r == m.(mem := r.mem)
  {
    m.(mem := m.mem[BusIndex(adr) := v])
  }

  /** `read16`: little-endian word at `adr`, `adr + 1`. */
  function Read16(m: Machine, adr: int): (r: (int, Machine))
    requires m.Valid()
    ensures r.1.Valid() && r.1 == m.(paused := r.1.paused)
  {
    var (lo, m1) := Read8(m, adr);
    var (hi, m2) := Read8(m1, adr + 1);
    (hi * 0x100 + lo, m2)
  }

  /** Address of the high byte in `read16Indirect`: `(adr & 0xff00) + ((adr + 1) & 0xff)`. */
  function IndirectHighAddress(adr: int): (r: int)
    ensures 0 <= adr < 0x10000 ==> r / 0x100 == adr / 0x100 && r % 0x100 == (adr + 1) % 0x100
  {
    ((adr / 0x100) % 0x100) * 0x100 + (adr + 1) % 0x100
  }

  /** `read16Indirect`: like `read16`, but the high byte comes from the same page. */
  function Read16Indirect(m: Machine, adr: int): (r: (int, Machine))
    requires m.Valid()
    ensures r.1.Valid() && r.1 == m.(paused := r.1.paused)
  {
    var (lo, m1) := Read8(m, adr);
    var (hi, m2) := Read8(m1, IndirectHighAddress(adr));
    (hi * 0x100 + lo, m2)
  }

  /** Address of the stack cell `s`. */
  function StackAddress(s: Byte): int { 0x100 + s }

  function Push(m: Machine, v: Byte): (r: Machine)
    requires m.Valid()
    ensures r.Valid() && r == m.(mem := r.mem, s := Dec8(m.s))
  {
    Write8(m, StackAddress(m.s), v).(s := Dec8(m.s))
  }

  /** `push16`: high byte first; the bus keeps the low 8 bits of what it is given. */
  function Push16(m: Machine, v: int): (r: Machine)
    requires m.Valid()
    ensures r.Valid() && r == m.(mem := r.mem, s := Dec8(Dec8(m.s)))
  {
    var m1 := Write8(m, StackAddress(m.s), (v / 0x100) % 0x100);
    var s1 := Dec8(m.s);
    var m2 := Write8(m1, StackAddress(s1), v % 0x100);
    m2.(s := Dec8(s1))
  }

  function Pop(m: Machine): (r: (Byte, Machine))
    requires m.Valid()
    ensures r.1.Valid() && r.1 == m.(s := Inc8(m.s), paused := r.1.paused)
  {
    var s1 := Inc8(m.s);
    Read8(m.(s := s1), StackAddress(s1))
  }

  function Pop16(m: Machine): (r: (int, Machine))
    requires m.Valid()
    ensures r.1.Valid() && r.1 == m.(s := Inc8(Inc8(m.s)), paused := r.1.paused)
  {
    var s1 := Inc8(m.s);
    var (l, m1) := Read8(m, StackAddress(s1));
    var s2 := Inc8(s1);
    var (h, m2) := Read8(m1, StackAddress(s2));
    (h * 0x100 + l, m2.(s := s2))
  }

  // ---------------------------------------------------------------------
  // Address resolution and execution

  /** `getAdr`: the effective address of the operand; Null is the source's `null`. */
  function GetAdr(m: Machine, pc: int, mode: Addressing): (r: (Address, Machine))
    requires m.Valid()
    ensures r.1.Valid() && r.1 == m.(paused := r.1.paused)
  {
    match mode
    case ACCUMULATOR => (Null, m)
    case IMPLIED => (Null, m)
    case IMMEDIATE => (At(pc), m)
    case RELATIVE => (At(pc), m)
    case INDIRECT_X => IndirectAdr(m, pc, mode)
    case INDIRECT_Y => IndirectAdr(m, pc, mode)
    case INDIRECT => IndirectAdr(m, pc, mode)
    case UNKNOWN => (Null, m.(paused := true))
    case _ => DirectAdr(m, pc, mode)
  }

  /** The zero-page and absolute modes of `getAdr`: the operand bytes hold the address. */
  function DirectAdr(m: Machine, pc: int, mode: Addressing): (r: (Address, Machine))
    requires m.Valid() && mode in {ZEROPAGE, ZEROPAGE_X, ZEROPAGE_Y, ABSOLUTE, ABSOLUTE_X, ABSOLUTE_Y}
    ensures r.1.Valid() && r.1 == m.(paused := r.1.paused)
  {
    match mode
    case ZEROPAGE =>
      var (v, m1) := Read8(m, pc);
      (At(v), m1)
    case ZEROPAGE_X =>
      var (v, m1) := Read8(m, pc);
      (At((v + m.x) % 0x100), m1)
    case ZEROPAGE_Y =>
      var (v, m1) := Read8(m, pc);
      (At((v + m.y) % 0x100), m1)
    case ABSOLUTE =>
      var (w, m1) := Read16(m, pc);
      (At(w), m1)
    case ABSOLUTE_X =>
      var (w, m1) := Read16(m, pc);
      (At((w + m.x) % 0x10000), m1)
    case ABSOLUTE_Y =>
      var (w, m1) := Read16(m, pc);
      (At((w + m.y) % 0x10000), m1)
  }

  /** The indirect modes of `getAdr`: the operand points at the address. */
  function IndirectAdr(m: Machine, pc: int, mode: Addressing): (r: (Address, Machine))
    requires m.Valid() && mode in {INDIRECT_X, INDIRECT_Y, INDIRECT}
    ensures r.1.Valid() && r.1 == m.(paused := r.1.paused)
  {
    match mode
    case INDIRECT_X =>
      var (zp, m1) := Read8(m, pc);
      var (w, m2) := Read16Indirect(m1, (zp + m.x) % 0x100);
      (At(w), m2)
    case INDIRECT_Y =>
      var (zp, m1) := Read8(m, pc);
      var (base, m2) := Read16Indirect(m1, zp);
      (At((base + m.y) % 0x10000), m2)
    case INDIRECT =>
      var (w, m1) := Read16(m, pc);
      var (w2, m2) := Read16Indirect(m1, w);
      (At(w2), m2)
  }

  /** A missing operand address reaches the bus as address 0 (`null` in arithmetic). */
  function OrZero(adr: Address): int { if adr.At? then adr.value else 0 }

  /** LDA, STA, LDX, STX, LDY and STY. */
  function ExecLoadStore(m: Machine, op: OpType, adr: Address): (r: Machine)
    requires m.Valid() && op.IsLoadStore()
    ensures r.Valid()
  {
    match op
    case LDA =>
      var (v, m1) := Read8(m, OrZero(adr));
      m1.(a := v, p := SetNZ(m1.p, v))
    case STA => Write8(m, OrZero(adr), m.a)
    case LDX =>
      var (v, m1) := Read8(m, OrZero(adr));
      m1.(x := v, p := SetNZ(m1.p, v))
    case STX => Write8(m, OrZero(adr), m.x)
    case LDY =>
      var (v, m1) := Read8(m, OrZero(adr));
      m1.(y := v, p := SetNZ(m1.p, v))
    case STY => Write8(m, OrZero(adr), m.y)
  }

  /** NOP and the register transfers. */
  function ExecTransfer(m: Machine, op: OpType): (r: Machine)
    requires op.IsTransfer()
  {
    match op
    case NOP => m
    case TAX => m.(x := m.a, p := SetNZ(m.p, m.a))
    case TAY => m.(y := m.a, p := SetNZ(m.p, m.a))
    case TXA => m.(a := m.x, p := SetNZ(m.p, m.x))
    case TYA => m.(a := m.y, p := SetNZ(m.p, m.y))
    case TXS => m.(s := m.x)
    case TSX => m.(x := m.s, p := SetNZ(m.p, m.s))
  }

  /** ADC and SBC. */
  function ExecAddSub(m: Machine, op: OpType, adr: Address): (r: Machine)
    requires m.Valid() && op.IsAddSub()
    ensures r.Valid()
  {
    var (value, m1) := Read8(m, OrZero(adr));
    var operand := if op.ADC? then value else 255 - value;
    var r := AddWithCarry(m1.a, operand, CarryIn(m1.p));
    m1.(a := r.value, p := SetReset(SetNZC(m1.p, r.value, r.carry), r.overflow, OVERFLOW_FLAG))
  }

  /** INX, INY, INC, DEX, DEY and DEC. */
  function ExecIncDec(m: Machine, op: OpType, adr: Address): (r: Machine)
    requires m.Valid() && op.IsIncDec()
    ensures r.Valid()
  {
    match op
    case INX => m.(x := Inc8(m.x), p := SetNZ(m.p, Inc8(m.x)))
    case INY => m.(y := Inc8(m.y), p := SetNZ(m.p, Inc8(m.y)))
    case INC =>
      var (v, m1) := Read8(m, OrZero(adr));
      var m2 := Write8(m1, OrZero(adr), Inc8(v));
      m2.(p := SetNZ(m2.p, Inc8(v)))
    case DEX => m.(x := Dec8(m.x), p := SetNZ(m.p, Dec8(m.x)))
    case DEY => m.(y := Dec8(m.y), p := SetNZ(m.p, Dec8(m.y)))
    case DEC =>
      var (v, m1) := Read8(m, OrZero(adr));
      var m2 := Write8(m1, OrZero(adr), Dec8(v));
      m2.(p := SetNZ(m2.p, Dec8(v)))
  }

  /** AND, ORA, EOR and BIT. */
  function ExecLogic(m: Machine, op: OpType, adr: Address): (r: Machine)
    requires m.Valid() && op.IsLogic()
    ensures r.Valid()
  {
    var (v, m1) := Read8(m, OrZero(adr));
    match op
    case AND => m1.(a := And8(m1.a, v), p := SetNZ(m1.p, And8(m1.a, v)))
    case ORA => m1.(a := Or8(m1.a, v), p := SetNZ(m1.p, Or8(m1.a, v)))
    case EOR => m1.(a := Xor8(m1.a, v), p := SetNZ(m1.p, Xor8(m1.a, v)))
    case BIT => m1.(p := BitTest(m1.p, m1.a, v))
  }

  /** The register CMP, CPX or CPY compares with memory. */
  function CompareRegister(m: Machine, op: OpType): Byte
    requires op.IsCompare()
  {
    match op
    case CMP => m.a
    case CPX => m.x
    case CPY => m.y
  }

  /** CMP, CPX and CPY. */
  function ExecCompare(m: Machine, op: OpType, adr: Address): (r: Machine)
    requires m.Valid() && op.IsCompare()
    ensures r.Valid()
  {
    var (v, m1) := Read8(m, OrZero(adr));
    m1.(p := Compare(m1.p, CompareRegister(m1, op), v))
  }

  /** The result of a shift or rotate of `v` by `op`. */
  function ShiftOp(op: OpType, v: Byte, p: Status): ShiftResult
    requires op.IsShift()
  {
    match op
    case ROL => RotateLeft(v, Flag(p, CARRY_FLAG))
    case ROR => RotateRight(v, Flag(p, CARRY_FLAG))
    case ASL => ShiftLeft(v)
    case LSR => ShiftRight(v)
  }

  /** ROL, ROR, ASL and LSR on the accumulator (no address) or on memory. */
  function ExecShift(m: Machine, op: OpType, adr: Address): (r: Machine)
    requires m.Valid() && op.IsShift()
    ensures r.Valid()
  {
    if adr.Null? then
      var r := ShiftOp(op, m.a, m.p);
      m.(a := r.value, p := SetNZC(m.p, r.value, r.carry))
    else
      var (v, m1) := Read8(m, adr.value);
      var r := ShiftOp(op, v, m1.p);
      var m2 := Write8(m1, adr.value, r.value);
      m2.(p := SetNZC(m2.p, r.value, r.carry))
  }

  /** JMP, JSR, RTS, RTI and BRK. */
  function ExecJump(m: Machine, op: OpType, adr: Address): (r: Machine)
    requires m.Valid() && op.IsJump()
    ensures r.Valid()
  {
    match op
    case JMP => m.(pc := OrZero(adr))
    case JSR => Push16(m, m.pc - 1).(pc := OrZero(adr))
    case RTS =>
      var (w, m1) := Pop16(m);
      m1.(pc := w + 1)
    case RTI =>
      var (v, m1) := Pop(m);
      var (w, m2) := Pop16(m1.(p := PulledStatus(v)));
      m2.(pc := w)
  }

  /** BRK: push PC + 1 and P with B set, then jump through the IRQ vector. */
  function ExecBreak(m: Machine): (r: Machine)
    requires m.Valid()
    ensures r.Valid()
  {
    EnterVector(PushState(m, m.pc + 1, true), VEC_IRQ)
  }

  /** `branch`: the new state and the extra cycles. */
  function Branch(m: Machine, adr: int, cond: bool): (r: (Machine, int))
    requires m.Valid()
    ensures r.0.Valid()
  {
    if !cond then (m, 0)
    else
      var (offset, m1) := Read8(m, adr);
      var newPc := BranchTarget(m.pc, offset);
      (m1.(pc := newPc), TakenPenalty(m.pc, newPc))
  }

  /** PHA, PHP, PLA and PLP. */
  function ExecStack(m: Machine, op: OpType): (r: Machine)
    requires m.Valid() && op.IsStack()
    ensures r.Valid()
  {
    match op
    case PHA => Push(m, m.a)
    case PHP => Push(m, StatusByte(m.p | BREAK_FLAG))
    case PLA =>
      var (v, m1) := Pop(m);
      m1.(a := v, p := SetNZ(m1.p, v))
    case PLP =>
      var (v, m1) := Pop(m);
      m1.(p := PulledStatus(v))
  }

  /** CLC, SEC, SEI, CLI, CLV, SED and CLD. */
  function ExecFlag(p: Status, op: OpType): Status
    requires op.IsFlag()
  {
    match op
    case CLC => p & !CARRY_FLAG
    case SEC => p | CARRY_FLAG
    case SEI => p | IRQBLK_FLAG
    case CLI => p & !IRQBLK_FLAG
    case CLV => p & !OVERFLOW_FLAG
    case SED => p | DECIMAL_FLAG
    case CLD => p & !DECIMAL_FLAG
  }

  /** The dispatch of `step` on the operation type: the new state and the cycles. */
  function Execute(m: Machine, inst: Instruction, adr: Address): (r: (Machine, int))
    requires m.Valid()
    ensures r.0.Valid()
  {
    var op := inst.opType;
    if op.IsBranch() then
      var (m1, extra) := Branch(m, OrZero(adr), BranchCondition(op, m.p));
      (m1, inst.cycle + extra)
    else
      var m1 :=
        if op.IsLoadStore() then ExecLoadStore(m, op, adr)
        else if op.IsTransfer() then ExecTransfer(m, op)
        else if op.IsAddSub() then ExecAddSub(m, op, adr)
        else if op.IsIncDec() then ExecIncDec(m, op, adr)
        else if op.IsLogic() then ExecLogic(m, op, adr)
        else if op.IsCompare() then ExecCompare(m, op, adr)
        else if op.IsShift() then ExecShift(m, op, adr)
        else if op.IsJump() then ExecJump(m, op, adr)
        else if op.BRK? then ExecBreak(m)
        else if op.IsStack() then ExecStack(m, op)
        else if op.IsFlag() then m.(p := ExecFlag(m.p, op))
        else m;
      (m1, inst.cycle)
  }

  /** The start of `step`: the step log entry, then the opcode read at PC. */
  function Fetch(m: Machine): (r: (Byte, Machine))
    requires m.Valid()
    ensures r.1.Valid()
  {
    Read8(Trace(m, StepAt(m.pc)), m.pc)
  }

  /** `step`: the state after one instruction and the cycles it took. */
  function Step(m: Machine, table: InstTable): (r: (Machine, int))
    requires m.Valid()
    ensures r.0.Valid()
  {
    var (op, m1) := Fetch(m);
    Decode(m1, table[op])
  }

  /**
   * The part of `step` after the opcode was fetched: an opcode without a table
   * entry pauses the CPU; otherwise the instruction runs.
   */
  function Decode(m: Machine, entry: TableEntry): (r: (Machine, int))
    requires m.Valid()
    ensures r.0.Valid()
  {
    match entry
    case Undefined => (m.(paused := true), 0)
    case Defined(inst) => Dispatch(m, inst)
  }

  /** Runs `inst`, whose opcode was fetched at PC. */
  function Dispatch(m: Machine, inst: Instruction): (r: (Machine, int))
    requires m.Valid()
    ensures r.0.Valid()
  {
    var (adr, m1) := Operand(m, inst);
    Run(m1, inst, adr)
  }

  /** Moves PC past `inst` and resolves its operand address, which follows the opcode. */
  function Operand(m: Machine, inst: Instruction): (r: (Address, Machine))
    requires m.Valid()
    ensures r.1.Valid()
  {
    GetAdr(m.(pc := m.pc + inst.bytes), m.pc + 1, inst.addressing)
  }

  /** Executes `inst` on `adr`, then pauses if the new PC is a break point. */
  function Run(m: Machine, inst: Instruction, adr: Address): (r: (Machine, int))
    requires m.Valid()
    ensures r.0.Valid()
  {
    var (m1, cycle) := Execute(m, inst, adr);
    (if m1.pc in m1.breakPoints then m1.(paused := true) else m1, cycle)
  }

  /** `addStepLog` when the debug switch is on; nothing otherwise. */
  function Trace(m: Machine, e: LogEntry): (r: Machine)
    requires m.Valid()
    ensures r.Valid()
  {
    if m.debug then m.(stepLogs := AddLog(m.stepLogs, e)) else m
  }

  /** P as `plp` and `rti` restore it from the byte `v` pulled off the stack: the reserved bit always reads 1. */
  function PulledStatus(v: Byte): Status
  {
    v as Status | RESERVED_FLAG
  }

  /** The byte value of P, as `php` and interrupts push it. */
  function StatusByte(p: Status): Byte
  {
    (if p & 0x80 != 0 then 0x80 else 0) + (if p & 0x40 != 0 then 0x40 else 0) +
    (if p & 0x20 != 0 then 0x20 else 0) + (if p & 0x10 != 0 then 0x10 else 0) +
    (if p & 0x08 != 0 then 0x08 else 0) + (if p & 0x04 != 0 then 0x04 else 0) +
    (if p & 0x02 != 0 then 0x02 else 0) + (if p & 0x01 != 0 then 0x01 else 0)
  }

  /** What an interrupt saves on the stack: `ret` (high byte first), then P with B set when `brk`. */
  function PushState(m: Machine, ret: int, brk: bool): (r: Machine)
    requires m.Valid()
    ensures r.Valid()
  {
    Push(Push16(m, ret), StatusByte(SavedStatus(m.p, brk)))
  }

  /** P as an interrupt saves it: B set for BRK, clear otherwise. */
  function SavedStatus(p: Status, brk: bool): Status
  {
    if brk then p | BREAK_FLAG else p & !BREAK_FLAG
  }

  /** Continues at the address read from `vector`, with interrupts masked. */
  function EnterVector(m: Machine, vector: int): (r: Machine)
    requires m.Valid()
    ensures r.Valid()
  {
    var (w, m1) := Read16(m, vector);
    m1.(pc := w, p := m1.p | IRQBLK_FLAG)
  }

  /** `nmi`. */
  function Nmi(m: Machine): Machine
    requires m.Valid()
  {
    var (vector, m1) := Read16(m, VEC_NMI);
    NmiEnter(if m1.breakOnNmi then m1.(paused := true) else m1, vector)
  }

  /** The end of `nmi`: logs it, saves PC and P, and jumps to `vector` with interrupts masked. */
  function NmiEnter(m: Machine, vector: int): Machine
    requires m.Valid()
  {
    var m1 := PushState(Trace(m, NmiAt(m.pc)), m.pc, false);
    m1.(pc := vector, p := m1.p | IRQBLK_FLAG)
  }

  /** `requestIrq`: whether the interrupt was taken, and the new state. */
  function RequestIrq(m: Machine): (bool, Machine)
    requires m.Valid()
  {
    if Flag(m.p, IRQBLK_FLAG) then (false, m)
    else (true, EnterVector(PushState(Trace(m, IrqAt(m.pc)), m.pc, false), VEC_IRQ))
  }

  /** `reset`. */
  function Reset(m: Machine): Machine
    requires m.Valid()
  {
    var m1 := m.(p := IRQBLK_FLAG | BREAK_FLAG | RESERVED_FLAG, s := (m.s - 3) % 0x100);
    var (vector, m2) := Read16(m1, VEC_RESET);
    m2.(pc := vector, stepLogs := [])
  }

  function Save(m: Machine): Snapshot
  {
    Snapshot(m.a, m.x, m.y, m.s, m.p, m.pc)
  }

  function Load(m: Machine, snap: Snapshot): Machine
  {
    m.(a := snap.a, x := snap.x, y := snap.y, s := snap.s, p := snap.p, pc := snap.pc)
  }

  /** `deleteAllBreakPoints`. */
  function DeleteAllBreakPoints(m: Machine): Machine
  {
    m.(breakPoints := {}, breakOnNmi := false, watchRead := {}, watchWrite := {})
  }
}
