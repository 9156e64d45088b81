/**
 * The class `Cpu` of src/nes/cpu.ts: a MOS 6502 interpreter whose registers
 * and debug hooks are fields updated in place and which drives a shared bus
 * object of 64 KiB.  Every method is proved to produce exactly the state the matching
 * function of NesCpuSpec describes.
 */
module NesCpu {
  import opened NesTypes
  import opened NesCpuSpec

  /** `kNZTable`: built by a loop over every byte value. */
  method BuildNZTable() returns (table: array<Status>)
    ensures table.Length == 256
    ensures forall i | 0 <= i < 256 :: table[i] == NZFlags(i)
    ensures forall i | 0 <= i < 256 ::
      (Flag(table[i], ZERO_FLAG) <==> i == 0) && (Flag(table[i], NEGATIVE_FLAG) <==> i >= 0x80)
  {
    table := new Status[256];
    var i := 0;
    while i < 256
      invariant 0 <= i <= 256
      invariant forall j | 0 <= j < i :: table[j] == NZFlags(j)
    {
      var value: Status := 0;
      if i == 0 {
        value := value | ZERO_FLAG;
      }
      if Bit(i, 7) {
        value := value | NEGATIVE_FLAG;
      }
      table[i] := value;
      i := i + 1;
    }
    forall i | 0 <= i < 256
      ensures (Flag(table[i], ZERO_FLAG) <==> i == 0) && (Flag(table[i], NEGATIVE_FLAG) <==> i >= 0x80)
    {
      NZTableEntry(i);
    }
  }

  /**
   * The bus the CPU drives: 64 KiB of cells, every one of them behaving as
   * RAM (the routing of src/nes/bus.ts to PPU, APU and cartridge is not part
   * of this model).
   */
  class Bus {
    var mem: seq<Byte>

    constructor (mem: seq<Byte>)
      ensures this.mem == mem
    {
      this.mem := mem;
    }
  }

  class Cpu {
    var a: Byte
    var x: Byte
    var y: Byte
    var s: Byte
    /** Status register [NVRBDIZC]. */
    var p: Status
    var pc: int
    var breakPoints: set<int>
    /** The `nmi` entry of the source's break-point table. */
    var breakOnNmi: bool
    var watchRead: set<int>
    var watchWrite: set<int>
    var paused: bool
    /** The global debug switch, read once at construction. */
    const debug: bool
    var stepLogs: seq<LogEntry>
    const bus: Bus
    /** The instruction table kInstTable. */
    const instTable: InstTable

    ghost predicate Valid()
      reads this, bus
    {
      |bus.mem| == BUS_SIZE && |stepLogs| <= MAX_STEP_LOG
    }

    /** The abstract state of this CPU and its bus. */
    ghost function State(): (m: Machine)
      reads this, bus
      ensures Valid() ==> m.Valid()
    {
      Machine(a, x, y, s, p, pc, paused, bus.mem, stepLogs, debug,
              breakPoints, breakOnNmi, watchRead, watchWrite)
    }

    constructor (bus: Bus, instTable: InstTable, debug: bool)
      requires |bus.mem| == BUS_SIZE
      ensures Valid()
      ensures this.bus == bus && this.instTable == instTable && this.debug == debug
      ensures a == 0 && x == 0 && y == 0 && s == 0 && p == 0 && pc == 0
      ensures !paused && stepLogs == []
      ensures breakPoints == {} && !breakOnNmi && watchRead == {} && watchWrite == {}
    {
      this.bus := bus;
      this.instTable := instTable;
      this.debug := debug;
      a, x, y, s := 0, 0, 0, 0;
      p, pc := 0, 0;
      paused := false;
      stepLogs := [];
      breakPoints, breakOnNmi := {}, false;
      watchRead, watchWrite := {}, {};
    }

    method Reset()
      requires Valid()
      modifies this`p, this`s, this`pc, this`paused, this`stepLogs
      ensures Valid()
      ensures State() == NesCpuSpec.Reset(old(State()))
    {
      p := IRQBLK_FLAG | BREAK_FLAG | RESERVED_FLAG;
      s := (s - 3) % 0x100;
      pc := Read16(VEC_RESET);
      stepLogs := [];
    }

    method Save() returns (snap: Snapshot)
      ensures snap == NesCpuSpec.Save(State())
    {
      snap := Snapshot(a, x, y, s, p, pc);
    }

    method Load(snap: Snapshot)
      modifies this
      ensures State() == NesCpuSpec.Load(old(State()), snap)
    {
      a, x, y, s, p, pc := snap.a, snap.x, snap.y, snap.s, snap.p, snap.pc;
    }

    method DeleteAllBreakPoints()
      modifies this
      ensures State() == NesCpuSpec.DeleteAllBreakPoints(old(State()))
    {
      breakPoints, breakOnNmi := {}, false;
      watchRead, watchWrite := {}, {};
    }

    method Pause(value: bool)
      modifies this`paused
      ensures paused == value
    {
      paused := value;
    }

    function IsPaused(): bool
      reads this
    {
      paused
    }

    method Nmi()
      requires Valid()
      modifies bus, this`s, this`p, this`pc, this`paused, this`stepLogs
      ensures Valid()
      ensures State() == NesCpuSpec.Nmi(old(State()))
    {
      var vector := Read16(VEC_NMI);
      if breakOnNmi {
        paused := true;
      }
      NmiEnter(vector);
    }

    method NmiEnter(vector: int)
      requires Valid()
      modifies bus, this`s, this`p, this`pc, this`stepLogs
      ensures Valid()
      ensures State() == NesCpuSpec.NmiEnter(old(State()), vector)
    {
      Trace(NmiAt(pc));
      PushState(pc, false);
      pc := vector;
      p := p | IRQBLK_FLAG;
    }

    method RequestIrq() returns (taken: bool)
      requires Valid()
      modifies bus, this`s, this`p, this`pc, this`paused, this`stepLogs
      ensures Valid()
      ensures (taken, State()) == NesCpuSpec.RequestIrq(old(State()))
    {
      if p & IRQBLK_FLAG != 0 {
        return false;
      }
      Trace(IrqAt(pc));
      PushState(pc, false);
      EnterVector(VEC_IRQ);
      return true;
    }

    /** Executes one instruction and answers the number of cycles it took. */
    method Step() returns (cycle: int)
      requires Valid()
      modifies this, bus
      ensures Valid()
      ensures (State(), cycle) == NesCpuSpec.Step(old(State()), instTable)
    {
      var op := Fetch();
      cycle := Decode(instTable[op]);
    }

    /** The part of `step` after the opcode was fetched. */
    method Decode(entry: TableEntry) returns (cycle: int)
      requires Valid()
      modifies this, bus
      ensures Valid()
      ensures (State(), cycle) == NesCpuSpec.Decode(old(State()), entry)
    {
      if entry.Undefined? {
        paused := true;
        return 0;
      }
      cycle := Dispatch(entry.inst);
    }

    /** The start of `step`: logs the step when debugging, then reads the opcode. */
    method Fetch() returns (op: Byte)
      requires Valid()
      modifies this`stepLogs, this`paused
      ensures Valid()
      ensures (op, State()) == NesCpuSpec.Fetch(old(State()))
    {
      Trace(StepAt(pc));
      op := Read8(pc);
    }

    /** Runs `inst`, whose opcode was fetched at PC. */
    method Dispatch(inst: Instruction) returns (cycle: int)
      requires Valid()
      modifies this, bus
      ensures Valid()
      ensures (State(), cycle) == NesCpuSpec.Dispatch(old(State()), inst)
    {
      var adr := Operand(inst);
      cycle := Run(inst, adr);
    }

    /** Moves PC past `inst` and resolves its operand address. */
    method Operand(inst: Instruction) returns (adr: Address)
      requires Valid()
      modifies this`pc, this`paused
      ensures Valid()
      ensures (adr, State()) == NesCpuSpec.Operand(old(State()), inst)
    {
      var pc0 := pc;
      pc := pc + inst.bytes;
      adr := GetAdr(pc0 + 1, inst.addressing);
    }

    /** Executes `inst` on `adr`, then pauses on a break point. */
    method Run(inst: Instruction, adr: Address) returns (cycle: int)
      requires Valid()
      modifies this, bus
      ensures Valid()
      ensures (State(), cycle) == NesCpuSpec.Run(old(State()), inst, adr)
    {
      cycle := Execute(inst, adr);
      if pc in breakPoints {
        paused := true;
      }
    }

    /** The dispatch of `step` on the operation type. */
    method Execute(inst: Instruction, adr: Address) returns (cycle: int)
      requires Valid()
      modifies this, bus
      ensures Valid()
      ensures (State(), cycle) == NesCpuSpec.Execute(old(State()), inst, adr)
    {
      var op := inst.opType;
      cycle := inst.cycle;
      if op.IsBranch() {
        var extra := Branch(OrZero(adr), BranchCondition(op, p));
        cycle := cycle + extra;
      } else if op.IsLoadStore() {
        ExecLoadStore(op, adr);
      } else if op.IsTransfer() {
        ExecTransfer(op);
      } else if op.IsAddSub() {
        ExecAddSub(op, adr);
      } else if op.IsIncDec() {
        ExecIncDec(op, adr);
      } else if op.IsLogic() {
        ExecLogic(op, adr);
      } else if op.IsCompare() {
        ExecCompare(op, adr);
      } else if op.IsShift() {
        ExecShift(op, adr);
      } else if op.IsJump() {
        ExecJump(op, adr);
      } else if op.BRK? {
        ExecBreak();
      } else if op.IsStack() {
        ExecStack(op);
      } else if op.IsFlag() {
        ExecFlag(op);
      }
    }

    method ExecLoadStore(op: OpType, adr: Address)
      requires Valid() && op.IsLoadStore()
      modifies bus, this`a, this`x, this`y, this`p, this`paused
      ensures Valid()
      ensures State() == NesCpuSpec.ExecLoadStore(old(State()), op, adr)
    {
      match op
      case LDA =>
        a := Read8(OrZero(adr));
        SetNZFlag(a);
      case STA => BusWrite8(OrZero(adr), a);
      case LDX =>
        x := Read8(OrZero(adr));
        SetNZFlag(x);
      case STX => BusWrite8(OrZero(adr), x);
      case LDY =>
        y := Read8(OrZero(adr));
        SetNZFlag(y);
      case STY => BusWrite8(OrZero(adr), y);
    }

    method ExecTransfer(op: OpType)
      requires op.IsTransfer()
      modifies this`a, this`x, this`y, this`s, this`p
      ensures State() == NesCpuSpec.ExecTransfer(old(State()), op)
    {
      match op
      case NOP =>
      case TAX =>
        x := a;
        SetNZFlag(x);
      case TAY =>
        y := a;
        SetNZFlag(y);
      case TXA =>
        a := x;
        SetNZFlag(x);
      case TYA =>
        a := y;
        SetNZFlag(a);
      case TXS => s := x;
      case TSX =>
        x := s;
        SetNZFlag(x);
    }

    method ExecAddSub(op: OpType, adr: Address)
      requires Valid() && op.IsAddSub()
      modifies this`a, this`p, this`paused
      ensures Valid()
      ensures State() == NesCpuSpec.ExecAddSub(old(State()), op, adr)
    {
      var carry := CarryIn(p);
      var value := Read8(OrZero(adr));
      var operand := if op.ADC? then value else 255 - value;
      var r := AddWithCarry(a, operand, carry);
      a := r.value;
      SetNZCFlag(a, r.carry);
      SetOverFlow(r.overflow);
    }

    method ExecIncDec(op: OpType, adr: Address)
      requires Valid() && op.IsIncDec()
      modifies bus, this`x, this`y, this`p, this`paused
      ensures Valid()
      ensures State() == NesCpuSpec.ExecIncDec(old(State()), op, adr)
    {
      match op
      case INX =>
        x := Inc8(x);
        SetNZFlag(x);
      case INY =>
        y := Inc8(y);
        SetNZFlag(y);
      case INC =>
        var value := Read8(OrZero(adr));
        value := Inc8(value);
        BusWrite8(OrZero(adr), value);
        SetNZFlag(value);
      case DEX =>
        x := Dec8(x);
        SetNZFlag(x);
      case DEY =>
        y := Dec8(y);
        SetNZFlag(y);
      case DEC =>
        var value := Read8(OrZero(adr));
        value := Dec8(value);
        BusWrite8(OrZero(adr), value);
        SetNZFlag(value);
    }

    method ExecLogic(op: OpType, adr: Address)
      requires Valid() && op.IsLogic()
      modifies this`a, this`p, this`paused
      ensures Valid()
      ensures State() == NesCpuSpec.ExecLogic(old(State()), op, adr)
    {
      var value := Read8(OrZero(adr));
      match op
      case AND =>
        a := And8(a, value);
        SetNZFlag(a);
      case ORA =>
        a := Or8(a, value);
        SetNZFlag(a);
      case EOR =>
        a := Xor8(a, value);
        SetNZFlag(a);
      case BIT => SetBitTest(value);
    }

    /** The flags of BIT: Z from `a & value`, N and V from `value`. */
    method SetBitTest(value: Byte)
      modifies this`p
      ensures p == BitTest(old(p), a, value)
    {
      SetZero(And8(a, value) == 0);
      var mask := NEGATIVE_FLAG | OVERFLOW_FLAG;
      p := (p & !mask) | (value as Status & mask);
    }

    method ExecCompare(op: OpType, adr: Address)
      requires Valid() && op.IsCompare()
      modifies this`p, this`paused
      ensures Valid()
      ensures State() == NesCpuSpec.ExecCompare(old(State()), op, adr)
    {
      var value := Read8(OrZero(adr));
      var reg := if op.CMP? then a else if op.CPX? then x else y;
      assert reg == CompareRegister(State(), op);
      var result := reg - value;
      SetNZCFlag(result % 0x100, result >= 0);
    }

    method ExecShift(op: OpType, adr: Address)
      requires Valid() && op.IsShift()
      modifies bus, this`a, this`p, this`paused
      ensures Valid()
      ensures State() == NesCpuSpec.ExecShift(old(State()), op, adr)
    {
      var value;
      if adr.Null? {
        value := a;
      } else {
        value := Read8(adr.value);
      }
      var r := ShiftOp(op, value, p);
      if adr.Null? {
        a := r.value;
      } else {
        BusWrite8(adr.value, r.value);
      }
      SetNZCFlag(r.value, r.carry);
    }

    method ExecJump(op: OpType, adr: Address)
      requires Valid() && op.IsJump()
      modifies bus, this`s, this`p, this`pc, this`paused
      ensures Valid()
      ensures State() == NesCpuSpec.ExecJump(old(State()), op, adr)
    {
      match op
      case JMP => pc := OrZero(adr);
      case JSR => ExecJsr(adr);
      case RTS =>
        var w := Pop16();
        pc := w + 1;
      case RTI => ExecRti(adr);
    }

    method ExecJsr(adr: Address)
      requires Valid()
      modifies bus, this`s, this`pc
      ensures Valid()
      ensures State() == NesCpuSpec.ExecJump(old(State()), JSR, adr)
    {
      Push16(pc - 1);
      pc := OrZero(adr);
    }

    method ExecRti(adr: Address)
      requires Valid()
      modifies this`s, this`p, this`pc, this`paused
      ensures Valid()
      ensures State() == NesCpuSpec.ExecJump(old(State()), RTI, adr)
    {
      var v := Pop();
      p := PulledStatus(v);
      pc := Pop16();
    }

    method ExecBreak()
      requires Valid()
      modifies bus, this`s, this`p, this`pc, this`paused
      ensures Valid()
      ensures State() == NesCpuSpec.ExecBreak(old(State()))
    {
      PushState(pc + 1, true);
      EnterVector(VEC_IRQ);
    }

    /** Logs `e` when the debug switch is on. */
    method Trace(e: LogEntry)
      requires Valid()
      modifies this`stepLogs
      ensures Valid()
      ensures State() == NesCpuSpec.Trace(old(State()), e)
    {
      if debug {
        AddStepLog(e);
      }
    }

    /** Saves `ret` and P, with B as `brk`, on the stack. */
    method PushState(ret: int, brk: bool)
      requires Valid()
      modifies bus, this`s
      ensures Valid()
      ensures State() == NesCpuSpec.PushState(old(State()), ret, brk)
    {
      var saved := StatusByte(SavedStatus(p, brk));
      Push16(ret);
      Push(saved);
    }

    /** Jumps through `vector` and masks interrupts. */
    method EnterVector(vector: int)
      requires Valid()
      modifies this`pc, this`p, this`paused
      ensures Valid()
      ensures State() == NesCpuSpec.EnterVector(old(State()), vector)
    {
      pc := Read16(vector);
      p := p | IRQBLK_FLAG;
    }

    method ExecStack(op: OpType)
      requires Valid() && op.IsStack()
      modifies bus, this`s, this`a, this`p, this`paused
      ensures Valid()
      ensures State() == NesCpuSpec.ExecStack(old(State()), op)
    {
      match op
      case PHA => Push(a);
      case PHP => Push(StatusByte(p | BREAK_FLAG));
      case PLA =>
        a := Pop();
        SetNZFlag(a);
      case PLP =>
        var v := Pop();
        p := PulledStatus(v);
    }

    method ExecFlag(op: OpType)
      requires op.IsFlag()
      modifies this`p
      ensures p == NesCpuSpec.ExecFlag(old(p), op)
    {
      match op
      case CLC => p := p & !CARRY_FLAG;
      case SEC => p := p | CARRY_FLAG;
      case SEI => p := p | IRQBLK_FLAG;
      case CLI => p := p & !IRQBLK_FLAG;
      case CLV => p := p & !OVERFLOW_FLAG;
      case SED => p := p | DECIMAL_FLAG;
      case CLD => p := p & !DECIMAL_FLAG;
    }

    method Read8(adr: int) returns (v: Byte)
      requires Valid()
      modifies this`paused
      ensures Valid()
      ensures (v, State()) == NesCpuSpec.Read8(old(State()), adr)
    {
      v := bus.mem[BusIndex(adr)];
      if adr in watchRead {
        paused := true;
      }
    }

    /** `bus.write8`. */
    method BusWrite8(adr: int, v: Byte)
      requires Valid()
      modifies bus
      ensures Valid()
      ensures State() == NesCpuSpec.Write8(old(State()), adr, v)
    {
      bus.mem := bus.mem[BusIndex(adr) := v];
    }

    method Read16(adr: int) returns (w: int)
      requires Valid()
      modifies this`paused
      ensures Valid()
      ensures (w, State()) == NesCpuSpec.Read16(old(State()), adr)
    {
      var lo := Read8(adr);
      var hi := Read8(adr + 1);
      w := hi as int * 0x100 + lo;
    }

    method Read16Indirect(adr: int) returns (w: int)
      requires Valid()
      modifies this`paused
      ensures Valid()
      ensures (w, State()) == NesCpuSpec.Read16Indirect(old(State()), adr)
    {
      var lo := Read8(adr);
      var hi := Read8(IndirectHighAddress(adr));
      w := hi as int * 0x100 + lo;
    }

    method Push(value: Byte)
      requires Valid()
      modifies bus, this`s
      ensures Valid()
      ensures State() == NesCpuSpec.Push(old(State()), value)
    {
      BusWrite8(StackAddress(s), value);
      s := Dec8(s);
    }

    method Push16(value: int)
      requires Valid()
      modifies bus, this`s
      ensures Valid()
      ensures State() == NesCpuSpec.Push16(old(State()), value)
    {
      var sp := s;
      BusWrite8(StackAddress(sp), (value / 0x100) % 0x100);
      sp := Dec8(sp);
      BusWrite8(StackAddress(sp), value % 0x100);
      s := Dec8(sp);
    }

    method Pop() returns (v: Byte)
      requires Valid()
      modifies this`s, this`paused
      ensures Valid()
      ensures (v, State()) == NesCpuSpec.Pop(old(State()))
    {
      s := Inc8(s);
      v := Read8(StackAddress(s));
    }

    method Pop16() returns (w: int)
      requires Valid()
      modifies this`s, this`paused
      ensures Valid()
      ensures (w, State()) == NesCpuSpec.Pop16(old(State()))
    {
      var sp := s;
      sp := Inc8(sp);
      var l := Read8(StackAddress(sp));
      sp := Inc8(sp);
      var h := Read8(StackAddress(sp));
      s := sp;
      w := h as int * 0x100 + l;
    }

    method SetNZFlag(nz: Byte)
      modifies this`p
      ensures p == SetNZ(old(p), nz)
    {
      p := (p & NZ_MASK) | NZFlags(nz);
    }

    method SetNZCFlag(nz: Byte, carry: bool)
      modifies this`p
      ensures p == SetNZC(old(p), nz, carry)
    {
      p := (p & NZC_MASK) | NZFlags(nz) | (if carry then CARRY_FLAG else 0);
    }

    method SetZero(value: bool)
      modifies this`p
      ensures p == SetReset(old(p), value, ZERO_FLAG)
    {
      p := if value then p | ZERO_FLAG else p & !ZERO_FLAG;
    }

    method SetOverFlow(value: bool)
      modifies this`p
      ensures p == SetReset(old(p), value, OVERFLOW_FLAG)
    {
      p := if value then p | OVERFLOW_FLAG else p & !OVERFLOW_FLAG;
    }

    /** Appends to the step log; a full log shifts its entries down by one first. */
    method AddStepLog(e: LogEntry)
      requires Valid()
      modifies this`stepLogs
      ensures Valid()
      ensures stepLogs == AddLog(old(stepLogs), e)
    {
      if |stepLogs| < MAX_STEP_LOG {
        stepLogs := stepLogs + [e];
      } else {
        var logs := stepLogs;
        var i := 1;
        while i < MAX_STEP_LOG
          invariant 1 <= i <= MAX_STEP_LOG
          invariant |logs| == MAX_STEP_LOG
          invariant forall j | 0 <= j < i - 1 :: logs[j] == stepLogs[j + 1]
          invariant forall j | i - 1 <= j < MAX_STEP_LOG :: logs[j] == stepLogs[j]
        {
          logs := logs[i - 1 := logs[i]];
          i := i + 1;
        }
        logs := logs[MAX_STEP_LOG - 1 := e];
        stepLogs := logs;
      }
    }

    /** The effective address of the operand; Null is the source's `null`. */
    method GetAdr(pc: int, addressing: Addressing) returns (adr: Address)
      requires Valid()
      modifies this`paused
      ensures Valid()
      ensures (adr, State()) == NesCpuSpec.GetAdr(old(State()), pc, addressing)
    {
      match addressing
      case ACCUMULATOR => adr := Null;
      case IMPLIED => adr := Null;
      case IMMEDIATE => adr := At(pc);
      case RELATIVE => adr := At(pc);
      case UNKNOWN =>
        paused := true;
        adr := Null;
      case INDIRECT_X => adr := IndirectAdr(pc, addressing);
      case INDIRECT_Y => adr := IndirectAdr(pc, addressing);
      case INDIRECT => adr := IndirectAdr(pc, addressing);
      case _ => adr := DirectAdr(pc, addressing);
    }

    /** `getAdr` for the zero-page and absolute modes: the operand bytes hold the address. */
    method DirectAdr(pc: int, addressing: Addressing) returns (adr: Address)
      requires Valid()
      requires addressing in {ZEROPAGE, ZEROPAGE_X, ZEROPAGE_Y, ABSOLUTE, ABSOLUTE_X, ABSOLUTE_Y}
      modifies this`paused
      ensures Valid()
      ensures (adr, State()) == NesCpuSpec.DirectAdr(old(State()), pc, addressing)
    {
      match addressing
      case ZEROPAGE =>
        var v := Read8(pc);
        adr := At(v);
      case ZEROPAGE_X =>
        var v := Read8(pc);
        adr := At((v + x) % 0x100);
      case ZEROPAGE_Y =>
        var v := Read8(pc);
        adr := At((v + y) % 0x100);
      case ABSOLUTE =>
        var w := Read16(pc);
        adr := At(w);
      case ABSOLUTE_X =>
        var w := Read16(pc);
        adr := At((w + x) % 0x10000);
      case ABSOLUTE_Y =>
        var w := Read16(pc);
        adr := At((w + y) % 0x10000);
    }

    /** `getAdr` for the indirect modes: the operand points at the address. */
    method IndirectAdr(pc: int, addressing: Addressing) returns (adr: Address)
      requires Valid()
      requires addressing in {INDIRECT_X, INDIRECT_Y, INDIRECT}
      modifies this`paused
      ensures Valid()
      ensures (adr, State()) == NesCpuSpec.IndirectAdr(old(State()), pc, addressing)
    {
      match addressing
      case INDIRECT_X =>
        var zeroPageAdr := Read8(pc);
        var w := Read16Indirect((zeroPageAdr + x) % 0x100);
        adr := At(w);
      case INDIRECT_Y =>
        var zeroPageAdr := Read8(pc);
        var base := Read16Indirect(zeroPageAdr);
        adr := At((base + y) % 0x10000);
      case INDIRECT =>
        var w := Read16(pc);
        var w2 := Read16Indirect(w);
        adr := At(w2);
    }

    /** Takes the branch at `adr` when `cond` holds; answers the extra cycles. */
    method Branch(adr: int, cond: bool) returns (extra: int)
      requires Valid()
      modifies this`pc, this`paused
      ensures Valid()
      ensures (State(), extra) == NesCpuSpec.Branch(old(State()), adr, cond)
    {
      if !cond {
        return 0;
      }
      var pc0 := pc;
      var offset := Read8(adr);
      var newPc := (pc0 + ToSigned(offset)) % 0x10000;
      pc := newPc;
      extra := if Bit8(pc0) != Bit8(newPc) then 2 else 1;
    }
  }
}
