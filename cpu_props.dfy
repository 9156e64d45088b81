/**
 * Properties of the 6502 interpreter of src/nes/cpu.ts, stated and proved
 * about the functions of NesCpuSpec (and so about every method of the class
 * Cpu, which is proved equal to them).
 *
 * The stack lemmas rely on what the model of the bus gives: the stack page
 * 0x0100-0x01FF behaves as RAM.
 */
module NesCpuProps {
  import opened NesTypes
  import opened NesCpuSpec

  // ---------------------------------------------------------------------
  // Arithmetic

  /** The V flag of the shared ADC/SBC adder is set exactly on signed overflow. */
  lemma {:induction false} AddOverflowIsSignedOverflow(a: Byte, operand: Byte, carry: int)
    requires carry == 0 || carry == 1
    ensures AddWithCarry(a, operand, carry).overflow <==>
      !(-0x80 <= ToSigned(a) + ToSigned(operand) + carry < 0x80)
  {
    assert Pow2(7) == 0x80;
  }

  /**
   * ADC and SBC run the same adder, on M for ADC and on `255 - M` (the ones'
   * complement) for SBC: A takes its value, N, Z, C and V its flags, and
   * nothing else changes.
   */
  lemma AddSubResult(m: Machine, op: OpType, adr: Address)
    requires m.Valid() && op.IsAddSub()
    ensures var v := m.mem[BusIndex(OrZero(adr))];
      var res := AddWithCarry(m.a, if op.ADC? then v else 255 - v, CarryIn(m.p));
      var r := ExecAddSub(m, op, adr);
      && r.a == res.value
      && (Flag(r.p, CARRY_FLAG) <==> res.carry)
      && (Flag(r.p, OVERFLOW_FLAG) <==> res.overflow)
      && (Flag(r.p, ZERO_FLAG) <==> r.a == 0)
      && (Flag(r.p, NEGATIVE_FLAG) <==> r.a >= 0x80)
      && r.p & !(NEGATIVE_FLAG | OVERFLOW_FLAG | ZERO_FLAG | CARRY_FLAG)
         == m.p & !(NEGATIVE_FLAG | OVERFLOW_FLAG | ZERO_FLAG | CARRY_FLAG)
      && r.x == m.x && r.y == m.y && r.s == m.s && r.pc == m.pc && r.mem == m.mem
      && r == m.(a := res.value, p := r.p, paused := m.paused || OrZero(adr) in m.watchRead)
  {
    var v := m.mem[BusIndex(OrZero(adr))];
    var res := AddWithCarry(m.a, if op.ADC? then v else 255 - v, CarryIn(m.p));
    FlagsAfterAdd(m.p, res);
  }

  /**
   * ADC: A becomes `A + M + C` modulo 256, C is the unsigned carry out and V
   * is signed overflow of the addition.
   */
  lemma AdcSemantics(m: Machine, adr: Address)
    requires m.Valid()
    ensures var v := m.mem[BusIndex(OrZero(adr))];
      var c := CarryIn(m.p);
      var r := ExecAddSub(m, ADC, adr);
      && r.a == (m.a + v + c) % 0x100
      && (Flag(r.p, CARRY_FLAG) <==> m.a + v + c >= 0x100)
      && (Flag(r.p, OVERFLOW_FLAG) <==> !(-0x80 <= ToSigned(m.a) + ToSigned(v) + c < 0x80))
  {
    var v := m.mem[BusIndex(OrZero(adr))];
    AddSubResult(m, ADC, adr);
    AddOverflowIsSignedOverflow(m.a, v, CarryIn(m.p));
  }

  /**
   * SBC: A becomes `A - M - (1 - C)` modulo 256, C is set exactly when no
   * borrow occurred, and V is signed overflow of the subtraction.
   */
  lemma SbcSemantics(m: Machine, adr: Address)
    requires m.Valid()
    ensures var v := m.mem[BusIndex(OrZero(adr))];
      var c := CarryIn(m.p);
      var r := ExecAddSub(m, SBC, adr);
      && r.a == (m.a - v - (1 - c)) % 0x100
      && (Flag(r.p, CARRY_FLAG) <==> m.a - v - (1 - c) >= 0)
      && (Flag(r.p, OVERFLOW_FLAG) <==> !(-0x80 <= ToSigned(m.a) - ToSigned(v) - (1 - c) < 0x80))
  {
    var v := m.mem[BusIndex(OrZero(adr))];
    var c := CarryIn(m.p);
    AddSubResult(m, SBC, adr);
    AddOverflowIsSignedOverflow(m.a, 255 - v, c);
    SubtractAsAdd(m.a, v, c);
  }

  /** Subtracting `v` with borrow `1 - c` is adding its complement `255 - v` with carry `c`. */
  lemma SubtractAsAdd(a: Byte, v: Byte, c: int)
    requires 0 <= c <= 1
    ensures (a + (255 - v) + c) % 0x100 == (a - v - (1 - c)) % 0x100
    ensures a + (255 - v) + c >= 0x100 <==> a - v - (1 - c) >= 0
    ensures ToSigned(255 - v) == -ToSigned(v) - 1
  {
  }

  /** The flags ADC and SBC leave: N, Z, C from the sum, V from its overflow, the rest kept. */
  lemma FlagsAfterAdd(p: Status, r: AluResult)
    ensures var q := SetReset(SetNZC(p, r.value, r.carry), r.overflow, OVERFLOW_FLAG);
      && (Flag(q, CARRY_FLAG) <==> r.carry)
      && (Flag(q, OVERFLOW_FLAG) <==> r.overflow)
      && (Flag(q, ZERO_FLAG) <==> r.value == 0)
      && (Flag(q, NEGATIVE_FLAG) <==> r.value >= 0x80)
      && q & !(NEGATIVE_FLAG | OVERFLOW_FLAG | ZERO_FLAG | CARRY_FLAG)
         == p & !(NEGATIVE_FLAG | OVERFLOW_FLAG | ZERO_FLAG | CARRY_FLAG)
  {
    var p1 := SetNZC(p, r.value, r.carry);
    var q := SetReset(p1, r.overflow, OVERFLOW_FLAG);
    assert q & !OVERFLOW_FLAG == p1 & !OVERFLOW_FLAG;
  }

  /**
   * CMP, CPX and CPY change nothing but N, Z and C: C is `reg >= M`, Z is
   * `reg == M` and N is bit 7 of `reg - M`.
   */
  lemma CompareSemantics(m: Machine, op: OpType, adr: Address)
    requires m.Valid() && op.IsCompare()
    ensures var v := m.mem[BusIndex(OrZero(adr))];
      var reg := CompareRegister(m, op);
      var r := ExecCompare(m, op, adr);
      && (Flag(r.p, CARRY_FLAG) <==> reg >= v)
      && (Flag(r.p, ZERO_FLAG) <==> reg == v)
      && (Flag(r.p, NEGATIVE_FLAG) <==> (reg - v) % 0x100 >= 0x80)
      && r.p & NZC_MASK == m.p & NZC_MASK
      && r.a == m.a && r.x == m.x && r.y == m.y && r.s == m.s && r.pc == m.pc && r.mem == m.mem
      && r == m.(p := r.p, paused := m.paused || OrZero(adr) in m.watchRead)
  {
  }

  // ---------------------------------------------------------------------
  // Transfers and flags

  /**
   * The register transfers copy one register into another and change no
   * other register. Every transfer except TXS sets N and Z from the copied
   * value and keeps the other flags; TXS and NOP leave P alone.
   */
  lemma TransferSemantics(m: Machine, op: OpType)
    requires op.IsTransfer()
    ensures var r := ExecTransfer(m, op);
      && r == m.(a := r.a, x := r.x, y := r.y, s := r.s, p := r.p)
      && r.a == (if op.TXA? then m.x else if op.TYA? then m.y else m.a)
      && r.x == (if op.TAX? then m.a else if op.TSX? then m.s else m.x)
      && r.y == (if op.TAY? then m.a else m.y)
      && r.s == (if op.TXS? then m.x else m.s)
      && (op.NOP? || op.TXS? ==> r.p == m.p)
      && (!op.NOP? && !op.TXS? ==>
            var moved := if op.TAX? || op.TSX? then r.x else if op.TAY? then r.y else r.a;
            && (Flag(r.p, ZERO_FLAG) <==> moved == 0)
            && (Flag(r.p, NEGATIVE_FLAG) <==> moved >= 0x80)
            && r.p & NZ_MASK == m.p & NZ_MASK)
  {
    TransferRegisters(m, op);
    TransferFlags(m, op);
  }

  /** The register half of the transfers: the copy, with P aside. */
  lemma TransferRegisters(m: Machine, op: OpType)
    requires op.IsTransfer()
    ensures var r := ExecTransfer(m, op);
      && r == m.(a := r.a, x := r.x, y := r.y, s := r.s, p := r.p)
      && r.a == (if op.TXA? then m.x else if op.TYA? then m.y else m.a)
      && r.x == (if op.TAX? then m.a else if op.TSX? then m.s else m.x)
      && r.y == (if op.TAY? then m.a else m.y)
      && r.s == (if op.TXS? then m.x else m.s)
  {
  }

  /** The flag half of the transfers: N and Z of the copied value, or P kept for NOP and TXS. */
  lemma TransferFlags(m: Machine, op: OpType)
    requires op.IsTransfer()
    ensures var r := ExecTransfer(m, op);
      && (op.NOP? || op.TXS? ==> r.p == m.p)
      && (!op.NOP? && !op.TXS? ==>
            var v := if op.TAX? || op.TAY? then m.a else if op.TXA? then m.x else if op.TYA? then m.y else m.s;
            r.p == SetNZ(m.p, v))
  {
  }

  /**
   * AND, ORA and EOR: bit `k` of the new A is bit `k` of A and, or, or
   * exclusive-or bit `k` of M; N and Z follow the new A and the other flags
   * are kept. BIT leaves A alone and sets P by `BitTest`. Apart from A and P
   * only `paused` changes, when the operand address is watched.
   */
  lemma LogicSemantics(m: Machine, op: OpType, adr: Address)
    requires m.Valid() && op.IsLogic()
    ensures var v := m.mem[BusIndex(OrZero(adr))];
      var r := ExecLogic(m, op, adr);
      && r == m.(a := r.a, p := r.p, paused := m.paused || OrZero(adr) in m.watchRead)
      && (forall k | 0 <= k < 8 ::
            && (op.AND? ==> (Bit(r.a, k) <==> Bit(m.a, k) && Bit(v, k)))
            && (op.ORA? ==> (Bit(r.a, k) <==> Bit(m.a, k) || Bit(v, k)))
            && (op.EOR? ==> (Bit(r.a, k) <==> Bit(m.a, k) != Bit(v, k))))
      && (!op.BIT? ==>
            && (Flag(r.p, ZERO_FLAG) <==> r.a == 0)
            && (Flag(r.p, NEGATIVE_FLAG) <==> r.a >= 0x80)
            && r.p & NZ_MASK == m.p & NZ_MASK)
      && (op.BIT? ==> r.a == m.a && r.p == BitTest(m.p, m.a, v))
  {
    LogicState(m, op, adr);
    if !op.BIT? {
      var v := m.mem[BusIndex(OrZero(adr))];
      var bop := if op.AND? then AndOp else if op.ORA? then OrOp else XorOp;
      assert ExecLogic(m, op, adr).a == Bitwise(bop, m.a, v, 8);
      forall k | 0 <= k < 8
        ensures Bit(Bitwise(bop, m.a, v, 8), k) <==> Combine(bop, Bit(m.a, k), Bit(v, k))
      {
        BitwiseBit(bop, m.a, v, 8, k);
      }
    }
  }

  /** The state after AND, ORA, EOR or BIT, with the value of A aside. */
  lemma LogicState(m: Machine, op: OpType, adr: Address)
    requires m.Valid() && op.IsLogic()
    ensures var v := m.mem[BusIndex(OrZero(adr))];
      var r := ExecLogic(m, op, adr);
      && r == m.(a := r.a, p := r.p, paused := m.paused || OrZero(adr) in m.watchRead)
      && (op.AND? ==> r.a == And8(m.a, v))
      && (op.ORA? ==> r.a == Or8(m.a, v))
      && (op.EOR? ==> r.a == Xor8(m.a, v))
      && (!op.BIT? ==> r.p == SetNZ(m.p, r.a))
      && (op.BIT? ==> r.a == m.a && r.p == BitTest(m.p, m.a, v))
  {
  }

  /** The flag of P that a flag instruction sets or clears. */
  function FlagOf(op: OpType): Status
    requires op.IsFlag()
  {
    if op.CLC? || op.SEC? then CARRY_FLAG
    else if op.SEI? || op.CLI? then IRQBLK_FLAG
    else if op.CLV? then OVERFLOW_FLAG
    else DECIMAL_FLAG
  }

  /**
   * CLC, SEC, SEI, CLI, CLV, SED and CLD each set (SEC, SEI, SED) or clear
   * (the others) their one flag and keep every other bit of P.
   */
  lemma FlagInstruction(p: Status, op: OpType)
    requires op.IsFlag()
    ensures var r := ExecFlag(p, op);
      && (Flag(r, FlagOf(op)) <==> op.SEC? || op.SEI? || op.SED?)
      && r & !FlagOf(op) == p & !FlagOf(op)
  {
  }

  // ---------------------------------------------------------------------
  // Branches

  /** A branch that is not taken changes nothing and costs no extra cycle. */
  lemma BranchNotTaken(m: Machine, adr: int)
    requires m.Valid()
    ensures Branch(m, adr, false) == (m, 0)
  {
  }

  /**
   * A taken branch moves PC by the signed offset read at `adr` (within 64
   * KiB) and costs 2 extra cycles exactly when the target is on another
   * 256-byte page, 1 otherwise.
   */
  lemma BranchTaken(m: Machine, adr: int)
    requires m.Valid() && 0 <= m.pc < 0x10000
    ensures var offset := m.mem[BusIndex(adr)];
      var (m1, extra) := Branch(m, adr, true);
      && m1.pc == (m.pc + ToSigned(offset)) % 0x10000
      && (extra == 2 <==> m1.pc / 0x100 != m.pc / 0x100)
      && (extra == 1 <==> m1.pc / 0x100 == m.pc / 0x100)
  {
    var offset := m.mem[BusIndex(adr)];
    PageCrossFlipsBit8(m.pc, BranchTarget(m.pc, offset), ToSigned(offset));
  }

  /**
   * Two addresses at most 128 apart (around the 64 KiB ring) lie on
   * different pages exactly when bit 8 of their difference in page numbers
   * is odd, which is what `(pc ^ newPc) & 0x0100` tests.
   */
  lemma PageCrossFlipsBit8(pc: int, target: int, d: int)
    requires 0 <= pc < 0x10000 && 0 <= target < 0x10000
    requires -0x80 <= d < 0x80 && (target - pc - d) % 0x10000 == 0
    ensures (pc / 0x100) % 2 != (target / 0x100) % 2 <==> pc / 0x100 != target / 0x100
  {
    var hp, ht := pc / 0x100, target / 0x100;
    if pc + d < 0 {
      assert target == pc + d + 0x10000;
      assert hp == 0 && ht == 0xFF;
    } else if pc + d >= 0x10000 {
      assert target == pc + d - 0x10000;
      assert hp == 0xFF && ht == 0;
    } else {
      assert target == pc + d;
      assert ht - hp <= 1 && hp - ht <= 1;
    }
  }

  // ---------------------------------------------------------------------
  // The stack

  /** The three stack cells an interrupt writes are three distinct bytes of page 1. */
  lemma StackCells(s: Byte)
    ensures 0x100 <= StackAddress(s) < 0x200
    ensures StackAddress(s) != StackAddress(Dec8(s))
    ensures StackAddress(Dec8(s)) != StackAddress(Dec8(Dec8(s)))
    ensures StackAddress(s) != StackAddress(Dec8(Dec8(s)))
    ensures Inc8(Dec8(s)) == s
    ensures Dec8(Dec8(Dec8(s))) == (s - 3) % 0x100
  {
  }

  /** `pop` after `push` answers the pushed byte and restores S. */
  lemma PushPop(m: Machine, v: Byte)
    requires m.Valid()
    ensures Pop(Push(m, v)).0 == v
    ensures Pop(Push(m, v)).1.s == m.s
  {
    StackCells(m.s);
  }

  /** `pop16` after `push16` answers the pushed word and restores S. */
  lemma {:induction false} Push16Pop16(m: Machine, v: int)
    requires m.Valid() && 0 <= v < 0x10000
    ensures Pop16(Push16(m, v)).0 == v
    ensures Pop16(Push16(m, v)).1.s == m.s
  {
    StackCells(m.s);
    var m1 := Push16(m, v);
    var s1 := Dec8(m.s);
    assert m1.mem[StackAddress(m.s)] == v / 0x100;
    assert m1.mem[StackAddress(s1)] == v % 0x100;
    assert Inc8(Dec8(s1)) == s1;
  }

  /** JSR followed by RTS resumes after the JSR: PC and S are restored. */
  lemma JsrRts(m: Machine, target: Address, any: Address)
    requires m.Valid() && 0 < m.pc <= 0x10000
    ensures var r := ExecJump(ExecJump(m, JSR, target), RTS, any);
      r.pc == m.pc && r.s == m.s && r.a == m.a && r.x == m.x && r.y == m.y && r.p == m.p
  {
    Push16Pop16(m, m.pc - 1);
  }

  /** The byte P is pushed as is the unsigned value of its 8 bits. */
  lemma StatusByteValue(p: Status)
    ensures StatusByte(p) == p as int
  {
  }

  /** The byte value of P read back as a status register is P itself. */
  lemma StatusByteRoundTrip(p: Status)
    ensures StatusByte(p) as Status == p
  {
    StatusByteValue(p);
  }

  /** PLP and RTI read back the P that PHP or an interrupt pushed, with the reserved bit set. */
  lemma PullPushedStatus(p: Status)
    ensures PulledStatus(StatusByte(p)) == p | RESERVED_FLAG
  {
    StatusByteRoundTrip(p);
  }

  /** PHP followed by PLP restores P, with B and the reserved bit set, and S. */
  lemma PhpPlp(m: Machine)
    requires m.Valid()
    ensures var r := ExecStack(ExecStack(m, PHP), PLP);
      r.p == m.p | BREAK_FLAG | RESERVED_FLAG && r.s == m.s && r.a == m.a
  {
    PushPop(m, StatusByte(m.p | BREAK_FLAG));
    PullPushedStatus(m.p | BREAK_FLAG);
  }

  // ---------------------------------------------------------------------
  // Interrupts and reset

  /** The little-endian word stored at `adr`, `adr + 1` of the bus. */
  function Word(m: Machine, adr: int): (w: int)
    requires m.Valid()
    ensures 0 <= w < 0x10000
  {
    m.mem[BusIndex(adr + 1)] as int * 0x100 + m.mem[BusIndex(adr)]
  }

  /** `requestIrq` does nothing and answers false while interrupts are masked. */
  lemma IrqBlocked(m: Machine)
    requires m.Valid() && Flag(m.p, IRQBLK_FLAG)
    ensures RequestIrq(m) == (false, m)
  {
  }

  /** Everything on the bus outside the stack page. */
  ghost predicate SameOutsideStack(mem: seq<Byte>, mem': seq<Byte>)
    requires |mem| == |mem'| == BUS_SIZE
  {
    forall i | 0 <= i < BUS_SIZE && !(0x100 <= i < 0x200) :: mem'[i] == mem[i]
  }

  /** The three bus writes and the change of S an interrupt makes, written out. */
  lemma PushStateWrites(m: Machine, ret: int, brk: bool)
    requires m.Valid()
    ensures PushState(m, ret, brk) ==
      m.(mem := m.mem[StackAddress(m.s) := (ret / 0x100) % 0x100]
                     [StackAddress(Dec8(m.s)) := ret % 0x100]
                     [StackAddress(Dec8(Dec8(m.s))) := StatusByte(SavedStatus(m.p, brk))],
         s := Dec8(Dec8(Dec8(m.s))))
  {
    var m1 := Push16(m, ret);
    assert m1 == m.(mem := m.mem[StackAddress(m.s) := (ret / 0x100) % 0x100]
                                [StackAddress(Dec8(m.s)) := ret % 0x100],
                    s := Dec8(Dec8(m.s)));
  }

  /**
   * What an interrupt saves: `ret` high byte first, then P with B as `brk`,
   * in the three cells below S, which drops by 3; nothing else changes.
   */
  lemma {:induction false} PushStateFrame(m: Machine, ret: int, brk: bool)
    requires m.Valid() && 0 <= ret < 0x10000
    ensures var r := PushState(m, ret, brk);
      && r == m.(mem := r.mem, s := (m.s - 3) % 0x100)
      && r.mem[StackAddress(m.s)] == ret / 0x100
      && r.mem[StackAddress(Dec8(m.s))] == ret % 0x100
      && r.mem[StackAddress(Dec8(Dec8(m.s)))] == StatusByte(SavedStatus(m.p, brk))
      && SameOutsideStack(m.mem, r.mem)
  {
    PushStateWrites(m, ret, brk);
    StackCells(m.s);
    StackCells(Dec8(m.s));
    StackWritesStayInStack(m.mem, m.s, (ret / 0x100) % 0x100, ret % 0x100, StatusByte(SavedStatus(m.p, brk)));
  }

  /** Writing the three stack cells below `s` leaves every cell outside page 1 alone. */
  lemma StackWritesStayInStack(mem: seq<Byte>, s: Byte, b0: Byte, b1: Byte, b2: Byte)
    requires |mem| == BUS_SIZE
    ensures SameOutsideStack(mem, mem[StackAddress(s) := b0][StackAddress(Dec8(s)) := b1]
                                       [StackAddress(Dec8(Dec8(s))) := b2])
  {
  }

  /**
   * RTI on a frame saved below stack pointer `s0` (`ret` high byte first,
   * then the P byte `b`) returns to `ret`, reads P back from `b` and restores
   * S to `s0`.
   */
  lemma {:induction false} RtiPopsFrame(n: Machine, s0: Byte, ret: int, b: Byte, any: Address)
    requires n.Valid() && 0 <= ret < 0x10000
    requires n.s == Dec8(Dec8(Dec8(s0)))
    requires n.mem[StackAddress(s0)] == ret / 0x100
    requires n.mem[StackAddress(Dec8(s0))] == ret % 0x100
    requires n.mem[StackAddress(Dec8(Dec8(s0)))] == b
    ensures var r := ExecJump(n, RTI, any);
      r.pc == ret && r.p == PulledStatus(b) && r.s == s0
  {
    StackCells(Dec8(Dec8(s0)));
    var (v, n1) := Pop(n);
    PopReturnAddress(n1.(p := PulledStatus(v)), s0, ret);
  }

  /** `pop16` on the two cells of a return address saved below `s0` answers it and restores S to `s0`. */
  lemma {:induction false} PopReturnAddress(n: Machine, s0: Byte, ret: int)
    requires n.Valid() && 0 <= ret < 0x10000
    requires n.s == Dec8(Dec8(s0))
    requires n.mem[StackAddress(s0)] == ret / 0x100
    requires n.mem[StackAddress(Dec8(s0))] == ret % 0x100
    ensures Pop16(n).0 == ret && Pop16(n).1.s == s0
  {
    StackCells(s0);
    StackCells(Dec8(s0));
  }

  /** Jumping through a vector outside the stack page reads the vector as it was before the frame was pushed. */
  lemma VectorAfterFrame(m: Machine, n: Machine, vector: int)
    requires m.Valid() && n.Valid() && SameOutsideStack(m.mem, n.mem)
    requires 0x200 <= vector && vector + 1 < BUS_SIZE
    ensures Read16(n, vector).0 == Word(m, vector)
  {
    assert n.mem[vector] == m.mem[vector];
    assert n.mem[vector + 1] == m.mem[vector + 1];
  }

  /**
   * An IRQ that is taken pushes PC (high byte first) and P with B clear,
   * lowers S by 3, masks interrupts and continues at the IRQ vector.
   */
  lemma {:induction false} IrqTaken(m: Machine)
    requires m.Valid() && !Flag(m.p, IRQBLK_FLAG) && 0 <= m.pc < 0x10000
    ensures var (taken, r) := RequestIrq(m);
      && taken
      && r.s == (m.s - 3) % 0x100
      && r.p == m.p | IRQBLK_FLAG && Flag(r.p, IRQBLK_FLAG)
      && r.a == m.a && r.x == m.x && r.y == m.y
      && r.pc == Word(m, VEC_IRQ)
      && r.mem[StackAddress(m.s)] == m.pc / 0x100
      && r.mem[StackAddress(Dec8(m.s))] == m.pc % 0x100
      && r.mem[StackAddress(Dec8(Dec8(m.s)))] == StatusByte(m.p & !BREAK_FLAG)
  {
    var m0 := Trace(m, IrqAt(m.pc));
    var m1 := PushState(m0, m.pc, false);
    TraceKeepsMachine(m, IrqAt(m.pc));
    PushStateFrame(m0, m.pc, false);
    VectorAfterFrame(m0, m1, VEC_IRQ);
    assert RequestIrq(m) == (true, EnterVector(m1, VEC_IRQ));
  }

  /** RTI after a taken IRQ returns to the interrupted PC with P (B clear) and S restored. */
  lemma {:induction false} IrqRti(m: Machine, any: Address)
    requires m.Valid() && !Flag(m.p, IRQBLK_FLAG) && 0 <= m.pc < 0x10000
    ensures var r := ExecJump(RequestIrq(m).1, RTI, any);
      r.pc == m.pc && r.p == (m.p & !BREAK_FLAG) | RESERVED_FLAG && r.s == m.s
  {
    IrqTaken(m);
    StackCells(m.s);
    RtiPopsFrame(RequestIrq(m).1, m.s, m.pc, StatusByte(m.p & !BREAK_FLAG), any);
    PullPushedStatus(m.p & !BREAK_FLAG);
  }

  /** The end of `nmi`: the interrupt frame is pushed and PC jumps to `vector` with interrupts masked. */
  lemma {:induction false} NmiEnterFrame(m: Machine, paused: bool, vector: int)
    requires m.Valid() && 0 <= m.pc < 0x10000
    ensures var r := NmiEnter(m.(paused := paused), vector);
      && r.s == (m.s - 3) % 0x100
      && r.p == m.p | IRQBLK_FLAG && Flag(r.p, IRQBLK_FLAG)
      && r.a == m.a && r.x == m.x && r.y == m.y
      && r.pc == vector
      && r.paused == paused
      && r.mem[StackAddress(m.s)] == m.pc / 0x100
      && r.mem[StackAddress(Dec8(m.s))] == m.pc % 0x100
      && r.mem[StackAddress(Dec8(Dec8(m.s)))] == StatusByte(m.p & !BREAK_FLAG)
  {
    var m' := m.(paused := paused);
    var m0 := Trace(m', NmiAt(m.pc));
    TraceKeepsMachine(m', NmiAt(m.pc));
    PushStateFrame(m0, m.pc, false);
  }

  /** `addStepLog` changes the log and nothing else. */
  lemma TraceKeepsMachine(m: Machine, e: LogEntry)
    requires m.Valid()
    ensures var r := Trace(m, e);
      && r.mem == m.mem && r.s == m.s && r.p == m.p && r.pc == m.pc
      && r.a == m.a && r.x == m.x && r.y == m.y && r.paused == m.paused
  {
  }

  /** The start of `nmi`: the vector is read (pausing on a watched read) and a break on NMI pauses. */
  lemma NmiReadsVector(m: Machine)
    requires m.Valid()
    ensures Nmi(m) == NmiEnter(
      m.(paused := m.paused || m.breakOnNmi || VEC_NMI in m.watchRead || VEC_NMI + 1 in m.watchRead),
      Word(m, VEC_NMI))
  {
    var (vector, m1) := Read16(m, VEC_NMI);
    var m' := m.(paused := m.paused || m.breakOnNmi || VEC_NMI in m.watchRead || VEC_NMI + 1 in m.watchRead);
    assert m1.paused <==> m.paused || VEC_NMI in m.watchRead || VEC_NMI + 1 in m.watchRead;
    assert vector == Word(m, VEC_NMI);
    assert (if m1.breakOnNmi then m1.(paused := true) else m1) == m';
  }

  /** `nmi` saves the same frame as an IRQ, whatever the I flag, and continues at the NMI vector. */
  lemma {:induction false} NmiEntry(m: Machine)
    requires m.Valid() && 0 <= m.pc < 0x10000
    ensures var r := Nmi(m);
      && r.s == (m.s - 3) % 0x100
      && r.p == m.p | IRQBLK_FLAG && Flag(r.p, IRQBLK_FLAG)
      && r.a == m.a && r.x == m.x && r.y == m.y
      && r.pc == Word(m, VEC_NMI)
      && r.mem[StackAddress(m.s)] == m.pc / 0x100
      && r.mem[StackAddress(Dec8(m.s))] == m.pc % 0x100
      && r.mem[StackAddress(Dec8(Dec8(m.s)))] == StatusByte(m.p & !BREAK_FLAG)
      && (r.paused <==> m.paused || m.breakOnNmi || VEC_NMI in m.watchRead || VEC_NMI + 1 in m.watchRead)
  {
    var paused := m.paused || m.breakOnNmi || VEC_NMI in m.watchRead || VEC_NMI + 1 in m.watchRead;
    var vector := Word(m, VEC_NMI);
    NmiReadsVector(m);
    assert Nmi(m) == NmiEnter(m.(paused := paused), vector);
    NmiEnterFrame(m, paused, vector);
  }

  /** `reset`: P is 0x34 (I, B and the reserved bit), S drops by 3, PC comes from the reset vector, the log is emptied. */
  lemma ResetState(m: Machine)
    requires m.Valid()
    ensures var r := Reset(m);
      && r.p == 0x34
      && r.s == (m.s - 3) % 0x100
      && r.pc == Word(m, VEC_RESET)
      && r.stepLogs == []
      && r.a == m.a && r.x == m.x && r.y == m.y && r.mem == m.mem
  {
  }

  // ---------------------------------------------------------------------
  // Memory access

  /** `read16Indirect` takes the high byte from the same page: at 0x..FF it wraps to 0x..00. */
  lemma Read16IndirectSamePage(m: Machine, adr: int)
    requires m.Valid() && 0 <= adr < 0x10000
    ensures Read16Indirect(m, adr).0 ==
      m.mem[(adr / 0x100) * 0x100 + (adr + 1) % 0x100] as int * 0x100 + m.mem[adr]
    ensures adr % 0x100 != 0xFF ==> Read16Indirect(m, adr).0 == Word(m, adr)
  {
  }

  // ---------------------------------------------------------------------
  // Operand addresses

  /** The word at `adr` whose high byte wraps around within the page of `adr`. */
  function PageWord(m: Machine, adr: int): int
    requires m.Valid() && 0 <= adr < 0x10000
  {
    m.mem[(adr / 0x100) * 0x100 + (adr + 1) % 0x100] as int * 0x100 + m.mem[adr]
  }

  /**
   * Modes without a memory operand: the accumulator and implied modes give
   * no address, immediate and relative modes the address of the operand
   * byte itself, and
   * an unknown mode gives no address and pauses.
   */
  lemma NoMemoryAdr(m: Machine, pc: int, mode: Addressing)
    requires m.Valid() && mode in {ACCUMULATOR, IMPLIED, IMMEDIATE, RELATIVE, Addressing.UNKNOWN}
    ensures var (adr, r) := GetAdr(m, pc, mode);
            && (mode in {ACCUMULATOR, IMPLIED, Addressing.UNKNOWN} ==> adr == Null)
            && (mode in {IMMEDIATE, RELATIVE} ==> adr == At(pc))
            && r == (if mode == Addressing.UNKNOWN then m.(paused := true) else m)
  {
  }

  /** Zero-page modes: the operand byte, plus X or Y, wrapped within page 0. */
  lemma ZeroPageAdr(m: Machine, pc: int, mode: Addressing)
    requires m.Valid() && mode in {ZEROPAGE, ZEROPAGE_X, ZEROPAGE_Y}
    ensures var index := if mode == ZEROPAGE_X then m.x else if mode == ZEROPAGE_Y then m.y else 0;
            var adr := GetAdr(m, pc, mode).0;
            && adr == At((m.mem[BusIndex(pc)] + index) % 0x100)
            && 0 <= adr.value < 0x100
  {
  }

  /** Absolute modes: the operand word, plus X or Y, wrapped within 64 KiB. */
  lemma AbsoluteAdr(m: Machine, pc: int, mode: Addressing)
    requires m.Valid() && mode in {ABSOLUTE, ABSOLUTE_X, ABSOLUTE_Y}
    ensures var index := if mode == ABSOLUTE_X then m.x else if mode == ABSOLUTE_Y then m.y else 0;
            GetAdr(m, pc, mode).0 == At((Word(m, pc) + index) % 0x10000)
  {
  }

  /** `(zp,X)`: the page-0 word at the operand byte plus X, wrapped within page 0. */
  lemma IndirectXAdr(m: Machine, pc: int)
    requires m.Valid()
    ensures GetAdr(m, pc, INDIRECT_X).0 == At(PageWord(m, (m.mem[BusIndex(pc)] + m.x) % 0x100))
  {
    var (zp, m1) := Read8(m, pc);
    PageWordRead(m1, (zp + m.x) % 0x100);
  }

  /** `(zp),Y`: the page-0 word at the operand byte, plus Y, wrapped within 64 KiB. */
  lemma IndirectYAdr(m: Machine, pc: int)
    requires m.Valid()
    ensures GetAdr(m, pc, INDIRECT_Y).0 == At((PageWord(m, m.mem[BusIndex(pc)]) + m.y) % 0x10000)
  {
    var (zp, m1) := Read8(m, pc);
    PageWordRead(m1, zp);
  }

  /** `(abs)` of JMP: the word at the operand word, its high byte taken from the same page. */
  lemma IndirectAbsAdr(m: Machine, pc: int)
    requires m.Valid()
    ensures GetAdr(m, pc, INDIRECT).0 == At(PageWord(m, Word(m, pc)))
  {
    var (w, m1) := Read16(m, pc);
    PageWordRead(m1, w);
  }

  /** `read16Indirect` answers the page-wrapped word. */
  lemma PageWordRead(m: Machine, adr: int)
    requires m.Valid() && 0 <= adr < 0x10000
    ensures Read16Indirect(m, adr).0 == PageWord(m, adr)
  {
    Read16IndirectSamePage(m, adr);
  }

  // ---------------------------------------------------------------------
  // Whole steps

  /** An opcode without a table entry pauses the CPU, takes 0 cycles and leaves the registers and PC alone. */
  lemma StepUndefined(m: Machine, table: InstTable)
    requires m.Valid() && table[m.mem[BusIndex(m.pc)]].Undefined?
    ensures var (r, cycle) := Step(m, table);
      && cycle == 0 && r.paused
      && r.a == m.a && r.x == m.x && r.y == m.y && r.s == m.s && r.p == m.p && r.pc == m.pc
      && r.mem == m.mem
  {
  }

  /** An immediate operand is the byte after the opcode; PC moves past the instruction. */
  lemma OperandImmediate(m: Machine, inst: Instruction)
    requires m.Valid() && inst.addressing == IMMEDIATE
    ensures Operand(m, inst) == (At(m.pc + 1), m.(pc := m.pc + inst.bytes))
  {
  }

  /** `LDA #v` at PC loads v into A, sets N and Z from it, and moves PC by 2 in 2 cycles. */
  lemma {:induction false} StepLdaImmediate(m: Machine, table: InstTable)
    requires m.Valid() && 0 <= m.pc && m.pc + 1 < BUS_SIZE
    requires table[m.mem[m.pc]] == Defined(Instruction(LDA, IMMEDIATE, 2, 2))
    requires m.pc + 2 !in m.breakPoints
    ensures var v := m.mem[m.pc + 1];
      var (r, cycle) := Step(m, table);
      && cycle == 2 && r.a == v && r.pc == m.pc + 2
      && (Flag(r.p, ZERO_FLAG) <==> v == 0) && (Flag(r.p, NEGATIVE_FLAG) <==> v >= 0x80)
      && r.x == m.x && r.y == m.y && r.s == m.s && r.mem == m.mem
  {
    var inst := Instruction(LDA, IMMEDIATE, 2, 2);
    var (op, m1) := Fetch(m);
    assert op == m.mem[m.pc] && m1.mem == m.mem && m1.pc == m.pc;
    assert Step(m, table) == Dispatch(m1, inst);
    OperandImmediate(m1, inst);
    var m2 := m1.(pc := m.pc + 2);
    assert Dispatch(m1, inst) == Run(m2, inst, At(m.pc + 1));
    var m3 := ExecLoadStore(m2, LDA, At(m.pc + 1));
    assert Execute(m2, inst, At(m.pc + 1)) == (m3, 2);
  }

  // ---------------------------------------------------------------------
  // Save and load

  /** `save` followed by `load` restores A, X, Y, S, P and PC exactly, and nothing else changes. */
  lemma SaveLoadRoundTrip(m: Machine, other: Machine)
    ensures Load(other, Save(m)) == other.(a := m.a, x := m.x, y := m.y, s := m.s, p := m.p, pc := m.pc)
  {
  }
}
