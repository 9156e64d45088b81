/**
 * Mapper 87 (src/nes/mapper/mapper087.ts): a write anywhere in
 * 0x6000-0x7FFF selects the CHR bank given by bits 0 and 1 of the written
 * byte, swapped.  The `Mapper` base class and its `MapperOptions` are not
 * part of this model; the class below keeps only the CHR bank that
 * `setChrBank` selects.
 */
module NesMapper087 {
  import opened NesTypes

  /** The address range the write handler is installed on. */
  const WRITE_START := 0x6000
  const WRITE_END := 0x7FFF

  /** `((value & 2) >> 1) | ((value & 1) << 1)`, with the operators of the source. */
  function BankOf(value: Byte): (bank: nat)
    ensures bank < Pow2(8)
  {
    Bitwise(OrOp, And8(value, 2) / 2, And8(value, 1) * 2, 8)
  }

  /** The bank as the swap of the two low bits: bit 1 of `value` becomes bit 0 and bit 0 becomes bit 1. */
  lemma {:induction false} BankSwapsLowBits(value: Byte)
    ensures BankOf(value) == (value / 2) % 2 + 2 * (value % 2)
  {
    AndLowBit(value, 8);
    AndSecondBit(value, 8);
    OrBits((value / 2) % 2, value % 2);
  }

  /** The bank is 0..3 whatever byte is written. */
  lemma BankInRange(value: Byte)
    ensures BankOf(value) < 4
  {
    BankSwapsLowBits(value);
  }

  /** Only the two low bits of the written byte matter. */
  lemma BankOfLowBits(value: Byte)
    ensures BankOf(value) == BankOf(value % 4)
  {
    BankSwapsLowBits(value);
    BankSwapsLowBits(value % 4);
    LowBitsOfMod4(value);
  }

  lemma LowBitsOfMod4(v: nat)
    ensures ((v % 4) / 2) % 2 == (v / 2) % 2 && (v % 4) % 2 == v % 2
  {
  }

  /** The swap of the two low bits, applied twice, as plain arithmetic. */
  lemma SwapTwice(v: nat)
    ensures var b := (v / 2) % 2 + 2 * (v % 2); (b / 2) % 2 + 2 * (b % 2) == v % 4
  {
    var q, low := v / 4, v % 4;
    assert v == 4 * q + low;
    assert v / 2 == 2 * q + low / 2 && v % 2 == low % 2;
    assert (v / 2) % 2 == low / 2;
  }

  /** Swapping twice gives back the two low bits. */
  lemma BankInvolution(value: Byte)
    ensures BankOf(BankOf(value)) == value % 4
  {
    BankSwapsLowBits(value);
    BankInRange(value);
    BankSwapsLowBits(BankOf(value));
    SwapTwice(value);
  }

  /** Distinct low bit pairs select distinct banks, so every bank 0..3 is reachable. */
  lemma BankIsBijective(v: Byte, w: Byte)
    ensures BankOf(v) == BankOf(w) <==> v % 4 == w % 4
  {
    BankInvolution(v);
    BankInvolution(w);
    BankOfLowBits(v);
    BankOfLowBits(w);
  }

  /** `x & 0` is 0. */
  lemma {:induction false} AndZero(x: nat, width: nat)
    ensures Bitwise(AndOp, x, 0, width) == 0
  {
    if width > 0 {
      AndZero(x / 2, width - 1);
    }
  }

  /** `x & 1` is bit 0 of `x`. */
  lemma {:induction false} AndLowBit(x: nat, width: nat)
    requires width >= 1
    ensures Bitwise(AndOp, x, 1, width) == x % 2
  {
    AndZero(x / 2, width - 1);
  }

  /** `x & 2` is bit 1 of `x`, in place. */
  lemma {:induction false} AndSecondBit(x: nat, width: nat)
    requires width >= 2
    ensures Bitwise(AndOp, x, 2, width) == 2 * ((x / 2) % 2)
  {
    AndLowBit(x / 2, width - 1);
  }

  /** `0 | y` is `y` when `y` fits the width. */
  lemma {:induction false} OrWithZero(y: nat, width: nat)
    requires y < Pow2(width)
    ensures Bitwise(OrOp, 0, y, width) == y
  {
    if width > 0 {
      OrWithZero(y / 2, width - 1);
    }
  }

  /** A bit in position 0 or'ed with a bit in position 1 is their sum. */
  lemma {:induction false} OrBits(lo: nat, hi: nat)
    requires lo < 2 && hi < 2
    ensures Bitwise(OrOp, lo, hi * 2, 8) == lo + 2 * hi
  {
    assert Pow2(7) == 128 by { Pow2Values(); }
    OrWithZero(hi, 7);
    assert lo / 2 == 0 && (hi * 2) / 2 == hi && (hi * 2) % 2 == 0;
  }

  /** The CHR bank selection of the cartridge; the rest of the mapper is not modelled. */
  class Mapper087 {
    /** The bank last passed to `setChrBank`. */
    var chrBank: nat

    constructor (chrBank: nat)
      ensures this.chrBank == chrBank
    {
      this.chrBank := chrBank;
    }

    /** The memory write hook: only writes to 0x6000-0x7FFF reach the handler, which selects the bank. */
    method Write(adr: int, value: Byte)
      modifies this
      ensures WRITE_START <= adr <= WRITE_END ==> chrBank == BankOf(value)
      ensures !(WRITE_START <= adr <= WRITE_END) ==> chrBank == old(chrBank)
    {
      if WRITE_START <= adr <= WRITE_END {
        var bank := BankOf(value);
        chrBank := bank;
      }
    }
  }
}
