/**
 * Properties of the APU model: what the pads, the channels' counters and
 * the register interface of src/nes/apu.ts guarantee, stated over the
 * functions of NesApuSpec that the classes of NesApu are proved to follow.
 */
module NesApuProps {
  import opened NesTypes
  import opened NesApuSpec

  // ---------------------------------------------------------------------
  // Pads

  /** Bits 6 and 7 (left and right) of a byte are both set exactly when its top two bits read 3. */
  lemma PairBits(v: Byte)
    ensures (HasBit(v, PAD_L) && HasBit(v, PAD_R)) <==> v / 0x40 == 3
    ensures (HasBit(v, PAD_U) && HasBit(v, PAD_D)) <==> (v / 0x10) % 4 == 3
  {
  }

  /**
   * `setStatus` keeps the low nibble, and clears the left/right pair
   * (bits 6-7) and the up/down pair (bits 4-5) exactly when both bits of
   * the pair are set; every other pair is kept as it was.
   */
  lemma {:induction false} MaskOppositesBits(v: Byte)
    ensures MaskOpposites(v) % 0x10 == v % 0x10
    ensures MaskOpposites(v) / 0x40 == if v / 0x40 == 3 then 0 else v / 0x40
    ensures (MaskOpposites(v) / 0x10) % 4 == if (v / 0x10) % 4 == 3 then 0 else (v / 0x10) % 4
  {
    PairBits(v);
    var v1 := if HasBit(v, PAD_L) && HasBit(v, PAD_R) then v - (PAD_L + PAD_R) else v;
    assert v1 % 0x40 == v % 0x40;
    assert v1 / 0x40 == if v / 0x40 == 3 then 0 else v / 0x40;
    PairBits(v1);
  }

  /** After `setStatus` a pad never reports left and right together, nor up and down together. */
  lemma {:induction false} NoOppositeButtons(pad: PadState, no: int, v: Byte)
    requires pad.Valid() && 0 <= no < 2
    ensures var s := SetPadStatus(pad, no, v).status[no];
            !(HasBit(s, PAD_L) && HasBit(s, PAD_R)) && !(HasBit(s, PAD_U) && HasBit(s, PAD_D))
  {
    MaskOppositesBits(v);
    PairBits(MaskOpposites(v));
  }

  /** The pad after `n` calls of `shift` on pad `no`, with the bits they returned. */
  function ShiftMany(pad: PadState, no: int, n: nat): (r: (seq<int>, PadState))
    requires pad.Valid() && 0 <= no < 2
    ensures r.1.Valid() && |r.0| == n
  {
    if n == 0 then ([], pad)
    else
      var (bits, p) := ShiftMany(pad, no, n - 1);
      var (bit, p1) := Shift(p, no);
      (bits + [bit], p1)
  }

  /**
   * `shift` hands out the latched byte from bit 0 upwards: the `k`-th
   * call returns bit `k`, the latched byte is the original divided by
   * 2^n, and the other pad is untouched.
   */
  lemma {:induction false} ShiftReturnsBits(pad: PadState, no: int, n: nat)
    requires pad.Valid() && 0 <= no < 2
    ensures var (bits, p) := ShiftMany(pad, no, n);
            && p.latched[no] == pad.latched[no] / Pow2(n)
            && p.latched[1 - no] == pad.latched[1 - no]
            && p.status == pad.status
            && forall k | 0 <= k < n :: bits[k] == (if Bit(pad.latched[no], k) then 1 else 0)
  {
    if n > 0 {
      ShiftReturnsBits(pad, no, n - 1);
      var (bits, p) := ShiftMany(pad, no, n - 1);
      DivDiv(pad.latched[no], Pow2(n - 1));
    }
  }

  lemma DivDiv(x: nat, d: nat)
    requires d > 0
    ensures x / d / 2 == x / (2 * d)
  {
    DivDivGeneral(x, d, 2);
    assert d * 2 == 2 * d;
  }

  /** Once a byte has been shifted out, every further `shift` returns 0. */
  lemma {:induction false} ShiftExhausted(pad: PadState, no: int)
    requires pad.Valid() && 0 <= no < 2
    ensures forall n: nat | n >= 8 :: Shift(ShiftMany(pad, no, n).1, no).0 == 0
  {
    forall n: nat | n >= 8
      ensures Shift(ShiftMany(pad, no, n).1, no).0 == 0
    {
      ShiftReturnsBits(pad, no, n);
      Pow2Values();
      Pow2Monotone(8, n);
    }
  }

  /** A write of 0x4016 latches both live pads exactly when bit 0 of the value is clear. */
  lemma StrobeLatches(a: ApuState, value: Byte)
    requires a.Valid()
    ensures var r := Write(a, BASE + PAD1_REG, value);
            && r.pad.status == a.pad.status
            && r.pad.latched == (if value % 2 == 0 then a.pad.status else a.pad.latched)
            && r.channels == a.channels
            && r.regs == a.regs[PAD1_REG := value]
            && r.frameInterrupt == a.frameInterrupt && r.dmcInterrupt == a.dmcInterrupt
            && r == a.(regs := a.regs[PAD1_REG := value], pad := r.pad)
  {
  }

  // ---------------------------------------------------------------------
  // The status register

  /** Bit `k` of the playing bits of the first `n` channels. */
  lemma PlayingBitsBit(a: ApuState, n: nat, k: nat)
    requires a.Valid() && n <= CHANNEL_COUNT && k < CHANNEL_COUNT
    ensures Bit(PlayingBits(a, n), k) <==> k < n && Bit(a.regs[STATUS_REG], k) && IsPlaying(a.channels[k])
  {
    var f := PlayingFlags(a);
    PlayingBitsAsFlags(a, n);
    FlagsBit(f, n, k);
  }

  /** Whether each channel is enabled in the status register and playing. */
  function PlayingFlags(a: ApuState): (f: seq<bool>)
    requires a.Valid()
    ensures |f| == CHANNEL_COUNT
    ensures forall ch | 0 <= ch < CHANNEL_COUNT :: f[ch] == (Bit(a.regs[STATUS_REG], ch) && IsPlaying(a.channels[ch]))
  {
    seq(CHANNEL_COUNT, ch requires 0 <= ch < CHANNEL_COUNT => Bit(a.regs[STATUS_REG], ch) && IsPlaying(a.channels[ch]))
  }

  /** The number whose bit `i` is `f[i]`, for the first `n` flags. */
  function FlagsValue(f: seq<bool>, n: nat): nat
    requires n <= |f|
  {
    if n == 0 then 0 else FlagsValue(f, n - 1) + (if f[n - 1] then Pow2(n - 1) else 0)
  }

  lemma {:induction false} PlayingBitsAsFlags(a: ApuState, n: nat)
    requires a.Valid() && n <= CHANNEL_COUNT
    ensures PlayingBits(a, n) == FlagsValue(PlayingFlags(a), n)
  {
    if n > 0 {
      PlayingBitsAsFlags(a, n - 1);
    }
  }

  /** `FlagsValue(f, n)` has no bit at or above `n`. */
  lemma {:induction false} FlagsBound(f: seq<bool>, n: nat)
    requires n <= |f|
    ensures FlagsValue(f, n) < Pow2(n)
  {
    if n > 0 {
      FlagsBound(f, n - 1);
    }
  }

  /** Bit `k` of `FlagsValue(f, n)` is `f[k]` below `n` and clear above. */
  lemma {:induction false} FlagsBit(f: seq<bool>, n: nat, k: nat)
    requires n <= |f| && k < |f|
    ensures Bit(FlagsValue(f, n), k) <==> k < n && f[k]
  {
    if n > 0 {
      var low := FlagsValue(f, n - 1);
      FlagsBit(f, n - 1, k);
      FlagsBound(f, n - 1);
      AddHighBit(low, n - 1, k, f[n - 1]);
      BitStep(Bit(FlagsValue(f, n), k), Bit(low, k), k < n - 1, k == n - 1, f[n - 1], f[k]);
    }
  }

  /** The propositional step of FlagsBit. */
  lemma BitStep(now: bool, before: bool, below: bool, at: bool, on: bool, fk: bool)
    requires now <==> if below then before else at && on
    requires before <==> below && fk
    requires at ==> on == fk
    ensures now <==> (below || at) && fk
  {
  }

  /** Adding `2^m` or not to a number below 2^m sets bit `m` accordingly and keeps the bits below. */
  lemma AddHighBit(x: nat, m: nat, k: nat, on: bool)
    requires x < Pow2(m)
    ensures Bit(x + (if on then Pow2(m) else 0), k) <==> if k < m then Bit(x, k) else k == m && on
  {
    var c := if on then 1 else 0;
    assert x + (if on then Pow2(m) else 0) == x + c * Pow2(m);
    if k < m {
      BitBelow(x, m, k, c);
    } else {
      BitAtOrAbove(x, m, k, c);
    }
  }

  lemma {:induction false} BitBelow(x: nat, m: nat, k: nat, c: nat)
    requires k < m
    ensures (x + c * Pow2(m)) / Pow2(k) % 2 == x / Pow2(k) % 2
  {
    var pk := Pow2(k);
    var h := Pow2(m - k - 1);
    Pow2Split(k, m - k);
    assert Pow2(m) == pk * (2 * h);
    BitBelowCore(x, pk, c, h, x + c * Pow2(m));
  }

  /** Adding an even multiple of `pk` keeps bit 0 of the quotient by `pk`. */
  lemma BitBelowCore(x: nat, pk: nat, c: nat, h: nat, y: nat)
    requires pk > 0 && y == x + c * (pk * (2 * h))
    ensures y / pk % 2 == x / pk % 2
  {
    Regroup(c, pk, h);
    DivAddMultiple(x, pk, 2 * (c * h));
  }

  lemma {:induction false} BitAtOrAbove(x: nat, m: nat, k: nat, c: nat)
    requires m <= k && x < Pow2(m) && c < 2
    ensures (x + c * Pow2(m)) / Pow2(k) % 2 == if k == m then c else 0
  {
    var pm := Pow2(m);
    var e := Pow2(k - m);
    var y := x + c * pm;
    Pow2Split(m, k - m);
    assert Pow2(k) == pm * e;
    DivUnique(y, pm, c, x);
    DivDivGeneral(y, pm, e);
    if k > m {
      Pow2Even(k - m);
      DivUnique(c, e, 0, c);
    }
  }

  lemma Regroup(c: int, p: int, h: int)
    ensures c * (p * (2 * h)) == (2 * (c * h)) * p
  {
  }

  lemma {:induction false} Pow2Split(i: nat, j: nat)
    ensures Pow2(i + j) == Pow2(i) * Pow2(j)
  {
    if i > 0 {
      Pow2Split(i - 1, j);
    }
  }

  lemma Pow2Even(j: nat)
    requires j > 0
    ensures Pow2(j) % 2 == 0 && Pow2(j) >= 2
  {
  }

  /** Adding a multiple of `d` adds its quotient: (x + q*d)/d == x/d + q. */
  lemma DivAddMultiple(x: nat, d: nat, q: nat)
    requires d > 0
    ensures (x + q * d) / d == x / d + q
  {
    assert x == (x / d) * d + x % d;
    assert x + q * d == (x / d + q) * d + x % d;
    DivUnique(x + q * d, d, x / d + q, x % d);
  }

  /** The flag part and the channel part of the status value, as sums of separate bit fields. */
  lemma {:induction false} StatusValueSplit(a: ApuState)
    requires a.Valid()
    ensures var flags := (if a.dmcInterrupt then 4 else 0) + (if a.frameInterrupt then 2 else 0);
            StatusValue(a) == PlayingBits(a, CHANNEL_COUNT) + flags * Pow2(5)
            && PlayingBits(a, CHANNEL_COUNT) < Pow2(5)
  {
    assert Pow2(5) == 0x20 by { Pow2Values(); }
  }

  /** Bits 5, 6 and 7 of `bits + flags * 32` for `bits` below 32 are bits 0, 1 and 2 of `flags`. */
  lemma {:induction false} FlagBits(bits: nat, flags: nat)
    requires bits < 0x20 && flags < 8
    ensures var v := bits + flags * 0x20;
            (v / 0x20) % 2 == flags % 2 && (v / 0x40) % 2 == (flags / 2) % 2 && (v / 0x80) % 2 == flags / 4
  {
    var v := bits + flags * 0x20;
    DivUnique(v, 0x20, flags, bits);
    DivDivGeneral(v, 0x20, 2);
    DivDivGeneral(v, 0x20, 4);
  }

  /**
   * Reading 0x4015: bit 7 is the DMC interrupt, bit 6 the frame interrupt,
   * bit 5 is 0, and bit `ch` of a channel is set exactly when the status
   * register enables it and it is playing; the read clears the frame
   * interrupt and nothing else.
   */
  lemma {:induction false} StatusRead(a: ApuState)
    requires a.Valid()
    ensures var (v, r) := Read(a, BASE + STATUS_REG);
            && (v / 0x80) % 2 == (if a.dmcInterrupt then 1 else 0)
            && (v / 0x40) % 2 == (if a.frameInterrupt then 1 else 0)
            && (v / 0x20) % 2 == 0
            && (forall ch | 0 <= ch < CHANNEL_COUNT ::
                  Bit(v, ch) <==> Bit(a.regs[STATUS_REG], ch) && IsPlaying(a.channels[ch]))
            && r == a.(frameInterrupt := false)
  {
    assert Read(a, BASE + STATUS_REG) == (StatusValue(a), a.(frameInterrupt := false));
    StatusValueBits(a);
  }

  /** The bits of the status value: the two flags on top, bit 5 clear, and the playing bits below. */
  lemma {:induction false} StatusValueBits(a: ApuState)
    requires a.Valid()
    ensures var v := StatusValue(a);
            && (v / 0x80) % 2 == (if a.dmcInterrupt then 1 else 0)
            && (v / 0x40) % 2 == (if a.frameInterrupt then 1 else 0)
            && (v / 0x20) % 2 == 0
            && (forall ch | 0 <= ch < CHANNEL_COUNT ::
                  Bit(v, ch) <==> Bit(a.regs[STATUS_REG], ch) && IsPlaying(a.channels[ch]))
  {
    var bits := PlayingBits(a, CHANNEL_COUNT);
    var flags := (if a.dmcInterrupt then 4 else 0) + (if a.frameInterrupt then 2 else 0);
    StatusValueSplit(a);
    assert Pow2(5) == 0x20 by { Pow2Values(); }
    var v := StatusValue(a);
    assert v == bits + flags * 0x20;
    FlagBits(bits, flags);
    forall ch | 0 <= ch < CHANNEL_COUNT
      ensures Bit(v, ch) <==> Bit(a.regs[STATUS_REG], ch) && IsPlaying(a.channels[ch])
    {
      PlayingBitsBit(a, CHANNEL_COUNT, ch);
      BitBelow(bits, 5, ch, flags);
    }
  }
}
