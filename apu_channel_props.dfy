/**
 * Properties of one sound channel of src/nes/apu.ts: the ranges its
 * counters stay in, how the length counter silences it, what the sweep
 * writes back, how the DMC runs out, and the ranges of its outputs.
 */
module NesApuChannelProps {
  import opened NesTypes
  import opened NesApuSpec
  import opened NesApuProps

  // ---------------------------------------------------------------------
  // Counter ranges

  /** Every entry of the length table is at most 0xFE. */
  lemma LengthTableBound(i: int)
    requires 0 <= i < |LENGTH_TABLE|
    ensures LENGTH_TABLE[i] <= 0xFE
  {
  }

  /** The length counter stays in 0..0xFE and the envelope counter in 0..15. */
  ghost predicate CountersInRange(c: ChannelState)
  {
    0 <= c.lengthCounter <= 0xFE && 0 <= c.envelopeCounter <= 0x0F
  }

  /** A new channel starts with both counters at 0. */
  lemma NewChannelInRange(kind: Kind)
    ensures CountersInRange(NewChannel(kind))
  {
  }

  /** `reset` keeps the counters in range. */
  lemma ResetKeepsRange(c: ChannelState)
    requires c.Valid() && CountersInRange(c)
    ensures CountersInRange(ChannelReset(c))
  {
  }

  /** A register write loads the length counter from the table (or the triangle's 7-bit value) and the envelope with 15. */
  lemma WriteKeepsRange(c: ChannelState, reg: int, value: Byte)
    requires c.Valid() && 0 <= reg < 4 && CountersInRange(c)
    ensures CountersInRange(ChannelWrite(c, reg, value))
  {
    if c.kind == PULSE || c.kind == NOISE {
      LengthTableBound(value / 8);
    }
  }

  /** `setEnable` touches neither counter. */
  lemma SetEnableKeepsRange(c: ChannelState, on: bool)
    requires c.Valid() && CountersInRange(c)
    ensures CountersInRange(SetEnable(c, on))
  {
  }

  /** A frame update only counts down: both counters stay in range. */
  lemma UpdateKeepsRange(c: ChannelState)
    requires c.Valid() && CountersInRange(c)
    ensures CountersInRange(Update(c))
  {
    if !c.stopped && c.kind == PULSE {
      var c1 := PulseLength(c);
      var c2 := PulseEnvelope(c1);
      assert CountersInRange(c2);
      SweepKeepsCounters(c2);
    }
  }

  lemma SweepKeepsCounters(c: ChannelState)
    requires c.Valid()
    ensures PulseSweep(c).lengthCounter == c.lengthCounter
    ensures PulseSweep(c).envelopeCounter == c.envelopeCounter
  {
  }

  /** The DMC's h-blank step touches neither counter. */
  lemma DmcLengthKeepsRange(c: ChannelState)
    requires c.Valid() && CountersInRange(c)
    ensures CountersInRange(DmcLength(c).0)
  {
  }

  // ---------------------------------------------------------------------
  // Volume, frequency and duty

  /** The volume is a fraction 0..15 over 15, and 0 for a stopped channel. */
  lemma VolumeRange(c: ChannelState)
    requires c.Valid() && CountersInRange(c)
    ensures 0 <= Volume(c) <= FULL_VOLUME
    ensures c.stopped ==> Volume(c) == 0
    ensures !c.stopped && c.kind == TRIANGLE ==> Volume(c) == FULL_VOLUME
  {
  }

  /** A larger divisor gives a smaller quotient. */
  lemma DivAntitone(x: nat, d1: nat, d2: nat)
    requires 0 < d1 <= d2
    ensures x / d2 <= x / d1
  {
    var q2 := x / d2;
    MulLeq(d1, d2, q2);
    assert q2 * d1 <= x;
    DivAddMultiple(x - q2 * d1, d1, q2);
  }

  /**
   * The frequency of a pulse channel lies between CPU_CLOCK / (16 * 0x800)
   * and CPU_CLOCK / 16 Hz, a triangle's at half of that, and a noise or
   * DMC channel's is one of the table entries 4..4068.
   */
  lemma FrequencyRange(c: ChannelState)
    requires c.Valid()
    ensures c.kind == PULSE ==> 54 <= Frequency(c) <= 111860
    ensures c.kind == TRIANGLE ==> 27 <= Frequency(c) <= 55930
    ensures c.kind == NOISE || c.kind == DMC ==> 4 <= Frequency(c) <= 4068
  {
    var p := Period(c);
    if c.kind == PULSE {
      DivAntitone(CPU_CLOCK, 16, 16 * (p + 1));
      DivAntitone(CPU_CLOCK, 16 * (p + 1), 16 * 0x800);
    } else if c.kind == TRIANGLE {
      DivAntitone(CPU_CLOCK, 32, 32 * (p + 1));
      DivAntitone(CPU_CLOCK, 32 * (p + 1), 32 * 0x800);
    } else {
      var i := c.regs[TIMER_L] % 0x10;
      assert NOISE_FREQUENCIES[i] in NOISE_FREQUENCIES;
    }
  }

  /** The duty ratio of a pulse channel is 1/8, 2/8, 4/8 or -2/8, chosen by the top two bits of its first register; the others are 4/8. */
  lemma DutyValues(c: ChannelState)
    requires c.Valid()
    ensures c.kind == PULSE ==> DutyEighths(c) in {1, 2, 4, -2}
    ensures c.kind == PULSE && c.regs[STATUS] < 0x40 ==> DutyEighths(c) == 1
    ensures c.kind != PULSE ==> DutyEighths(c) == DEFAULT_DUTY_EIGHTHS
  {
  }

  // ---------------------------------------------------------------------
  // Starting and stopping

  /** Writing the fourth register starts a pulse, noise or DMC channel; the triangle starts exactly when its 7-bit linear value is non-zero. */
  lemma TimerHighStarts(c: ChannelState, value: Byte)
    requires c.Valid()
    ensures var r := ChannelWrite(c, TIMER_H, value);
            (c.kind == TRIANGLE ==> (IsPlaying(r) <==> c.regs[STATUS] % 0x80 != 0))
            && (c.kind != TRIANGLE ==> IsPlaying(r))
  {
  }

  /** `setEnable(false)` stops every kind; `setEnable(true)` starts only the DMC and leaves the others as they were. */
  lemma SetEnableEffect(c: ChannelState, on: bool)
    requires c.Valid()
    ensures !on ==> !IsPlaying(SetEnable(c, on))
    ensures on && c.kind == DMC ==> IsPlaying(SetEnable(c, on))
    ensures on && c.kind != DMC ==> SetEnable(c, on) == c
  {
  }

  /** Enabling the DMC reloads an exhausted DMA length from the length register; disabling it clears it. */
  lemma DmcEnableLength(c: ChannelState, on: bool)
    requires c.Valid() && c.kind == DMC
    ensures var r := SetEnable(c, on);
            && (!on ==> r.dmaLengthCounter == 0)
            && (on && c.dmaLengthCounter == 0 ==> r.dmaLengthCounter == c.regsLengthCounter)
            && (on && c.dmaLengthCounter != 0 ==> r.dmaLengthCounter == c.dmaLengthCounter)
  {
  }

  /** A frame update never starts a channel, and leaves a stopped one as it is. */
  lemma UpdateNeverStarts(c: ChannelState)
    requires c.Valid()
    ensures IsPlaying(Update(c)) ==> IsPlaying(c)
    ensures c.stopped ==> Update(c) == c
  {
    if !c.stopped && c.kind == PULSE {
      var c2 := PulseEnvelope(PulseLength(c));
      SweepNeverStarts(c2);
    }
  }

  lemma SweepNeverStarts(c: ChannelState)
    requires c.Valid()
    ensures c.stopped ==> PulseSweep(c).stopped
  {
  }

  /** `n` frame updates in a row. */
  function UpdateTimes(c: ChannelState, n: nat): (r: ChannelState)
    requires c.Valid()
    ensures r.Valid() && r.kind == c.kind
    decreases n
  {
    if n == 0 then c else UpdateTimes(Update(c), n - 1)
  }

  /** The register bit that halts the length counter of a kind. */
  function HaltMask(kind: Kind): nat
  {
    if kind == TRIANGLE then LENGTH_COUNTER_HALT_TRI else LENGTH_COUNTER_HALT
  }

  /** How much one frame takes off the length counter. */
  function LengthStep(kind: Kind): nat
  {
    if kind == NOISE then 1 else 4
  }

  /**
   * The channels the length counter can silence: a pulse, triangle or noise
   * channel whose halt bit is clear (and, for noise, whose loop bit in
   * TIMER_L is clear).
   */
  ghost predicate LengthCanExpire(c: ChannelState)
    requires c.Valid()
  {
    && c.kind != DMC
    && !HasBit(c.regs[STATUS], HaltMask(c.kind))
    && (c.kind == NOISE ==> !HasBit(c.regs[TIMER_L], NOISE_LOOP))
  }

  /**
   * One frame on such a channel: a counter at 0 or below stops it;
   * otherwise it goes down by the kind's step, to no less than 0, and the
   * registers that decide halting are kept. Only a counter already at 0
   * stops a triangle or noise channel; a pulse channel can also be muted
   * by its sweep in the same frame.
   */
  lemma {:induction false} LengthStepDown(c: ChannelState)
    requires c.Valid() && LengthCanExpire(c) && !c.stopped
    ensures var r := Update(c);
            && LengthCanExpire(r)
            && (c.lengthCounter <= 0 ==> r.stopped)
            && (c.lengthCounter > 0 ==> r.lengthCounter == Max0(c.lengthCounter - LengthStep(c.kind)))
            && (c.lengthCounter > 0 && c.kind != PULSE ==> !r.stopped)
            && (c.kind == PULSE && c.lengthCounter > 0 ==>
                  var sweep := c.regs[SWEEP];
                  (r.stopped <==>
                     && HasBit(sweep, SWEEP_ENABLE)
                     && c.sweepCounter + 2 >= (sweep / 0x10) % 8
                     && sweep % 8 > 0
                     && SweepMutes(SweptPeriod(Period(c), sweep, sweep % 8), sweep)))
  {
    if c.kind == PULSE {
      var c1 := PulseLength(c);
      PulseLengthCountdown(c);
      var c2 := PulseEnvelope(c1);
      assert c2.regs == c.regs && c2.sweepCounter == c.sweepCounter;
      assert c.lengthCounter > 0 ==> !c2.stopped;
      SweepKeepsHaltBits(c2);
      var sweep := c.regs[SWEEP];
      SweepWriteBack(c2, sweep, sweep % 8);
    } else if c.kind == TRIANGLE {
      TriangleLengthCountdown(c);
    } else {
      NoiseLengthCountdown(c);
    }
  }

  /**
   * `PulseChannel.updateLength`: a halted counter changes nothing; otherwise
   * the counter drops by 4 to no less than 0, and the channel stops exactly
   * when it already was stopped or the counter was already at 0.
   */
  lemma PulseLengthCountdown(c: ChannelState)
    requires c.Valid()
    ensures var r := PulseLength(c);
            && (HasBit(c.regs[STATUS], LENGTH_COUNTER_HALT) ==> r == c)
            && (!HasBit(c.regs[STATUS], LENGTH_COUNTER_HALT) ==>
                  && r.lengthCounter == Max0(c.lengthCounter - 4)
                  && (r.stopped <==> c.stopped || c.lengthCounter <= 0))
  {
  }

  /** `TriangleChannel.updateLength`: the same countdown by 4, with its own halt bit. */
  lemma TriangleLengthCountdown(c: ChannelState)
    requires c.Valid()
    ensures var r := TriangleLength(c);
            && (HasBit(c.regs[STATUS], LENGTH_COUNTER_HALT_TRI) ==> r == c)
            && (!HasBit(c.regs[STATUS], LENGTH_COUNTER_HALT_TRI) ==>
                  && r.lengthCounter == Max0(c.lengthCounter - 4)
                  && (r.stopped <==> c.stopped || c.lengthCounter <= 0))
  {
  }

  /**
   * `NoiseChannel.updateLength`: the counter drops by 1; at 0 the channel
   * stops only when the loop bit of TIMER_L is clear.
   */
  lemma NoiseLengthCountdown(c: ChannelState)
    requires c.Valid()
    ensures var r := NoiseLength(c);
            && (HasBit(c.regs[STATUS], LENGTH_COUNTER_HALT) ==> r == c)
            && (!HasBit(c.regs[STATUS], LENGTH_COUNTER_HALT) ==>
                  && r.lengthCounter == Max0(c.lengthCounter - 1)
                  && (r.stopped <==> c.stopped || (c.lengthCounter <= 0 && !HasBit(c.regs[TIMER_L], NOISE_LOOP))))
  {
  }

  function Max0(x: int): nat
  {
    if x < 0 then 0 else x
  }

  lemma SweepKeepsHaltBits(c: ChannelState)
    requires c.Valid()
    ensures PulseSweep(c).regs[STATUS] == c.regs[STATUS]
    ensures c.stopped ==> PulseSweep(c).stopped
    ensures PulseSweep(c).lengthCounter == c.lengthCounter
  {
  }

  /**
   * The length counter silences the channel in time: a counter of `l`
   * stops it within `l / step + 2` frames, that is once `n` frames cover it.
   */
  lemma {:induction false} LengthSilences(c: ChannelState, n: nat)
    requires c.Valid() && LengthCanExpire(c)
    requires n >= 1 && c.lengthCounter <= LengthStep(c.kind) * (n - 1)
    ensures UpdateTimes(c, n).stopped
    decreases n
  {
    if c.stopped {
      StoppedStays(c, n);
    } else {
      LengthStepDown(c);
      var r := Update(c);
      if r.stopped {
        StoppedStays(r, n - 1);
      } else {
        assert n >= 2;
        LengthSilences(r, n - 1);
      }
    }
  }

  /** A stopped channel stays as it is however many frames pass. */
  lemma {:induction false} StoppedStays(c: ChannelState, n: nat)
    requires c.Valid() && c.stopped
    ensures UpdateTimes(c, n) == c
    decreases n
  {
    if n > 0 {
      StoppedStays(Update(c), n - 1);
    }
  }

  /** A halted length counter keeps its value on every frame. */
  lemma HaltedLengthKept(c: ChannelState)
    requires c.Valid() && c.kind != DMC && HasBit(c.regs[STATUS], HaltMask(c.kind))
    ensures Update(c).lengthCounter == c.lengthCounter
  {
    if !c.stopped && c.kind == PULSE {
      SweepKeepsHaltBits(PulseEnvelope(PulseLength(c)));
    }
  }

  // ---------------------------------------------------------------------
  // Envelope

  /**
   * The envelope: a reset reloads it to 15; otherwise when the divider runs
   * out it counts down by one, and at 0 it wraps to 15 only when looping.
   */
  lemma EnvelopeSteps(c: ChannelState)
    requires c.Valid() && !HasBit(c.regs[STATUS], CONSTANT_VOLUME)
    ensures var r := PulseEnvelope(c);
            && (c.envelopeReset ==> r.envelopeCounter == 0x0F && !r.envelopeReset)
            && (!c.envelopeReset && c.envelopeDivider > 4 ==> r.envelopeCounter == c.envelopeCounter)
            && (!c.envelopeReset && c.envelopeDivider <= 4 && c.envelopeCounter > 0 ==>
                  r.envelopeCounter == c.envelopeCounter - 1)
            && (!c.envelopeReset && c.envelopeDivider <= 4 && c.envelopeCounter <= 0 ==>
                  r.envelopeCounter == (if HasBit(c.regs[STATUS], ENVELOPE_LOOP) then 0x0F else 0))
  {
  }

  /** With constant volume set the envelope is frozen. */
  lemma ConstantVolumeFreezesEnvelope(c: ChannelState)
    requires c.Valid() && HasBit(c.regs[STATUS], CONSTANT_VOLUME)
    ensures PulseEnvelope(c) == c
  {
  }

  // ---------------------------------------------------------------------
  // Sweep

  /** Adding and subtracting follow the negate bit; the change is the period shifted right. */
  lemma SweepDirection(period: nat, sweep: Byte, shift: nat)
    ensures !HasBit(sweep, SWEEP_NEGATE) ==> SweptPeriod(period, sweep, shift) >= period
    ensures HasBit(sweep, SWEEP_NEGATE) ==> SweptPeriod(period, sweep, shift) <= period
    ensures shift > 0 ==> (SweptPeriod(period, sweep, shift) - period <= period / 2
                           && period - SweptPeriod(period, sweep, shift) <= period / 2)
  {
    if shift > 0 {
      assert Pow2(shift) >= 2 by { Pow2AtLeast2(shift); }
      DivAntitone(period, 2, Pow2(shift));
    }
  }

  lemma Pow2AtLeast2(k: nat)
    requires k > 0
    ensures Pow2(k) >= 2
  {
  }

  /** The low 8 bits and the next 3 bits of `f` make up `f` modulo 0x800. */
  lemma {:induction false} ElevenBits(f: nat)
    ensures f % 0x100 + ((f / 0x100) % 8) * 0x100 == f % 0x800
  {
    var q := f / 0x800;
    var r := f % 0x800;
    DivUnique(f, 0x100, q * 8 + r / 0x100, r % 0x100);
  }

  /**
   * The sweep's write-back: the new period is the swept period modulo 0x800,
   * the length bits of TIMER_H and the first two registers are kept, and
   * the channel stops when the swept period is out of range.
   */
  lemma {:induction false} SweepWriteBack(c: ChannelState, sweep: Byte, shift: nat)
    requires c.Valid()
    ensures var r := SweepPeriod(c, sweep, shift);
            var f := SweptPeriod(Period(c), sweep, shift);
            && Period(r) == f % 0x800
            && r.regs[TIMER_H] / 8 == c.regs[TIMER_H] / 8
            && r.regs[STATUS] == c.regs[STATUS] && r.regs[SWEEP] == c.regs[SWEEP]
            && (r.stopped <==> c.stopped || SweepMutes(f, sweep))
  {
    var f := SweptPeriod(Period(c), sweep, shift);
    var h := (c.regs[TIMER_H] / 8) * 8 + (f / 0x100) % 8;
    assert h % 8 == (f / 0x100) % 8 && h / 8 == c.regs[TIMER_H] / 8;
    ElevenBits(f);
  }

  /** A sweep that mutes silences the channel. */
  lemma SweepMuteSilences(c: ChannelState, sweep: Byte, shift: nat)
    requires c.Valid() && CountersInRange(c)
    requires SweepMutes(SweptPeriod(Period(c), sweep, shift), sweep)
    ensures Volume(SweepPeriod(c, sweep, shift)) == 0
  {
  }

  // ---------------------------------------------------------------------
  // DMC

  /** `n` h-blank steps of the DMC's length counter. */
  function DmcTimes(c: ChannelState, n: nat): (r: ChannelState)
    requires c.Valid()
    ensures r.Valid() && r.kind == c.kind
    decreases n
  {
    if n == 0 then c else DmcTimes(DmcLength(c).0, n - 1)
  }

  /** While its DMA length lasts a playing DMC counts down by one a line, without interrupt. */
  lemma {:induction false} DmcCountsDown(c: ChannelState, k: nat)
    requires c.Valid() && !c.stopped && k <= c.dmaLengthCounter
    ensures DmcTimes(c, k) == c.(dmaLengthCounter := c.dmaLengthCounter - k)
    ensures forall j | 0 <= j < k :: !DmcLength(DmcTimes(c, j)).1
    decreases k
  {
    if k > 0 {
      var c1 := DmcLength(c).0;
      assert !DmcLength(c).1;
      DmcCountsDown(c1, k - 1);
      forall j | 0 <= j < k
        ensures !DmcLength(DmcTimes(c, j)).1
      {
        if j > 0 {
          assert DmcTimes(c, j) == DmcTimes(c1, j - 1);
        }
      }
    }
  }

  /**
   * After its DMA length runs out the DMC either reloads it (looping) or
   * stops and raises its interrupt exactly when the IRQ-enable bit is set.
   */
  lemma {:induction false} DmcRunsOut(c: ChannelState)
    requires c.Valid() && !c.stopped && c.dmaLengthCounter >= 0
    ensures var e := DmcTimes(c, c.dmaLengthCounter);
            var (r, irq) := DmcLength(e);
            && e.dmaLengthCounter == 0
            && (HasBit(c.regs[STATUS], DMC_LOOP) ==>
                  !irq && !r.stopped && r.dmaLengthCounter == c.regsLengthCounter)
            && (!HasBit(c.regs[STATUS], DMC_LOOP) ==>
                  r.stopped && r.dmaLengthCounter == 0 && (irq <==> HasBit(c.regs[STATUS], DMC_IRQ_ENABLE)))
  {
    DmcCountsDown(c, c.dmaLengthCounter);
  }

  /** A stopped DMC neither counts nor interrupts. */
  lemma DmcStoppedQuiet(c: ChannelState)
    requires c.Valid() && c.stopped
    ensures DmcLength(c) == (c, false)
  {
  }

  /** The DMC length register always holds `(value * 16 + 1) * 8` for the last byte written, a multiple of 8 from 8 to 0x7F88. */
  lemma DmcLengthRegister(c: ChannelState, value: Byte)
    requires c.Valid() && c.kind == DMC
    ensures var r := ChannelWrite(c, TIMER_H, value);
            r.regsLengthCounter % 8 == 0 && 8 <= r.regsLengthCounter <= 0x7F88
  {
  }
}
