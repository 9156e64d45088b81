/**
 * Properties of the whole APU of src/nes/apu.ts: where a register write
 * goes, what `reset` and `onHblank` leave behind, that the channel counters
 * stay in range under every operation, and that `load` gives back the
 * register file `save` took.
 */
module NesApuStateProps {
  import opened NesTypes
  import opened NesApuSpec
  import opened NesApuChannelProps

  // ---------------------------------------------------------------------
  // Register writes

  /** Addresses from 0x4020 up are ignored; every other write is stored in the register file. */
  lemma WriteStoresRegister(a: ApuState, adr: int, value: Byte)
    requires a.Valid() && adr >= BASE
    ensures adr - BASE >= REG_COUNT ==> Write(a, adr, value) == a
    ensures adr - BASE < REG_COUNT ==> Write(a, adr, value).regs == a.regs[adr - BASE := value]
  {
  }

  /**
   * A write to 0x4000-0x4013 goes to channel `reg / 4`, register `reg % 4`,
   * and to nothing else: the other channels, the interrupts and the pads
   * are kept.
   */
  lemma WriteSoundRoutes(a: ApuState, adr: int, value: Byte)
    requires a.Valid() && BASE <= adr < BASE + SOUND_REG_END
    ensures var r := Write(a, adr, value);
            var reg := adr - BASE;
            && r.channels[reg / 4] == ChannelWrite(a.channels[reg / 4], reg % 4, value)
            && (forall i | 0 <= i < CHANNEL_COUNT && i != reg / 4 :: r.channels[i] == a.channels[i])
            && r.frameInterrupt == a.frameInterrupt && r.dmcInterrupt == a.dmcInterrupt && r.pad == a.pad
  {
  }

  /** Writes to 0x4014 and 0x4017-0x401F only store the byte. */
  lemma WriteOtherStoresOnly(a: ApuState, adr: int, value: Byte)
    requires a.Valid() && BASE + SOUND_REG_END <= adr < BASE + REG_COUNT
    requires adr != BASE + STATUS_REG && adr != BASE + PAD1_REG
    ensures Write(a, adr, value) == a.(regs := a.regs[adr - BASE := value])
  {
  }

  /**
   * A write to 0x4015 clears the DMC interrupt and enables channel `ch` by
   * bit `ch`: a channel is playing afterwards exactly when its bit is set
   * and it was playing before, except the DMC, which its bit starts.
   */
  lemma {:induction false} WriteStatusEnables(a: ApuState, value: Byte)
    requires a.Valid()
    ensures var r := Write(a, BASE + STATUS_REG, value);
            && !r.dmcInterrupt && r.frameInterrupt == a.frameInterrupt && r.pad == a.pad
            && forall ch | 0 <= ch < CHANNEL_COUNT ::
                 && r.channels[ch] == SetEnable(a.channels[ch], Bit(value, ch))
                 && (IsPlaying(r.channels[ch]) <==>
                       Bit(value, ch) && (ch == DMC_CHANNEL || IsPlaying(a.channels[ch])))
  {
    var r := Write(a, BASE + STATUS_REG, value);
    forall ch | 0 <= ch < CHANNEL_COUNT
      ensures IsPlaying(r.channels[ch]) <==> Bit(value, ch) && (ch == DMC_CHANNEL || IsPlaying(a.channels[ch]))
    {
      SetEnableEffect(a.channels[ch], Bit(value, ch));
    }
  }

  /** The frame interrupt is enabled exactly when bits 6 and 7 of 0x4017 are both clear. */
  lemma IrqEnabledIff(a: ApuState)
    requires a.Valid()
    ensures IrqEnabled(a) <==> a.regs[FRAME_COUNTER] < 0x40
  {
  }

  // ---------------------------------------------------------------------
  // Reset and h-blank

  /**
   * After `reset` every register is 0 but 0x4017, which holds 0x40 so the
   * frame interrupt is disabled; the frame interrupt is clear, the DMC flag
   * set, every channel is stopped with cleared registers and silent, and
   * the pads are kept.
   */
  lemma ResetState(a: ApuState)
    requires a.Valid()
    ensures var r := Reset(a);
            && r.regs[FRAME_COUNTER] == IRQ_INHIBIT
            && (forall i | 0 <= i < REG_COUNT && i != FRAME_COUNTER :: r.regs[i] == 0)
            && !r.frameInterrupt && r.dmcInterrupt && !IrqEnabled(r) && r.pad == a.pad
            && forall ch | 0 <= ch < CHANNEL_COUNT ::
                 !IsPlaying(r.channels[ch]) && r.channels[ch].regs == [0, 0, 0, 0] && ApuVolume(r, ch) == 0
  {
  }

  /**
   * `onHblank(hcount)`: the DMC takes one step on every line and its
   * interrupt call is that step's; on line 241 the other channels take
   * their frame update and the frame interrupt is raised and called
   * exactly when enabled; on every other line nothing else changes.
   */
  lemma {:induction false} OnHblankEffect(a: ApuState, hcount: int)
    requires a.Valid()
    ensures var (r, calls) := OnHblank(a, hcount);
            var (dmc, dmcIrq) := DmcLength(a.channels[DMC_CHANNEL]);
            && calls.dmc == dmcIrq
            && r.regs == a.regs && r.pad == a.pad && r.dmcInterrupt == a.dmcInterrupt
            && r.channels[DMC_CHANNEL] == dmc
            && (hcount != VBLANK_START ==>
                  && (forall i | 0 <= i < DMC_CHANNEL :: r.channels[i] == a.channels[i])
                  && r.frameInterrupt == a.frameInterrupt && !calls.frame)
            && (hcount == VBLANK_START ==>
                  && (forall i | 0 <= i < DMC_CHANNEL :: r.channels[i] == Update(a.channels[i]))
                  && calls.frame == IrqEnabled(a)
                  && r.frameInterrupt == (a.frameInterrupt || IrqEnabled(a)))
  {
    var (a1, dmcIrq) := DmcHblank(a);
    assert Update(a1.channels[DMC_CHANNEL]) == a1.channels[DMC_CHANNEL];
  }

  // ---------------------------------------------------------------------
  // Counter ranges across the APU

  /** Every channel's counters are in range. */
  ghost predicate ChannelsInRange(a: ApuState)
    requires a.Valid()
  {
    forall ch | 0 <= ch < CHANNEL_COUNT :: CountersInRange(a.channels[ch])
  }

  /** `reset` puts the counters in range. */
  lemma ResetInRange(a: ApuState)
    requires a.Valid() && ChannelsInRange(a)
    ensures ChannelsInRange(Reset(a))
  {
  }

  /** A register write keeps the counters in range. */
  lemma {:induction false} WriteInRange(a: ApuState, adr: int, value: Byte)
    requires a.Valid() && adr >= BASE && ChannelsInRange(a)
    ensures ChannelsInRange(Write(a, adr, value))
  {
    var reg := adr - BASE;
    if reg < REG_COUNT {
      var a0 := a.(regs := a.regs[reg := value]);
      var a1 := WriteSound(a0, reg, value);
      if reg < SOUND_REG_END {
        WriteKeepsRange(a0.channels[reg / 4], reg % 4, value);
      }
      assert ChannelsInRange(a1);
      if reg == STATUS_REG {
        forall ch | 0 <= ch < CHANNEL_COUNT
          ensures CountersInRange(WriteControl(a1, reg, value).channels[ch])
        {
          SetEnableKeepsRange(a1.channels[ch], Bit(value, ch));
        }
      }
    }
  }

  /** An h-blank keeps the counters in range. */
  lemma {:induction false} OnHblankInRange(a: ApuState, hcount: int)
    requires a.Valid() && ChannelsInRange(a)
    ensures ChannelsInRange(OnHblank(a, hcount).0)
  {
    var (a1, dmcIrq) := DmcHblank(a);
    DmcLengthKeepsRange(a.channels[DMC_CHANNEL]);
    assert ChannelsInRange(a1);
    if hcount == VBLANK_START {
      forall ch | 0 <= ch < CHANNEL_COUNT
        ensures CountersInRange(UpdateAll(a1.channels)[ch])
      {
        UpdateKeepsRange(a1.channels[ch]);
      }
    }
  }

  /** A read keeps the counters in range. */
  lemma ReadInRange(a: ApuState, adr: int)
    requires a.Valid() && ChannelsInRange(a)
    ensures ChannelsInRange(Read(a, adr).1)
  {
  }

  /** Loading any bytes keeps the counters in range. */
  lemma {:induction false} LoadPrefixInRange(a: ApuState, data: seq<Byte>, n: nat)
    requires a.Valid() && n <= |data| && ChannelsInRange(a)
    ensures ChannelsInRange(LoadPrefix(a, data, n))
  {
    if n > 0 {
      LoadPrefixInRange(a, data, n - 1);
      LoadStepInRange(a, data, n);
    }
  }

  /** One byte of `load` keeps the counters in range. */
  lemma LoadStepInRange(a: ApuState, data: seq<Byte>, n: nat)
    requires a.Valid() && 0 < n <= |data| && ChannelsInRange(LoadPrefix(a, data, n - 1))
    ensures ChannelsInRange(LoadPrefix(a, data, n))
  {
    WriteInRange(LoadPrefix(a, data, n - 1), BASE + n - 1, data[n - 1]);
  }

  /** Hence the volume the APU reports for a channel is a fraction 0..15 over 15, and 0 unless the channel is enabled in 0x4015. */
  lemma ApuVolumeRange(a: ApuState, ch: int)
    requires a.Valid() && 0 <= ch < CHANNEL_COUNT && ChannelsInRange(a)
    ensures 0 <= ApuVolume(a, ch) <= FULL_VOLUME
    ensures !Bit(a.regs[STATUS_REG], ch) ==> ApuVolume(a, ch) == 0
  {
    VolumeRange(a.channels[ch]);
  }

  // ---------------------------------------------------------------------
  // Reads of the pads

  /** A read of 0x4016 or 0x4017 answers bit 0 of that pad's shift register and halves it; nothing else changes. */
  lemma ReadPad(a: ApuState, no: int)
    requires a.Valid() && 0 <= no < 2
    ensures var (v, r) := Read(a, BASE + PAD1_REG + no);
            && v == (if Bit(a.pad.latched[no], 0) then 1 else 0)
            && r.pad.latched[no] == a.pad.latched[no] / 2
            && r.pad.latched[1 - no] == a.pad.latched[1 - no]
            && r == a.(pad := r.pad) && r.pad.status == a.pad.status
  {
  }

  /** Every other address below 0x4020 but 0x4015 reads as 0 and changes nothing. */
  lemma ReadOtherZero(a: ApuState, adr: int)
    requires a.Valid()
    requires adr != BASE + STATUS_REG && adr != BASE + PAD1_REG && adr != BASE + PAD2_REG
    ensures Read(a, adr) == (0, a)
  {
  }

  // ---------------------------------------------------------------------
  // Save and load

  /** After `n` bytes of `load` the first `n` registers hold them and the rest are as they were. */
  lemma {:induction false} LoadPrefixRegs(a: ApuState, data: seq<Byte>, n: nat)
    requires a.Valid() && n <= |data| <= REG_COUNT
    ensures LoadPrefix(a, data, n).regs == data[..n] + a.regs[n..]
  {
    if n > 0 {
      LoadPrefixRegs(a, data, n - 1);
      var b := LoadPrefix(a, data, n - 1);
      WriteStoresRegister(b, BASE + n - 1, data[n - 1]);
      PrefixStep(data[..n - 1] + a.regs[n - 1..], data, a.regs, n);
    }
  }

  /** Storing byte `n - 1` of `data` extends the loaded prefix by one. */
  lemma PrefixStep(regs: seq<Byte>, data: seq<Byte>, old_regs: seq<Byte>, n: nat)
    requires 0 < n <= |data| && n <= |old_regs| && regs == data[..n - 1] + old_regs[n - 1..]
    ensures regs[n - 1 := data[n - 1]] == data[..n] + old_regs[n..]
  {
    assert data[..n] == data[..n - 1] + [data[n - 1]];
    assert old_regs[n - 1..] == [old_regs[n - 1]] + old_regs[n..];
  }

  /** `load` of what `save` took restores the whole register file, whatever state it is loaded into. */
  lemma SaveLoadRegs(a: ApuState, b: ApuState)
    requires a.Valid() && b.Valid()
    ensures Load(b, Save(a)).regs == a.regs
  {
    LoadPrefixRegs(b, Save(a), REG_COUNT);
    assert Save(a)[..REG_COUNT] + b.regs[REG_COUNT..] == a.regs;
  }
}
