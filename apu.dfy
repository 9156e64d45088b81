/**
 * The classes of src/nes/apu.ts: `GamePad`, the sound channels and `Apu`,
 * whose register files are arrays and whose counters are fields updated in
 * place.  Every method is proved to produce exactly the state the matching
 * function of NesApuSpec describes; the four channel classes of the source
 * are one class `Channel` that dispatches on its `kind`.
 */
module NesApu {
  import opened NesTypes
  import opened NesApuSpec

  class GamePad {
    /** The live button states of pads 0 and 1. */
    const status: array<Byte>
    /** The shift registers latched from `status`. */
    const latched: array<Byte>

    ghost predicate Valid()
    {
      status.Length == 2 && latched.Length == 2 && status != latched
    }

    ghost function State(): (r: PadState)
      requires Valid()
      reads status, latched
      ensures r.Valid()
    {
      PadState(status[..], latched[..])
    }

    constructor ()
      ensures Valid() && fresh(status) && fresh(latched)
      ensures State() == PadState([0, 0], [0, 0])
    {
      status := new Byte[2](_ => 0);
      latched := new Byte[2](_ => 0);
    }

    /** `setStatus`: stores the buttons of pad `no`, dropping L+R and U+D pressed together. */
    method SetStatus(no: int, v: Byte)
      requires Valid() && 0 <= no < 2
      modifies status
      ensures State() == SetPadStatus(old(State()), no, v)
    {
      var value := v;
      if HasBit(value, PAD_L) && HasBit(value, PAD_R) {
        value := value - (PAD_L + PAD_R);
      }
      if HasBit(value, PAD_U) && HasBit(value, PAD_D) {
        value := value - (PAD_U + PAD_D);
      }
      status[no] := value;
    }

    method Latch()
      requires Valid()
      modifies latched
      ensures State() == NesApuSpec.Latch(old(State()))
    {
      latched[0] := status[0];
      latched[1] := status[1];
    }

    method Shift(no: int) returns (bit: int)
      requires Valid() && 0 <= no < 2
      modifies latched
      ensures (bit, State()) == NesApuSpec.Shift(old(State()), no)
    {
      var value := latched[no];
      latched[no] := value / 2;
      bit := value % 2;
    }
  }

  /** A sound channel of the given kind: `PulseChannel`, `TriangleChannel`, `NoiseChannel` or `DmcChannel`. */
  class Channel {
    const kind: Kind
    const regs: array<Byte>
    var stopped: bool
    var lengthCounter: int
    var sweepCounter: int
    var envelopeDivider: int
    var envelopeCounter: int
    var envelopeReset: bool
    var regsLengthCounter: int
    var dmaLengthCounter: int

    ghost predicate Valid()
    {
      regs.Length == 4
    }

    ghost function State(): (r: ChannelState)
      requires Valid()
      reads this, regs
      ensures r.Valid()
    {
      ChannelState(kind, regs[..], stopped, lengthCounter, sweepCounter, envelopeDivider,
                   envelopeCounter, envelopeReset, regsLengthCounter, dmaLengthCounter)
    }

    constructor (kind: Kind)
      ensures Valid() && fresh(regs)
      ensures State() == NewChannel(kind)
    {
      this.kind := kind;
      regs := new Byte[4](_ => 0);
      stopped := true;
      lengthCounter, sweepCounter := 0, 0;
      envelopeDivider, envelopeCounter, envelopeReset := 0, 0, false;
      regsLengthCounter, dmaLengthCounter := 1, 0;
    }

    method Reset()
      requires Valid()
      modifies this, regs
      ensures State() == ChannelReset(old(State()))
    {
      regs[0], regs[1], regs[2], regs[3] := 0, 0, 0, 0;
      stopped := true;
      if kind == PULSE {
        sweepCounter := 0;
        envelopeDivider, envelopeCounter := 0, 0;
      }
    }

    method Write(reg: int, value: Byte)
      requires Valid() && 0 <= reg < 4
      modifies this, regs
      ensures State() == ChannelWrite(old(State()), reg, value)
    {
      regs[reg] := value;
      match kind
      case PULSE =>
        if reg == STATUS {
          stopped := false;
          if !HasBit(value, CONSTANT_VOLUME) {
            envelopeDivider := value % 0x10;
            envelopeCounter := 0x0F;
          }
        } else if reg == SWEEP {
          sweepCounter := (value / 0x10) % 8;
        } else if reg == TIMER_H {
          lengthCounter := LENGTH_TABLE[value / 8];
          stopped := false;
          envelopeReset := true;
        }
      case TRIANGLE =>
        if reg == STATUS || reg == TIMER_H {
          lengthCounter := regs[STATUS] % 0x80;
          stopped := lengthCounter <= 0;
        }
      case NOISE =>
        if reg == TIMER_H {
          lengthCounter := LENGTH_TABLE[value / 8];
          stopped := false;
        }
      case DMC =>
        if reg == TIMER_H {
          regsLengthCounter := (value * 0x10 + 1) * 8;
          stopped := false;
        }
    }

    method SetEnable(on: bool)
      requires Valid()
      modifies this
      ensures State() == NesApuSpec.SetEnable(old(State()), on)
    {
      if kind == DMC {
        stopped := !on;
        if on {
          if dmaLengthCounter == 0 {
            dmaLengthCounter := regsLengthCounter;
          }
        } else {
          dmaLengthCounter := 0;
        }
      } else if !on {
        stopped := true;
      }
    }

    predicate IsPlaying()
      requires Valid()
      reads this, regs
      ensures IsPlaying() == NesApuSpec.IsPlaying(State())
    {
      !stopped
    }

    method GetVolume() returns (volume: int)
      requires Valid()
      ensures volume == Volume(State())
    {
      if stopped {
        return 0;
      }
      if kind == TRIANGLE {
        return FULL_VOLUME;
      }
      var v := regs[STATUS];
      if HasBit(v, CONSTANT_VOLUME) {
        return v % 0x10;
      }
      volume := if kind == PULSE then envelopeCounter else FULL_VOLUME;
    }

    method GetFrequency() returns (frequency: nat)
      requires Valid()
      ensures frequency == Frequency(State())
    {
      var period := regs[TIMER_L] as int + (regs[TIMER_H] as int % 8) * 0x100;
      match kind
      case PULSE => frequency := CPU_CLOCK / (16 * (period + 1));
      case TRIANGLE => frequency := CPU_CLOCK / (32 * (period + 1));
      case NOISE => frequency := NOISE_FREQUENCIES[regs[TIMER_L] % 0x10];
      case DMC => frequency := NOISE_FREQUENCIES[regs[TIMER_L] % 0x10];
    }

    method GetDutyRatio() returns (eighths: int)
      requires Valid()
      ensures eighths == DutyEighths(State())
    {
      if kind == PULSE {
        eighths := PULSE_DUTY_EIGHTHS[(regs[STATUS] / 0x40) % 4];
      } else {
        eighths := DEFAULT_DUTY_EIGHTHS;
      }
    }

    method Update()
      requires Valid()
      modifies this, regs
      ensures State() == NesApuSpec.Update(old(State()))
    {
      if stopped {
        return;
      }
      match kind
      case PULSE =>
        PulseUpdateLength();
        PulseUpdateEnvelope();
        PulseSweep();
      case TRIANGLE =>
        TriangleUpdateLength();
      case NOISE =>
        NoiseUpdateLength();
      case DMC =>
    }

    method PulseUpdateLength()
      requires Valid()
      modifies this
      ensures State() == PulseLength(old(State()))
    {
      if HasBit(regs[STATUS], LENGTH_COUNTER_HALT) {
        return;
      }
      var l := lengthCounter;
      if l <= 0 {
        l := 0;
        stopped := true;
      } else {
        l := l - 4;
        if l < 0 {
          l := 0;
        }
      }
      lengthCounter := l;
    }

    method PulseUpdateEnvelope()
      requires Valid()
      modifies this
      ensures State() == PulseEnvelope(old(State()))
    {
      var v := regs[STATUS];
      if HasBit(v, CONSTANT_VOLUME) {
        return;
      }
      if envelopeReset {
        envelopeReset := false;
        envelopeCounter := 0x0F;
        envelopeDivider := v % 0x10;
        return;
      }
      envelopeDivider := envelopeDivider - 4;
      if envelopeDivider <= 0 {
        envelopeDivider := envelopeDivider + v % 0x10;
        if envelopeCounter > 0 {
          envelopeCounter := envelopeCounter - 1;
        } else if HasBit(v, ENVELOPE_LOOP) {
          envelopeCounter := 0x0F;
        } else {
          envelopeCounter := 0;
        }
      }
    }

    method PulseSweep()
      requires Valid()
      modifies this, regs
      ensures State() == NesApuSpec.PulseSweep(old(State()))
    {
      var sweep := regs[SWEEP];
      if !HasBit(sweep, SWEEP_ENABLE) {
        return;
      }
      var c := sweepCounter + 2;
      var count := (sweep / 0x10) % 8;
      if c >= count {
        c := c - count;
        var shift := sweep % 8;
        if shift > 0 {
          SweepPeriod(sweep, shift);
        }
        c := c - 2;
        if c <= 0 {
          sweepCounter := (sweep / 0x10) % 8 + c;
        }
      }
      sweepCounter := c;
    }

    /** The period update of the sweep unit and its write-back to TIMER_L and TIMER_H. */
    method SweepPeriod(sweep: Byte, shift: nat)
      requires Valid()
      modifies this, regs
      ensures State() == NesApuSpec.SweepPeriod(old(State()), sweep, shift)
    {
      var freq := regs[TIMER_L] as int + (regs[TIMER_H] as int % 8) * 0x100;
      var add := freq / Pow2(shift);
      if !HasBit(sweep, SWEEP_NEGATE) {
        freq := freq + add;
        if freq > 0x7FF {
          stopped := true;
        }
      } else {
        freq := freq - add;
        if freq < 8 {
          stopped := true;
        }
      }
      regs[TIMER_L] := freq % 0x100;
      regs[TIMER_H] := (regs[TIMER_H] / 8) * 8 + (freq / 0x100) % 8;
    }

    method TriangleUpdateLength()
      requires Valid()
      modifies this
      ensures State() == TriangleLength(old(State()))
    {
      if HasBit(regs[STATUS], LENGTH_COUNTER_HALT_TRI) {
        return;
      }
      var l := lengthCounter;
      if l <= 0 {
        l := 0;
        stopped := true;
      } else {
        l := l - 4;
        if l <= 0 {
          l := 0;
        }
      }
      lengthCounter := l;
    }

    method NoiseUpdateLength()
      requires Valid()
      modifies this
      ensures State() == NoiseLength(old(State()))
    {
      if HasBit(regs[STATUS], LENGTH_COUNTER_HALT) {
        return;
      }
      var l := lengthCounter;
      if l <= 0 {
        l := 0;
        if !HasBit(regs[TIMER_L], NOISE_LOOP) {
          stopped := true;
        }
      } else {
        l := l - 1;
        if l < 0 {
          l := 0;
        }
      }
      lengthCounter := l;
    }

    /** `DmcChannel.onHblank`; answers whether it calls `triggerIrq`. */
    method DmcUpdateLength() returns (irq: bool)
      requires Valid()
      modifies this
      ensures (State(), irq) == DmcLength(old(State()))
    {
      irq := false;
      if stopped {
        return;
      }
      var l := dmaLengthCounter;
      if l <= 0 {
        l := 0;
        if !HasBit(regs[STATUS], DMC_LOOP) {
          stopped := true;
          if HasBit(regs[STATUS], DMC_IRQ_ENABLE) {
            irq := true;
          }
        } else {
          l := regsLengthCounter;
        }
      } else {
        l := l - 1;
        if l < 0 {
          l := 0;
        }
      }
      dmaLengthCounter := l;
    }
  }

  class Apu {
    const regs: array<Byte>
    const channels: seq<Channel>
    /** The source's `frameInterrupt` (0x40 when set). */
    var frameInterrupt: bool
    /** The source's `dmcInterrupt` (0x80 when set). */
    var dmcInterrupt: bool
    const gamePad: GamePad

    /** The channel objects. */
    ghost function ChannelObjects(): set<object>
    {
      set i | 0 <= i < |channels| :: channels[i]
    }

    /** The register files of the channels. */
    ghost function ChannelRegs(): set<object>
    {
      set i | 0 <= i < |channels| :: channels[i].regs
    }

    ghost predicate Valid()
    {
      && regs.Length == REG_COUNT
      && ChannelsValid(channels)
      && (forall i | 0 <= i < CHANNEL_COUNT ::
            channels[i].regs != regs && channels[i].regs != gamePad.status && channels[i].regs != gamePad.latched)
      && regs != gamePad.status && regs != gamePad.latched
      && gamePad.Valid()
    }

    ghost function ChannelStates(): (r: seq<ChannelState>)
      requires Valid()
      reads ChannelObjects(), ChannelRegs()
      ensures |r| == CHANNEL_COUNT
      ensures forall i | 0 <= i < CHANNEL_COUNT :: r[i] == channels[i].State()
    {
      [channels[0].State(), channels[1].State(), channels[2].State(), channels[3].State(), channels[4].State()]
    }

    ghost function State(): (r: ApuState)
      requires Valid()
      reads this, regs, ChannelObjects(), ChannelRegs(), gamePad.status, gamePad.latched
      ensures r.Valid()
    {
      ApuState(regs[..], ChannelStates(), frameInterrupt, dmcInterrupt, gamePad.State())
    }

    constructor ()
      ensures Valid()
      ensures State() == ApuState(seq(REG_COUNT, _ => 0),
                                  [NewChannel(PULSE), NewChannel(PULSE), NewChannel(TRIANGLE), NewChannel(NOISE), NewChannel(DMC)],
                                  false, true, PadState([0, 0], [0, 0]))
    {
      regs := new Byte[REG_COUNT](_ => 0);
      var created := NewChannels();
      channels := created;
      frameInterrupt := false;
      dmcInterrupt := true;
      gamePad := new GamePad();
    }

    method GetChannelTypes() returns (types: seq<Kind>)
      requires Valid()
      ensures types == ChannelTypes()
      ensures forall i | 0 <= i < CHANNEL_COUNT :: types[i] == channels[i].kind
    {
      types := CHANNEL_TYPES;
    }

    method Reset()
      requires Valid()
      modifies this, regs, ChannelObjects(), ChannelRegs()
      ensures State() == NesApuSpec.Reset(old(State()))
    {
      ghost var a := State();
      ClearRegisters();
      ghost var a1 := a.(regs := seq(REG_COUNT, _ => 0)[FRAME_COUNTER := IRQ_INHIBIT], frameInterrupt := false, dmcInterrupt := true);
      assert State() == a1;
      ResetChannels();
      assert State() == a1.(channels := ResetAll(a1.channels));
    }

    /** `regs.fill(0)`, then the frame counter inhibits the frame IRQ; the interrupt flags take their reset values. */
    method ClearRegisters()
      requires Valid()
      modifies this, regs
      ensures State() == old(State()).(regs := seq(REG_COUNT, _ => 0)[FRAME_COUNTER := IRQ_INHIBIT],
                                       frameInterrupt := false, dmcInterrupt := true)
    {
      FillRegisters();
      frameInterrupt := false;
      dmcInterrupt := true;
    }

    method FillRegisters()
      requires Valid()
      modifies regs
      ensures regs[..] == seq(REG_COUNT, _ => 0)[FRAME_COUNTER := IRQ_INHIBIT]
    {
      forall i | 0 <= i < REG_COUNT {
        regs[i] := 0;
      }
      regs[FRAME_COUNTER] := IRQ_INHIBIT;
    }

    /** `channels.forEach(channel => channel.reset())`. */
    method ResetChannels()
      requires Valid()
      modifies ChannelObjects(), ChannelRegs()
      ensures State() == old(State()).(channels := ResetAll(old(State()).channels))
    {
      ResetEach();
    }

    method ResetEach()
      requires Valid()
      modifies ChannelObjects(), ChannelRegs()
      ensures ChannelStates() == ResetAll(old(ChannelStates()))
    {
      ghost var before := ChannelStates();
      for ch := 0 to CHANNEL_COUNT
        invariant forall i | 0 <= i < CHANNEL_COUNT :: channels[i].State() == if i < ch then ChannelReset(before[i]) else before[i]
      {
        ResetChannel(ch);
      }
    }

    method ResetChannel(ch: int)
      requires Valid() && 0 <= ch < CHANNEL_COUNT
      modifies channels[ch], channels[ch].regs
      ensures channels[ch].State() == ChannelReset(old(channels[ch].State()))
      ensures forall i | 0 <= i < CHANNEL_COUNT && i != ch :: channels[i].State() == old(channels[i].State())
    {
      channels[ch].Reset();
    }

    /** `save`, without the Base64 encoding. */
    method Save() returns (data: seq<Byte>)
      requires Valid()
      ensures data == NesApuSpec.Save(State())
    {
      data := regs[..];
    }

    /** `load`, without the Base64 decoding: each byte is written to 0x4000 + its index. */
    method Load(data: seq<Byte>)
      requires Valid()
      modifies this, regs, ChannelObjects(), ChannelRegs(), gamePad.latched
      ensures State() == NesApuSpec.Load(old(State()), data)
    {
      for i := 0 to |data|
        invariant State() == LoadPrefix(old(State()), data, i)
      {
        Write(i + BASE, data[i]);
      }
    }

    method Read(adr: int) returns (value: int)
      requires Valid()
      modifies this, gamePad.latched
      ensures (value, State()) == NesApuSpec.Read(old(State()), adr)
    {
      var reg := adr - BASE;
      if reg == STATUS_REG {
        value := ReadStatus();
        frameInterrupt := false;
      } else if reg == PAD1_REG || reg == PAD2_REG {
        value := gamePad.Shift(reg - PAD1_REG);
      } else {
        value := 0;
      }
    }

    /** The value of the status register; the channel bits are disjoint from the others, so `|=` adds. */
    method ReadStatus() returns (result: nat)
      requires Valid()
      ensures result == StatusValue(State())
    {
      result := (if dmcInterrupt then 0x80 else 0) + (if frameInterrupt then 0x40 else 0);
      for ch := 0 to CHANNEL_COUNT
        invariant result == (if dmcInterrupt then 0x80 else 0) + (if frameInterrupt then 0x40 else 0)
                            + PlayingBits(State(), ch)
      {
        if Bit(regs[STATUS_REG], ch) && channels[ch].IsPlaying() {
          result := result + Pow2(ch);
        }
      }
    }

    method Write(adr: int, value: Byte)
      requires Valid() && adr >= BASE
      modifies this, regs, ChannelObjects(), ChannelRegs(), gamePad.latched
      ensures State() == NesApuSpec.Write(old(State()), adr, value)
    {
      var reg := adr - BASE;
      if reg >= REG_COUNT {
        return;
      }
      ghost var a := State();
      SetRegister(reg, value);
      WriteSound(reg, value);
      WriteControl(reg, value);
      assert State() == NesApuSpec.WriteControl(NesApuSpec.WriteSound(a.(regs := a.regs[reg := value]), reg, value), reg, value);
    }

    /** `regs[reg] = value`. */
    method SetRegister(reg: int, value: Byte)
      requires Valid() && 0 <= reg < REG_COUNT
      modifies regs
      ensures State() == old(State()).(regs := old(State()).regs[reg := value])
    {
      regs[reg] := value;
    }

    method WriteSound(reg: int, value: Byte)
      requires Valid() && 0 <= reg
      modifies ChannelObjects(), ChannelRegs()
      ensures State() == NesApuSpec.WriteSound(old(State()), reg, value)
    {
      if reg < SOUND_REG_END {
        WriteChannel(reg / 4, reg % 4, value);
      }
    }

    method WriteControl(reg: int, value: Byte)
      requires Valid()
      modifies this, ChannelObjects(), gamePad.latched
      ensures State() == NesApuSpec.WriteControl(old(State()), reg, value)
    {
      if reg == STATUS_REG {
        dmcInterrupt := false;
        EnableChannels(value);
      } else if reg == PAD1_REG {
        if value % 2 == 0 {
          LatchPad();
        }
      }
    }

    /** `channels[ch].write(r, value)`. */
    method WriteChannel(ch: int, r: int, value: Byte)
      requires Valid() && 0 <= ch < CHANNEL_COUNT && 0 <= r < 4
      modifies channels[ch], channels[ch].regs
      ensures State() == old(State()).(channels := old(State()).channels[ch := ChannelWrite(old(State()).channels[ch], r, value)])
    {
      ghost var before := ChannelStates();
      WriteOneChannel(ch, r, value);
      assert ChannelStates() == before[ch := ChannelWrite(before[ch], r, value)];
    }

    method WriteOneChannel(ch: int, r: int, value: Byte)
      requires Valid() && 0 <= ch < CHANNEL_COUNT && 0 <= r < 4
      modifies channels[ch], channels[ch].regs
      ensures channels[ch].State() == ChannelWrite(old(channels[ch].State()), r, value)
      ensures forall i | 0 <= i < CHANNEL_COUNT && i != ch :: channels[i].State() == old(channels[i].State())
    {
      channels[ch].Write(r, value);
    }

    /** `gamePad.latch()`. */
    method LatchPad()
      requires Valid()
      modifies gamePad.latched
      ensures State() == old(State()).(pad := NesApuSpec.Latch(old(State()).pad))
    {
      gamePad.Latch();
    }

    /** `setEnable` of every channel with bit `ch` of `value`. */
    method EnableChannels(value: Byte)
      requires Valid()
      modifies ChannelObjects()
      ensures State() == old(State()).(channels := EnableAll(old(State()).channels, value))
    {
      EnableEach(value);
    }

    method EnableEach(value: Byte)
      requires Valid()
      modifies ChannelObjects()
      ensures ChannelStates() == EnableAll(old(ChannelStates()), value)
    {
      ghost var before := ChannelStates();
      for ch := 0 to CHANNEL_COUNT
        invariant forall i | 0 <= i < CHANNEL_COUNT :: channels[i].State() == if i < ch then SetEnable(before[i], Bit(value, i)) else before[i]
      {
        EnableChannel(ch, Bit(value, ch));
      }
    }

    method EnableChannel(ch: int, on: bool)
      requires Valid() && 0 <= ch < CHANNEL_COUNT
      modifies channels[ch]
      ensures channels[ch].State() == SetEnable(old(channels[ch].State()), on)
      ensures forall i | 0 <= i < CHANNEL_COUNT && i != ch :: channels[i].State() == old(channels[i].State())
    {
      channels[ch].SetEnable(on);
    }

    method GetVolume(ch: int) returns (volume: int)
      requires Valid() && 0 <= ch < CHANNEL_COUNT
      ensures volume == ApuVolume(State(), ch)
    {
      if !Bit(regs[STATUS_REG], ch) {
        return 0;
      }
      volume := channels[ch].GetVolume();
    }

    method GetFrequency(ch: int) returns (frequency: nat)
      requires Valid() && 0 <= ch < CHANNEL_COUNT
      ensures frequency == Frequency(State().channels[ch])
    {
      frequency := channels[ch].GetFrequency();
    }

    method GetDutyRatio(ch: int) returns (eighths: int)
      requires Valid() && 0 <= ch < CHANNEL_COUNT
      ensures eighths == DutyEighths(State().channels[ch])
    {
      eighths := channels[ch].GetDutyRatio();
    }

    method SetPadStatus(no: int, status: Byte)
      requires Valid() && 0 <= no < 2
      modifies gamePad.status
      ensures State() == old(State()).(pad := NesApuSpec.SetPadStatus(old(State()).pad, no, status))
    {
      gamePad.SetStatus(no, status);
    }

    method OnHblank(hcount: int) returns (irqs: IrqCalls)
      requires Valid()
      modifies this, ChannelObjects(), ChannelRegs()
      ensures (State(), irqs) == NesApuSpec.OnHblank(old(State()), hcount)
    {
      ghost var a := State();
      var dmcIrq := DmcOnHblank();
      ghost var a1 := DmcHblank(a).0;
      assert State() == a1;
      var frameIrq := FrameOnHblank(hcount);
      assert (State(), frameIrq) == FrameHblank(a1, hcount);
      irqs := IrqCalls(dmcIrq, frameIrq);
    }

    /** `DmcChannel.onHblank`, answering whether it calls `triggerIrq`. */
    method DmcOnHblank() returns (irq: bool)
      requires Valid()
      modifies channels[DMC_CHANNEL]
      ensures (State(), irq) == DmcHblank(old(State()))
    {
      ghost var before := ChannelStates();
      irq := DmcStep();
      assert ChannelStates() == before[DMC_CHANNEL := DmcLength(before[DMC_CHANNEL]).0];
    }

    method DmcStep() returns (irq: bool)
      requires Valid()
      modifies channels[DMC_CHANNEL]
      ensures (channels[DMC_CHANNEL].State(), irq) == DmcLength(old(channels[DMC_CHANNEL].State()))
      ensures forall i | 0 <= i < DMC_CHANNEL :: channels[i].State() == old(channels[i].State())
    {
      irq := channels[DMC_CHANNEL].DmcUpdateLength();
    }

    /** The `switch (hcount)` of `onHblank`, answering whether it calls `triggerIrq`. */
    method FrameOnHblank(hcount: int) returns (irq: bool)
      requires Valid()
      modifies this, ChannelObjects(), ChannelRegs()
      ensures (State(), irq) == FrameHblank(old(State()), hcount)
    {
      irq := false;
      if hcount == VBLANK_START {
        ghost var a := State();
        UpdateChannels();
        assert State() == a.(channels := UpdateAll(a.channels));
        irq := RaiseFrameIrq();
      }
    }

    /** `if (this.isIrqEnabled())`: the frame interrupt is raised and `triggerIrq` called. */
    method RaiseFrameIrq() returns (irq: bool)
      requires Valid()
      modifies this
      ensures irq == IrqEnabled(old(State()))
      ensures State() == if irq then old(State()).(frameInterrupt := true) else old(State())
    {
      irq := false;
      if IsIrqEnabled() {
        frameInterrupt := true;
        irq := true;
      }
    }

    /** `channels.forEach(channel => channel.update())`. */
    method UpdateChannels()
      requires Valid()
      modifies ChannelObjects(), ChannelRegs()
      ensures State() == old(State()).(channels := UpdateAll(old(State()).channels))
    {
      UpdateEach();
    }

    method UpdateEach()
      requires Valid()
      modifies ChannelObjects(), ChannelRegs()
      ensures ChannelStates() == UpdateAll(old(ChannelStates()))
    {
      ghost var before := ChannelStates();
      for ch := 0 to CHANNEL_COUNT
        invariant forall i | 0 <= i < CHANNEL_COUNT :: channels[i].State() == if i < ch then Update(before[i]) else before[i]
      {
        UpdateChannel(ch);
      }
    }

    method UpdateChannel(ch: int)
      requires Valid() && 0 <= ch < CHANNEL_COUNT
      modifies channels[ch], channels[ch].regs
      ensures channels[ch].State() == Update(old(channels[ch].State()))
      ensures forall i | 0 <= i < CHANNEL_COUNT && i != ch :: channels[i].State() == old(channels[i].State())
    {
      channels[ch].Update();
    }

    predicate IsIrqEnabled()
      requires Valid()
      reads this, regs, ChannelObjects(), ChannelRegs(), gamePad.status, gamePad.latched
      ensures IsIrqEnabled() == IrqEnabled(State())
    {
      !HasBit(regs[FRAME_COUNTER], IRQ_INHIBIT) && !HasBit(regs[FRAME_COUNTER], SEQUENCER_MODE)
    }
  }

  /** The five channels are valid, of the kinds of `kChannelTypes`, and share no object. */
  ghost predicate ChannelsValid(channels: seq<Channel>)
  {
    && |channels| == CHANNEL_COUNT
    && (forall i | 0 <= i < CHANNEL_COUNT :: channels[i].Valid() && channels[i].kind == CHANNEL_TYPES[i])
    && (forall i, j | 0 <= i < CHANNEL_COUNT && 0 <= j < CHANNEL_COUNT && i != j ::
          channels[i] != channels[j] && channels[i].regs != channels[j].regs)
  }

  /** The channels the `Apu` constructor creates. */
  method NewChannels() returns (channels: seq<Channel>)
    ensures ChannelsValid(channels)
    ensures forall i | 0 <= i < CHANNEL_COUNT :: fresh(channels[i]) && fresh(channels[i].regs)
    ensures channels[0].State() == NewChannel(PULSE) && channels[1].State() == NewChannel(PULSE)
    ensures channels[2].State() == NewChannel(TRIANGLE) && channels[3].State() == NewChannel(NOISE)
    ensures channels[4].State() == NewChannel(DMC)
  {
    var pulse1 := new Channel(PULSE);
    var pulse2 := new Channel(PULSE);
    var triangle := new Channel(TRIANGLE);
    var noise := new Channel(NOISE);
    var dmc := new Channel(DMC);
    channels := [pulse1, pulse2, triangle, noise, dmc];
    DistinctChannels(channels);
  }

  /** Five channels that pairwise differ, in their objects and in their register files, satisfy the distinctness of `ChannelsValid`. */
  lemma DistinctChannels(cs: seq<Channel>)
    requires |cs| == CHANNEL_COUNT
    requires forall i | 0 < i < CHANNEL_COUNT :: cs[0] != cs[i] && cs[0].regs != cs[i].regs
    requires forall i | 1 < i < CHANNEL_COUNT :: cs[1] != cs[i] && cs[1].regs != cs[i].regs
    requires cs[2] != cs[3] && cs[2] != cs[4] && cs[3] != cs[4]
    requires cs[2].regs != cs[3].regs && cs[2].regs != cs[4].regs && cs[3].regs != cs[4].regs
    ensures forall i, j | 0 <= i < CHANNEL_COUNT && 0 <= j < CHANNEL_COUNT && i != j :: cs[i] != cs[j] && cs[i].regs != cs[j].regs
  {
  }
}
