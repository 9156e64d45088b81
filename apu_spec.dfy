/**
 * Pure semantics of the audio processing unit of src/nes/apu.ts: the two
 * game pads, the five sound channels and the register window
 * 0x4000..0x401F.
 *
 * Registers and counters are integers; a test `(v & MASK) !== 0` of the
 * source is `HasBit(v, MASK)`.  The floating-point outputs are kept as
 * integers: a volume is the numerator of a fraction over 15 and a duty ratio
 * is counted in eighths.  The callback `triggerIrq` is not called: the
 * operations that would call it answer whether they did.
 */
module NesApuSpec {
  import opened NesTypes

  const BASE := 0x4000
  /** Number of APU registers, 0x4000..0x401F. */
  const REG_COUNT := 0x20
  const STATUS_REG := 0x15
  const PAD1_REG := 0x16
  const PAD2_REG := 0x17
  const FRAME_COUNTER := 0x17
  /** Registers below this offset belong to the sound channels, four each. */
  const SOUND_REG_END := 0x14

  const IRQ_INHIBIT := 0x40
  const SEQUENCER_MODE := 0x80
  const CONSTANT_VOLUME := 0x10
  const LENGTH_COUNTER_HALT := 0x20
  const LENGTH_COUNTER_HALT_TRI := 0x80
  const ENVELOPE_LOOP := 0x20
  const DMC_LOOP := 0x40
  const DMC_IRQ_ENABLE := 0x80
  const SWEEP_ENABLE := 0x80
  const SWEEP_NEGATE := 0x08
  const NOISE_LOOP := 0x80

  const CPU_CLOCK := 1789773
  const CHANNEL_COUNT := 5
  const DMC_CHANNEL := 4
  const VBLANK_START := 241

  /** Register offsets within a channel. */
  const STATUS := 0
  const SWEEP := 1
  const TIMER_L := 2
  const TIMER_H := 3

  /** Pad buttons as masks of the pad status byte. */
  const PAD_U := 0x10
  const PAD_D := 0x20
  const PAD_L := 0x40
  const PAD_R := 0x80

  /** kLengthTable. */
  const LENGTH_TABLE: seq<Byte> := [
    0x0a, 0xfe, 0x14, 0x02, 0x28, 0x04, 0x50, 0x06, 0xa0, 0x08, 0x3c, 0x0a, 0x0e, 0x0c, 0x1a, 0x0e,
    0x0c, 0x10, 0x18, 0x12, 0x30, 0x14, 0x60, 0x16, 0xc0, 0x18, 0x48, 0x1a, 0x10, 0x1c, 0x20, 0x1e]

  /** kNoiseFrequencies. */
  const NOISE_FREQUENCIES: seq<nat> :=
    [4, 8, 16, 32, 64, 96, 128, 160, 202, 254, 380, 508, 762, 1016, 2034, 4068]

  /** kPulseDutyRatio in eighths: 0.125, 0.25, 0.5 and -0.25. */
  const PULSE_DUTY_EIGHTHS: seq<int> := [1, 2, 4, -2]

  /** The duty ratio 0.5 of the channels without a duty register, in eighths. */
  const DEFAULT_DUTY_EIGHTHS := 4

  /** The full volume 1, as a numerator over 15. */
  const FULL_VOLUME := 15

  datatype Kind = PULSE | TRIANGLE | NOISE | DMC

  /** kChannelTypes: the kind of each of the five channels. */
  const CHANNEL_TYPES: seq<Kind> := [PULSE, PULSE, TRIANGLE, NOISE, DMC]

  // ---------------------------------------------------------------------
  // Game pads

  /** The live button states of both pads and the shift registers latched from them. */
  datatype PadState = PadState(status: seq<Byte>, latched: seq<Byte>)
  {
    ghost predicate Valid() { |status| == 2 && |latched| == 2 }
  }

  /** The button byte `setStatus` stores: L+R and U+D pressed together are both dropped. */
  function MaskOpposites(v: Byte): Byte
  {
    var v1 := if HasBit(v, PAD_L) && HasBit(v, PAD_R) then v - (PAD_L + PAD_R) else v;
    if HasBit(v1, PAD_U) && HasBit(v1, PAD_D) then v1 - (PAD_U + PAD_D) else v1
  }

  function SetPadStatus(pad: PadState, no: int, v: Byte): (r: PadState)
    requires pad.Valid() && 0 <= no < 2
    ensures r.Valid() && r.latched == pad.latched
    ensures r.status[no] == MaskOpposites(v) && r.status[1 - no] == pad.status[1 - no]
  {
    pad.(status := pad.status[no := MaskOpposites(v)])
  }

  /** `latch`: both shift registers take the live button states. */
  function Latch(pad: PadState): (r: PadState)
    requires pad.Valid()
    ensures r.Valid() && r.status == pad.status && r.latched == pad.status
  {
    pad.(latched := pad.status)
  }

  /** `shift`: bit 0 of the latched byte of pad `no`, which is then halved. */
  function Shift(pad: PadState, no: int): (r: (int, PadState))
    requires pad.Valid() && 0 <= no < 2
    ensures r.1.Valid() && r.1 == pad.(latched := r.1.latched)
  {
    (pad.latched[no] % 2, pad.(latched := pad.latched[no := pad.latched[no] / 2]))
  }

  // ---------------------------------------------------------------------
  // Sound channels

  /**
   * The state of one channel.  Every kind has the four registers and the
   * `stopped` flag of the base class; the other counters belong to the
   * kinds that use them (pulse: length, sweep and envelope; triangle and
   * noise: length; DMC: the two DMA lengths) and stay untouched otherwise.
   */
  datatype ChannelState = ChannelState(
    kind: Kind,
    regs: seq<Byte>,
    stopped: bool,
    lengthCounter: int,
    sweepCounter: int,
    envelopeDivider: int,
    envelopeCounter: int,
    envelopeReset: bool,
    regsLengthCounter: int,
    dmaLengthCounter: int)
  {
    ghost predicate Valid() { |regs| == 4 }
  }

  /** A channel as its constructor leaves it. */
  function NewChannel(kind: Kind): (r: ChannelState)
    ensures r.Valid() && r.kind == kind && r.stopped
  {
    ChannelState(kind, [0, 0, 0, 0], true, 0, 0, 0, 0, false, 1, 0)
  }

  /** `reset`: registers cleared and the channel stopped; a pulse channel also clears its sweep and envelope. */
  function ChannelReset(c: ChannelState): (r: ChannelState)
    requires c.Valid()
    ensures r.Valid()
  {
    var c1 := c.(regs := [0, 0, 0, 0], stopped := true);
    if c.kind == PULSE then c1.(sweepCounter := 0, envelopeDivider := 0, envelopeCounter := 0) else c1
  }

  /** `write`: the register takes the value, then the kind reacts to it. */
  function ChannelWrite(c: ChannelState, reg: int, value: Byte): (r: ChannelState)
    requires c.Valid() && 0 <= reg < 4
    ensures r.Valid() && r.kind == c.kind && r.regs == c.regs[reg := value]
  {
    var c1 := c.(regs := c.regs[reg := value]);
    match c.kind
    case PULSE => PulseWrite(c1, reg, value)
    case TRIANGLE => TriangleWrite(c1, reg)
    case NOISE => NoiseWrite(c1, reg, value)
    case DMC => DmcWrite(c1, reg, value)
  }

  function PulseWrite(c: ChannelState, reg: int, value: Byte): (r: ChannelState)
    requires c.Valid()
    ensures r.Valid() && r.kind == c.kind && r.regs == c.regs
  {
    if reg == STATUS then
      var c1 := c.(stopped := false);
      if !HasBit(value, CONSTANT_VOLUME) then c1.(envelopeDivider := value % 0x10, envelopeCounter := 0x0F) else c1
    else if reg == SWEEP then c.(sweepCounter := (value / 0x10) % 8)
    else if reg == TIMER_H then c.(lengthCounter := LENGTH_TABLE[value / 8], stopped := false, envelopeReset := true)
    else c
  }

  function TriangleWrite(c: ChannelState, reg: int): (r: ChannelState)
    requires c.Valid()
    ensures r.Valid() && r.kind == c.kind && r.regs == c.regs
  {
    if reg == STATUS || reg == TIMER_H then
      var l := c.regs[STATUS] % 0x80;
      c.(lengthCounter := l, stopped := l <= 0)
    else c
  }

  function NoiseWrite(c: ChannelState, reg: int, value: Byte): (r: ChannelState)
    requires c.Valid()
    ensures r.Valid() && r.kind == c.kind && r.regs == c.regs
  {
    if reg == TIMER_H then c.(lengthCounter := LENGTH_TABLE[value / 8], stopped := false) else c
  }

  /** The DMC length `((value << 4) + 1) * 8`. */
  function DmcWrite(c: ChannelState, reg: int, value: Byte): (r: ChannelState)
    requires c.Valid()
    ensures r.Valid() && r.kind == c.kind && r.regs == c.regs
  {
    if reg == TIMER_H then c.(regsLengthCounter := (value * 0x10 + 1) * 8, stopped := false) else c
  }

  /** `setEnable`: the base class only ever stops; the DMC also manages its DMA length. */
  function SetEnable(c: ChannelState, on: bool): (r: ChannelState)
    requires c.Valid()
    ensures r.Valid() && r.kind == c.kind && r.regs == c.regs
  {
    if c.kind == DMC then
      var c1 := c.(stopped := !on);
      if on then (if c.dmaLengthCounter == 0 then c1.(dmaLengthCounter := c.regsLengthCounter) else c1)
      else c1.(dmaLengthCounter := 0)
    else if !on then c.(stopped := true)
    else c
  }

  /** `isPlaying`. */
  predicate IsPlaying(c: ChannelState) { !c.stopped }

  /** The 11-bit timer period of TIMER_L and the low 3 bits of TIMER_H. */
  function Period(c: ChannelState): (r: nat)
    requires c.Valid()
    ensures r < 0x800
  {
    c.regs[TIMER_L] as int + (c.regs[TIMER_H] as int % 8) * 0x100
  }

  /** `getVolume`, as a numerator over 15. */
  function Volume(c: ChannelState): int
    requires c.Valid()
  {
    if c.stopped then 0
    else if c.kind == TRIANGLE then FULL_VOLUME
    else if HasBit(c.regs[STATUS], CONSTANT_VOLUME) then c.regs[STATUS] % 0x10
    else if c.kind == PULSE then c.envelopeCounter
    else FULL_VOLUME
  }

  /** `getFrequency` in Hz, truncated as `| 0` truncates. */
  function Frequency(c: ChannelState): nat
    requires c.Valid()
  {
    match c.kind
    case PULSE => CPU_CLOCK / (16 * (Period(c) + 1))
    case TRIANGLE => CPU_CLOCK / (32 * (Period(c) + 1))
    case NOISE => NOISE_FREQUENCIES[c.regs[TIMER_L] % 0x10]
    case DMC => NOISE_FREQUENCIES[c.regs[TIMER_L] % 0x10]
  }

  /** `getDutyRatio` in eighths. */
  function DutyEighths(c: ChannelState): int
    requires c.Valid()
  {
    if c.kind == PULSE then PULSE_DUTY_EIGHTHS[(c.regs[STATUS] / 0x40) % 4] else DEFAULT_DUTY_EIGHTHS
  }

  /** `update`, once per frame: a playing pulse runs length, envelope and sweep; triangle and noise run their length. */
  function Update(c: ChannelState): (r: ChannelState)
    requires c.Valid()
    ensures r.Valid() && r.kind == c.kind
  {
    if c.stopped then c
    else match c.kind
      case PULSE => PulseSweep(PulseEnvelope(PulseLength(c)))
      case TRIANGLE => TriangleLength(c)
      case NOISE => NoiseLength(c)
      case DMC => c
  }

  /** `PulseChannel.updateLength`: down by 4 to 0 unless halted; stops on a tick that finds it at 0. */
  function PulseLength(c: ChannelState): (r: ChannelState)
    requires c.Valid()
    ensures r.Valid() && r == c.(lengthCounter := r.lengthCounter, stopped := r.stopped)
  {
    if HasBit(c.regs[STATUS], LENGTH_COUNTER_HALT) then c
    else if c.lengthCounter <= 0 then c.(lengthCounter := 0, stopped := true)
    else c.(lengthCounter := if c.lengthCounter - 4 < 0 then 0 else c.lengthCounter - 4)
  }

  /** `PulseChannel.updateEnvelope`. */
  function PulseEnvelope(c: ChannelState): (r: ChannelState)
    requires c.Valid()
    ensures r.Valid()
    ensures r == c.(envelopeDivider := r.envelopeDivider, envelopeCounter := r.envelopeCounter,
                    envelopeReset := r.envelopeReset)
  {
    var v := c.regs[STATUS];
    if HasBit(v, CONSTANT_VOLUME) then c
    else if c.envelopeReset then c.(envelopeReset := false, envelopeCounter := 0x0F, envelopeDivider := v % 0x10)
    else
      var d := c.envelopeDivider - 4;
      if d <= 0 then
        var counter :=
          if c.envelopeCounter > 0 then c.envelopeCounter - 1
          else if HasBit(v, ENVELOPE_LOOP) then 0x0F
          else 0;
        c.(envelopeDivider := d + v % 0x10, envelopeCounter := counter)
      else c.(envelopeDivider := d)
  }

  /**
   * `PulseChannel.sweep`.  The assignment of `sweepCounter` inside the
   * `c <= 0` branch is overwritten right after it, so only `c` remains.
   */
  function PulseSweep(c: ChannelState): (r: ChannelState)
    requires c.Valid()
    ensures r.Valid() && r.kind == c.kind
  {
    var sweep := c.regs[SWEEP];
    if !HasBit(sweep, SWEEP_ENABLE) then c
    else
      var n := c.sweepCounter + 2;
      var count := (sweep / 0x10) % 8;
      if n >= count then
        var shift := sweep % 8;
        var c1 := if shift > 0 then SweepPeriod(c, sweep, shift) else c;
        c1.(sweepCounter := n - count - 2)
      else c.(sweepCounter := n)
  }

  /** The period the sweep unit computes: the period plus or minus itself shifted right. */
  function SweptPeriod(period: nat, sweep: Byte, shift: nat): (r: nat)
    ensures r <= 2 * period
  {
    var add := period / Pow2(shift);
    if !HasBit(sweep, SWEEP_NEGATE) then period + add else period - add
  }

  /** Whether the swept period silences the channel: above 0x7FF going up, below 8 going down. */
  predicate SweepMutes(freq: int, sweep: Byte)
  {
    if !HasBit(sweep, SWEEP_NEGATE) then freq > 0x7FF else freq < 8
  }

  /** The write-back of the sweep: the low 11 bits of the new period go to TIMER_L and TIMER_H. */
  function SweepPeriod(c: ChannelState, sweep: Byte, shift: nat): (r: ChannelState)
    requires c.Valid()
    ensures r.Valid() && r.kind == c.kind
  {
    var freq := SweptPeriod(Period(c), sweep, shift);
    c.(stopped := c.stopped || SweepMutes(freq, sweep),
       regs := c.regs[TIMER_L := freq % 0x100][TIMER_H := (c.regs[TIMER_H] / 8) * 8 + (freq / 0x100) % 8])
  }

  /** `TriangleChannel.updateLength`. */
  function TriangleLength(c: ChannelState): (r: ChannelState)
    requires c.Valid()
    ensures r.Valid() && r == c.(lengthCounter := r.lengthCounter, stopped := r.stopped)
  {
    if HasBit(c.regs[STATUS], LENGTH_COUNTER_HALT_TRI) then c
    else if c.lengthCounter <= 0 then c.(lengthCounter := 0, stopped := true)
    else c.(lengthCounter := if c.lengthCounter - 4 <= 0 then 0 else c.lengthCounter - 4)
  }

  /** `NoiseChannel.updateLength`: at 0 it stops unless bit 7 of TIMER_L is set. */
  function NoiseLength(c: ChannelState): (r: ChannelState)
    requires c.Valid()
    ensures r.Valid() && r == c.(lengthCounter := r.lengthCounter, stopped := r.stopped)
  {
    if HasBit(c.regs[STATUS], LENGTH_COUNTER_HALT) then c
    else if c.lengthCounter <= 0 then
      c.(lengthCounter := 0, stopped := c.stopped || !HasBit(c.regs[TIMER_L], NOISE_LOOP))
    else c.(lengthCounter := if c.lengthCounter - 1 < 0 then 0 else c.lengthCounter - 1)
  }

  /**
   * `DmcChannel.updateLength`, run on every h-blank: counts the DMA length
   * down; when it is exhausted it reloads if looping, else stops and
   * answers whether it calls `triggerIrq`.
   */
  function DmcLength(c: ChannelState): (r: (ChannelState, bool))
    requires c.Valid()
    ensures r.0.Valid() && r.0 == c.(dmaLengthCounter := r.0.dmaLengthCounter, stopped := r.0.stopped)
  {
    if c.stopped then (c, false)
    else if c.dmaLengthCounter <= 0 then
      if !HasBit(c.regs[STATUS], DMC_LOOP) then
        (c.(dmaLengthCounter := 0, stopped := true), HasBit(c.regs[STATUS], DMC_IRQ_ENABLE))
      else (c.(dmaLengthCounter := c.regsLengthCounter), false)
    else (c.(dmaLengthCounter := if c.dmaLengthCounter - 1 < 0 then 0 else c.dmaLengthCounter - 1), false)
  }

  // ---------------------------------------------------------------------
  // The APU

  /**
   * The state of `Apu`.  `frameInterrupt` and `dmcInterrupt` stand for the
   * source's fields, which only ever hold 0 or 0x40 and 0 or 0x80.
   */
  datatype ApuState = ApuState(
    regs: seq<Byte>,
    channels: seq<ChannelState>,
    frameInterrupt: bool,
    dmcInterrupt: bool,
    pad: PadState)
  {
    ghost predicate Valid()
    {
      && |regs| == REG_COUNT
      && |channels| == CHANNEL_COUNT
      && (forall i | 0 <= i < CHANNEL_COUNT :: channels[i].Valid() && channels[i].kind == CHANNEL_TYPES[i])
      && pad.Valid()
    }
  }

  /** `getChannelTypes`. */
  function ChannelTypes(): (r: seq<Kind>)
    ensures |r| == CHANNEL_COUNT && r[DMC_CHANNEL] == DMC
  {
    CHANNEL_TYPES
  }

  /** `reset`: every register 0 but the frame counter, which inhibits the frame IRQ; channels reset. */
  function Reset(a: ApuState): (r: ApuState)
    requires a.Valid()
    ensures r.Valid()
  {
    var a1 := a.(regs := seq(REG_COUNT, _ => 0)[FRAME_COUNTER := IRQ_INHIBIT], frameInterrupt := false, dmcInterrupt := true);
    a1.(channels := ResetAll(a1.channels))
  }

  /** `reset` of every channel. */
  function ResetAll(channels: seq<ChannelState>): (r: seq<ChannelState>)
    requires forall i | 0 <= i < |channels| :: channels[i].Valid()
  {
    seq(|channels|, i requires 0 <= i < |channels| => ChannelReset(channels[i]))
  }

  /** Bit `ch` for each of the first `n` channels that is enabled in the status register and playing. */
  function PlayingBits(a: ApuState, n: nat): (r: nat)
    requires a.Valid() && n <= CHANNEL_COUNT
    ensures r < Pow2(n)
  {
    if n == 0 then 0
    else PlayingBits(a, n - 1)
         + (if Bit(a.regs[STATUS_REG], n - 1) && IsPlaying(a.channels[n - 1]) then Pow2(n - 1) else 0)
  }

  /** The value a read of 0x4015 answers: the DMC and frame interrupts in bits 7 and 6, then the playing bits. */
  function StatusValue(a: ApuState): nat
    requires a.Valid()
  {
    (if a.dmcInterrupt then 0x80 else 0) + (if a.frameInterrupt then 0x40 else 0) + PlayingBits(a, CHANNEL_COUNT)
  }

  /** `read`: the status register, a pad's next bit, or 0. */
  function Read(a: ApuState, adr: int): (r: (int, ApuState))
    requires a.Valid()
    ensures r.1.Valid()
  {
    var reg := adr - BASE;
    if reg == STATUS_REG then (StatusValue(a), a.(frameInterrupt := false))
    else if reg == PAD1_REG || reg == PAD2_REG then
      var (bit, pad) := Shift(a.pad, reg - PAD1_REG);
      (bit, a.(pad := pad))
    else (0, a)
  }

  /** `setEnable` of every channel with bit `ch` of `value`. */
  function EnableAll(channels: seq<ChannelState>, value: Byte): (r: seq<ChannelState>)
    requires forall i | 0 <= i < |channels| :: channels[i].Valid()
  {
    seq(|channels|, i requires 0 <= i < |channels| => SetEnable(channels[i], Bit(value, i)))
  }

  /**
   * `write` of `value` at `adr` (at least 0x4000: below it the source would
   * index the channel table at a negative position).
   */
  function Write(a: ApuState, adr: int, value: Byte): (r: ApuState)
    requires a.Valid() && adr >= BASE
    ensures r.Valid()
  {
    var reg := adr - BASE;
    if reg >= REG_COUNT then a
    else WriteControl(WriteSound(a.(regs := a.regs[reg := value]), reg, value), reg, value)
  }

  /** The sound registers 0x4000-0x4013 pass the write on to channel `reg / 4`, register `reg % 4`. */
  function WriteSound(a: ApuState, reg: int, value: Byte): (r: ApuState)
    requires a.Valid() && 0 <= reg
    ensures r.Valid()
  {
    if reg < SOUND_REG_END then a.(channels := a.channels[reg / 4 := ChannelWrite(a.channels[reg / 4], reg % 4, value)])
    else a
  }

  /** 0x4015 clears the DMC interrupt and enables the channels; 0x4016 with bit 0 clear latches the pads. */
  function WriteControl(a: ApuState, reg: int, value: Byte): (r: ApuState)
    requires a.Valid()
    ensures r.Valid()
  {
    if reg == STATUS_REG then a.(dmcInterrupt := false, channels := EnableAll(a.channels, value))
    else if reg == PAD1_REG && value % 2 == 0 then a.(pad := Latch(a.pad))
    else a
  }

  /** `getVolume(ch)`: 0 unless the channel is enabled in the status register. */
  function ApuVolume(a: ApuState, ch: int): int
    requires a.Valid() && 0 <= ch < CHANNEL_COUNT
  {
    if !Bit(a.regs[STATUS_REG], ch) then 0 else Volume(a.channels[ch])
  }

  /** `isIrqEnabled`: bits 6 and 7 of the frame counter register are both 0. */
  predicate IrqEnabled(a: ApuState)
    requires a.Valid()
  {
    !HasBit(a.regs[FRAME_COUNTER], IRQ_INHIBIT) && !HasBit(a.regs[FRAME_COUNTER], SEQUENCER_MODE)
  }

  /** `update` of every channel. */
  function UpdateAll(channels: seq<ChannelState>): (r: seq<ChannelState>)
    requires forall i | 0 <= i < |channels| :: channels[i].Valid()
  {
    seq(|channels|, i requires 0 <= i < |channels| => Update(channels[i]))
  }

  /** What `onHblank` calls `triggerIrq` for: the DMC running out, and the frame interrupt. */
  datatype IrqCalls = IrqCalls(dmc: bool, frame: bool)

  /**
   * `onHblank(hcount)`: the DMC counts down on every line; on line 241 every
   * channel is updated and, if enabled, the frame interrupt is raised.
   */
  function OnHblank(a: ApuState, hcount: int): (r: (ApuState, IrqCalls))
    requires a.Valid()
    ensures r.0.Valid()
  {
    var (a1, dmcIrq) := DmcHblank(a);
    var (a2, frameIrq) := FrameHblank(a1, hcount);
    (a2, IrqCalls(dmcIrq, frameIrq))
  }

  /** The DMC's part of `onHblank`: its length counter steps; answers whether it raises its IRQ. */
  function DmcHblank(a: ApuState): (r: (ApuState, bool))
    requires a.Valid()
    ensures r.0.Valid()
  {
    var (dmc, irq) := DmcLength(a.channels[DMC_CHANNEL]);
    (a.(channels := a.channels[DMC_CHANNEL := dmc]), irq)
  }

  /** The frame part of `onHblank`: on line 241 every channel updates and, if enabled, the frame IRQ is raised. */
  function FrameHblank(a: ApuState, hcount: int): (r: (ApuState, bool))
    requires a.Valid()
    ensures r.0.Valid()
  {
    if hcount == VBLANK_START then
      var a1 := a.(channels := UpdateAll(a.channels));
      if IrqEnabled(a1) then (a1.(frameInterrupt := true), true) else (a1, false)
    else (a, false)
  }

  /** `save`, without its Base64 encoding: the register file. */
  function Save(a: ApuState): seq<Byte>
    requires a.Valid()
  {
    a.regs
  }

  /** `load` after the first `n` bytes of `data`: each was written to 0x4000 + its index. */
  function LoadPrefix(a: ApuState, data: seq<Byte>, n: nat): (r: ApuState)
    requires a.Valid() && n <= |data|
    ensures r.Valid()
  {
    if n == 0 then a else Write(LoadPrefix(a, data, n - 1), BASE + n - 1, data[n - 1])
  }

  /** `load`, without its Base64 decoding. */
  function Load(a: ApuState, data: seq<Byte>): (r: ApuState)
    requires a.Valid()
    ensures r.Valid()
  {
    LoadPrefix(a, data, |data|)
  }
}
