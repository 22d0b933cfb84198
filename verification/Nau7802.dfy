/**
 The NAU7802 bridge converter: a driver that reads, changes and writes back device
 registers over a bus on which any transfer may fail, and the tare and scale factor it
 holds for the readings. A failed write leaves the register as it was.
 */
module Nau7802 {
  import opened Options
  import opened Statistics
  import opened LoadCell

  datatype Reg = PuCtrl | Ctrl1 | Ctrl2 | AdcCtrl | Pga | PowerCtrl

  datatype Regs = Regs(pu: bv8, ctrl1: bv8, ctrl2: bv8, adc: bv8, pga: bv8, power: bv8)
  {
    function Get(r: Reg): bv8 {
      match r
      case PuCtrl => pu
      case Ctrl1 => ctrl1
      case Ctrl2 => ctrl2
      case AdcCtrl => adc
      case Pga => pga
      case PowerCtrl => power
    }

    function With(r: Reg, v: bv8): Regs {
      match r
      case PuCtrl => this.(pu := v)
      case Ctrl1 => this.(ctrl1 := v)
      case Ctrl2 => this.(ctrl2 := v)
      case AdcCtrl => this.(adc := v)
      case Pga => this.(pga := v)
      case PowerCtrl => this.(power := v)
    }
  }

  const ResetRegs := Regs(0, 0, 0, 0, 0, 0)

  const PU_CTRL_RR: bv8 := 0x01
  const PU_CTRL_PUD: bv8 := 0x02
  const PU_CTRL_PUA: bv8 := 0x04
  const PU_CTRL_PUR: bv8 := 0x08
  const PU_CTRL_CS: bv8 := 0x10
  const PU_CTRL_CR: bv8 := 0x20
  const PU_CTRL_OSCS: bv8 := 0x40
  const PU_CTRL_AVDDS: bv8 := 0x80
  const CTRL1_GAINS_MASK: bv8 := 0x07
  const CTRL1_VLDO_MASK: bv8 := 0x38
  const CTRL2_CALMOD_MASK: bv8 := 0x03
  const CTRL2_CALS: bv8 := 0x04
  const CTRL2_CAL_ERR: bv8 := 0x08
  const CTRL2_CRS_MASK: bv8 := 0x70
  const CTRL2_CHS: bv8 := 0x80
  const PGA_LDOMODE: bv8 := 0x40
  const POWER_PGA_CAP_EN: bv8 := 0x80
  const ADC_CTRL_POWER_ON: bv8 := 0x30

  const STALE_CONVERSIONS := 1
  const SETTLING_CONVERSIONS := 3

  /** Everything the analog path depends on and the setters change, as the registers have it. */
  datatype Setting = Setting(gain: bv8, rate: bv8, channel: bv8, ldomode: bv8, pgaCap: bv8)

  function SettingOf(r: Regs): Setting {
    Setting(r.ctrl1 & CTRL1_GAINS_MASK, r.ctrl2 & CTRL2_CRS_MASK, r.ctrl2 & CTRL2_CHS,
            r.pga & PGA_LDOMODE, r.power & POWER_PGA_CAP_EN)
  }

  /** The configured bits: not the device's own status, the calibration it is asked to run,
      or whether conversions have been started. */
  function StablePu(v: bv8): bv8 {
    v & (PU_CTRL_RR | PU_CTRL_PUD | PU_CTRL_PUA | PU_CTRL_OSCS | PU_CTRL_AVDDS)
  }

  function StableCtrl2(v: bv8): bv8 {
    v & (CTRL2_CRS_MASK | CTRL2_CHS)
  }

  /** Every configured bit is the same. */
  predicate Kept(a: Regs, b: Regs) {
    && StablePu(a.pu) == StablePu(b.pu) && StableCtrl2(a.ctrl2) == StableCtrl2(b.ctrl2)
    && a.ctrl1 == b.ctrl1 && a.adc == b.adc && a.pga == b.pga && a.power == b.power
  }

  // ---------------------------------------------------------------- what went over the bus

  datatype Status = Ok | InvalidArg | InvalidState | BusError | Timeout | CalFailed | TooFew | Noise

  type Byte = b: int | 0 <= b < 0x100

  /** One transfer: a register read or written, the three result bytes of a conversion in the
      order they come, or a transfer that did not work. */
  datatype Transfer =
    | Read(reg: Reg, value: bv8)
    | Write(reg: Reg, value: bv8)
    | Conversion(b2: Byte, b1: Byte, b0: Byte)
    | Revision
    | Failed

  /** The highest byte's top bit is the sign. */
  function Signed(b2: Byte, b1: Byte, b0: Byte): int {
    (if b2 >= 0x80 then b2 - 0x100 else b2) * 0x1_0000 + b1 * 0x100 + b0
  }

  /** A conversion is the one signed 24-bit number that agrees with its three bytes. */
  lemma SignedExactly(b2: Byte, b1: Byte, b0: Byte, v: int)
    ensures v == Signed(b2, b1, b0) <==>
            -0x80_0000 <= v < 0x80_0000 && (v - (b2 * 0x1_0000 + b1 * 0x100 + b0)) % 0x100_0000 == 0
  {
    var bytes := b2 * 0x1_0000 + b1 * 0x100 + b0;
    assert Signed(b2, b1, b0) == if b2 >= 0x80 then bytes - 0x100_0000 else bytes;
  }

  predicate SeenReady(t: Transfer) {
    t.Read? && t.reg == PuCtrl && t.value & PU_CTRL_CR != 0
  }

  /** The conversions heard. The part repeats the previous one when it is read before it has
      said that it is ready, so only those read after that are new. */
  function Results(bus: seq<Transfer>): seq<int> {
    if bus == [] then []
    else
      var n := |bus| - 1;
      Results(bus[..n]) + match bus[n] {
        case Conversion(b2, b1, b0) => if n > 0 && SeenReady(bus[n - 1]) then [Signed(b2, b1, b0)] else []
        case _ => []
      }
  }

  predicate Bit(value: bv8, mask: bv8) {
    value & mask != 0
  }

  /** A register seen with a bit of it set, or seen with it clear. */
  predicate Shows(t: Transfer, r: Reg, mask: bv8, set_: bool) {
    t.Read? && t.reg == r && Bit(t.value, mask) == set_
  }

  /** A bit was waited for: every read but the last found it otherwise, and the last says how
      the wait ended. */
  predicate Polled(st: Status, part: seq<Transfer>, r: Reg, mask: bv8, wanted: bool, timeout: nat) {
    && part != [] && (forall i :: 0 <= i < |part| - 1 ==> Shows(part[i], r, mask, !wanted))
    && var last := part[|part| - 1];
    match st
    case Ok => Shows(last, r, mask, wanted)
    case Timeout => Shows(last, r, mask, !wanted) && |part| == timeout / 10 + 1
    case BusError => last == Failed
    case _ => false
  }

  /** One new conversion, and nothing but reads before it. */
  predicate OneConversion(part: seq<Transfer>, v: int) {
    && |part| >= 2 && (forall i :: 0 <= i < |part| - 1 ==> part[i].Read?) && SeenReady(part[|part| - 2])
    && var last := part[|part| - 1];
    last.Conversion? && v == Signed(last.b2, last.b1, last.b0)
  }

  lemma ResultsSkip(bus: seq<Transfer>, t: Transfer)
    requires !t.Conversion?
    ensures Results(bus + [t]) == Results(bus)
  {
    assert (bus + [t])[..|bus|] == bus;
  }

  lemma {:induction false} ResultsSkipReads(bus: seq<Transfer>, part: seq<Transfer>)
    requires forall i :: 0 <= i < |part| ==> part[i].Read?
    ensures Results(bus + part) == Results(bus)
  {
    if part == [] {
      assert bus + part == bus;
    } else {
      var n := |part| - 1;
      ResultsSkipReads(bus, part[..n]);
      ResultsSkip(bus + part[..n], part[n]);
      assert bus + part == bus + part[..n] + [part[n]];
    }
  }

  lemma ResultsTake(bus: seq<Transfer>, t: Transfer)
    requires bus != [] && SeenReady(bus[|bus| - 1]) && t.Conversion?
    ensures Results(bus + [t]) == Results(bus) + [Signed(t.b2, t.b1, t.b0)]
  {
    assert (bus + [t])[..|bus|] == bus;
  }

  lemma OneMoreResult(bus: seq<Transfer>, part: seq<Transfer>, v: int)
    requires OneConversion(part, v)
    ensures Results(bus + part) == Results(bus) + [v]
  {
    var n := |part| - 1;
    ResultsSkipReads(bus, part[..n]);
    ResultsTake(bus + part[..n], part[n]);
    assert bus + part == bus + part[..n] + [part[n]];
  }

  lemma BatchStep(bus: seq<Transfer>, conversions: seq<Option<int>>, part: seq<Transfer>, v: int)
    requires Results(bus) == Values(conversions) && OneConversion(part, v)
    ensures Results(bus + part) == Values(conversions + [Some(v)])
  {
    OneMoreResult(bus, part, v);
    assert Values(conversions + [Some(v)]) == Values(conversions) + [v];
  }

  /** A calibration asked for, every other bit of the register left as it was found and an old
      error not, then run to its end. */
  predicate Calibrating(part: seq<Transfer>) {
    && |part| >= 3 && part[0].Read? && part[0].reg == Ctrl2 && part[1].Write? && part[1].reg == Ctrl2
    && var asked := part[1].value;
    && asked & (CTRL2_CALMOD_MASK | CTRL2_CALS | CTRL2_CAL_ERR) == CTRL2_CALS
    && asked & (CTRL2_CRS_MASK | CTRL2_CHS) == part[0].value & (CTRL2_CRS_MASK | CTRL2_CHS)
    && Polled(Ok, part[2..], Ctrl2, CTRL2_CALS, false, 2000)
  }

  /** A calibration whose verdict, if it could be read, is not an error. */
  predicate Calibrates(part: seq<Transfer>) {
    && part != []
    && Calibrating(part[..|part| - 1])
    && var verdict := part[|part| - 1];
    verdict == Failed || Shows(verdict, Ctrl2, CTRL2_CAL_ERR, false)
  }

  lemma CalibrationIs(asked: seq<Transfer>, polls: seq<Transfer>, verdict: Transfer)
    requires Changes(asked, Ctrl2, CTRL2_CALMOD_MASK | CTRL2_CALS | CTRL2_CAL_ERR, CTRL2_CALS)
    requires Polled(Ok, polls, Ctrl2, CTRL2_CALS, false, 2000)
    requires verdict == Failed || Shows(verdict, Ctrl2, CTRL2_CAL_ERR, false)
    ensures Calibrates(asked + (polls + [verdict]))
  {
    var part := asked + (polls + [verdict]);
    assert part[..|part| - 1] == asked + polls && (asked + polls)[2..] == polls;
    AskedBits(asked[0].value);
    assert Calibrating(asked + polls);
  }

  lemma AskedBits(was: bv8)
    ensures var asked := (was & !(CTRL2_CALMOD_MASK | CTRL2_CALS | CTRL2_CAL_ERR)) | CTRL2_CALS;
            && asked & (CTRL2_CALMOD_MASK | CTRL2_CALS | CTRL2_CAL_ERR) == CTRL2_CALS
            && asked & (CTRL2_CRS_MASK | CTRL2_CHS) == was & (CTRL2_CRS_MASK | CTRL2_CHS)
  {
  }

  /** Conversions were seen running, or were started. */
  ghost predicate Starts(part: seq<Transfer>) {
    exists was: bv8 ::
      || (part == [Read(PuCtrl, was)] && Bit(was, PU_CTRL_CS))
      || part == [Read(PuCtrl, was), Write(PuCtrl, was | PU_CTRL_CS)]
  }

  ghost predicate PaidBy(part: seq<Transfer>, count: nat, calibration: seq<Transfer>, start: seq<Transfer>,
                         settling: seq<Transfer>) {
    && part == calibration + start + settling
    && Calibrates(calibration) && Starts(start) && |Results(settling)| == count
  }

  /** What a change to the analog path costs: a calibration without error, conversions
      running, and `count` new ones thrown away. */
  ghost predicate Paid(part: seq<Transfer>, count: nat) {
    exists calibration, start, settling :: PaidBy(part, count, calibration, start, settling)
  }

  /** A register read and written back. */
  predicate Changes(part: seq<Transfer>, r: Reg, clear: bv8, set_: bv8) {
    && |part| == 2 && part[0].Read? && part[0].reg == r
    && part[1] == Write(r, (part[0].value & !clear) | set_)
  }

  /** Reset raised and dropped, the digital section up, and the part seen to be ready. */
  predicate Wakes(part: seq<Transfer>) {
    && |part| >= 4 && part[..3] == [Write(PuCtrl, PU_CTRL_RR), Write(PuCtrl, 0), Write(PuCtrl, PU_CTRL_PUD)]
    && Polled(Ok, part[3..], PuCtrl, PU_CTRL_PUR, true, 1000)
  }

  /** The part answers and wakes, then is configured. */
  predicate PowersBy(part: seq<Transfer>, wake: seq<Transfer>, configure: seq<Transfer>) {
    part == [Revision] + wake + configure && Wakes(wake)
  }

  /** Up to the analog section. */
  ghost predicate Powers(part: seq<Transfer>) {
    exists wake, configure :: PowersBy(part, wake, configure)
  }

  /** The whole of a bring-up: the chopper is set last, and the first conversions are paid
      for. */
  ghost predicate BringsUpBy(part: seq<Transfer>, up: seq<Transfer>, cost: seq<Transfer>) {
    part == up + ([Write(AdcCtrl, ADC_CTRL_POWER_ON)] + cost) && Powers(up) && Paid(cost, 3)
  }

  ghost predicate BringsUp(part: seq<Transfer>) {
    exists up, cost :: BringsUpBy(part, up, cost)
  }

  lemma StartIs(part: seq<Transfer>)
    requires Changes(part, PuCtrl, 0, PU_CTRL_CS)
    ensures Starts(part)
  {
    var was := part[0].value;
    assert part == [Read(PuCtrl, was), Write(PuCtrl, was | PU_CTRL_CS)];
  }

  /** An error is that of the last transfer. */
  predicate Explains(t: Transfer, st: Status) {
    match st
    case BusError => t.Failed?
    case Timeout => t.Read? && (t.reg == PuCtrl || t.reg == Ctrl2)
    case CalFailed => t.Read? && t.reg == Ctrl2 && Bit(t.value, CTRL2_CAL_ERR)
    case _ => true
  }

  // ---------------------------------------------------------------- registers

  /** What a write does: a set reset bit returns every register to its default. */
  function Written(r: Regs, reg: Reg, v: bv8): Regs {
    if reg == PuCtrl && v & PU_CTRL_RR != 0 then ResetRegs.With(PuCtrl, v) else r.With(reg, v)
  }

  function Ldo(r: Regs): bv8 {
    r.ctrl1 & CTRL1_VLDO_MASK
  }

  predicate LdoOn(r: Regs) {
    r.pu & PU_CTRL_AVDDS != 0
  }

  lemma StableBits(v: bv8)
    ensures StablePu(v) & PU_CTRL_RR == v & PU_CTRL_RR && StablePu(v) & PU_CTRL_AVDDS == v & PU_CTRL_AVDDS
    ensures StableCtrl2(v) & CTRL2_CRS_MASK == v & CTRL2_CRS_MASK && StableCtrl2(v) & CTRL2_CHS == v & CTRL2_CHS
  {
  }

  lemma KeptThrough(a: Regs, b: Regs, c: Regs)
    requires Kept(a, b) && Kept(b, c)
    ensures Kept(a, c)
  {
  }

  lemma KeptFacts(a: Regs, b: Regs)
    requires Kept(a, b)
    ensures SettingOf(a) == SettingOf(b) && Ldo(a) == Ldo(b) && LdoOn(a) == LdoOn(b)
    ensures a.pu & PU_CTRL_RR == b.pu & PU_CTRL_RR
  {
    StableBits(a.pu);
    StableBits(b.pu);
    StableBits(a.ctrl2);
    StableBits(b.ctrl2);
  }

  lemma ChopperKept(a: Regs, b: Regs)
    requires Kept(a.With(AdcCtrl, b.adc), b)
    ensures SettingOf(a) == SettingOf(b) && Ldo(a) == Ldo(b) && LdoOn(a) == LdoOn(b)
    ensures a.pu & PU_CTRL_RR == b.pu & PU_CTRL_RR
  {
    KeptFacts(a.With(AdcCtrl, b.adc), b);
  }

  function Updated(v: bv8, clear: bv8, set_: bv8): bv8 {
    (v & !clear) | set_
  }

  lemma MaskedUpdate(x: bv8, y: bv8, clear: bv8, set_: bv8)
    ensures StablePu(x) == StablePu(y) ==> StablePu(Updated(x, clear, set_)) == StablePu(Updated(y, clear, set_))
    ensures StableCtrl2(x) == StableCtrl2(y) ==>
              StableCtrl2(Updated(x, clear, set_)) == StableCtrl2(Updated(y, clear, set_))
  {
  }

  lemma NoReset(v: bv8, clear: bv8, set_: bv8)
    requires v & PU_CTRL_RR == 0 && set_ & PU_CTRL_RR == 0
    ensures Updated(v, clear, set_) & PU_CTRL_RR == 0
  {
  }

  lemma UpdateKeeps(a: Regs, b: Regs, r: Reg, clear: bv8, set_: bv8)
    requires Kept(a, b)
    ensures Kept(a.With(r, Updated(a.Get(r), clear, set_)), b.With(r, Updated(b.Get(r), clear, set_)))
  {
    match r
    case PuCtrl => MaskedUpdate(a.pu, b.pu, clear, set_);
    case Ctrl2 => MaskedUpdate(a.ctrl2, b.ctrl2, clear, set_);
    case _ =>
  }

  lemma WithKeeps(a: Regs, b: Regs, r: Reg, v: bv8)
    requires Kept(a, b)
    ensures Kept(a.With(r, v), b.With(r, v))
  {
    match r
    case PuCtrl =>
    case Ctrl1 =>
    case Ctrl2 =>
    case AdcCtrl =>
    case Pga =>
    case PowerCtrl =>
  }

  lemma WriteKeeps(a: Regs, b: Regs, r: Reg, v: bv8)
    requires Kept(a, b)
    ensures Kept(Written(a, r, v), Written(b, r, v))
  {
    if r == PuCtrl && v & PU_CTRL_RR != 0 {
      assert Written(a, r, v) == Written(b, r, v);
    } else {
      WithKeeps(a, b, r, v);
    }
  }

  lemma CalibrationBits(r: Regs)
    ensures Kept(r, r.With(Ctrl2, Updated(r.ctrl2, CTRL2_CALMOD_MASK | CTRL2_CALS | CTRL2_CAL_ERR, CTRL2_CALS)))
  {
  }

  lemma StartBit(r: Regs)
    requires r.pu & PU_CTRL_RR == 0
    ensures Kept(r, Written(r, PuCtrl, r.pu | PU_CTRL_CS))
  {
    assert (r.pu | PU_CTRL_CS) & PU_CTRL_RR == 0;
    assert StablePu(r.pu | PU_CTRL_CS) == StablePu(r.pu);
  }

  lemma GainField(r: Regs, gain: bv8)
    requires gain < 8
    ensures var next := r.With(Ctrl1, Updated(r.ctrl1, CTRL1_GAINS_MASK, gain));
            SettingOf(next) == SettingOf(r).(gain := gain) && Ldo(next) == Ldo(r)
  {
  }

  lemma RateField(r: Regs, rate: bv8)
    requires rate < 8
    ensures var next := r.With(Ctrl2, Updated(r.ctrl2, CTRL2_CRS_MASK, rate << 4));
            SettingOf(next) == SettingOf(r).(rate := rate << 4)
  {
  }

  lemma ChannelField(r: Regs, bit: bv8)
    requires bit == 0 || bit == CTRL2_CHS
    ensures SettingOf(r.With(Ctrl2, Updated(r.ctrl2, CTRL2_CHS, bit))) == SettingOf(r).(channel := bit)
  {
  }

  lemma LdomodeField(r: Regs, bit: bv8)
    requires bit == 0 || bit == PGA_LDOMODE
    ensures SettingOf(r.With(Pga, Updated(r.pga, PGA_LDOMODE, bit))) == SettingOf(r).(ldomode := bit)
  {
  }

  lemma PgaCapField(r: Regs, bit: bv8)
    requires bit == 0 || bit == POWER_PGA_CAP_EN
    ensures SettingOf(r.With(PowerCtrl, Updated(r.power, POWER_PGA_CAP_EN, bit))) == SettingOf(r).(pgaCap := bit)
  {
  }

  lemma Reached(before: Regs, after: Regs, r: Reg, clear: bv8, set_: bv8)
    ensures var next := before.With(r, Updated(before.Get(r), clear, set_));
            Kept(next, after) ==> SettingOf(after) == SettingOf(next) && Ldo(after) == Ldo(next)
    ensures Kept(before, after) ==> SettingOf(after) == SettingOf(before) && Ldo(after) == Ldo(before)
  {
    var next := before.With(r, Updated(before.Get(r), clear, set_));
    if Kept(next, after) {
      KeptFacts(next, after);
    }
    if Kept(before, after) {
      KeptFacts(before, after);
    }
  }

  lemma StartFacts(r: Regs)
    ensures Kept(r, r.With(PuCtrl, Updated(r.pu, 0, PU_CTRL_CS))) && PU_CTRL_CS & PU_CTRL_RR == 0
  {
    assert StablePu(Updated(r.pu, 0, PU_CTRL_CS)) == StablePu(r.pu);
  }

  /** Fresh from reset with only the digital section up, except for CTRL1. */
  function Woken(ctrl1: bv8): Regs {
    ResetRegs.(pu := PU_CTRL_PUD, ctrl1 := ctrl1)
  }

  datatype Opts = Opts(internalLdo: bool, ldo: bv8, gain: Option<bv8>, scale: Option<real>)
  {
    /** The voltage and the gain are among their eight encodings. */
    predicate Encoded() {
      ldo < 8 && (gain.Some? ==> gain.value < 8)
    }

    /** The gain asked for, everything else at its reset value. */
    function Voltage(): bv8 {
      if internalLdo then ldo << 3 else 0
    }

    /** The registers as configured, the analog section still off. */
    function Configured(): Regs {
      Woken(if gain.Some? then Updated(Voltage(), CTRL1_GAINS_MASK, gain.value) else Voltage())
    }

    function BroughtUp(): Setting {
      Setting(if gain.Some? then gain.value else 0, 0, 0, 0, 0)
    }
  }

  lemma WakeFacts()
    ensures PU_CTRL_RR & PU_CTRL_RR != 0 && PU_CTRL_RR & PU_CTRL_AVDDS == 0
    ensures PU_CTRL_PUD & PU_CTRL_RR == 0 && PU_CTRL_PUD & PU_CTRL_AVDDS == 0
    ensures (0 as bv8) & PU_CTRL_RR == 0 && (0 as bv8) & PU_CTRL_AVDDS == 0
  {
  }

  lemma Ctrl1Parts(opts: Opts)
    requires opts.Encoded()
    ensures opts.internalLdo ==> Updated(0, CTRL1_VLDO_MASK, opts.ldo << 3) == opts.Voltage()
    ensures PU_CTRL_PUD & PU_CTRL_AVDDS == 0
  {
  }

  lemma ConfiguredFacts(opts: Opts)
    requires opts.Encoded()
    ensures SettingOf(opts.Configured()) == opts.BroughtUp() && !LdoOn(opts.Configured())
    ensures opts.internalLdo ==> Ldo(opts.Configured()) == opts.ldo << 3
  {
  }

  predicate Weighed(units: Option<real>, s: Scale, stats: Stats) {
    units == if s.countsPerUnit == 0.0 then None else Some((stats.mean - s.tareCounts) / s.countsPerUnit)
  }

  class Driver {
    var regs: Regs
    var ready: bool
    var scale: Scale
    /** The settings the tare and the measured factor were captured at. */
    ghost var tareAt: Setting
    ghost var factorAt: Setting
    /** The voltage codes at which the internal regulator has been on. */
    ghost var driven: set<bv8>
    /** Every transfer so far. */
    ghost var bus: seq<Transfer>

    /** No tare and no measured factor outlives the setting it was captured at. */
    ghost predicate Valid()
      reads this
    {
      && (LdoOn(regs) ==> Ldo(regs) in driven)
      && (ready ==>
        && regs.pu & PU_CTRL_RR == 0
        && (scale.tareSamples > 0 ==> tareAt == SettingOf(regs))
        && (scale.calibrated && !scale.supplied ==> factorAt == SettingOf(regs)))
    }

    constructor (regs: Regs)
      ensures Valid() && !ready && scale == NoScale && this.regs == regs
    {
      this.regs := regs;
      ready := false;
      scale := NoScale;
      tareAt, factorAt, driven, bus := SettingOf(regs), SettingOf(regs), {Ldo(regs)}, [];
    }

    /** What was heard since: `xs`, each a new conversion. */
    twostate predicate Heard(xs: seq<int>)
      reads this`bus
    {
      exists part :: bus == old(bus) + part && Results(part) == xs
    }

    /** The batch asked for was heard, and these are its figures. */
    twostate predicate Measured(samples: int, stats: Stats, xs: seq<int>)
      reads this`bus
    {
      |xs| == samples && StatsOf(stats, xs) && Heard(xs)
    }

    /** An error comes with a transfer that explains it. */
    twostate predicate Explained(st: Status)
      reads this`bus
    {
      st in {BusError, Timeout, CalFailed} ==> bus != [] && Explains(bus[|bus| - 1], st)
    }

    // -------------------------------------------------------------- transport

    /** The device's own bits may change before any transfer. */
    method Drift()
      modifies this`regs
      ensures Kept(old(regs), regs)
    {
      var pu: bv8, ctrl2: bv8 := *, *;
      if StablePu(pu) == StablePu(regs.pu) && StableCtrl2(ctrl2) == StableCtrl2(regs.ctrl2) {
        regs := regs.(pu := pu, ctrl2 := ctrl2);
      }
    }

    method ReadReg(r: Reg) returns (v: Option<bv8>)
      modifies this`regs, this`bus
      ensures Kept(old(regs), regs)
      ensures v.Some? ==> v.value == regs.Get(r)
      ensures bus == old(bus) + [if v.Some? then Read(r, v.value) else Failed]
    {
      Drift();
      var works: bool := *;
      v := if works then Some(regs.Get(r)) else None;
      bus := bus + [if works then Read(r, regs.Get(r)) else Failed];
    }

    method WriteReg(r: Reg, v: bv8) returns (ok: bool)
      modifies this`regs, this`driven, this`bus
      ensures Kept(if ok then Written(old(regs), r, v) else old(regs), regs)
      ensures bus == old(bus) + [if ok then Write(r, v) else Failed]
      ensures driven == old(driven) + if ok && LdoOn(regs) then {Ldo(regs)} else {}
    {
      Drift();
      WriteKeeps(old(regs), regs, r, v);
      ok := *;
      bus := bus + [if ok then Write(r, v) else Failed];
      if ok {
        regs := Written(regs, r, v);
        driven := driven + if LdoOn(regs) then {Ldo(regs)} else {};
      }
    }

    method UpdateReg(r: Reg, clear: bv8, set_: bv8) returns (ok: bool, ghost part: seq<Transfer>)
      requires r == PuCtrl ==> regs.pu & PU_CTRL_RR == 0 && set_ & PU_CTRL_RR == 0
      modifies this`regs, this`driven, this`bus
      ensures bus == old(bus) + part
      ensures if ok then Changes(part, r, clear, set_) else part != [] && part[|part| - 1] == Failed
      ensures Kept(if ok then old(regs).With(r, Updated(old(regs).Get(r), clear, set_)) else old(regs), regs)
      ensures driven == old(driven) + if ok && LdoOn(regs) then {Ldo(regs)} else {}
    {
      var v := ReadReg(r);
      part := [if v.Some? then Read(r, v.value) else Failed];
      if v.None? {
        return false, part;
      }
      ghost var before := regs;
      KeptFacts(old(regs), before);
      UpdateKeeps(old(regs), before, r, clear, set_);
      if r == PuCtrl {
        NoReset(v.value, clear, set_);
      }
      ok := WriteReg(r, Updated(v.value, clear, set_));
      part := part + [if ok then Write(r, Updated(v.value, clear, set_)) else Failed];
    }

    /** Polls a status bit every ten milliseconds until it has the wanted value. */
    method WaitForBit(r: Reg, mask: bv8, wanted: bool, timeout: nat) returns (st: Status, ghost part: seq<Transfer>)
      modifies this`regs, this`bus
      ensures Kept(old(regs), regs) && st in {Ok, BusError, Timeout}
      ensures bus == old(bus) + part && Polled(st, part, r, mask, wanted, timeout)
    {
      part := [];
      var waited := 0;
      while waited <= timeout
        invariant Kept(old(regs), regs) && bus == old(bus) + part
        invariant waited == 10 * |part| && (part != [] ==> 10 * (|part| - 1) <= timeout)
        invariant forall i :: 0 <= i < |part| ==> Shows(part[i], r, mask, !wanted)
        decreases timeout + 10 - waited
      {
        ghost var before := regs;
        var v := ReadReg(r);
        KeptThrough(old(regs), before, regs);
        part := part + [if v.Some? then Read(r, v.value) else Failed];
        if v.None? {
          return BusError, part;
        }
        if Bit(v.value, mask) == wanted {
          return Ok, part;
        }
        waited := waited + 10;
      }
      return Timeout, part;
    }

    // -------------------------------------------------------------- the analog path

    method RunCalibration() returns (st: Status, ghost part: seq<Transfer>)
      requires LdoOn(regs) ==> Ldo(regs) in driven
      modifies this`regs, this`driven, this`bus
      ensures Kept(old(regs), regs) && driven == old(driven) && st in {Ok, BusError, Timeout, CalFailed}
      ensures st == Ok ==> bus == old(bus) + part && Calibrates(part)
      ensures Explained(st)
    {
      CalibrationBits(regs);
      KeptFacts(regs, regs.With(Ctrl2, Updated(regs.ctrl2, CTRL2_CALMOD_MASK | CTRL2_CALS | CTRL2_CAL_ERR,
                                               CTRL2_CALS)));
      var ok;
      ok, part := UpdateReg(Ctrl2, CTRL2_CALMOD_MASK | CTRL2_CALS | CTRL2_CAL_ERR, CTRL2_CALS);
      KeptFacts(old(regs), regs);
      if !ok {
        return BusError, part;
      }
      ghost var rest;
      st, rest := FinishCalibration(part);
      part := part + rest;
    }

    /** The device clears the request when it is done. */
    method FinishCalibration(ghost asked: seq<Transfer>) returns (st: Status, ghost rest: seq<Transfer>)
      requires Changes(asked, Ctrl2, CTRL2_CALMOD_MASK | CTRL2_CALS | CTRL2_CAL_ERR, CTRL2_CALS)
      modifies this`regs, this`bus
      ensures Kept(old(regs), regs) && st in {Ok, BusError, Timeout, CalFailed} && Explained(st)
      ensures st == Ok ==> bus == old(bus) + rest && Calibrates(asked + rest)
    {
      st, rest := WaitForBit(Ctrl2, CTRL2_CALS, false, 2000);
      if st != Ok {
        return st, rest;
      }
      var ctrl2 := ReadReg(Ctrl2);
      ghost var polls, verdict := rest, if ctrl2.Some? then Read(Ctrl2, ctrl2.value) else Failed;
      rest := polls + [verdict];
      if ctrl2.Some? && ctrl2.value & CTRL2_CAL_ERR != 0 {
        return CalFailed, rest;
      }
      CalibrationIs(asked, polls, verdict);
      return Ok, rest;
    }

    /** The start bit is set in what was read. */
    method SetStartBit(pu: bv8) returns (ok: bool)
      requires (LdoOn(regs) ==> Ldo(regs) in driven) && regs.pu & PU_CTRL_RR == 0 && pu == regs.pu
      modifies this`regs, this`driven, this`bus
      ensures Kept(old(regs), regs) && driven == old(driven)
      ensures bus == old(bus) + [if ok then Write(PuCtrl, pu | PU_CTRL_CS) else Failed]
    {
      StartBit(regs);
      KeptFacts(regs, Written(regs, PuCtrl, pu | PU_CTRL_CS));
      ok := WriteReg(PuCtrl, pu | PU_CTRL_CS);
    }

    /** Conversions are started when they are not running. */
    method RestartConversions() returns (st: Status, ghost part: seq<Transfer>)
      requires (LdoOn(regs) ==> Ldo(regs) in driven) && regs.pu & PU_CTRL_RR == 0
      modifies this`regs, this`driven, this`bus
      ensures Kept(old(regs), regs) && driven == old(driven) && st in {Ok, BusError}
      ensures bus == old(bus) + part && (st == Ok ==> Starts(part)) && Explained(st)
    {
      var pu := ReadReg(PuCtrl);
      part := [if pu.Some? then Read(PuCtrl, pu.value) else Failed];
      if pu.None? {
        return BusError, part;
      }
      KeptFacts(old(regs), regs);
      if pu.value & PU_CTRL_CS == 0 {
        var ok := SetStartBit(pu.value);
        part := part + [if ok then Write(PuCtrl, pu.value | PU_CTRL_CS) else Failed];
        if !ok {
          return BusError, part;
        }
      }
      return Ok, part;
    }

    /** The three result bytes, highest first. */
    method ReadResult() returns (raw: Option<(Byte, Byte, Byte)>)
      modifies this`regs, this`bus
      ensures Kept(old(regs), regs)
      ensures bus == old(bus) + [if raw.Some? then Conversion(raw.value.0, raw.value.1, raw.value.2) else Failed]
    {
      Drift();
      var works: bool, b2: Byte, b1: Byte, b0: Byte := *, *, *, *;
      raw := if works then Some((b2, b1, b0)) else None;
      bus := bus + [if works then Conversion(b2, b1, b0) else Failed];
    }

    /** One new conversion, as a signed 24-bit number. */
    method ReadRaw() returns (st: Status, v: int, ghost part: seq<Transfer>)
      modifies this`regs, this`bus
      ensures Kept(old(regs), regs) && st in {Ok, BusError, Timeout} && Explained(st)
      ensures st == Ok ==> bus == old(bus) + part && OneConversion(part, v) && -0x80_0000 <= v < 0x80_0000
    {
      v := 0;
      st, part := WaitForBit(PuCtrl, PU_CTRL_CR, true, 1000);
      if st != Ok {
        return st, v, part;
      }
      var raw := ReadResult();
      if raw.None? {
        return BusError, v, part;
      }
      var b2: int, b1: int, b0: int := raw.value.0, raw.value.1, raw.value.2;
      var value := b2 * 0x1_0000 + b1 * 0x100 + b0;
      v := if value >= 0x80_0000 then value - 0x100_0000 else value;
      part := part + [Conversion(raw.value.0, raw.value.1, raw.value.2)];
      SignedExactly(raw.value.0, raw.value.1, raw.value.2, v);
      return Ok, v, part;
    }

    method DiscardConversions(count: nat) returns (st: Status, ghost part: seq<Transfer>)
      modifies this`regs, this`bus
      ensures Kept(old(regs), regs) && st in {Ok, BusError, Timeout} && Explained(st)
      ensures st == Ok ==> bus == old(bus) + part && |Results(part)| == count
    {
      part := [];
      for i := 0 to count
        invariant Kept(old(regs), regs) && bus == old(bus) + part && |Results(part)| == i
      {
        var v;
        ghost var one;
        st, v, one := ReadRaw();
        if st != Ok {
          return st, part;
        }
        OneMoreResult(part, one, v);
        part := part + one;
      }
      return Ok, part;
    }

    /** What every change to the analog path costs; the scale goes first, whatever follows. */
    method ApplyAnalogChange() returns (st: Status, ghost part: seq<Transfer>)
      requires (LdoOn(regs) ==> Ldo(regs) in driven) && regs.pu & PU_CTRL_RR == 0
      modifies this`regs, this`scale, this`driven, this`bus
      ensures Kept(old(regs), regs) && scale == NoScale && driven == old(driven)
      ensures st !in {InvalidArg, InvalidState, TooFew, Noise} && Explained(st)
      ensures st == Ok ==> bus == old(bus) + part && Paid(part, 4)
    {
      scale := NoScale;
      st, part := RunCalibration();
      KeptFacts(old(regs), regs);
      if st == Ok {
        ghost var start;
        st, start := RestartConversions();
        if st == Ok {
          ghost var settling;
          st, settling := DiscardConversions(STALE_CONVERSIONS + SETTLING_CONVERSIONS);
          ghost var calibration := part;
          part := calibration + start + settling;
          assert st == Ok ==> PaidBy(part, 4, calibration, start, settling);
        }
      }
    }

    /** A register other than the power control is changed to `next`, or nothing is. */
    method ChangeReg(r: Reg, clear: bv8, set_: bv8, ghost next: Regs) returns (ok: bool, ghost part: seq<Transfer>)
      requires r != PuCtrl && next == regs.With(r, Updated(regs.Get(r), clear, set_)) && Ldo(next) == Ldo(regs)
      requires (LdoOn(regs) ==> Ldo(regs) in driven) && regs.pu & PU_CTRL_RR == 0
      modifies this`regs, this`driven, this`bus
      ensures Kept(if ok then next else old(regs), regs) && driven == old(driven)
      ensures (LdoOn(regs) ==> Ldo(regs) in driven) && regs.pu & PU_CTRL_RR == 0
      ensures bus == old(bus) + part
      ensures if ok then Changes(part, r, clear, set_) else part != [] && part[|part| - 1] == Failed
    {
      ok, part := UpdateReg(r, clear, set_);
      KeptFacts(if ok then next else old(regs), regs);
    }

    /** The shape of every setter: the register is changed, then the change is paid for. */
    method SetField(r: Reg, clear: bv8, set_: bv8) returns (st: Status)
      requires Valid() && r != PuCtrl
      requires Ldo(regs.With(r, Updated(regs.Get(r), clear, set_))) == Ldo(regs)
      modifies this`regs, this`scale, this`driven, this`bus
      ensures Valid() && driven == old(driven) && ready == old(ready)
      ensures !ready ==> st == InvalidState && scale == old(scale) && regs == old(regs)
      ensures ready ==>
                st !in {InvalidArg, InvalidState} &&
                var next := old(regs).With(r, Updated(old(regs).Get(r), clear, set_));
                || (st != Ok && Kept(old(regs), regs) && scale == old(scale))
                || (Kept(next, regs) && scale == NoScale)
      ensures Explained(st) && (st == Ok ==> PaidFor(r, clear, set_)) && st !in {TooFew, Noise}
    {
      if !ready {
        return InvalidState;
      }
      ghost var next := regs.With(r, Updated(regs.Get(r), clear, set_));
      var ok;
      ghost var change, cost;
      ok, change := ChangeReg(r, clear, set_, next);
      if !ok {
        KeptFacts(old(regs), regs);
        return BusError;
      }
      ghost var paid := regs;
      st, cost := ApplyAnalogChange();
      KeptFacts(paid, regs);
    }

    /** The register was written as asked and every cost of it borne. */
    twostate predicate PaidFor(r: Reg, clear: bv8, set_: bv8)
      reads this`bus
    {
      exists change, cost ::
        Changes(change, r, clear, set_) && Paid(cost, 4) && bus == old(bus) + change + cost
    }

    // -------------------------------------------------------------- setters

    /** What a setter of one field promises, `next` being the setting it asks for. */
    twostate predicate OnlyTo(st: Status, next: Setting)
      reads this
    {
      && ready == old(ready) && driven == old(driven)
      && (scale == old(scale) || scale == NoScale)
      && (SettingOf(regs) == old(SettingOf(regs)) || (SettingOf(regs) == next && scale == NoScale))
      && (st == Ok ==> ready && SettingOf(regs) == next && scale == NoScale)
      && (st in {InvalidArg, InvalidState} ==> regs == old(regs) && scale == old(scale))
      && (!ready ==> st in {InvalidArg, InvalidState})
    }

    /** Every configured bit but those of the field is as it was, the regulator voltage among
        them; the field's own are as they were or as asked for. */
    twostate predicate RestKept(r: Reg, field: bv8, value: bv8)
      reads this
    {
      && Ldo(regs) == old(Ldo(regs))
      && (Kept(old(regs), regs) || Kept(old(regs).With(r, Updated(old(regs).Get(r), field, value)), regs))
    }

    method SetGain(gain: bv8) returns (st: Status)
      requires Valid()
      modifies this`regs, this`scale, this`driven, this`bus
      ensures Valid() && OnlyTo(st, old(SettingOf(regs)).(gain := gain))
      ensures RestKept(Ctrl1, 0x07, gain)
      ensures st == InvalidArg <==> gain >= 8
      ensures Explained(st) && (st == Ok ==> PaidFor(Ctrl1, 0x07, gain))
    {
      if gain >= 8 {
        return InvalidArg;
      }
      GainField(regs, gain);
      st := SetField(Ctrl1, CTRL1_GAINS_MASK, gain);
      Reached(old(regs), regs, Ctrl1, CTRL1_GAINS_MASK, gain);
    }

    /** The undefined encodings are refused. */
    method SetRate(rate: bv8) returns (st: Status)
      requires Valid()
      modifies this`regs, this`scale, this`driven, this`bus
      ensures Valid() && OnlyTo(st, old(SettingOf(regs)).(rate := rate << 4))
      ensures RestKept(Ctrl2, 0x70, rate << 4)
      ensures st == InvalidArg <==> rate !in {0, 1, 2, 3, 7}
      ensures Explained(st) && (st == Ok ==> PaidFor(Ctrl2, 0x70, rate << 4))
    {
      if rate >= 8 || (4 <= rate <= 6) {
        return InvalidArg;
      }
      RateField(regs, rate);
      st := SetField(Ctrl2, CTRL2_CRS_MASK, rate << 4);
      Reached(old(regs), regs, Ctrl2, CTRL2_CRS_MASK, rate << 4);
    }

    method SetChannel(second: bool) returns (st: Status)
      requires Valid()
      modifies this`regs, this`scale, this`driven, this`bus
      ensures Valid() && OnlyTo(st, old(SettingOf(regs)).(channel := if second then 0x80 else 0))
      ensures RestKept(Ctrl2, 0x80, if second then 0x80 else 0) && st != InvalidArg
      ensures Explained(st) && (st == Ok ==> PaidFor(Ctrl2, 0x80, if second then 0x80 else 0))
    {
      var bit := if second then CTRL2_CHS else 0;
      ChannelField(regs, bit);
      st := SetField(Ctrl2, CTRL2_CHS, bit);
      Reached(old(regs), regs, Ctrl2, CTRL2_CHS, bit);
    }

    method SetLdomode(stable: bool) returns (st: Status)
      requires Valid()
      modifies this`regs, this`scale, this`driven, this`bus
      ensures Valid() && OnlyTo(st, old(SettingOf(regs)).(ldomode := if stable then 0x40 else 0))
      ensures RestKept(Pga, 0x40, if stable then 0x40 else 0) && st != InvalidArg
      ensures Explained(st) && (st == Ok ==> PaidFor(Pga, 0x40, if stable then 0x40 else 0))
    {
      var bit := if stable then PGA_LDOMODE else 0;
      LdomodeField(regs, bit);
      st := SetField(Pga, PGA_LDOMODE, bit);
      Reached(old(regs), regs, Pga, PGA_LDOMODE, bit);
    }

    method SetPgaCap(enable: bool) returns (st: Status)
      requires Valid()
      modifies this`regs, this`scale, this`driven, this`bus
      ensures Valid() && OnlyTo(st, old(SettingOf(regs)).(pgaCap := if enable then 0x80 else 0))
      ensures RestKept(PowerCtrl, 0x80, if enable then 0x80 else 0) && st != InvalidArg
      ensures Explained(st)
      ensures st == Ok ==> PaidFor(PowerCtrl, 0x80, if enable then 0x80 else 0)
    {
      var bit := if enable then POWER_PGA_CAP_EN else 0;
      PgaCapField(regs, bit);
      st := SetField(PowerCtrl, POWER_PGA_CAP_EN, bit);
      Reached(old(regs), regs, PowerCtrl, POWER_PGA_CAP_EN, bit);
    }

    // -------------------------------------------------------------- tare, factor, weight

    method ReadAverage(samples: int) returns (st: Status, stats: Stats, ghost xs: seq<int>)
      modifies this`regs, this`bus
      ensures Kept(old(regs), regs)
      ensures st == Ok ==> ready && Measured(samples, stats, xs)
      ensures st == InvalidArg <==> samples < 1
      ensures st == InvalidState <==> samples >= 1 && !ready
      ensures Explained(st) && st !in {CalFailed, TooFew, Noise}
    {
      stats, xs := NoStats, [];
      if samples < 1 {
        return InvalidArg, stats, xs;
      }
      if !ready {
        return InvalidState, stats, xs;
      }
      var conversions, ok;
      st, conversions := ReadBatch(samples);
      ok, stats := Average(conversions);
      xs := Values(conversions);
    }

    /** Conversions until there are enough or one fails. */
    method ReadBatch(samples: nat) returns (st: Status, conversions: seq<Option<int>>)
      requires samples > 0
      modifies this`regs, this`bus
      ensures Kept(old(regs), regs)
      ensures 0 < |conversions| <= samples && (st == Ok ==> |conversions| == samples)
      ensures forall i :: 0 <= i < |conversions| ==> conversions[i].Some? || (st != Ok && i == |conversions| - 1)
      ensures forall i :: 0 <= i < |conversions| && conversions[i].Some? ==> IsInt32(conversions[i].value)
      ensures if st == Ok then Heard(Values(conversions)) else conversions[|conversions| - 1].None?
      ensures st in {Ok, BusError, Timeout} && Explained(st)
    {
      conversions, st := [], Ok;
      ghost var part := [];
      while |conversions| < samples && st == Ok
        invariant |conversions| <= samples && Kept(old(regs), regs) && (st == Ok || conversions != [])
        invariant forall i :: 0 <= i < |conversions| && conversions[i].Some? ==> IsInt32(conversions[i].value)
        invariant forall i :: 0 <= i < |conversions| ==> conversions[i].Some? || (st != Ok && i == |conversions| - 1)
        invariant if st == Ok then bus == old(bus) + part && Results(part) == Values(conversions)
                  else conversions[|conversions| - 1].None?
        invariant st in {Ok, BusError, Timeout} && Explained(st)
        decreases samples - |conversions|
      {
        ghost var before := regs;
        var v;
        ghost var one;
        st, v, one := ReadRaw();
        KeptThrough(old(regs), before, regs);
        if st == Ok {
          BatchStep(part, conversions, one, v);
          part := part + one;
        }
        conversions := conversions + [if st == Ok then Some(v) else None];
      }
    }

    method Tare(samples: int) returns (st: Status, stats: Stats, ghost xs: seq<int>)
      requires Valid()
      modifies this`regs, this`scale, this`tareAt, this`bus
      ensures Valid() && SettingOf(regs) == old(SettingOf(regs))
      ensures (st == InvalidArg <==> samples < 1) && (st == InvalidState <==> samples >= 1 && !ready) && Explained(st)
      ensures st != Ok ==> scale == old(scale)
      ensures st == Ok ==>
                && Measured(samples, stats, xs)
                && scale == old(scale).(tareCounts := stats.mean, tareErrorSquared := stats.errorSquared,
                                        tareSamples := stats.samples)
    {
      st, stats, xs := ReadAverage(samples);
      KeptFacts(old(regs), regs);
      if st != Ok {
        return st, stats, xs;
      }
      scale := Tared(scale, stats, false);
      tareAt := SettingOf(regs);
    }

    /** What becomes of a batch heard with a known mass on the bridge. */
    twostate predicate Settles(st: Status, stats: Stats, knownMass: real)
      requires knownMass != 0.0
      reads this`scale
    {
      var c := Calibrate(old(scale), stats, knownMass);
      match st
      case Ok =>
        c.Accepted? && scale == old(scale).(countsPerUnit := c.countsPerUnit, calibrated := true, supplied := false)
      case TooFew => c.TooFewSamples?
      case Noise => c.WithinNoise?
      case _ => false
    }

    method CalibrateWith(knownMass: real, samples: int) returns (st: Status, stats: Stats, ghost xs: seq<int>)
      requires Valid()
      modifies this`regs, this`scale, this`factorAt, this`bus
      ensures Valid() && SettingOf(regs) == old(SettingOf(regs))
      ensures st == InvalidArg <==> knownMass == 0.0 || samples < 1
      ensures st == InvalidState <==> knownMass != 0.0 && samples >= 1 && !ready
      ensures Explained(st) && st in {Ok, InvalidArg, InvalidState, BusError, Timeout, TooFew, Noise}
      ensures st != Ok ==> scale == old(scale)
      ensures st in {Ok, TooFew, Noise} ==> Measured(samples, stats, xs) && Settles(st, stats, knownMass)
    {
      if knownMass == 0.0 {
        return InvalidArg, NoStats, [];
      }
      st, stats, xs := HearBatch(samples);
      if st != Ok {
        return st, stats, xs;
      }
      match Calibrate(scale, stats, knownMass) {
        case TooFewSamples => return TooFew, stats, xs;
        case WithinNoise => return Noise, stats, xs;
        case Accepted(net, error, factor) =>
          scale := Calibrated(scale, Accepted(net, error, factor));
          factorAt := SettingOf(regs);
          return Ok, stats, xs;
      }
    }

    /** A batch, and the gain read back for the report, which changes nothing. */
    method HearBatch(samples: int) returns (st: Status, stats: Stats, ghost xs: seq<int>)
      modifies this`regs, this`bus
      ensures Kept(old(regs), regs) && SettingOf(regs) == old(SettingOf(regs)) && LdoOn(regs) == old(LdoOn(regs))
      ensures Ldo(regs) == old(Ldo(regs)) && regs.pu & PU_CTRL_RR == old(regs).pu & PU_CTRL_RR
      ensures st == Ok ==> ready && Measured(samples, stats, xs)
      ensures st == InvalidArg <==> samples < 1
      ensures st == InvalidState <==> samples >= 1 && !ready
      ensures Explained(st) && st !in {CalFailed, TooFew, Noise}
    {
      st, stats, xs := ReadAverage(samples);
      if st == Ok {
        ghost var part :| bus == old(bus) + part && Results(part) == xs;
        var gain := ReadReg(Ctrl1);
        ghost var seen := if gain.Some? then Read(Ctrl1, gain.value) else Failed;
        ResultsSkip(part, seen);
        assert bus == old(bus) + (part + [seen]);
      }
      KeptFacts(old(regs), regs);
    }

    method SetScale(countsPerUnit: real) returns (st: Status)
      requires Valid()
      modifies this`scale
      ensures Valid()
      ensures st == if countsPerUnit == 0.0 then InvalidArg else if !ready then InvalidState else Ok
      ensures scale == if st == Ok
                       then old(scale).(countsPerUnit := countsPerUnit, calibrated := true, supplied := true)
                       else old(scale)
    {
      if countsPerUnit == 0.0 {
        return InvalidArg;
      }
      if !ready {
        return InvalidState;
      }
      scale := scale.(countsPerUnit := countsPerUnit, calibrated := true, supplied := true);
      return Ok;
    }

    /** A weight is only ever formed from a tare and a measured factor of the present
        setting. With a factor of zero there is no number to give. */
    method Weigh(samples: int)
      returns (st: Status, units: Option<real>, tareTaken: bool, stats: Stats, ghost xs: seq<int>)
      requires Valid()
      modifies this`regs, this`bus
      ensures Valid() && SettingOf(regs) == old(SettingOf(regs))
      ensures st == InvalidState <==> !scale.calibrated || (samples >= 1 && !ready)
      ensures st == InvalidArg <==> scale.calibrated && samples < 1
      ensures Explained(st) && st in {Ok, InvalidArg, InvalidState, BusError, Timeout}
      ensures st == Ok ==> && ready && scale.calibrated && (tareTaken <==> scale.tareSamples > 0)
                           && (tareTaken ==> tareAt == SettingOf(regs))
                           && (!scale.supplied ==> factorAt == SettingOf(regs))
      ensures st == Ok ==> Measured(samples, stats, xs) && Weighed(units, scale, stats)
    {
      units, tareTaken := None, false;
      if !scale.calibrated {
        return InvalidState, units, tareTaken, NoStats, [];
      }
      st, stats, xs := ReadAverage(samples);
      KeptFacts(old(regs), regs);
      if st != Ok {
        return st, units, tareTaken, stats, xs;
      }
      tareTaken := scale.tareSamples > 0;
      units := if scale.countsPerUnit == 0.0 then None else Some(Units(scale, stats.mean));
    }

    /** Any session: setters, bring-ups, tares, calibrations, supplied factors, in any order,
        with any transfer failing. */
    method Session(calls: nat)
      requires Valid()
      modifies this
      ensures Valid()
    {
      var left := calls;
      while left > 0
        invariant Valid()
      {
        var call: nat, code: bv8, on: bool, samples: int, amount: real, opts: Opts := *, *, *, *, *, *;
        var st: Status, stats;
        ghost var xs;
        match call {
          case 0 => st := SetGain(code);
          case 1 => st := SetRate(code);
          case 2 => st := SetChannel(on);
          case 3 => st := SetLdomode(on);
          case 4 => st := SetPgaCap(on);
          case 5 => st, stats, xs := Tare(samples);
          case 6 => st, stats, xs := CalibrateWith(amount, samples);
          case 7 => st := SetScale(amount);
          case _ =>
            if opts.Encoded() {
              ghost var part;
              st, part := BringUp(opts);
            }
        }
        left := left - 1;
      }
    }

    // -------------------------------------------------------------- bring-up

    /** The reset bit is level triggered; the digital section comes up first. */
    method ResetAndWake() returns (st: Status, ghost part: seq<Transfer>)
      requires LdoOn(regs) ==> Ldo(regs) in driven
      modifies this`regs, this`driven, this`bus
      ensures driven == old(driven) && (LdoOn(regs) ==> Ldo(regs) in driven)
      ensures st == Ok ==> Kept(Woken(0), regs) && bus == old(bus) + part && Wakes(part)
      ensures st in {Ok, BusError, Timeout} && Explained(st)
    {
      part := [];
      WakeFacts();
      var ok := WriteReg(PuCtrl, PU_CTRL_RR);
      KeptFacts(if ok then Written(old(regs), PuCtrl, PU_CTRL_RR) else old(regs), regs);
      if !ok {
        return BusError, part;
      }
      ghost var held := regs;
      ok := WriteReg(PuCtrl, 0);
      KeptFacts(if ok then Written(held, PuCtrl, 0) else held, regs);
      if !ok {
        return BusError, part;
      }
      ghost var released := regs;
      ok := WriteReg(PuCtrl, PU_CTRL_PUD);
      KeptFacts(if ok then Written(released, PuCtrl, PU_CTRL_PUD) else released, regs);
      if !ok {
        return BusError, part;
      }
      ghost var woken := regs;
      ghost var polls;
      st, polls := WaitForBit(PuCtrl, PU_CTRL_PUR, true, 1000);
      KeptFacts(woken, regs);
      part := [Write(PuCtrl, PU_CTRL_RR), Write(PuCtrl, 0), Write(PuCtrl, PU_CTRL_PUD)] + polls;
    }

    /** Changes one part of CTRL1 while the regulator is still off. */
    method ConfigureCtrl1(ghost before: bv8, clear: bv8, set_: bv8)
      returns (st: Status, ghost part: seq<Transfer>)
      requires Kept(Woken(before), regs)
      modifies this`regs, this`driven, this`bus
      ensures driven == old(driven) && !LdoOn(regs)
      ensures st == Ok ==> Kept(Woken(Updated(before, clear, set_)), regs)
      ensures bus == old(bus) + part && st in {Ok, BusError} && Explained(st)
    {
      KeptFacts(Woken(before), regs);
      var ok;
      ok, part := UpdateReg(Ctrl1, clear, set_);
      ghost var after := if ok then old(regs).With(Ctrl1, Updated(old(regs).ctrl1, clear, set_)) else old(regs);
      KeptFacts(after, regs);
      return if ok then Ok else BusError, part;
    }

    /** The regulator's voltage, then the gain. */
    method Configure(opts: Opts) returns (st: Status, ghost part: seq<Transfer>)
      requires opts.Encoded() && Kept(Woken(0), regs)
      modifies this`regs, this`driven, this`bus
      ensures driven == old(driven) && !LdoOn(regs)
      ensures st == Ok ==> Kept(opts.Configured(), regs)
      ensures bus == old(bus) + part && st in {Ok, BusError} && Explained(st)
    {
      part := [];
      KeptFacts(Woken(0), regs);
      Ctrl1Parts(opts);
      if opts.internalLdo {
        st, part := ConfigureCtrl1(0, CTRL1_VLDO_MASK, opts.ldo << 3);
        if st != Ok {
          return st, part;
        }
      }
      if opts.gain.Some? {
        ghost var gain;
        st, gain := ConfigureCtrl1(opts.Voltage(), CTRL1_GAINS_MASK, opts.gain.value);
        part := part + gain;
        if st != Ok {
          return st, part;
        }
      }
      return Ok, part;
    }

    method PowerAnalog(opts: Opts) returns (st: Status)
      requires opts.Encoded() && Kept(opts.Configured(), regs)
      modifies this`regs, this`driven, this`bus
      ensures LdoOn(regs) ==> Ldo(regs) in driven
      ensures driven <= old(driven) + if opts.internalLdo then {opts.ldo << 3} else {}
      ensures st == Ok ==>
                && regs.pu & PU_CTRL_RR == 0
                && SettingOf(regs) == opts.BroughtUp() && LdoOn(regs) == opts.internalLdo
      ensures |bus| == |old(bus)| + 1 && bus[..|old(bus)|] == old(bus) && st in {Ok, BusError} && Explained(st)
    {
      ConfiguredFacts(opts);
      KeptFacts(opts.Configured(), regs);
      var pu := PU_CTRL_PUD | PU_CTRL_PUA | if opts.internalLdo then PU_CTRL_AVDDS else 0;
      var ok := WriteReg(PuCtrl, pu);
      KeptFacts(if ok then Written(old(regs), PuCtrl, pu) else old(regs), regs);
      return if ok then Ok else BusError;
    }

    /** The supplied factor goes in last, on the only path that has brought the part up. */
    method BringUp(opts: Opts) returns (st: Status, ghost part: seq<Transfer>)
      requires Valid() && opts.Encoded()
      modifies this
      ensures Valid()
      ensures opts.scale == Some(0.0) <==> st == InvalidArg
      ensures st == InvalidArg ==> unchanged(this)
      ensures st != InvalidArg ==> (ready <==> st == Ok)
      ensures driven <= old(driven) + if opts.internalLdo then {opts.ldo << 3} else {}
      ensures st == Ok ==>
                && SettingOf(regs) == opts.BroughtUp() && LdoOn(regs) == opts.internalLdo
                && regs.adc == ADC_CTRL_POWER_ON
                && scale == if opts.scale.Some?
                            then NoScale.(countsPerUnit := opts.scale.value, calibrated := true, supplied := true)
                            else NoScale
      ensures Explained(st) && (st == Ok ==> bus == old(bus) + part && BringsUp(part))
    {
      if opts.scale == Some(0.0) {
        return InvalidArg, [];
      }
      st, part := PowerUp(opts);
      if st != Ok {
        ready := false;
        return st, part;
      }
      ghost var up, cost := part, [];
      st, cost := FinishBringUp(opts);
      part := up + ([Write(AdcCtrl, ADC_CTRL_POWER_ON)] + cost);
      assert st == Ok ==> BringsUpBy(part, up, cost);
    }

    /** The registers are configured and the analog section is on. */
    method FinishBringUp(opts: Opts) returns (st: Status, ghost cost: seq<Transfer>)
      requires (LdoOn(regs) ==> Ldo(regs) in driven) && regs.pu & PU_CTRL_RR == 0
      modifies this`regs, this`ready, this`scale, this`driven, this`bus
      ensures Valid() && driven == old(driven) && (ready <==> st == Ok)
      ensures SettingOf(regs) == old(SettingOf(regs)) && Ldo(regs) == old(Ldo(regs)) && LdoOn(regs) == old(LdoOn(regs))
      ensures scale == if st == Ok && opts.scale.Some?
                       then NoScale.(countsPerUnit := opts.scale.value, calibrated := true, supplied := true)
                       else NoScale
      ensures st == Ok ==> regs.adc == ADC_CTRL_POWER_ON
      ensures st in {Ok, BusError, Timeout, CalFailed} && Explained(st)
      ensures st == Ok ==> bus == old(bus) + [Write(AdcCtrl, ADC_CTRL_POWER_ON)] + cost && Paid(cost, 3)
    {
      ready := true;
      scale := NoScale;
      st, cost := Settle();
      ChopperKept(old(regs), regs);
      if st != Ok {
        ready := false;
        return st, cost;
      }
      if opts.scale.Some? {
        scale := scale.(countsPerUnit := opts.scale.value, calibrated := true, supplied := true);
      }
    }

    method PowerUp(opts: Opts) returns (st: Status, ghost up: seq<Transfer>)
      requires opts.Encoded() && (LdoOn(regs) ==> Ldo(regs) in driven)
      modifies this`regs, this`driven, this`bus
      ensures LdoOn(regs) ==> Ldo(regs) in driven
      ensures driven <= old(driven) + if opts.internalLdo then {opts.ldo << 3} else {}
      ensures st == Ok ==>
                && regs.pu & PU_CTRL_RR == 0
                && SettingOf(regs) == opts.BroughtUp() && LdoOn(regs) == opts.internalLdo
      ensures st in {Ok, BusError, Timeout} && Explained(st)
      ensures st == Ok ==> bus == old(bus) + up && Powers(up)
    {
      up := [Revision];
      var revision: bool := *;
      bus := bus + [if revision then Revision else Failed];
      if !revision {
        return BusError, up;
      }
      ghost var wake, configure;
      st, wake := ResetAndWake();
      if st != Ok {
        return st, up;
      }
      st, configure := Configure(opts);
      if st != Ok {
        return st, up;
      }
      ghost var configured := bus;
      st := PowerAnalog(opts);
      configure := configure + [bus[|bus| - 1]];
      up := [Revision] + wake + configure;
      assert st == Ok ==> PowersBy(up, wake, configure);
    }

    method WriteChopper() returns (ok: bool)
      requires LdoOn(regs) ==> Ldo(regs) in driven
      modifies this`regs, this`driven, this`bus
      ensures Kept(if ok then old(regs).With(AdcCtrl, ADC_CTRL_POWER_ON) else old(regs), regs) && driven == old(driven)
      ensures bus == old(bus) + [if ok then Write(AdcCtrl, ADC_CTRL_POWER_ON) else Failed]
    {
      KeptFacts(regs, regs);
      ok := WriteReg(AdcCtrl, ADC_CTRL_POWER_ON);
      KeptFacts(if ok then old(regs).With(AdcCtrl, ADC_CTRL_POWER_ON) else old(regs), regs);
    }

    method StartConversions() returns (ok: bool, ghost part: seq<Transfer>)
      requires (LdoOn(regs) ==> Ldo(regs) in driven) && regs.pu & PU_CTRL_RR == 0
      modifies this`regs, this`driven, this`bus
      ensures Kept(old(regs), regs) && driven == old(driven)
      ensures bus == old(bus) + part
      ensures if ok then Starts(part) else part != [] && part[|part| - 1] == Failed
    {
      StartFacts(regs);
      ok, part := UpdateReg(PuCtrl, 0, PU_CTRL_CS);
      KeptFacts(old(regs), regs);
      if ok {
        StartIs(part);
      }
    }

    /** The chopper, the internal calibration, and the conversions that settle the filter. */
    method Settle() returns (st: Status, ghost cost: seq<Transfer>)
      requires (LdoOn(regs) ==> Ldo(regs) in driven) && regs.pu & PU_CTRL_RR == 0
      modifies this`regs, this`driven, this`bus
      ensures Kept(old(regs).With(AdcCtrl, regs.adc), regs) && driven == old(driven)
      ensures st == Ok ==> regs.adc == ADC_CTRL_POWER_ON
      ensures st == Ok ==> bus == old(bus) + [Write(AdcCtrl, ADC_CTRL_POWER_ON)] + cost && Paid(cost, 3)
      ensures st in {Ok, BusError, Timeout, CalFailed} && Explained(st)
    {
      cost := [];
      var ok := WriteChopper();
      ghost var written := regs;
      KeptFacts(old(regs).With(AdcCtrl, regs.adc), written);
      if !ok {
        return BusError, cost;
      }
      st, cost := RunCalibration();
      KeptFacts(written, regs);
      if st != Ok {
        return st, cost;
      }
      ghost var start, settling;
      ok, start := StartConversions();
      if !ok {
        return BusError, cost;
      }
      st, settling := DiscardConversions(SETTLING_CONVERSIONS);
      ghost var calibration := cost;
      cost := calibration + start + settling;
      assert st == Ok ==> PaidBy(cost, 3, calibration, start, settling);
    }
  }
}
