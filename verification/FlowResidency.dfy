/** Keeping a program in volatile memory: what the driver does to the devices
    as power modes, clocks and the input selection change, in any order. */
module FlowResidency {

  datatype Power = On | Standby | Off

  /** Which input channel a mixer takes. */
  datatype Source = Both | Left | Right

  /** What a mixer slot holds. */
  datatype Gains = Cleared | Authored | Chosen(src: Source)

  /** The two slots of a coefficient bank. */
  datatype Bank = Bank(a: Gains, b: Gains)

  /* ---------- The hardware ---------- */

  datatype Mode = Running | Waiting | Down

  /** A device: its run state, whether its memory holds the flow, and its two
      coefficient banks, of which one is active. */
  datatype Chip = Chip(
    mode: Mode, muted: bool, speaker: bool, holds: bool, adaptive: bool, active: Bank, inactive: Bank)
  {
    function Mute(): Chip { this.(muted := true) }

    function Unmute(): Chip { this.(muted := false) }

    function Speaker(on: bool): Chip { this.(speaker := on) }

    function ToStandby(): Chip { this.(mode := Waiting) }

    function ToActive(): Chip { this.(mode := Running) }

    function Wiped(): Chip {
      this.(holds := false, adaptive := false, active := Bank(Cleared, Cleared), inactive := Bank(Cleared, Cleared))
    }

    /** Powerdown wipes the memory. */
    function ToPowerdown(): Chip {
      Wiped().(mode := Down)
    }

    /** A reset of the modules, which works in standby alone. */
    function ResetModules(): Chip {
      if mode == Waiting
      then Wiped()
      else this
    }

    /** A flow is written to the memory and ends by leaving standby, unmuted.
        In powerdown, or without the bit clock, nothing is kept. */
    function Download(clocked: bool): Chip {
      if mode == Down || !clocked then this
      else
        this.(mode := Running, muted := false, holds := true, adaptive := false,
              active := Bank(Authored, Authored), inactive := Bank(Authored, Authored))
    }

    /** The mode register of the banks; it is set in standby. */
    function CramMode(on: bool): Chip {
      if mode == Waiting then this.(adaptive := on) else this
    }

    /** A coefficient written from outside goes to the inactive bank, and only
        in adaptive mode anywhere. */
    function WriteSlot(slot: nat, g: Gains): Chip {
      if !adaptive then this
      else this.(inactive := if slot == 0 then inactive.(a := g) else inactive.(b := g))
    }

    /** The banks change places: asked for from outside, or by the DSP. */
    function Swap(): Chip {
      if adaptive then this.(active := inactive, inactive := active) else this
    }
  }

  /* ---------- The driver ---------- */

  /** A device as the driver knows it: whether there is a flow for it, whether
      that flow has an input mixer, and whether the mixer is there now. */
  datatype Device = Device(hasFlow: bool, mixerFlow: bool, chip: Chip, hasInputMix: bool)

  datatype Driver = Driver(devs: seq<Device>, clocked: bool, resident: bool, power: Power, src: Source)

  function OnChip(d: Device, c: Chip): Device {
    d.(chip := c)
  }

  /** Write each slot to the inactive bank, swap, and write it again. */
  function WriteInputMix(d: Device, src: Source): Device {
    if !d.hasInputMix then d
    else
      var g := Chosen(src);
      OnChip(d, d.chip.WriteSlot(0, g).Swap().WriteSlot(0, g).WriteSlot(1, g).Swap().WriteSlot(1, g))
  }

  /** Program one device. */
  function ProgramDevice(d: Device, clocked: bool, src: Source): Device {
    var c := d.chip.Mute().ToStandby().Mute();
    if d.hasFlow && clocked then
      var loaded := c.ResetModules().Download(clocked).Mute().ToStandby()
                     .CramMode(false).CramMode(true).ToActive().Mute();
      WriteInputMix(Device(true, d.mixerFlow, loaded, d.mixerFlow), src)
    else OnChip(d, c.Mute())
  }

  function Park(d: Device): Device {
    OnChip(d, d.chip.Mute().ToStandby())
  }

  /** Out of powerdown, program, back to standby. */
  function Reprogram(d: Device, clocked: bool, src: Source): Device {
    Park(ProgramDevice(Park(d), clocked, src))
  }

  function Wake(d: Device): Device {
    OnChip(d, d.chip.Mute().ToActive().Unmute().Speaker(true))
  }

  function WakeParked(d: Device): Device {
    OnChip(d, d.chip.ToActive().Unmute().Speaker(true))
  }

  function Silence(d: Device): Device {
    OnChip(d, d.chip.Speaker(false))
  }

  function PowerDown(d: Device): Device {
    OnChip(d, d.chip.Mute().ToPowerdown()).(hasInputMix := false)
  }

  /** Does programming the devices leave a flow in one of them? */
  predicate Downloads(s: Driver) {
    s.clocked && exists i :: 0 <= i < |s.devs| && s.devs[i].hasFlow
  }

  datatype Op = SetPower(mode: Power) | I2sStarted | SetInput(src: Source) | DspSwaps(i: nat)

  /** One device under an operation. */
  function DeviceStep(s: Driver, d: Device, op: Op): Device {
    match op
    case SetPower(Standby) => if s.power == Off then Reprogram(Silence(d), s.clocked, s.src) else Park(Silence(d))
    case SetPower(On) =>
      if s.power != On && !s.resident then Wake(Reprogram(Silence(d), s.clocked, s.src)) else Wake(Silence(d))
    case SetPower(Off) => PowerDown(Silence(d))
    case I2sStarted =>
      if s.power == Off || s.resident then d
      else if s.power == On then WakeParked(Reprogram(Silence(d), true, s.src))
      else Reprogram(Silence(d), true, s.src)
    case SetInput(src) => WriteInputMix(d, src)
    case DspSwaps(i) => d
  }

  function ResidentAfter(s: Driver, op: Op): bool {
    match op
    case SetPower(Standby) => s.resident || (s.power == Off && Downloads(s))
    case SetPower(On) => s.resident || (s.power != On && Downloads(s))
    case SetPower(Off) => false
    case I2sStarted => s.resident || (s.power != Off && Downloads(s.(clocked := true)))
    case _ => s.resident
  }

  /** The driver and its devices after an operation. */
  function Step(s: Driver, op: Op): (t: Driver)
    ensures |t.devs| == |s.devs|
  {
    var devs :=
      if op.DspSwaps? then
        (if op.i < |s.devs| then s.devs[op.i := OnChip(s.devs[op.i], s.devs[op.i].chip.Swap())] else s.devs)
      else seq(|s.devs|, i requires 0 <= i < |s.devs| => DeviceStep(s, s.devs[i], op));
    Driver(devs, s.clocked || op.I2sStarted?, ResidentAfter(s, op), if op.SetPower? then op.mode else s.power,
           if op.SetInput? then op.src else s.src)
  }

  function Run(s: Driver, ops: seq<Op>): Driver {
    if ops == [] then s else Step(Run(s, ops[..|ops| - 1]), ops[|ops| - 1])
  }

  /** After the driver's start: every device has been programmed without clocks. */
  predicate Started(s: Driver) {
    && !s.clocked && !s.resident && s.power == Off
    && forall i :: 0 <= i < |s.devs| ==>
      !s.devs[i].hasInputMix && s.devs[i].chip.mode == Waiting && s.devs[i].chip.muted && !s.devs[i].chip.holds
      && (s.devs[i].mixerFlow ==> s.devs[i].hasFlow)
  }

  /** Devices before the driver's start: their flows are loaded, not downloaded. */
  predicate Loaded(devs: seq<Device>) {
    forall i :: 0 <= i < |devs| ==>
      !devs[i].hasInputMix && !devs[i].chip.holds && (devs[i].mixerFlow ==> devs[i].hasFlow)
  }

  /* ---------- What always holds ---------- */

  /** Both banks hold the gains of the source. */
  predicate Selected(c: Chip, src: Source) {
    c.active == Bank(Chosen(src), Chosen(src)) && c.inactive == Bank(Chosen(src), Chosen(src))
  }

  /** A device's memory is what the driver believes. */
  predicate DeviceOk(s: Driver, d: Device) {
    && (d.mixerFlow ==> d.hasFlow)
    && (s.resident && d.hasFlow ==> d.chip.holds && d.hasInputMix == d.mixerFlow)
    && (d.hasInputMix ==> s.resident && d.mixerFlow && d.chip.holds && d.chip.adaptive && Selected(d.chip, s.src))
    && (s.power == On ==> d.chip.mode == Running && !d.chip.muted && d.chip.speaker)
    && (s.power == Standby ==> d.chip.mode == Waiting && d.chip.muted && !d.chip.speaker)
    && (s.power == Off ==> d.chip.mode != Running && d.chip.muted && !d.chip.holds && !d.hasInputMix)
  }

  predicate Ok(s: Driver) {
    && (s.resident ==> s.clocked && s.power != Off)
    && (s.clocked && s.power != Off && (exists i :: 0 <= i < |s.devs| && s.devs[i].hasFlow) ==> s.resident)
    && (forall i :: 0 <= i < |s.devs| ==> DeviceOk(s, s.devs[i]))
  }

  lemma StartedIsOk(s: Driver)
    requires Started(s)
    ensures Ok(s)
  {
  }

  /** A write is heard only after a swap, in its own slot alone, and a swap undoes a swap. */
  lemma WriteThenSwap(c: Chip, slot: nat, g: Gains)
    requires c.adaptive && slot < 2
    ensures c.WriteSlot(slot, g).active == c.active
    ensures c.WriteSlot(slot, g).Swap().active ==
            if slot == 0 then Bank(g, c.inactive.b) else Bank(c.inactive.a, g)
    ensures c.WriteSlot(slot, g).Swap().inactive == c.active && c.Swap().Swap() == c
  {
  }

  /** So a value written once is undone by the swap after next. */
  lemma SingleWriteIsUndone(c: Chip, slot: nat, g: Gains)
    requires c.adaptive && slot < 2
    ensures c.WriteSlot(slot, g).Swap().Swap().active == c.active
  {
    WriteThenSwap(c, slot, g);
  }

  /** A flow needs the bit clock and power; it ends running, unmuted, with its own
      gains in the banks and out of adaptive mode. */
  lemma DownloadLeaves(c: Chip, clocked: bool)
    ensures var d := c.Download(clocked);
      if clocked && c.mode != Down
      then d == Chip(Running, false, c.speaker, true, false, Bank(Authored, Authored), Bank(Authored, Authored))
      else d == c
  {
  }

  /** Only in standby do a reset of the modules, which clears the memory, and a choice
      of the banks' mode have an effect. */
  lemma OnlyInStandby(c: Chip, on: bool)
    ensures c.mode != Waiting ==> c.ResetModules() == c && c.CramMode(on) == c
    ensures c.mode == Waiting ==> c.CramMode(on) == c.(adaptive := on)
    ensures var none := Bank(Cleared, Cleared);
      c.mode == Waiting ==> c.ResetModules() == Chip(Waiting, c.muted, c.speaker, false, false, none, none)
  {
  }

  /** Writing, swapping and writing again leaves the value in both banks. */
  lemma MixIsSelected(d: Device, src: Source)
    requires d.hasInputMix && d.chip.adaptive
    ensures Selected(WriteInputMix(d, src).chip, src)
    ensures var c := WriteInputMix(d, src).chip;
      WriteInputMix(d, src) == OnChip(d, d.chip.(active := c.active, inactive := c.inactive))
  {
  }

  /** Programming a device out of powerdown: with a flow and a clock, it holds
      the flow, with the selected gains if it has a mixer. */
  lemma Reprogrammed(d: Device, clocked: bool, src: Source)
    requires d.mixerFlow ==> d.hasFlow
    requires !d.hasInputMix
    ensures var e := Reprogram(d, clocked, src);
      && e.hasFlow == d.hasFlow && e.mixerFlow == d.mixerFlow
      && e.chip.mode == Waiting && e.chip.muted && e.chip.speaker == d.chip.speaker
      && (if d.hasFlow && clocked then e.chip.holds && e.hasInputMix == d.mixerFlow
          else e.chip.holds == d.chip.holds && !e.hasInputMix)
      && (e.hasInputMix ==> e.chip.adaptive && Selected(e.chip, src))
  {
  }

  lemma PowerStep(s: Driver, d: Device, mode: Power)
    requires DeviceOk(s, d) && (s.resident ==> s.clocked && s.power != Off)
    requires s.clocked && s.power != Off && d.hasFlow ==> s.resident
    requires s.clocked && d.hasFlow && mode != Off && s.power == Off ==> ResidentAfter(s, SetPower(mode))
    ensures DeviceOk(Step(s, SetPower(mode)), DeviceStep(s, d, SetPower(mode)))
  {
    if mode != Off && !s.resident {
      Reprogrammed(Silence(d), s.clocked, s.src);
    }
  }

  lemma StartStep(s: Driver, d: Device)
    requires DeviceOk(s, d) && (s.resident ==> s.clocked && s.power != Off)
    requires s.clocked && s.power != Off && d.hasFlow ==> s.resident
    requires d.hasFlow && s.power != Off ==> ResidentAfter(s, I2sStarted)
    ensures DeviceOk(Step(s, I2sStarted), DeviceStep(s, d, I2sStarted))
  {
    if !s.resident {
      Reprogrammed(Silence(d), true, s.src);
    }
  }

  lemma InputStep(s: Driver, d: Device, src: Source)
    requires DeviceOk(s, d)
    ensures DeviceOk(Step(s, SetInput(src)), DeviceStep(s, d, SetInput(src)))
  {
    if d.hasInputMix {
      MixIsSelected(d, src);
    }
  }

  /** A swap that the DSP makes on its own changes nothing. */
  lemma SwapChangesNothing(c: Chip, src: Source)
    requires Selected(c, src)
    ensures c.Swap() == c
  {
  }

  lemma SwapStep(s: Driver, d: Device)
    requires DeviceOk(s, d)
    ensures DeviceOk(s, OnChip(d, d.chip.Swap()))
  {
    if d.hasInputMix {
      SwapChangesNothing(d.chip, s.src);
    }
  }

  lemma StepKeeps(s: Driver, op: Op)
    requires Ok(s)
    ensures Ok(Step(s, op))
  {
    var t := Step(s, op);
    forall i | 0 <= i < |t.devs| ensures DeviceOk(t, t.devs[i]) {
      var d := s.devs[i];
      match op {
        case SetPower(mode) => PowerStep(s, d, mode);
        case I2sStarted => StartStep(s, d);
        case SetInput(src) => InputStep(s, d, src);
        case DspSwaps(_) => SwapStep(s, d);
      }
    }
    FlowsStay(s, op);
  }

  lemma FlowsStay(s: Driver, op: Op)
    ensures forall i :: 0 <= i < |s.devs| ==> Step(s, op).devs[i].hasFlow == s.devs[i].hasFlow
  {
    forall i | 0 <= i < |s.devs| ensures Step(s, op).devs[i].hasFlow == s.devs[i].hasFlow {
      StepKeepsFlow(s, op, i);
    }
  }

  lemma {:induction false} RunKeeps(s: Driver, ops: seq<Op>)
    requires Ok(s)
    ensures Ok(Run(s, ops)) && |Run(s, ops).devs| == |s.devs|
  {
    if ops != [] {
      RunKeeps(s, ops[..|ops| - 1]);
      StepKeeps(Run(s, ops[..|ops| - 1]), ops[|ops| - 1]);
    }
  }

  /** Whatever is done in whatever order: once the clocks have started and the
      power is not off, every device with a flow holds it, and a device whose
      flow has an input mixer has the selected gains in both banks, so that no
      later swap changes what it plays. */
  lemma FlowIsResident(s: Driver, ops: seq<Op>, i: nat)
    requires Started(s) && i < |s.devs|
    ensures var t := Run(s, ops);
      |t.devs| == |s.devs| && (t.clocked && t.power != Off && t.devs[i].hasFlow ==>
        && t.devs[i].chip.holds
        && (t.devs[i].mixerFlow ==> Selected(t.devs[i].chip, t.src) && t.devs[i].chip.Swap() == t.devs[i].chip))
  {
    StartedIsOk(s);
    RunKeeps(s, ops);
    var t := Run(s, ops);
    assert DeviceOk(t, t.devs[i]);
  }

  /** And the devices play exactly while the power is on. */
  lemma PlaysWhenOn(s: Driver, ops: seq<Op>, i: nat)
    requires Started(s) && i < |s.devs|
    ensures var t := Run(s, ops);
      |t.devs| == |s.devs| && (t.power == On <==> t.devs[i].chip.mode == Running && !t.devs[i].chip.muted)
  {
    StartedIsOk(s);
    RunKeeps(s, ops);
    var t := Run(s, ops);
    assert DeviceOk(t, t.devs[i]);
  }

  /* ---------- What the flags stand for ---------- */

  /** The source is that of the last call that selects one. */
  lemma {:induction false} SourceIsLastSelected(s: Driver, ops: seq<Op>, k: nat)
    requires k < |ops| && ops[k].SetInput? && forall j :: k < j < |ops| ==> !ops[j].SetInput?
    ensures Run(s, ops).src == ops[k].src
    decreases |ops|
  {
    if k < |ops| - 1 {
      SourceIsLastSelected(s, ops[..|ops| - 1], k);
    }
  }

  lemma {:induction false} SourceIsKept(s: Driver, ops: seq<Op>)
    requires forall j :: 0 <= j < |ops| ==> !ops[j].SetInput?
    ensures Run(s, ops).src == s.src
  {
    if ops != [] {
      SourceIsKept(s, ops[..|ops| - 1]);
    }
  }

  /** The power is that of the last call that sets it. */
  lemma {:induction false} PowerIsLastSet(s: Driver, ops: seq<Op>, k: nat)
    requires k < |ops| && ops[k].SetPower? && forall j :: k < j < |ops| ==> !ops[j].SetPower?
    ensures Run(s, ops).power == ops[k].mode
    decreases |ops|
  {
    if k < |ops| - 1 {
      PowerIsLastSet(s, ops[..|ops| - 1], k);
    }
  }

  lemma {:induction false} PowerIsKept(s: Driver, ops: seq<Op>)
    requires forall j :: 0 <= j < |ops| ==> !ops[j].SetPower?
    ensures Run(s, ops).power == s.power
  {
    if ops != [] {
      PowerIsKept(s, ops[..|ops| - 1]);
    }
  }

  /** The clocks run from the first call that starts them on. */
  lemma {:induction false} ClocksAreStarted(s: Driver, ops: seq<Op>)
    ensures Run(s, ops).clocked <==> s.clocked || I2sStarted in ops
  {
    if ops != [] {
      ClocksAreStarted(s, ops[..|ops| - 1]);
      assert ops == ops[..|ops| - 1] + [ops[|ops| - 1]];
    }
  }

  /** A device keeps the flow that it came with. */
  lemma {:induction false} FlowsAreKept(s: Driver, ops: seq<Op>, i: nat)
    requires i < |s.devs|
    ensures |Run(s, ops).devs| == |s.devs|
    ensures Run(s, ops).devs[i].hasFlow == s.devs[i].hasFlow && Run(s, ops).devs[i].mixerFlow == s.devs[i].mixerFlow
  {
    if ops != [] {
      FlowsAreKept(s, ops[..|ops| - 1], i);
      StepKeepsFlow(Run(s, ops[..|ops| - 1]), ops[|ops| - 1], i);
    }
  }

  lemma ReprogramKeepsFlow(d: Device, clocked: bool, src: Source)
    ensures var e := Reprogram(d, clocked, src); e.hasFlow == d.hasFlow && e.mixerFlow == d.mixerFlow
  {
    var e := ProgramDevice(Park(d), clocked, src);
    assert e.hasFlow == d.hasFlow && e.mixerFlow == d.mixerFlow;
  }

  lemma DeviceKeepsFlow(s: Driver, d: Device, op: Op)
    ensures var e := DeviceStep(s, d, op); e.hasFlow == d.hasFlow && e.mixerFlow == d.mixerFlow
  {
    match op
    case SetPower(mode) => PowerKeepsFlow(s, d, mode);
    case I2sStarted => ReprogramKeepsFlow(Silence(d), true, s.src);
    case _ =>
  }

  lemma PowerKeepsFlow(s: Driver, d: Device, mode: Power)
    ensures var e := DeviceStep(s, d, SetPower(mode)); e.hasFlow == d.hasFlow && e.mixerFlow == d.mixerFlow
  {
    ReprogramKeepsFlow(Silence(d), s.clocked, s.src);
  }

  lemma StepKeepsFlow(s: Driver, op: Op, i: nat)
    requires i < |s.devs|
    ensures Step(s, op).devs[i].hasFlow == s.devs[i].hasFlow && Step(s, op).devs[i].mixerFlow == s.devs[i].mixerFlow
  {
    DeviceKeepsFlow(s, s.devs[i], op);
  }

  /** In the terms of the calls: when the clocks have been started, and the power was
      last set to anything but off, at call p, a device with a mixer in its flow has
      in both slots of both banks the gains of the source that was last selected, at
      call k, whatever was done in between and around. */
  lemma SelectedSourcePlays(s: Driver, ops: seq<Op>, i: nat, k: nat, p: nat)
    requires Started(s) && i < |s.devs| && s.devs[i].mixerFlow && I2sStarted in ops
    requires k < |ops| && ops[k].SetInput? && forall j :: k < j < |ops| ==> !ops[j].SetInput?
    requires p < |ops| && ops[p].SetPower? && ops[p].mode != Off && forall j :: p < j < |ops| ==> !ops[j].SetPower?
    ensures |Run(s, ops).devs| == |s.devs|
    ensures var c := Run(s, ops).devs[i].chip; c.holds && Selected(c, ops[k].src)
  {
    SourceIsLastSelected(s, ops, k);
    PowerIsLastSet(s, ops, p);
    ClocksAreStarted(s, ops);
    FlowsAreKept(s, ops, i);
    FlowIsResident(s, ops, i);
  }

  /** And it plays, unmuted, exactly if the power was last set to on. */
  lemma PlaysWhenSwitchedOn(s: Driver, ops: seq<Op>, i: nat, p: nat)
    requires Started(s) && i < |s.devs|
    requires p < |ops| && ops[p].SetPower? && forall j :: p < j < |ops| ==> !ops[j].SetPower?
    ensures |Run(s, ops).devs| == |s.devs|
    ensures var c := Run(s, ops).devs[i].chip; ops[p].mode == On <==> c.mode == Running && !c.muted
  {
    PowerIsLastSet(s, ops, p);
    PlaysWhenOn(s, ops, i);
  }
}
