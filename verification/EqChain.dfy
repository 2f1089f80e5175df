/** Fifteen biquad slots per amplifier, shared by the user's equaliser, the
    subwoofer's low-pass and the satellites' high-pass: who owns them, and
    what is in them, after any sequence of calls. */
module EqChain {

  const EQ_BANDS := 15
  const WAY_BANDS := 12
  const XOVER_SLOTS := 2
  const GAIN_OFFSET := 15
  const EQ_MAX := 15
  const XOVER_MIN := 40.0
  const XOVER_MAX := 400.0

  /** Coefficients by what they were designed for; the designs themselves are
      left open. */
  datatype Coeffs =
    | Unity
    | Curve(idx: int, band: int)
    | Pass(hz: real, high: bool)
    | Peak(hz: real, high: bool, band: int, gain: real)
    | Unknown

  datatype Way = Low | High

  /** The settings: crossover corner, the bands of each way, the user's curve. */
  datatype Settings = Settings(xover: real, low: seq<real>, high: seq<real>, curve: seq<int>)

  ghost predicate ValidSettings(st: Settings) {
    |st.low| == WAY_BANDS && |st.high| == WAY_BANDS && |st.curve| == EQ_BANDS
  }

  datatype State = Play | HiZ | DeepSleep

  /** A chip: its state, the slots, whether it plays its built-in coefficients
      instead, whether the driver has it down as given the signal path's defaults,
      and whether its memory has them; whether it is the subwoofer's; and whether
      its coefficient memory can be reached when it is not playing. */
  datatype Chip = Chip(
    state: State, slots: seq<Coeffs>, builtIn: bool, defaultsWritten: bool, defaults: bool, sub: bool, reach: bool)
  {
    predicate Reachable() {
      state == Play || reach
    }
  }

  datatype Power = On | Standby | Off

  /* ---------- What the chips should hold ---------- */

  function FlatGains(): seq<real> {
    seq(WAY_BANDS, _ => 0.0)
  }

  /** Whether a slot's pair of gain and band asks for a filter. */
  function WaySlot(bq: nat, hz: real, high: bool, gains: seq<real>): Coeffs
    requires |gains| == WAY_BANDS
  {
    if bq < XOVER_SLOTS then Pass(hz, high)
    else if bq - XOVER_SLOTS >= WAY_BANDS || gains[bq - XOVER_SLOTS] == 0.0 then Unity
    else Peak(hz, high, bq - XOVER_SLOTS, gains[bq - XOVER_SLOTS])
  }

  /** The crossover has the satellites' slots. */
  predicate Owned(st: Settings, subFitted: bool) {
    st.xover > 0.0 && subFitted
  }

  function TargetSlot(st: Settings, sub: bool, subFitted: bool, bq: nat): Coeffs
    requires ValidSettings(st) && bq < EQ_BANDS
  {
    if sub then (if st.xover > 0.0 then WaySlot(bq, st.xover, false, st.low) else Unity)
    else if Owned(st, subFitted) then WaySlot(bq, st.xover, true, st.high)
    else Curve(st.curve[bq], bq)
  }

  function Target(st: Settings, sub: bool, subFitted: bool): (slots: seq<Coeffs>)
    requires ValidSettings(st)
    ensures |slots| == EQ_BANDS
  {
    seq(EQ_BANDS, bq requires 0 <= bq < EQ_BANDS => TargetSlot(st, sub, subFitted, bq))
  }

  /* ---------- The chip ---------- */

  function WriteSlot(c: Chip, bq: nat, x: Coeffs): Chip
    requires bq < |c.slots|
  {
    if c.Reachable() then c.(slots := c.slots[bq := x]) else c
  }

  /** Leave the built-in coefficients; the defaults go in first, unity in every
      slot. */
  function EnsureCustom(c: Chip): (r: Chip)
    ensures |r.slots| == |c.slots| && r.state == c.state && r.sub == c.sub && r.reach == c.reach && !r.builtIn
    ensures !c.builtIn ==> r == c
  {
    if !c.builtIn then c
    else if c.defaultsWritten then c.(builtIn := false)
    else
      c.(builtIn := false, defaultsWritten := true,
         defaults := c.defaults || c.Reachable(),
         slots := if c.Reachable() then seq(|c.slots|, _ => Unity) else c.slots)
  }

  function ProgramBiquad(c: Chip, bq: nat, x: Coeffs): (r: Chip)
    requires bq < |c.slots|
    ensures |r.slots| == |c.slots| && r.state == c.state && r.sub == c.sub && r.reach == c.reach && !r.builtIn
  {
    WriteSlot(EnsureCustom(c), bq, x)
  }

  /** The first n slots, one after the other. */
  function ProgramSlots(c: Chip, xs: seq<Coeffs>, n: nat): (r: Chip)
    requires n <= |xs| == |c.slots|
    ensures |r.slots| == |c.slots| && r.state == c.state && r.sub == c.sub && r.reach == c.reach
    ensures n > 0 ==> !r.builtIn
  {
    if n == 0 then c else ProgramBiquad(ProgramSlots(c, xs, n - 1), n - 1, xs[n - 1])
  }

  lemma {:induction false} SlotsProgrammed(c: Chip, xs: seq<Coeffs>, n: nat)
    requires n <= |xs| == |c.slots| && c.Reachable()
    ensures ProgramSlots(c, xs, n).slots[..n] == xs[..n]
  {
    if n > 0 {
      SlotsProgrammed(c, xs, n - 1);
      if n > 1 {
        assert ProgramSlots(c, xs, n).slots == ProgramSlots(c, xs, n - 1).slots[n - 1 := xs[n - 1]];
      }
    }
  }

  lemma AllProgrammed(c: Chip, xs: seq<Coeffs>)
    requires |xs| == |c.slots| == EQ_BANDS && c.Reachable()
    ensures ProgramSlots(c, xs, EQ_BANDS).slots == xs
  {
    SlotsProgrammed(c, xs, EQ_BANDS);
    var r := ProgramSlots(c, xs, EQ_BANDS);
    assert r.slots == r.slots[..EQ_BANDS] && xs == xs[..EQ_BANDS];
  }

  /* ---------- The driver ---------- */

  datatype Driver = Driver(chips: seq<Chip>, st: Settings)

  predicate SubFitted(chips: seq<Chip>) {
    exists i :: 0 <= i < |chips| && chips[i].sub
  }

  /** Rounded to the nearest, halves away from zero. */
  function Round(x: real): int {
    if x >= 0.0 then (x + 0.5).Floor else -((0.5 - x).Floor)
  }

  function GainIndex(db: real): (idx: int)
    ensures 0 <= idx <= 2 * GAIN_OFFSET
  {
    var g := Round(db);
    (if g > EQ_MAX then EQ_MAX else if g < -EQ_MAX then -EQ_MAX else g) + GAIN_OFFSET
  }

  function ClampGain(db: real): real {
    if db > EQ_MAX as real then EQ_MAX as real else if db < -(EQ_MAX as real) then -(EQ_MAX as real) else db
  }

  function ClampGains(gains: seq<real>): (r: seq<real>)
    requires |gains| == WAY_BANDS
    ensures |r| == WAY_BANDS
  {
    seq(WAY_BANDS, i requires 0 <= i < WAY_BANDS => ClampGain(gains[i]))
  }

  function ClampXover(hz: real): real {
    if hz < XOVER_MIN then 0.0 else if hz > XOVER_MAX then XOVER_MAX else hz
  }

  datatype Op =
    | SetPower(mode: Power)
    | SetCrossover(hz: real)
    | SetWayGains(way: Way, gains: seq<real>)
    | EqSetBand(band: int, db: real)
    | EqSetAll(dbs: seq<real>)
    | EqFlat
    | Clocks(i: nat, up: bool)

  predicate ValidOp(op: Op) {
    match op
    case SetWayGains(_, gains) => |gains| == WAY_BANDS
    case EqSetAll(dbs) => |dbs| == EQ_BANDS
    case _ => true
  }

  function Indices(dbs: seq<real>): (r: seq<int>)
    requires |dbs| == EQ_BANDS
    ensures |r| == EQ_BANDS
  {
    seq(EQ_BANDS, i requires 0 <= i < EQ_BANDS => GainIndex(dbs[i]))
  }

  /** What a call does to the settings, whatever the chips are doing. */
  function SettingsAfter(st: Settings, op: Op): (t: Settings)
    requires ValidSettings(st) && ValidOp(op)
    ensures ValidSettings(t)
  {
    match op
    case SetCrossover(hz) =>
      var new_hz := ClampXover(hz);
      if new_hz != st.xover then Settings(new_hz, FlatGains(), FlatGains(), st.curve) else st
    case SetWayGains(way, gains) =>
      if way == Low then st.(low := ClampGains(gains)) else st.(high := ClampGains(gains))
    case EqSetBand(band, db) => if 0 <= band < EQ_BANDS then st.(curve := st.curve[band := GainIndex(db)]) else st
    case EqSetAll(dbs) => st.(curve := Indices(dbs))
    case EqFlat => st.(curve := seq(EQ_BANDS, _ => GAIN_OFFSET))
    case _ => st
  }

  /** Program a chip's whole chain from the settings. */
  function Apply(c: Chip, st: Settings, subFitted: bool): Chip
    requires ValidSettings(st) && |c.slots| == EQ_BANDS
  {
    ProgramSlots(c, Target(st, c.sub, subFitted), EQ_BANDS)
  }

  /** A chip in deep sleep forgets its memory, and the driver what it was given. */
  function Asleep(c: Chip): (r: Chip)
    ensures |r.slots| == EQ_BANDS && r.sub == c.sub
  {
    c.(state := DeepSleep, defaultsWritten := false, defaults := false, slots := seq(EQ_BANDS, _ => Unknown))
  }

  /** A chip told to play; out of deep sleep it is back on its built-in coefficients. */
  function Woken(c: Chip): (r: Chip)
    ensures |r.slots| == |c.slots| && r.sub == c.sub && r.state == Play
  {
    (if c.state == DeepSleep then c.(builtIn := true, defaultsWritten := false) else c).(state := Play)
  }

  function SetPowerChip(c: Chip, mode: Power, st: Settings, subFitted: bool): Chip
    requires ValidSettings(st) && |c.slots| == EQ_BANDS
  {
    match mode
    case On =>
      Apply(if c.sub then EnsureCustom(Woken(c)) else Woken(c), st, subFitted)
    case Standby => c.(state := HiZ)
    case Off => Asleep(c)
  }

  /** One chip under a call; t are the settings after it. */
  function ChipStep(c: Chip, op: Op, i: nat, st: Settings, t: Settings, subFitted: bool): Chip
    requires ValidSettings(st) && ValidSettings(t) && ValidOp(op) && |c.slots| == EQ_BANDS
  {
    match op
    case SetPower(mode) => SetPowerChip(c, mode, st, subFitted)
    case SetCrossover(_) => Apply(c, t, subFitted)
    case SetWayGains(_, _) => Apply(c, t, subFitted)
    case EqSetBand(band, _) =>
      if !(0 <= band < EQ_BANDS) || Owned(st, subFitted) || c.sub then c
      else ProgramBiquad(c, band, Curve(t.curve[band], band))
    case Clocks(j, up) => if i == j then c.(reach := up) else c
    case _ => if Owned(st, subFitted) || c.sub then c else Apply(c, t, subFitted)
  }

  ghost predicate Valid(s: Driver) {
    && ValidSettings(s.st) && |s.chips| > 0 && !s.chips[0].sub
    && forall i :: 0 <= i < |s.chips| ==> |s.chips[i].slots| == EQ_BANDS
  }

  function Step(s: Driver, op: Op): (t: Driver)
    requires Valid(s) && ValidOp(op)
    ensures |t.chips| == |s.chips|
  {
    var st := SettingsAfter(s.st, op);
    var fitted := SubFitted(s.chips);
    Driver(seq(|s.chips|, i requires 0 <= i < |s.chips| => ChipStep(s.chips[i], op, i, s.st, st, fitted)), st)
  }

  /* ---------- Coherence ---------- */

  ghost predicate ChipOk(c: Chip, st: Settings, subFitted: bool)
    requires ValidSettings(st)
  {
    |c.slots| == EQ_BANDS && (c.state == Play ==> !c.builtIn && c.slots == Target(st, c.sub, subFitted))
  }

  lemma ApplyIsOk(c: Chip, st: Settings, subFitted: bool)
    requires ValidSettings(st) && |c.slots| == EQ_BANDS
    ensures ChipOk(Apply(c, st, subFitted), st, subFitted) && Apply(c, st, subFitted).sub == c.sub
  {
    if c.state == Play {
      AllProgrammed(c, Target(st, c.sub, subFitted));
    }
  }

  lemma PowerIsOk(c: Chip, mode: Power, st: Settings, subFitted: bool)
    requires ValidSettings(st) && ChipOk(c, st, subFitted)
    ensures ChipOk(SetPowerChip(c, mode, st, subFitted), st, subFitted)
    ensures SetPowerChip(c, mode, st, subFitted).sub == c.sub
  {
    if mode == On {
      ApplyIsOk(if c.sub then EnsureCustom(Woken(c)) else Woken(c), st, subFitted);
    }
  }

  /** A single band changes a single slot, and only where the user's curve is
      what the chip plays. */
  lemma BandIsOk(c: Chip, band: nat, st: Settings, t: Settings, subFitted: bool)
    requires ValidSettings(st) && ValidSettings(t) && band < EQ_BANDS && ChipOk(c, st, subFitted)
    requires t == st.(curve := st.curve[band := t.curve[band]])
    ensures Owned(st, subFitted) || c.sub ==> ChipOk(c, t, subFitted)
    ensures !Owned(st, subFitted) && !c.sub ==> ChipOk(ProgramBiquad(c, band, Curve(t.curve[band], band)), t, subFitted)
  {
    assert Owned(st, subFitted) || c.sub ==> Target(t, c.sub, subFitted) == Target(st, c.sub, subFitted);
    if c.state == Play && !Owned(st, subFitted) && !c.sub {
      var r := ProgramBiquad(c, band, Curve(t.curve[band], band));
      assert r.slots == c.slots[band := Curve(t.curve[band], band)];
      assert r.slots == Target(t, c.sub, subFitted);
    }
  }

  lemma CurveIsOk(c: Chip, st: Settings, t: Settings, subFitted: bool)
    requires ValidSettings(st) && ValidSettings(t) && t == st.(curve := t.curve) && ChipOk(c, st, subFitted)
    ensures Owned(st, subFitted) || c.sub ==> ChipOk(c, t, subFitted)
  {
    assert Owned(st, subFitted) || c.sub ==> Target(t, c.sub, subFitted) == Target(st, c.sub, subFitted);
  }

  lemma ChipStepIsOk(c: Chip, op: Op, i: nat, st: Settings, subFitted: bool)
    requires ValidSettings(st) && ValidOp(op) && ChipOk(c, st, subFitted)
    ensures var t := SettingsAfter(st, op); var r := ChipStep(c, op, i, st, t, subFitted);
      ChipOk(r, t, subFitted) && r.sub == c.sub
  {
    var t := SettingsAfter(st, op);
    match op {
      case SetPower(mode) => PowerIsOk(c, mode, st, subFitted);
      case EqSetBand(band, _) => if 0 <= band < EQ_BANDS { BandIsOk(c, band, st, t, subFitted); }
      case Clocks(_, _) =>
      case _ =>
        ApplyIsOk(c, t, subFitted);
        if op.EqSetAll? || op.EqFlat? {
          CurveIsOk(c, st, t, subFitted);
        }
    }
  }

  ghost predicate Coherent(s: Driver) {
    Valid(s) && forall i :: 0 <= i < |s.chips| ==> ChipOk(s.chips[i], s.st, SubFitted(s.chips))
  }

  /** While no chip plays there is nothing to agree on. */
  lemma SilenceIsCoherent(s: Driver)
    requires Valid(s) && forall i :: 0 <= i < |s.chips| ==> s.chips[i].state != Play
    ensures Coherent(s)
  {
  }

  lemma StepIsCoherent(s: Driver, op: Op)
    requires Coherent(s) && ValidOp(op)
    ensures Coherent(Step(s, op)) && SubFitted(Step(s, op).chips) == SubFitted(s.chips)
    ensures forall i :: 0 <= i < |s.chips| ==> Step(s, op).chips[i].sub == s.chips[i].sub
  {
    var t, fitted := Step(s, op), SubFitted(s.chips);
    forall i | 0 <= i < |s.chips| ensures ChipOk(t.chips[i], t.st, fitted) && t.chips[i].sub == s.chips[i].sub {
      ChipStepIsOk(s.chips[i], op, i, s.st, fitted);
    }
    SameSubs(s.chips, t.chips);
  }

  lemma SameSubs(a: seq<Chip>, b: seq<Chip>)
    requires |a| == |b| && forall i :: 0 <= i < |a| ==> b[i].sub == a[i].sub
    ensures SubFitted(a) == SubFitted(b)
  {
    if SubFitted(a) {
      var i :| 0 <= i < |a| && a[i].sub;
      assert b[i].sub;
    }
  }

  /* ---------- Runs ---------- */

  predicate ValidOps(ops: seq<Op>) {
    forall k :: 0 <= k < |ops| ==> ValidOp(ops[k])
  }

  /** A run of calls from a coherent start. */
  ghost function Run(s: Driver, ops: seq<Op>): (t: Driver)
    requires Coherent(s) && ValidOps(ops)
    ensures Coherent(t) && |t.chips| == |s.chips| && SubFitted(t.chips) == SubFitted(s.chips)
    ensures forall i :: 0 <= i < |s.chips| ==> t.chips[i].sub == s.chips[i].sub
  {
    if ops == [] then s
    else
      var init := Run(s, ops[..|ops| - 1]);
      StepIsCoherent(init, ops[|ops| - 1]);
      Step(init, ops[|ops| - 1])
  }

  /** The settings after a run, without any chips. */
  function SettingsRun(st: Settings, ops: seq<Op>): (t: Settings)
    requires ValidSettings(st) && ValidOps(ops)
    ensures ValidSettings(t)
  {
    if ops == [] then st else SettingsAfter(SettingsRun(st, ops[..|ops| - 1]), ops[|ops| - 1])
  }

  lemma {:induction false} SettingsOfRun(s: Driver, ops: seq<Op>)
    requires Coherent(s) && ValidOps(ops)
    ensures Run(s, ops).st == SettingsRun(s.st, ops)
  {
    if ops != [] {
      SettingsOfRun(s, ops[..|ops| - 1]);
    }
  }

  /** After any calls in any order: a chip that plays has left its built-in
      coefficients, and its slots are the fixed function of the settings that
      the calls add up to. */
  lemma PlayingChipsMatchSettings(s: Driver, ops: seq<Op>, i: nat)
    requires Coherent(s) && ValidOps(ops) && i < |s.chips|
    ensures var c := Run(s, ops).chips[i];
      c.state == Play ==> !c.builtIn && c.slots == Target(SettingsRun(s.st, ops), s.chips[i].sub, SubFitted(s.chips))
  {
    SettingsOfRun(s, ops);
    assert ChipOk(Run(s, ops).chips[i], Run(s, ops).st, SubFitted(s.chips));
  }

  predicate IsEq(op: Op) {
    op.EqSetBand? || op.EqSetAll? || op.EqFlat?
  }

  /** The equaliser calls of a run. */
  function EqOps(ops: seq<Op>): (r: seq<Op>)
    requires ValidOps(ops)
    ensures ValidOps(r)
  {
    if ops == [] then []
    else
      var r, op := EqOps(ops[..|ops| - 1]), ops[|ops| - 1];
      if IsEq(op) then r + [op] else r
  }

  /** The curve is what the equaliser calls alone would have made it. */
  lemma {:induction false} CurveOfEqOps(st: Settings, ops: seq<Op>)
    requires ValidSettings(st) && ValidOps(ops)
    ensures SettingsRun(st, ops).curve == SettingsRun(st, EqOps(ops)).curve
  {
    if ops != [] {
      var init, op := ops[..|ops| - 1], ops[|ops| - 1];
      CurveOfEqOps(st, init);
      var r := EqOps(init);
      if IsEq(op) {
        assert (r + [op])[..|r|] == r;
      }
    }
  }

  /** Turning the crossover off hands the slots of a playing satellite back to
      the user's curve with every change made to it up to now, also those made
      while the crossover had the slots; and a playing subwoofer goes flat. */
  lemma CrossoverOffRestoresCurve(s: Driver, ops: seq<Op>, hz: real, i: nat)
    requires Coherent(s) && ValidOps(ops) && i < |s.chips| && hz < XOVER_MIN
    ensures ValidOps(ops + [SetCrossover(hz)])
    ensures var c := Run(s, ops + [SetCrossover(hz)]).chips[i]; var curve := SettingsRun(s.st, EqOps(ops)).curve;
      c.state == Play ==> forall bq :: 0 <= bq < EQ_BANDS ==>
        c.slots[bq] == if s.chips[i].sub then Unity else Curve(curve[bq], bq)
  {
    var all := ops + [SetCrossover(hz)];
    assert all[..|all| - 1] == ops;
    CurveOfEqOps(s.st, ops);
    PlayingChipsMatchSettings(s, all, i);
  }

  /* ---------- The defaults of the signal path ---------- */

  /** A chip on its built-in coefficients has not been given the defaults. */
  predicate NotYetGiven(c: Chip) {
    c.builtIn ==> !c.defaultsWritten && !c.defaults
  }

  /** It has left them, and its memory lacks the defaults. */
  predicate Lacks(c: Chip) {
    !c.builtIn && !c.defaults
  }

  /** Does a call program the slots of a chip that is not woken by it? */
  predicate Programs(op: Op, c: Chip, owned: bool) {
    match op
    case SetCrossover(_) => true
    case SetWayGains(_, _) => true
    case EqSetBand(band, _) => 0 <= band < EQ_BANDS && !owned && !c.sub
    case EqSetAll(_) => !owned && !c.sub
    case EqFlat => !owned && !c.sub
    case _ => false
  }

  /** A call after which a chip lacks the defaults: it is put to sleep, or it is
      programmed for the first time and its memory cannot be reached. */
  predicate Loses(c: Chip, op: Op, owned: bool) {
    (op == SetPower(Off) && !c.builtIn) || (Programs(op, c, owned) && c.builtIn && !c.Reachable())
  }

  /** A wake from deep sleep gives the defaults again. */
  predicate Renews(c: Chip, op: Op) {
    op == SetPower(On) && c.state == DeepSleep
  }

  lemma {:induction false} ProgrammedChip(c: Chip, xs: seq<Coeffs>, n: nat)
    requires n <= |xs| == |c.slots| && NotYetGiven(c)
    ensures var r := ProgramSlots(c, xs, n);
      && NotYetGiven(r) && r.state == c.state
      && (n > 0 ==> (Lacks(r) <==> if c.builtIn then !c.Reachable() else Lacks(c)))
      && (n == 0 ==> r == c)
  {
    if n > 0 {
      ProgrammedChip(c, xs, n - 1);
    }
  }

  lemma WokenChip(c: Chip, st: Settings, subFitted: bool)
    requires ValidSettings(st) && |c.slots| == EQ_BANDS && NotYetGiven(c)
    ensures var r := SetPowerChip(c, On, st, subFitted);
      NotYetGiven(r) && (Lacks(r) <==> Lacks(c) && c.state != DeepSleep)
  {
    var ready := if c.sub then EnsureCustom(Woken(c)) else Woken(c);
    ProgrammedWoken(ready, Target(st, c.sub, subFitted));
  }

  /** A chip that plays and has just been woken, or left its built-in coefficients. */
  lemma ProgrammedWoken(c: Chip, xs: seq<Coeffs>)
    requires |xs| == |c.slots| == EQ_BANDS && c.state == Play && (c.builtIn ==> !c.defaultsWritten)
    ensures var r := ProgramSlots(c, xs, EQ_BANDS); !r.builtIn && (r.defaults <==> c.builtIn || c.defaults)
  {
    WokenSlots(c, xs, EQ_BANDS);
  }

  lemma {:induction false} WokenSlots(c: Chip, xs: seq<Coeffs>, n: nat)
    requires n <= |xs| == |c.slots| && c.state == Play && (c.builtIn ==> !c.defaultsWritten)
    ensures var r := ProgramSlots(c, xs, n);
      && (n == 0 ==> r == c)
      && (n > 0 ==> !r.builtIn && (r.defaults <==> c.builtIn || c.defaults))
  {
    if n > 0 {
      WokenSlots(c, xs, n - 1);
    }
  }

  lemma ChipStepLacks(c: Chip, op: Op, i: nat, st: Settings, subFitted: bool)
    requires ValidSettings(st) && ValidOp(op) && |c.slots| == EQ_BANDS && NotYetGiven(c)
    ensures var r := ChipStep(c, op, i, st, SettingsAfter(st, op), subFitted);
      NotYetGiven(r) && (Lacks(r) <==> Loses(c, op, Owned(st, subFitted)) || (Lacks(c) && !Renews(c, op)))
  {
    var t := SettingsAfter(st, op);
    match op {
      case SetPower(mode) => if mode == On { WokenChip(c, st, subFitted); }
      case EqSetBand(band, _) =>
      case Clocks(_, _) =>
      case _ => ProgrammedChip(c, Target(t, c.sub, subFitted), EQ_BANDS);
    }
  }

  /** Call k of a run makes chip i lose the defaults, or gives them again. */
  ghost predicate LosesAt(s: Driver, ops: seq<Op>, i: nat, k: nat)
    requires Coherent(s) && ValidOps(ops) && i < |s.chips| && k < |ops|
  {
    var u := Run(s, ops[..k]);
    Loses(u.chips[i], ops[k], Owned(u.st, SubFitted(u.chips)))
  }

  ghost predicate RenewsAt(s: Driver, ops: seq<Op>, i: nat, k: nat)
    requires Coherent(s) && ValidOps(ops) && i < |s.chips| && k < |ops|
  {
    Renews(Run(s, ops[..k]).chips[i], ops[k])
  }

  /** No call after call k gives them again. */
  ghost predicate NotRenewed(s: Driver, ops: seq<Op>, i: nat, k: nat)
    requires Coherent(s) && ValidOps(ops) && i < |s.chips| && k < |ops|
  {
    forall j :: k < j < |ops| ==> !RenewsAt(s, ops, i, j)
  }

  ghost predicate Lost(s: Driver, ops: seq<Op>, i: nat)
    requires Coherent(s) && ValidOps(ops) && i < |s.chips|
  {
    exists k :: 0 <= k < |ops| && LosesAt(s, ops, i, k) && NotRenewed(s, ops, i, k)
  }

  lemma SamePrefix(s: Driver, ops: seq<Op>, i: nat, k: nat)
    requires Coherent(s) && ValidOps(ops) && i < |s.chips| && k + 1 < |ops|
    ensures LosesAt(s, ops[..|ops| - 1], i, k) == LosesAt(s, ops, i, k)
    ensures RenewsAt(s, ops[..|ops| - 1], i, k) == RenewsAt(s, ops, i, k)
  {
    assert ops[..|ops| - 1][..k] == ops[..k];
  }

  lemma NotRenewedBefore(s: Driver, ops: seq<Op>, i: nat, k: nat)
    requires Coherent(s) && ValidOps(ops) && i < |s.chips| && k + 1 < |ops|
    ensures NotRenewed(s, ops, i, k) <==>
            NotRenewed(s, ops[..|ops| - 1], i, k) && !RenewsAt(s, ops, i, |ops| - 1)
  {
    var init := ops[..|ops| - 1];
    forall j | k < j < |init| ensures RenewsAt(s, init, i, j) == RenewsAt(s, ops, i, j) {
      SamePrefix(s, ops, i, j);
    }
  }

  lemma StillLost(s: Driver, ops: seq<Op>, i: nat)
    requires Coherent(s) && ValidOps(ops) && i < |s.chips| && ops != []
    requires Lost(s, ops[..|ops| - 1], i) && !RenewsAt(s, ops, i, |ops| - 1)
    ensures Lost(s, ops, i)
  {
    var init := ops[..|ops| - 1];
    var k :| 0 <= k < |init| && LosesAt(s, init, i, k) && NotRenewed(s, init, i, k);
    SamePrefix(s, ops, i, k);
    NotRenewedBefore(s, ops, i, k);
  }

  lemma LostBefore(s: Driver, ops: seq<Op>, i: nat)
    requires Coherent(s) && ValidOps(ops) && i < |s.chips| && ops != []
    requires Lost(s, ops, i) && !LosesAt(s, ops, i, |ops| - 1)
    ensures Lost(s, ops[..|ops| - 1], i) && !RenewsAt(s, ops, i, |ops| - 1)
  {
    var k :| 0 <= k < |ops| && LosesAt(s, ops, i, k) && NotRenewed(s, ops, i, k);
    SamePrefix(s, ops, i, k);
    NotRenewedBefore(s, ops, i, k);
  }

  lemma LostInOneMore(s: Driver, ops: seq<Op>, i: nat)
    requires Coherent(s) && ValidOps(ops) && i < |s.chips| && ops != []
    ensures Lost(s, ops, i) <==>
            LosesAt(s, ops, i, |ops| - 1) || (Lost(s, ops[..|ops| - 1], i) && !RenewsAt(s, ops, i, |ops| - 1))
  {
    if LosesAt(s, ops, i, |ops| - 1) {
      assert NotRenewed(s, ops, i, |ops| - 1);
    } else if Lost(s, ops, i) {
      LostBefore(s, ops, i);
    } else if !RenewsAt(s, ops, i, |ops| - 1) && Lost(s, ops[..|ops| - 1], i) {
      StillLost(s, ops, i);
    }
  }

  lemma {:induction false} LacksIfLost(s: Driver, ops: seq<Op>, i: nat)
    requires Coherent(s) && ValidOps(ops) && i < |s.chips| && NotYetGiven(s.chips[i]) && !Lacks(s.chips[i])
    ensures NotYetGiven(Run(s, ops).chips[i]) && (Lacks(Run(s, ops).chips[i]) <==> Lost(s, ops, i))
  {
    if ops != [] {
      var init, op := ops[..|ops| - 1], ops[|ops| - 1];
      var u := Run(s, init);
      LacksIfLost(s, init, i);
      LostInOneMore(s, ops, i);
      ChipStepLacks(u.chips[i], op, i, u.st, SubFitted(u.chips));
    }
  }

  /** After any calls in any order: the memory of a chip that plays has the signal
      path's defaults exactly if, since its last wake from deep sleep, it has not
      been put to sleep or first programmed while its memory could not be reached. */
  lemma PlayingChipHasDefaults(s: Driver, ops: seq<Op>, i: nat)
    requires Coherent(s) && ValidOps(ops) && i < |s.chips| && NotYetGiven(s.chips[i]) && !Lacks(s.chips[i])
    ensures var c := Run(s, ops).chips[i]; c.state == Play ==> (c.defaults <==> !Lost(s, ops, i))
  {
    LacksIfLost(s, ops, i);
    PlayingChipsMatchSettings(s, ops, i);
  }

  /** It may lack them: a satellite's equaliser is set before its clocks start, and
      then it is woken. */
  lemma EarlyCurveLosesDefaults(s: Driver, i: nat)
    requires Coherent(s) && i < |s.chips| && s.st.xover <= 0.0
    requires var c := s.chips[i]; c.state == HiZ && c.builtIn && !c.defaultsWritten && !c.defaults && !c.reach && !c.sub
    ensures var c := Run(s, [EqFlat, SetPower(On)]).chips[i]; c.state == Play && !c.defaults
  {
    CurveIsMissed(s, i);
    WakeIsMissed(Step(s, EqFlat), i);
    TwoCalls(s, EqFlat, SetPower(On));
  }

  lemma CurveIsMissed(s: Driver, i: nat)
    requires Coherent(s) && i < |s.chips| && s.st.xover <= 0.0
    requires var c := s.chips[i]; c.state == HiZ && c.builtIn && !c.defaultsWritten && !c.defaults && !c.reach && !c.sub
    ensures var u := Step(s, EqFlat); Coherent(u) && NotYetGiven(u.chips[i]) && Lacks(u.chips[i])
    ensures Step(s, EqFlat).chips[i].state == HiZ
  {
    StepIsCoherent(s, EqFlat);
    ChipStepLacks(s.chips[i], EqFlat, i, s.st, SubFitted(s.chips));
  }

  lemma WakeIsMissed(u: Driver, i: nat)
    requires Coherent(u) && i < |u.chips| && NotYetGiven(u.chips[i]) && Lacks(u.chips[i]) && u.chips[i].state == HiZ
    ensures var c := Step(u, SetPower(On)).chips[i]; c.state == Play && !c.defaults
  {
    ChipStepLacks(u.chips[i], SetPower(On), i, u.st, SubFitted(u.chips));
  }

  lemma TwoCalls(s: Driver, a: Op, b: Op)
    requires Coherent(s) && ValidOp(a) && ValidOp(b) && Coherent(Step(s, a))
    ensures Run(s, [a, b]) == Step(Step(s, a), b)
  {
    OneMoreCall(s, [], a);
    OneMoreCall(s, [a], b);
    assert [] + [a] == [a] && [a] + [b] == [a, b];
  }

  lemma OneMoreCall(s: Driver, ops: seq<Op>, op: Op)
    requires Coherent(s) && ValidOps(ops) && ValidOp(op)
    ensures ValidOps(ops + [op]) && Run(s, ops + [op]) == Step(Run(s, ops), op)
  {
    var all := ops + [op];
    assert all[..|all| - 1] == ops && all[|all| - 1] == op;
  }
}
