/** What EqChain's settings and slots mean, in the terms of the calls: what a
    call leaves in the settings however many calls follow, and what a playing
    chip then has in each of its slots. */
module EqLaws {
  import opened EqChain

  /* ---------- Numbers ---------- */

  /** To the nearest, halves away from zero, and the same on both sides of it. */
  lemma RoundIsNearest(x: real, n: nat)
    ensures -0.5 <= Round(x) as real - x <= 0.5
    ensures Round(-x) == -Round(x)
    ensures Round(n as real + 0.5) == n + 1
  {
  }

  /** An index stands for the whole number of decibels nearest to the gain, from -15
      at index 0 to 15 at index 30. */
  lemma IndexIsNearest(db: real)
    ensures -15.0 <= db <= 15.0 ==> -0.5 <= (GainIndex(db) - 15) as real - db <= 0.5
    ensures db > 15.0 ==> GainIndex(db) == 30
    ensures db < -15.0 ==> GainIndex(db) == 0
  {
    RoundIsNearest(db, 0);
  }

  /** A gain in range is kept, one out of range becomes the end of it. */
  lemma ClampIsNearest(db: real)
    ensures -15.0 <= ClampGain(db) <= 15.0
    ensures -15.0 <= db <= 15.0 ==> ClampGain(db) == db
    ensures db > 15.0 ==> ClampGain(db) == 15.0
    ensures db < -15.0 ==> ClampGain(db) == -15.0
  {
  }

  /** A corner in range is kept, one above becomes the highest, one below turns the
      crossover off. */
  lemma CornerOf(hz: real)
    ensures 40.0 <= hz <= 400.0 ==> ClampXover(hz) == hz
    ensures hz > 400.0 ==> ClampXover(hz) == 400.0
    ensures hz < 40.0 ==> ClampXover(hz) == 0.0
  {
  }

  /* ---------- What calls leave in the settings ---------- */

  function GainsOf(st: Settings, way: Way): seq<real> {
    match way
    case Low => st.low
    case High => st.high
  }

  /** The corner is that of the last call that sets it. */
  lemma {:induction false} CornerIsLastSet(st: Settings, ops: seq<Op>, k: nat)
    requires ValidSettings(st) && ValidOps(ops) && k < |ops| && ops[k].SetCrossover?
    requires forall j :: k < j < |ops| ==> !ops[j].SetCrossover?
    ensures SettingsRun(st, ops).xover == ClampXover(ops[k].hz)
    decreases |ops|
  {
    if k < |ops| - 1 {
      CornerIsLastSet(st, ops[..|ops| - 1], k);
    }
  }

  lemma {:induction false} CornerIsKept(st: Settings, ops: seq<Op>)
    requires ValidSettings(st) && ValidOps(ops) && forall j :: 0 <= j < |ops| ==> !ops[j].SetCrossover?
    ensures SettingsRun(st, ops).xover == st.xover
  {
    if ops != [] {
      CornerIsKept(st, ops[..|ops| - 1]);
    }
  }

  /** Call j moves the corner. */
  predicate MovesCorner(st: Settings, ops: seq<Op>, j: nat)
    requires ValidSettings(st) && ValidOps(ops) && j < |ops|
  {
    ops[j].SetCrossover? && ClampXover(ops[j].hz) != SettingsRun(st, ops[..j]).xover
  }

  predicate SetsWay(op: Op, way: Way) {
    op.SetWayGains? && op.way == way
  }

  lemma EarlierCalls(st: Settings, ops: seq<Op>, j: nat)
    requires ValidSettings(st) && ValidOps(ops) && j + 1 < |ops|
    ensures MovesCorner(st, ops[..|ops| - 1], j) == MovesCorner(st, ops, j)
  {
    assert ops[..|ops| - 1][..j] == ops[..j];
  }

  lemma StepKeepsGains(st: Settings, op: Op, way: Way)
    requires ValidSettings(st) && ValidOp(op) && !SetsWay(op, way)
    requires op.SetCrossover? ==> ClampXover(op.hz) == st.xover
    ensures GainsOf(SettingsAfter(st, op), way) == GainsOf(st, way)
  {
  }

  /** No call after call k moves the corner. */
  predicate CornerStays(st: Settings, ops: seq<Op>, k: nat)
    requires ValidSettings(st) && ValidOps(ops)
  {
    forall j :: k < j < |ops| ==> !MovesCorner(st, ops, j)
  }

  lemma CornerStayed(st: Settings, ops: seq<Op>, k: nat)
    requires ValidSettings(st) && ValidOps(ops) && k + 1 < |ops| && CornerStays(st, ops, k)
    ensures CornerStays(st, ops[..|ops| - 1], k)
  {
    var init := ops[..|ops| - 1];
    forall j: nat | k < j < |init| ensures !MovesCorner(st, init, j) {
      EarlierCalls(st, ops, j);
    }
  }

  /** The gains of a way are those of the last call that sets them, band by band and
      clamped, as long as the corner is not moved. */
  lemma {:induction false} GainsAreLastSet(st: Settings, ops: seq<Op>, k: nat, way: Way, b: nat)
    requires ValidSettings(st) && ValidOps(ops) && k < |ops| && SetsWay(ops[k], way) && b < 12
    requires CornerStays(st, ops, k) && forall j :: k < j < |ops| ==> !SetsWay(ops[j], way)
    ensures GainsOf(SettingsRun(st, ops), way)[b] == ClampGain(ops[k].gains[b])
    decreases |ops|
  {
    var n := |ops| - 1;
    if k < n {
      CornerStayed(st, ops, k);
      GainsAreLastSet(st, ops[..n], k, way, b);
      assert !MovesCorner(st, ops, n);
      StepKeepsGains(SettingsRun(st, ops[..n]), ops[n], way);
    }
  }

  /** A call that moves the corner clears the gains of both ways, until they are set
      again. */
  lemma {:induction false} MovedCornerClearsGains(st: Settings, ops: seq<Op>, k: nat, way: Way, b: nat)
    requires ValidSettings(st) && ValidOps(ops) && k < |ops| && MovesCorner(st, ops, k) && b < 12
    requires forall j :: k < j < |ops| ==> !SetsWay(ops[j], way)
    ensures GainsOf(SettingsRun(st, ops), way)[b] == 0.0
    decreases |ops|
  {
    if k < |ops| - 1 {
      EarlierCalls(st, ops, k);
      MovedCornerClearsGains(st, ops[..|ops| - 1], k, way, b);
    }
  }

  /** The gain that a call asks for in a band of the user's curve, if it does. */
  datatype Asked = Nothing | Decibels(db: real)

  function AsksBand(op: Op, b: nat): Asked
    requires ValidOp(op) && b < 15
  {
    match op
    case EqSetBand(band, db) => if band == b then Decibels(db) else Nothing
    case EqSetAll(dbs) => Decibels(dbs[b])
    case EqFlat => Decibels(0.0)
    case _ => Nothing
  }

  /** A band of the curve is what the last call for it asked for, whoever had the
      slots. */
  lemma {:induction false} BandIsLastAsked(st: Settings, ops: seq<Op>, k: nat, b: nat)
    requires ValidSettings(st) && ValidOps(ops) && k < |ops| && b < 15 && AsksBand(ops[k], b).Decibels?
    requires forall j :: k < j < |ops| ==> AsksBand(ops[j], b) == Nothing
    ensures SettingsRun(st, ops).curve[b] == GainIndex(AsksBand(ops[k], b).db)
    decreases |ops|
  {
    if k < |ops| - 1 {
      BandIsLastAsked(st, ops[..|ops| - 1], k, b);
    }
  }

  /* ---------- What a playing chip has in its slots ---------- */

  /** With a crossover, a playing chip that takes part in it has the two sections of
      its pass in the first slots, low for the subwoofer and high for the others;
      then the bands of its own way, nothing for a band at 0; and nothing last. */
  lemma CrossoverSlots(s: Driver, ops: seq<Op>, i: nat, b: nat)
    requires Coherent(s) && ValidOps(ops) && i < |s.chips| && b < 12
    requires SettingsRun(s.st, ops).xover > 0.0 && (s.chips[i].sub || SubFitted(s.chips))
    ensures var c, st, high := Run(s, ops).chips[i], SettingsRun(s.st, ops), !s.chips[i].sub;
      var gain := GainsOf(st, if high then High else Low)[b];
      c.state == Play ==>
        && |c.slots| == 15
        && c.slots[0] == Pass(st.xover, high) && c.slots[1] == Pass(st.xover, high)
        && c.slots[2 + b] == (if gain == 0.0 then Unity else Peak(st.xover, high, b, gain))
        && c.slots[14] == Unity
  {
    PlayingChipsMatchSettings(s, ops, i);
    var st := SettingsRun(s.st, ops);
    SlotsOfWay(st, s.chips[i].sub, SubFitted(s.chips), b);
  }

  lemma SlotsOfWay(st: Settings, sub: bool, subFitted: bool, b: nat)
    requires ValidSettings(st) && b < 12 && st.xover > 0.0 && (sub || subFitted)
    ensures var gain := GainsOf(st, if sub then Low else High)[b]; var slots := Target(st, sub, subFitted);
      && slots[0] == Pass(st.xover, !sub) && slots[1] == Pass(st.xover, !sub)
      && slots[2 + b] == (if gain == 0.0 then Unity else Peak(st.xover, !sub, b, gain))
      && slots[14] == Unity
  {
  }

  /** Without one, or without a subwoofer to feed, a playing satellite has the user's
      curve, and a playing subwoofer nothing at all. */
  lemma CurveSlots(s: Driver, ops: seq<Op>, i: nat, b: nat)
    requires Coherent(s) && ValidOps(ops) && i < |s.chips| && b < 15
    requires SettingsRun(s.st, ops).xover <= 0.0 || !(s.chips[i].sub || SubFitted(s.chips))
    ensures var c := Run(s, ops).chips[i];
      c.state == Play ==>
        |c.slots| == 15
        && c.slots[b] == if s.chips[i].sub then Unity else Curve(SettingsRun(s.st, ops).curve[b], b)
  {
    PlayingChipsMatchSettings(s, ops, i);
  }

  /** The first slot written takes a chip off its built-in coefficients, with nothing in
      the other slots, if its memory can be reached. */
  lemma FirstSlotLeavesOthersFlat(c: Chip, bq: nat, x: Coeffs, k: nat)
    requires bq < |c.slots| && k < |c.slots| && c.builtIn && !c.defaultsWritten
    ensures var r := ProgramBiquad(c, bq, x);
      && !r.builtIn
      && (c.Reachable() ==> r.slots[k] == if k == bq then x else Unity)
      && (!c.Reachable() ==> r.slots == c.slots)
  {
  }

  /** A later one changes its own slot alone. */
  lemma SlotIsWritten(c: Chip, bq: nat, x: Coeffs)
    requires bq < |c.slots| && !c.builtIn
    ensures ProgramBiquad(c, bq, x) == if c.Reachable() then c.(slots := c.slots[bq := x]) else c
  {
  }

  /* ---------- The state of the chips ---------- */

  /** Clocks come and go for each chip by itself. */
  lemma ClocksAreItsOwn(s: Driver, i: nat, j: nat, up: bool)
    requires Coherent(s) && i < |s.chips|
    ensures Step(s, Clocks(j, up)).chips[i] == if i == j then s.chips[i].(reach := up) else s.chips[i]
  {
  }

  /** On is playing, standby is high impedance, off is deep sleep. */
  function StateIn(mode: Power): State {
    match mode
    case On => Play
    case Standby => HiZ
    case Off => DeepSleep
  }

  lemma StepState(s: Driver, op: Op, i: nat)
    requires Coherent(s) && ValidOp(op) && i < |s.chips|
    ensures Step(s, op).chips[i].state == if op.SetPower? then StateIn(op.mode) else s.chips[i].state
  {
  }

  /** A chip plays, waits or sleeps as the last call for its power said. */
  lemma {:induction false} StateIsLastSet(s: Driver, ops: seq<Op>, k: nat, i: nat)
    requires Coherent(s) && ValidOps(ops) && i < |s.chips| && k < |ops| && ops[k].SetPower?
    requires forall j :: k < j < |ops| ==> !ops[j].SetPower?
    ensures Run(s, ops).chips[i].state == StateIn(ops[k].mode)
    decreases |ops|
  {
    var n := |ops| - 1;
    OneMoreStep(s, ops);
    StepState(Run(s, ops[..n]), ops[n], i);
    if k < n {
      StateIsLastSet(s, ops[..n], k, i);
    }
  }

  lemma OneMoreStep(s: Driver, ops: seq<Op>)
    requires Coherent(s) && ValidOps(ops) && ops != []
    ensures Run(s, ops) == Step(Run(s, ops[..|ops| - 1]), ops[|ops| - 1])
  {
  }
}
