/** The amplifier driver's equaliser as the source writes it: settings and
    chips in tables that every call updates slot by slot, against the steps of
    EqChain. */
module Tas58xx {
  import opened EqChain

  datatype Outcome = Done | InvalidArg

  /** Gains as a caller passes them, or nothing. */
  datatype Gains = NoGains | Gains(dbs: seq<real>)

  class Tas58xx {
    const chips: array<Chip>
    const curve: array<int>
    var xover: real
    var low: seq<real>
    var high: seq<real>

    /** The driver at its start, with the crossover and the bands of each way that
        were stored before it. */
    constructor (chips: array<Chip>, xover: real, low: seq<real>, high: seq<real>)
      requires forall i :: 0 <= i < chips.Length ==> |chips[i].slots| == EQ_BANDS
      requires chips.Length > 0 && !chips[0].sub && |low| == WAY_BANDS && |high| == WAY_BANDS
      ensures this.chips == chips && fresh(curve) && IsValid()
      ensures Abstract() == Driver(chips[..], Settings(xover, low, high, seq(EQ_BANDS, _ => GAIN_OFFSET)))
      ensures (forall i :: 0 <= i < chips.Length ==> chips[i].state != Play) ==> Coherent(Abstract())
    {
      this.chips, this.xover, this.low, this.high := chips, xover, low, high;
      curve := new int[EQ_BANDS](_ => GAIN_OFFSET);
      new;
      assert curve[..] == seq(EQ_BANDS, _ => GAIN_OFFSET);
    }

    ghost function Abstract(): Driver
      reads this, chips, curve
    {
      Driver(chips[..], Settings(xover, low, high, curve[..]))
    }

    ghost predicate IsValid()
      reads this, chips, curve
    {
      Valid(Abstract())
    }

    /** Is there a subwoofer that the crossover feeds? */
    method SatelliteHighpassActive() returns (active: bool)
      requires IsValid()
      ensures active <==> Owned(Abstract().st, SubFitted(chips[..]))
    {
      if xover <= 0.0 {
        return false;
      }
      var i := 0;
      while i < chips.Length
        invariant 0 <= i <= chips.Length && forall j :: 0 <= j < i ==> !chips[j].sub
      {
        if chips[i].sub {
          assert chips[..][i].sub;
          return true;
        }
        i := i + 1;
      }
      return false;
    }

    /** Program chip i with the given chain, slot by slot. */
    method ProgramChain(i: nat, xs: seq<Coeffs>)
      requires IsValid() && i < chips.Length && |xs| == EQ_BANDS
      modifies chips
      ensures chips[..] == old(chips[..])[i := ProgramSlots(old(chips[i]), xs, EQ_BANDS)]
    {
      var c := chips[i];
      var bq := 0;
      while bq < EQ_BANDS
        invariant 0 <= bq <= EQ_BANDS && |c.slots| == EQ_BANDS
        invariant c == ProgramSlots(chips[i], xs, bq)
      {
        c := ProgramBiquad(c, bq, xs[bq]);
        bq := bq + 1;
      }
      chips[i] := c;
    }

    method SlotsOf(sub: bool) returns (xs: seq<Coeffs>)
      requires IsValid()
      ensures xs == Target(Abstract().st, sub, SubFitted(chips[..]))
    {
      var active := SatelliteHighpassActive();
      var lowActive := xover > 0.0;
      xs := [];
      while |xs| < EQ_BANDS
        invariant |xs| <= EQ_BANDS
        invariant forall k :: 0 <= k < |xs| ==> xs[k] == TargetSlot(Abstract().st, sub, SubFitted(chips[..]), k)
      {
        var bq := |xs|;
        var x;
        if sub {
          x := if lowActive then WaySlot(bq, xover, false, low) else Unity;
        } else if active {
          x := WaySlot(bq, xover, true, high);
        } else {
          x := Curve(curve[bq], bq);
        }
        xs := xs + [x];
      }
    }

    /** The sub's low-pass, or the satellites' high-pass or curve. */
    method ApplyChip(i: nat)
      requires IsValid() && i < chips.Length
      modifies chips
      ensures chips[..] == old(chips[..])[i := Apply(old(chips[i]), old(Abstract().st), SubFitted(old(chips[..])))]
    {
      var xs := SlotsOf(chips[i].sub);
      ProgramChain(i, xs);
    }

    /** Program every chip from the settings. */
    method Reapply()
      requires IsValid()
      modifies chips
      ensures forall i :: 0 <= i < chips.Length ==>
        chips[i] == Apply(old(chips[i]), old(Abstract().st), SubFitted(old(chips[..])))
    {
      ghost var was := chips[..];
      ghost var st := Abstract().st;
      var i := 0;
      while i < chips.Length
        invariant 0 <= i <= chips.Length && Abstract().st == st
        invariant forall j :: 0 <= j < chips.Length ==>
          (chips[j] == if j < i then Apply(was[j], st, SubFitted(was)) else was[j])
      {
        Halfway(was, chips[..], i, st);
        ApplyChip(i);
        i := i + 1;
      }
    }

    method SetSubCrossoverHz(hz: real)
      requires IsValid()
      modifies this, chips
      ensures Abstract() == Step(old(Abstract()), SetCrossover(hz))
    {
      var clamped := if hz < XOVER_MIN then 0.0 else if hz > XOVER_MAX then XOVER_MAX else hz;
      if clamped != xover {
        low, high := FlatGains(), FlatGains();
      }
      xover := clamped;
      Reapply();
      assert chips[..] == Step(old(Abstract()), SetCrossover(hz)).chips;
    }

    method SubEqSetGains(way: Way, gains: Gains) returns (r: Outcome)
      requires IsValid() && (gains.Gains? ==> |gains.dbs| == WAY_BANDS)
      modifies this, chips
      ensures gains.NoGains? ==> r == InvalidArg && Abstract() == old(Abstract())
      ensures gains.Gains? ==> r == Done && Abstract() == Step(old(Abstract()), SetWayGains(way, gains.dbs))
    {
      if gains.NoGains? {
        return InvalidArg;
      }
      var clamped: seq<real> := [];
      while |clamped| < WAY_BANDS
        invariant |clamped| <= WAY_BANDS && forall k :: 0 <= k < |clamped| ==> clamped[k] == ClampGain(gains.dbs[k])
      {
        clamped := clamped + [ClampGain(gains.dbs[|clamped|])];
      }
      assert clamped == ClampGains(gains.dbs);
      if way == Low {
        low := clamped;
      } else {
        high := clamped;
      }
      Reapply();
      assert chips[..] == Step(old(Abstract()), SetWayGains(way, gains.dbs)).chips;
      return Done;
    }

    method EqSetOneBand(band: int, db: real) returns (r: Outcome)
      requires IsValid()
      modifies this, chips, curve
      ensures r == if 0 <= band < EQ_BANDS then Done else InvalidArg
      ensures Abstract() == Step(old(Abstract()), EqSetBand(band, db))
    {
      if band < 0 || band >= EQ_BANDS {
        assert chips[..] == Step(old(Abstract()), EqSetBand(band, db)).chips;
        return InvalidArg;
      }
      var idx := GainIndex(db);
      curve[band] := idx;
      var owned := SatelliteHighpassActive();
      if !owned {
        ProgramBand(band, idx);
      }
      assert chips[..] == Step(old(Abstract()), EqSetBand(band, db)).chips;
      return Done;
    }

    /** One slot of every chip but the subwoofer's. */
    method ProgramBand(band: nat, idx: int)
      requires IsValid() && band < EQ_BANDS
      modifies chips
      ensures forall i :: 0 <= i < chips.Length ==>
        (chips[i] == if old(chips[i]).sub then old(chips[i]) else ProgramBiquad(old(chips[i]), band, Curve(idx, band)))
    {
      var i := 0;
      while i < chips.Length
        invariant 0 <= i <= chips.Length
        invariant forall j :: 0 <= j < chips.Length ==>
          (chips[j] == if j < i && !old(chips[j]).sub then ProgramBiquad(old(chips[j]), band, Curve(idx, band))
                       else old(chips[j]))
      {
        if !chips[i].sub {
          chips[i] := ProgramBiquad(chips[i], band, Curve(idx, band));
        }
        i := i + 1;
      }
    }

    /** Take over the curve, and program it into chip i unless the crossover
        has its slots. */
    method ProgramIndices(i: nat, idx: seq<int>)
      requires IsValid() && i < chips.Length && |idx| == EQ_BANDS && !chips[i].sub
      modifies chips, curve
      ensures curve[..] == idx
      ensures chips[..] == (
        if Owned(old(Abstract().st), SubFitted(old(chips[..]))) then old(chips[..])
        else old(chips[..])[i := ProgramSlots(old(chips[i]), CurveSlots(idx), EQ_BANDS)])
    {
      var owned := SatelliteHighpassActive();
      var c := chips[i];
      var bq := 0;
      while bq < EQ_BANDS
        invariant 0 <= bq <= EQ_BANDS && curve[..bq] == idx[..bq] && chips[..] == old(chips[..])
        invariant |c.slots| == EQ_BANDS && c == if owned then chips[i] else ProgramSlots(chips[i], CurveSlots(idx), bq)
      {
        curve[bq] := idx[bq];
        if !owned {
          c := ProgramBiquad(c, bq, Curve(idx[bq], bq));
        }
        bq := bq + 1;
      }
      chips[i] := c;
    }

    /** The curve goes to every chip but the subwoofer's. */
    method ProgramCurve(idx: seq<int>)
      requires IsValid() && |idx| == EQ_BANDS
      modifies chips, curve
      ensures curve[..] == idx
      ensures forall i :: 0 <= i < chips.Length ==>
        (chips[i] == if Owned(old(Abstract().st), SubFitted(old(chips[..]))) || old(chips[i]).sub then old(chips[i])
                     else ProgramSlots(old(chips[i]), CurveSlots(idx), EQ_BANDS))
    {
      ghost var was := chips[..];
      ghost var owned := Owned(Abstract().st, SubFitted(was));
      var i := 0;
      while i < chips.Length
        invariant 0 <= i <= chips.Length && (i > 0 ==> curve[..] == idx)
        invariant Curved(was, chips[..], i, idx, owned)
      {
        SubsOfCurved(was, chips[..], i, idx, owned);
        if !chips[i].sub {
          ProgramIndices(i, idx);
        }
        i := i + 1;
      }
    }

    method EqSetEveryBand(gains: Gains) returns (r: Outcome)
      requires IsValid() && (gains.Gains? ==> |gains.dbs| == EQ_BANDS)
      modifies chips, curve
      ensures gains.NoGains? ==> r == InvalidArg && Abstract() == old(Abstract())
      ensures gains.Gains? ==> r == Done && Abstract() == Step(old(Abstract()), EqSetAll(gains.dbs))
    {
      if gains.NoGains? {
        return InvalidArg;
      }
      var idx: seq<int> := [];
      while |idx| < EQ_BANDS
        invariant |idx| <= EQ_BANDS && forall k :: 0 <= k < |idx| ==> idx[k] == GainIndex(gains.dbs[k])
      {
        idx := idx + [GainIndex(gains.dbs[|idx|])];
      }
      assert idx == Indices(gains.dbs);
      ProgramCurve(idx);
      CurveSlotsAreTarget(Abstract().st);
      assert chips[..] == Step(old(Abstract()), EqSetAll(gains.dbs)).chips;
      return Done;
    }

    method EqReset()
      requires IsValid()
      modifies chips, curve
      ensures Abstract() == Step(old(Abstract()), EqFlat)
    {
      ProgramCurve(seq(EQ_BANDS, _ => GAIN_OFFSET));
      CurveSlotsAreTarget(Abstract().st);
      assert chips[..] == Step(old(Abstract()), EqFlat).chips;
    }

    /** Put chip i into a power mode; when it starts to play, its chain is
        programmed from the settings. */
    method SetPowerModeDev(i: nat, mode: Power)
      requires IsValid() && i < chips.Length
      modifies chips
      ensures chips[..] ==
              old(chips[..])[i := SetPowerChip(old(chips[i]), mode, old(Abstract().st), SubFitted(old(chips[..])))]
    {
      ghost var was := chips[..];
      if mode == On {
        var c := chips[i];
        if c.state == DeepSleep {
          c := c.(builtIn := true, defaultsWritten := false);
        }
        chips[i] := c.(state := Play);
        if chips[i].sub {
          chips[i] := EnsureCustom(chips[i]);
        }
        SameSubs(was, chips[..]);
        ApplyChip(i);
      } else if mode == Standby {
        chips[i] := chips[i].(state := HiZ);
      } else {
        chips[i] := chips[i].(state := DeepSleep, defaultsWritten := false, defaults := false,
                              slots := seq(EQ_BANDS, _ => Unknown));
      }
    }

    method SetPowerMode(mode: Power)
      requires IsValid()
      modifies chips
      ensures Abstract() == Step(old(Abstract()), SetPower(mode))
    {
      ghost var was := chips[..];
      ghost var st := Abstract().st;
      var i := 0;
      while i < chips.Length
        invariant 0 <= i <= chips.Length && Abstract().st == st
        invariant Powered(was, chips[..], i, mode, st)
      {
        SubsOfPowered(was, chips[..], i, mode, st);
        SetPowerModeDev(i, mode);
        i := i + 1;
      }
      assert chips[..] == Step(old(Abstract()), SetPower(mode)).chips;
    }
  }

  function CurveSlots(idx: seq<int>): (xs: seq<Coeffs>)
    requires |idx| == EQ_BANDS
    ensures |xs| == EQ_BANDS
  {
    seq(EQ_BANDS, bq requires 0 <= bq < EQ_BANDS => Curve(idx[bq], bq))
  }

  /** A chain of the curve is what a satellite without a crossover should hold. */
  lemma CurveSlotsAreTarget(st: Settings)
    requires ValidSettings(st)
    ensures !Owned(st, true) ==> CurveSlots(st.curve) == Target(st, false, true)
    ensures !Owned(st, false) ==> CurveSlots(st.curve) == Target(st, false, false)
  {
  }

  ghost predicate Curved(was: seq<Chip>, now: seq<Chip>, i: nat, idx: seq<int>, owned: bool)
    requires |was| == |now| && |idx| == EQ_BANDS && forall j :: 0 <= j < |was| ==> |was[j].slots| == EQ_BANDS
  {
    forall j :: 0 <= j < |was| ==>
      (now[j] == if j >= i || owned || was[j].sub then was[j] else ProgramSlots(was[j], CurveSlots(idx), EQ_BANDS))
  }

  lemma SubsOfCurved(was: seq<Chip>, now: seq<Chip>, i: nat, idx: seq<int>, owned: bool)
    requires |was| == |now| && |idx| == EQ_BANDS && forall j :: 0 <= j < |was| ==> |was[j].slots| == EQ_BANDS
    requires Curved(was, now, i, idx, owned)
    ensures SubFitted(now) == SubFitted(was)
    ensures forall j :: 0 <= j < |was| ==> |now[j].slots| == EQ_BANDS && now[j].sub == was[j].sub
  {
    SameSubs(was, now);
  }

  ghost predicate Powered(was: seq<Chip>, now: seq<Chip>, i: nat, mode: Power, st: Settings)
    requires ValidSettings(st) && |was| == |now| && forall j :: 0 <= j < |was| ==> |was[j].slots| == EQ_BANDS
  {
    forall j :: 0 <= j < |was| ==> (now[j] == if j < i then SetPowerChip(was[j], mode, st, SubFitted(was)) else was[j])
  }

  lemma SubsOfPowered(was: seq<Chip>, now: seq<Chip>, i: nat, mode: Power, st: Settings)
    requires ValidSettings(st) && |was| == |now| && forall j :: 0 <= j < |was| ==> |was[j].slots| == EQ_BANDS
    requires Powered(was, now, i, mode, st)
    ensures SubFitted(now) == SubFitted(was)
    ensures forall j :: 0 <= j < |was| ==> |now[j].slots| == EQ_BANDS && now[j].sub == was[j].sub
  {
    SameSubs(was, now);
  }

  /** Halfway through the chips, the next is as it was, and so is the number of
      subwoofers. */
  lemma Halfway(was: seq<Chip>, now: seq<Chip>, i: nat, st: Settings)
    requires ValidSettings(st) && |was| == |now| && forall j :: 0 <= j < |was| ==> |was[j].slots| == EQ_BANDS
    requires forall j :: 0 <= j < |was| ==> (now[j] == if j < i then Apply(was[j], st, SubFitted(was)) else was[j])
    ensures SubFitted(now) == SubFitted(was)
    ensures forall j :: 0 <= j < |was| ==> |now[j].slots| == EQ_BANDS && now[j].sub == was[j].sub
  {
    SameSubs(was, now);
  }
}
