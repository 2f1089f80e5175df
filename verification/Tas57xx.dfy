/** The driver as the source writes it: loops over a table of devices and
    flags that every call updates, against the steps of FlowResidency. */
module Tas57xx {
  import opened FlowResidency

  class Tas57xx {
    const devs: array<Device>
    var clocked: bool
    var resident: bool
    var power: Power
    var src: Source

    ghost function Abstract(): Driver
      reads this, devs
    {
      Driver(devs[..], clocked, resident, power, src)
    }

    constructor (devs: array<Device>)
      ensures this.devs == devs && Abstract() == Driver(devs[..], false, false, Off, Both)
    {
      this.devs, clocked, resident, power, src := devs, false, false, Off, Both;
    }

    method EnableSpeaker(on: bool)
      modifies devs
      ensures forall i :: 0 <= i < devs.Length ==> devs[i] == OnChip(old(devs[i]), old(devs[i]).chip.Speaker(on))
    {
      for i := 0 to devs.Length
        invariant forall j :: 0 <= j < devs.Length ==>
          (devs[j] == if j < i then OnChip(old(devs[j]), old(devs[j]).chip.Speaker(on)) else old(devs[j]))
      {
        devs[i] := OnChip(devs[i], devs[i].chip.Speaker(on));
      }
    }

    method ParkAll()
      modifies devs
      ensures forall i :: 0 <= i < devs.Length ==> devs[i] == Park(old(devs[i]))
    {
      for i := 0 to devs.Length
        invariant forall j :: 0 <= j < devs.Length ==> (devs[j] == if j < i then Park(old(devs[j])) else old(devs[j]))
      {
        devs[i] := OnChip(devs[i], devs[i].chip.Mute());
        devs[i] := OnChip(devs[i], devs[i].chip.ToStandby());
      }
    }

    method ActivateAll(mute: bool)
      modifies devs
      ensures forall i :: 0 <= i < devs.Length ==>
        devs[i] == OnChip(old(devs[i]), (if mute then old(devs[i]).chip.Mute() else old(devs[i]).chip).ToActive())
    {
      for i := 0 to devs.Length
        invariant forall j :: 0 <= j < devs.Length ==>
          (devs[j] == if j >= i then old(devs[j])
                      else OnChip(old(devs[j]),
                                  (if mute then old(devs[j]).chip.Mute() else old(devs[j]).chip).ToActive()))
      {
        if mute {
          devs[i] := OnChip(devs[i], devs[i].chip.Mute());
        }
        devs[i] := OnChip(devs[i], devs[i].chip.ToActive());
      }
    }

    method UnmuteAll()
      modifies devs
      ensures forall i :: 0 <= i < devs.Length ==> devs[i] == OnChip(old(devs[i]), old(devs[i]).chip.Unmute())
    {
      for i := 0 to devs.Length
        invariant forall j :: 0 <= j < devs.Length ==>
          (devs[j] == if j < i then OnChip(old(devs[j]), old(devs[j]).chip.Unmute()) else old(devs[j]))
      {
        devs[i] := OnChip(devs[i], devs[i].chip.Unmute());
      }
    }

    /** Write both slots of a device's mixer, each into both banks. */
    method WriteMix(i: nat)
      requires i < devs.Length
      modifies devs
      ensures devs[i] == WriteInputMix(old(devs[i]), src)
      ensures forall j :: 0 <= j < devs.Length && j != i ==> devs[j] == old(devs[j])
    {
      if !devs[i].hasInputMix {
        return;
      }
      var d := devs[i];
      var c := d.chip;
      var slot := 0;
      while slot < 2
        invariant 0 <= slot <= 2
        invariant c == MixUpTo(d.chip, src, slot)
      {
        var bank := 0;
        while bank < 2
          invariant 0 <= bank <= 2
          invariant bank == 0 ==> c == MixUpTo(d.chip, src, slot)
          invariant bank == 1 ==> c == MixUpTo(d.chip, src, slot).WriteSlot(slot, Chosen(src)).Swap()
          invariant bank == 2 ==> c == MixUpTo(d.chip, src, slot + 1)
        {
          c := c.WriteSlot(slot, Chosen(src));
          if bank == 0 {
            c := c.Swap();
          }
          bank := bank + 1;
        }
        slot := slot + 1;
      }
      devs[i] := OnChip(d, c);
    }

    /** Program a device; what a flow brings with it is taken back after the
        download, in standby. */
    method Program(i: nat)
      requires i < devs.Length
      modifies devs, `resident
      ensures devs[i] == ProgramDevice(old(devs[i]), clocked, src)
      ensures forall j :: 0 <= j < devs.Length && j != i ==> devs[j] == old(devs[j])
      ensures resident == (old(resident) || (clocked && devs[i].hasFlow))
    {
      var d := devs[i];
      var c := d.chip.Mute();
      c := c.ToStandby();
      c := c.Mute();
      var download := d.hasFlow && clocked;
      if download {
        c := c.ResetModules();
        c := c.Download(clocked);
        c := c.Mute();
        c := c.ToStandby();
        c := c.CramMode(false);
        c := c.CramMode(true);
        c := c.ToActive();
      }
      c := c.Mute();
      devs[i] := OnChip(d, c);
      if download {
        resident := true;
        devs[i] := devs[i].(hasInputMix := d.mixerFlow);
        WriteMix(i);
      }
    }

    method ProgramAll()
      modifies devs, `resident
      ensures forall i :: 0 <= i < devs.Length ==> devs[i] == ProgramDevice(old(devs[i]), clocked, src)
      ensures resident == (old(resident) || (clocked && exists i :: 0 <= i < devs.Length && old(devs[i]).hasFlow))
    {
      var i := 0;
      while i < devs.Length
        invariant 0 <= i <= devs.Length
        invariant forall j :: 0 <= j < devs.Length ==>
          (devs[j] == if j < i then ProgramDevice(old(devs[j]), clocked, src) else old(devs[j]))
        invariant resident == (old(resident) || (clocked && exists j :: 0 <= j < i && old(devs[j]).hasFlow))
      {
        KeepsFlow(devs[i], clocked, src);
        Program(i);
        i := i + 1;
      }
    }

    method ReprogramLocked()
      modifies devs, `resident
      ensures forall i :: 0 <= i < devs.Length ==> devs[i] == Reprogram(old(devs[i]), clocked, src)
      ensures resident == (old(resident) || (clocked && exists i :: 0 <= i < devs.Length && old(devs[i]).hasFlow))
    {
      ParkAll();
      ProgramAll();
      ParkAll();
    }

    /** The driver's start: every device is programmed, without clocks. */
    method Init()
      requires Loaded(devs[..]) && !clocked && !resident && power == Off
      modifies devs, `resident
      ensures Started(Abstract())
      ensures forall i :: 0 <= i < devs.Length ==>
        devs[i].hasFlow == old(devs[i]).hasFlow && devs[i].mixerFlow == old(devs[i]).mixerFlow
    {
      ProgramAll();
      forall i | 0 <= i < devs.Length ensures old(devs[..])[i] == old(devs[i]) && devs[..][i] == devs[i] {
      }
    }

    method PowerDownAll()
      modifies devs
      ensures forall i :: 0 <= i < devs.Length ==> devs[i] == PowerDown(old(devs[i]))
    {
      for i := 0 to devs.Length
        invariant forall j :: 0 <= j < devs.Length ==>
          (devs[j] == if j < i then PowerDown(old(devs[j])) else old(devs[j]))
      {
        devs[i] := devs[i].(hasInputMix := false);
        devs[i] := OnChip(devs[i], devs[i].chip.Mute());
        devs[i] := OnChip(devs[i], devs[i].chip.ToPowerdown());
      }
    }

    method WakeAll()
      modifies devs
      ensures forall i :: 0 <= i < devs.Length ==> devs[i] == Wake(old(devs[i]))
    {
      ActivateAll(true);
      UnmuteAll();
      EnableSpeaker(true);
    }

    method WakeAllParked()
      modifies devs
      ensures forall i :: 0 <= i < devs.Length ==> devs[i] == WakeParked(old(devs[i]))
    {
      ActivateAll(false);
      UnmuteAll();
      EnableSpeaker(true);
    }

    method StandbyAll()
      modifies devs, `resident
      ensures forall i :: 0 <= i < devs.Length ==>
        devs[i] == DeviceStep(old(Abstract()), old(devs[i]), SetPower(Standby))
      ensures resident == ResidentAfter(old(Abstract()), SetPower(Standby))
    {
      EnableSpeaker(false);
      if power == Off {
        ReprogramLocked();
      } else {
        ParkAll();
      }
    }

    method OnAll()
      modifies devs, `resident
      ensures forall i :: 0 <= i < devs.Length ==> devs[i] == DeviceStep(old(Abstract()), old(devs[i]), SetPower(On))
      ensures resident == ResidentAfter(old(Abstract()), SetPower(On))
    {
      EnableSpeaker(false);
      if power != On && !resident {
        ReprogramLocked();
      }
      WakeAll();
    }

    method OffAll()
      modifies devs, `resident
      ensures forall i :: 0 <= i < devs.Length ==> devs[i] == DeviceStep(old(Abstract()), old(devs[i]), SetPower(Off))
      ensures !resident
    {
      EnableSpeaker(false);
      resident := false;
      PowerDownAll();
    }

    method SetPowerMode(mode: Power)
      modifies this, devs
      ensures Abstract() == Step(old(Abstract()), SetPower(mode)) && power == mode
    {
      match mode {
        case Standby => StandbyAll();
        case On => OnAll();
        case Off => OffAll();
      }
      power := mode;
      assert devs[..] == Step(old(Abstract()), SetPower(mode)).devs;
    }

    method OnI2sStarted()
      modifies this, devs
      ensures Abstract() == Step(old(Abstract()), I2sStarted) && clocked
    {
      clocked := true;
      if power != Off && !resident {
        EnableSpeaker(false);
        ReprogramLocked();
        if power == On {
          WakeAllParked();
        }
      }
      assert devs[..] == Step(old(Abstract()), I2sStarted).devs;
    }

    method SetInputSource(s: Source)
      modifies this, devs
      ensures Abstract() == Step(old(Abstract()), SetInput(s)) && src == s
      ensures forall i :: 0 <= i < devs.Length && devs[i].hasInputMix && old(devs[i].chip.adaptive) ==>
        Selected(devs[i].chip, s)
    {
      src := s;
      var i := 0;
      while i < devs.Length
        invariant 0 <= i <= devs.Length && src == s
        invariant clocked == old(clocked) && resident == old(resident) && power == old(power)
        invariant forall j :: 0 <= j < devs.Length ==>
          (devs[j] == if j < i then WriteInputMix(old(devs[j]), s) else old(devs[j]))
      {
        WriteMix(i);
        i := i + 1;
      }
      assert devs[..] == Step(old(Abstract()), SetInput(s)).devs;
      forall j | 0 <= j < devs.Length && devs[j].hasInputMix && old(devs[j].chip.adaptive)
        ensures Selected(devs[j].chip, s)
      {
        MixIsSelected(old(devs[j]), s);
      }
    }
  }

  /** The device after the first n slots have been written to both banks. */
  function MixUpTo(c: Chip, src: Source, n: nat): Chip {
    if n == 0 then c
    else MixUpTo(c, src, n - 1).WriteSlot(n - 1, Chosen(src)).Swap().WriteSlot(n - 1, Chosen(src))
  }

  lemma KeepsFlow(d: Device, clocked: bool, src: Source)
    ensures ProgramDevice(d, clocked, src).hasFlow == d.hasFlow
  {
  }
}
