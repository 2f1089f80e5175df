/** A hybrid flow is a program for the amplifier's DSP: blocks of register
    writes. The driver decides whether a flow has an input mixer by replaying
    it into a shadow of two coefficient slots. Here the replay is compared with
    what the flow does to the device. */
module HybridFlow {
  import opened Bytes

  const REG_PAGE := 0x00
  const REG_RESET := 0x01
  const PAGE_INPUT_MIX := 0x32
  const MIX_LEN := 8
  /** Where the left and the right gain pair begin. */
  const SLOTS: seq<int> := [0x5C, 0x70]

  /** The three gain pairs a mixer is ever authored with. */
  const INPUT_COEFF: seq<seq<Byte>> := [
    [0x40, 0x00, 0x00, 0x00, 0x40, 0x00, 0x00, 0x00],
    [0x7F, 0xFF, 0xFF, 0x00, 0x00, 0x00, 0x00, 0x00],
    [0x00, 0x00, 0x00, 0x00, 0x7F, 0xFF, 0xFF, 0x00]]

  /* ---------- The device ---------- */

  /** A device: the page selected, and what has been written where. */
  datatype Device = Device(page: Byte, mem: map<(int, int), Byte>)
  {
    /** Memory starts out zeroed. */
    function Read(page: int, reg: int): Byte {
      if (page, reg) in mem then mem[(page, reg)] else 0
    }

    predicate Written(page: int, reg: int) {
      (page, reg) in mem
    }
  }

  const ZEROED := Device(0, map[])

  /** Bit 4 of the reset register clears the coefficients. */
  predicate IsModuleReset(v: Byte) {
    v / 16 % 2 == 1
  }

  /** One byte to a register. The page register is there on every page. */
  function Put(d: Device, reg: int, v: Byte): Device {
    if reg == REG_PAGE then d.(page := v)
    else if d.page == 0 && reg == REG_RESET && IsModuleReset(v) then d.(mem := map[])
    else d.(mem := d.mem[(d.page, reg) := v])
  }

  /** A block: from register to register. */
  function PutAll(d: Device, reg: int, data: seq<Byte>): Device
    decreases |data|
  {
    if data == [] then d else PutAll(Put(d, reg, data[0]), reg + 1, data[1..])
  }

  /* ---------- The stream ---------- */

  predicate AtEnd(s: seq<Byte>, pos: nat) {
    pos + 1 < |s| && s[pos] == 0xFF && s[pos + 1] == 0xFF
  }

  predicate HasBlock(s: seq<Byte>, pos: nat) {
    pos + 1 < |s| && pos + 2 + s[pos + 1] <= |s|
  }

  function Data(s: seq<Byte>, pos: nat): (data: seq<Byte>)
    requires HasBlock(s, pos)
    ensures |data| == s[pos + 1]
  {
    s[pos + 2..pos + 2 + s[pos + 1]]
  }

  /** A block stays within a page; the page is selected by a write of its own;
      and the flow does not reset the modules. */
  predicate BlockOk(page: Byte, reg: Byte, data: seq<Byte>) {
    && reg + |data| <= 0x80
    && (reg == REG_PAGE ==> |data| == 1)
    && (page == 0 && reg == REG_RESET && |data| > 0 ==> !IsModuleReset(data[0]))
  }

  /** Well-formed from a block on, with a page selected. */
  predicate WellFormed(s: seq<Byte>, pos: nat, page: Byte)
    requires pos <= |s|
    decreases |s| - pos
  {
    AtEnd(s, pos) ||
    (&& HasBlock(s, pos)
     && BlockOk(page, s[pos], Data(s, pos))
     && WellFormed(s, pos + 2 + s[pos + 1], if s[pos] == REG_PAGE then Data(s, pos)[0] else page))
  }

  /** The device after the flow from a block on. */
  function Played(s: seq<Byte>, pos: nat, d: Device): Device
    requires pos <= |s| && WellFormed(s, pos, d.page)
    decreases |s| - pos
  {
    if AtEnd(s, pos) then d
    else
      var e := PutAll(d, s[pos], Data(s, pos));
      BlockPage(d, s[pos], Data(s, pos));
      Played(s, pos + 2 + s[pos + 1], e)
  }

  lemma {:induction false} PutAllAt(d: Device, reg: int, data: seq<Byte>, page: int, r: int)
    requires reg > 0 && (d.page == 0 && reg == REG_RESET && |data| > 0 ==> !IsModuleReset(data[0]))
    ensures var e := PutAll(d, reg, data);
      && e.page == d.page
      && e.Read(page, r) == (if page == d.page && reg <= r < reg + |data| then data[r - reg] else d.Read(page, r))
      && (e.Written(page, r) <==> (page == d.page && reg <= r < reg + |data|) || d.Written(page, r))
    decreases |data|
  {
    if data != [] {
      PutAllAt(Put(d, reg, data[0]), reg + 1, data[1..], page, r);
    }
  }

  lemma BlockPage(d: Device, reg: Byte, data: seq<Byte>)
    requires BlockOk(d.page, reg, data)
    ensures PutAll(d, reg, data).page == if reg == REG_PAGE then data[0] else d.page
  {
    if reg == REG_PAGE {
      assert data[1..] == [];
    } else {
      PutAllAt(d, reg, data, 0, 0);
    }
  }

  /** What a block does to a byte of the mixer's page. */
  lemma BlockAt(d: Device, reg: Byte, data: seq<Byte>, r: int)
    requires BlockOk(d.page, reg, data) && r > 0
    ensures var e := PutAll(d, reg, data); var hit := d.page == PAGE_INPUT_MIX && reg <= r < reg + |data|;
      && e.Read(PAGE_INPUT_MIX, r) == (if hit then data[r - reg] else d.Read(PAGE_INPUT_MIX, r))
      && (e.Written(PAGE_INPUT_MIX, r) <==> hit || d.Written(PAGE_INPUT_MIX, r))
  {
    if reg == REG_PAGE {
      assert data[1..] == [];
      assert PutAll(d, reg, data) == d.(page := data[0]);
    } else {
      PutAllAt(d, reg, data, PAGE_INPUT_MIX, r);
    }
  }

  /* ---------- The recogniser ---------- */

  /** The bytes of a slot. */
  ghost function SlotOf(d: Device, i: nat): (bs: seq<Byte>)
    requires i < 2
    ensures |bs| == MIX_LEN
  {
    seq<Byte>(MIX_LEN, k => d.Read(PAGE_INPUT_MIX, SLOTS[i] + k))
  }

  ghost predicate Touched(d: Device, i: nat)
    requires i < 2
  {
    exists r :: SLOTS[i] <= r < SLOTS[i] + MIX_LEN && d.Written(PAGE_INPUT_MIX, r)
  }

  /** The device has an input mixer: both slots were written, and each holds
      one of the gain pairs. */
  ghost predicate HasMixer(d: Device) {
    forall i :: 0 <= i < 2 ==> Touched(d, i) && SlotOf(d, i) in INPUT_COEFF
  }

  /** One slot of the shadow agrees with the device. */
  ghost predicate Mirrors(shadow: seq<Byte>, touched: bool, d: Device, i: nat)
    requires i < 2
  {
    shadow == SlotOf(d, i) && (touched <==> Touched(d, i))
  }

  /** A block and the first n registers of a slot have a register in common. */
  predicate Meets(slot: int, n: int, reg: int, len: int) {
    n > 0 && len > 0 && slot < reg + len && reg < slot + n
  }

  /** Replay one block into one slot. */
  method ReplaySlot(shadow: array<Byte>, slot: int, reg: Byte, data: seq<Byte>) returns (hit: bool)
    requires shadow.Length == MIX_LEN
    modifies shadow
    ensures forall k :: 0 <= k < MIX_LEN ==>
      (shadow[k] == if reg <= slot + k < reg + |data| then data[slot + k - reg] else old(shadow[k]))
    ensures hit <==> Meets(slot, MIX_LEN, reg, |data|)
  {
    hit := false;
    var k := 0;
    while k < MIX_LEN
      invariant 0 <= k <= MIX_LEN
      invariant forall j :: 0 <= j < MIX_LEN ==>
        (shadow[j] == if j < k && reg <= slot + j < reg + |data| then data[slot + j - reg] else old(shadow[j]))
      invariant hit <==> Meets(slot, k, reg, |data|)
    {
      var off := slot + k - reg;
      if 0 <= off < |data| {
        shadow[k] := data[off];
        hit := true;
      }
      k := k + 1;
    }
  }

  /** A block written to the mixer's page touches a slot if it meets it. */
  lemma BlockTouches(d: Device, reg: Byte, data: seq<Byte>, i: nat)
    requires BlockOk(d.page, reg, data) && i < 2
    ensures Touched(PutAll(d, reg, data), i) <==>
            (d.page == PAGE_INPUT_MIX && Meets(SLOTS[i], MIX_LEN, reg, |data|)) || Touched(d, i)
  {
    var e, slot := PutAll(d, reg, data), SLOTS[i];
    forall r | slot <= r < slot + MIX_LEN
      ensures e.Written(PAGE_INPUT_MIX, r) <==>
              (d.page == PAGE_INPUT_MIX && reg <= r < reg + |data|) || d.Written(PAGE_INPUT_MIX, r)
    {
      BlockAt(d, reg, data, r);
    }
    if d.page == PAGE_INPUT_MIX && Meets(slot, MIX_LEN, reg, |data|) {
      var r := if slot < reg then reg as int else slot;
      assert e.Written(PAGE_INPUT_MIX, r);
    }
  }

  lemma BlockMirrors(d: Device, reg: Byte, data: seq<Byte>, i: nat, before: seq<Byte>, after: seq<Byte>)
    requires BlockOk(d.page, reg, data) && i < 2
    requires before == SlotOf(d, i) && |after| == MIX_LEN
    requires forall k :: 0 <= k < MIX_LEN ==>
      (after[k] == if d.page == PAGE_INPUT_MIX && reg <= SLOTS[i] + k < reg + |data| then data[SLOTS[i] + k - reg]
                   else before[k])
    ensures after == SlotOf(PutAll(d, reg, data), i)
  {
    forall k | 0 <= k < MIX_LEN ensures after[k] == SlotOf(PutAll(d, reg, data), i)[k] {
      BlockAt(d, reg, data, SLOTS[i] + k);
    }
  }

  /** Replay one block into both slots of the shadow. */
  method ReplayBlock(a: array<Byte>, b: array<Byte>, touchedA: bool, touchedB: bool,
                     page: Byte, reg: Byte, data: seq<Byte>, ghost d: Device)
    returns (ta: bool, tb: bool)
    requires a != b && a.Length == MIX_LEN && b.Length == MIX_LEN && page == d.page && BlockOk(page, reg, data)
    requires Mirrors(a[..], touchedA, d, 0) && Mirrors(b[..], touchedB, d, 1)
    modifies a, b
    ensures var e := PutAll(d, reg, data); Mirrors(a[..], ta, e, 0) && Mirrors(b[..], tb, e, 1)
  {
    ta, tb := touchedA, touchedB;
    ghost var wasA, wasB := a[..], b[..];
    if page == PAGE_INPUT_MIX {
      var hit := ReplaySlot(a, SLOTS[0], reg, data);
      ta := ta || hit;
      hit := ReplaySlot(b, SLOTS[1], reg, data);
      tb := tb || hit;
    }
    BlockMirrors(d, reg, data, 0, wasA, a[..]);
    BlockMirrors(d, reg, data, 1, wasB, b[..]);
    BlockTouches(d, reg, data, 0);
    BlockTouches(d, reg, data, 1);
  }

  /** Is this one of the gain pairs? */
  method IsKnown(shadow: array<Byte>) returns (known: bool)
    ensures known <==> shadow[..] in INPUT_COEFF
  {
    known := false;
    var k := 0;
    while k < |INPUT_COEFF| && !known
      invariant 0 <= k <= |INPUT_COEFF|
      invariant known <==> exists j :: 0 <= j < k && INPUT_COEFF[j] == shadow[..]
    {
      known := shadow[..] == INPUT_COEFF[k];
      k := k + 1;
    }
  }

  lemma ZeroedMirrors(shadow: seq<Byte>, i: nat)
    requires i < 2 && |shadow| == MIX_LEN && forall k :: 0 <= k < MIX_LEN ==> shadow[k] == 0
    ensures Mirrors(shadow, false, ZEROED, i)
  {
    var slot := SlotOf(ZEROED, i);
    assert forall k :: 0 <= k < MIX_LEN ==> slot[k] == ZEROED.Read(PAGE_INPUT_MIX, SLOTS[i] + k);
    assert shadow == slot;
  }

  /** Whether a flow has an input mixer: exactly if playing it on a zeroed
      device leaves a gain pair, written by the flow, in both slots. */
  method FlowHasInputMix(s: seq<Byte>) returns (yes: bool)
    requires WellFormed(s, 0, 0)
    ensures yes <==> HasMixer(Played(s, 0, ZEROED))
  {
    var a, b := new Byte[MIX_LEN](_ => 0), new Byte[MIX_LEN](_ => 0);
    var touchedA, touchedB := false, false;
    var pos: nat, page: Byte := 0, 0;
    ghost var d := ZEROED;
    ZeroedMirrors(a[..], 0);
    ZeroedMirrors(b[..], 1);
    while !(s[pos] == 0xFF && s[pos + 1] == 0xFF)
      invariant pos <= |s| && WellFormed(s, pos, page) && page == d.page
      invariant a.Length == MIX_LEN && b.Length == MIX_LEN && fresh(a) && fresh(b)
      invariant Mirrors(a[..], touchedA, d, 0) && Mirrors(b[..], touchedB, d, 1)
      invariant Played(s, pos, d) == Played(s, 0, ZEROED)
      decreases |s| - pos
    {
      var reg, data := s[pos], Data(s, pos);
      touchedA, touchedB := ReplayBlock(a, b, touchedA, touchedB, page, reg, data, d);
      BlockPage(d, reg, data);
      d := PutAll(d, reg, data);
      if reg == REG_PAGE && |data| == 1 {
        page := data[0];
      }
      pos := pos + 2 + |data|;
    }
    yes := false;
    if touchedA && touchedB {
      yes := IsKnown(a);
      if yes {
        yes := IsKnown(b);
      }
    }
  }

  /* ---------- A flow with a mixer ---------- */

  /** Page 0x32, the gains of the left channel in both slots, and the end. */
  const LEFT_FLOW: seq<Byte> := [0x00, 1, 0x32] + [0x5C, 8] + LEFT_GAINS + [0x70, 8] + LEFT_GAINS + [0xFF, 0xFF]

  const LEFT_GAINS: seq<Byte> := [0x7F, 0xFF, 0xFF, 0x00, 0x00, 0x00, 0x00, 0x00]

  function AfterPage(): Device {
    Device(0x32, map[])
  }

  function AfterSlots(): Device {
    PutAll(PutAll(AfterPage(), 0x5C, LEFT_GAINS), 0x70, LEFT_GAINS)
  }

  lemma LeftByte(i: nat, k: nat)
    requires i < 2 && k < MIX_LEN
    ensures AfterSlots().Read(0x32, SLOTS[i] + k) == LEFT_GAINS[k] && AfterSlots().Written(0x32, SLOTS[i] + k)
  {
    var d, e := AfterPage(), PutAll(AfterPage(), 0x5C, LEFT_GAINS);
    PutAllAt(d, 0x5C, LEFT_GAINS, 0x32, SLOTS[i] + k);
    PutAllAt(e, 0x70, LEFT_GAINS, 0x32, SLOTS[i] + k);
  }

  /** Both slots of a device hold some gains. */
  ghost predicate HoldsGains(d: Device, g: seq<Byte>)
    requires |g| == MIX_LEN
  {
    forall i, k :: 0 <= i < 2 && 0 <= k < MIX_LEN ==>
      d.Read(PAGE_INPUT_MIX, SLOTS[i] + k) == g[k] && d.Written(PAGE_INPUT_MIX, SLOTS[i] + k)
  }

  lemma GainsAreMixer(d: Device, g: seq<Byte>)
    requires |g| == MIX_LEN && HoldsGains(d, g) && g in INPUT_COEFF
    ensures HasMixer(d)
  {
    forall i: nat | i < 2 ensures Touched(d, i) && SlotOf(d, i) == g {
      assert d.Read(PAGE_INPUT_MIX, SLOTS[i] + 0) == g[0];
      assert d.Written(PAGE_INPUT_MIX, SLOTS[i] + 0);
    }
  }

  lemma LeftIsHeld()
    ensures HoldsGains(AfterSlots(), LEFT_GAINS)
  {
    forall i, k | 0 <= i < 2 && 0 <= k < MIX_LEN
      ensures AfterSlots().Read(PAGE_INPUT_MIX, SLOTS[i] + k) == LEFT_GAINS[k]
              && AfterSlots().Written(PAGE_INPUT_MIX, SLOTS[i] + k)
    {
      LeftByte(i, k);
    }
  }

  lemma FlowLayout()
    ensures |LEFT_FLOW| == 25
    ensures LEFT_FLOW[0] == 0x00 && LEFT_FLOW[1] == 1 && LEFT_FLOW[2..3] == [0x32]
    ensures LEFT_FLOW[3] == 0x5C && LEFT_FLOW[4] == 8 && LEFT_FLOW[5..13] == LEFT_GAINS
    ensures LEFT_FLOW[13] == 0x70 && LEFT_FLOW[14] == 8 && LEFT_FLOW[15..23] == LEFT_GAINS
    ensures LEFT_FLOW[23] == 0xFF && LEFT_FLOW[24] == 0xFF
  {
  }

  lemma LeftIsWellFormed()
    ensures WellFormed(LEFT_FLOW, 0, 0) && WellFormed(LEFT_FLOW, 3, 0x32)
    ensures WellFormed(LEFT_FLOW, 13, 0x32) && WellFormed(LEFT_FLOW, 23, 0x32)
  {
    FlowLayout();
    assert WellFormed(LEFT_FLOW, 23, 0x32);
    assert WellFormed(LEFT_FLOW, 13, 0x32);
    assert WellFormed(LEFT_FLOW, 3, 0x32);
  }

  /** The recogniser takes it for a flow with an input mixer. */
  lemma LeftFlowHasMixer()
    ensures WellFormed(LEFT_FLOW, 0, 0) && HasMixer(Played(LEFT_FLOW, 0, ZEROED))
  {
    LeftIsWellFormed();
    PlayedLeft();
    LeftIsHeld();
    assert LEFT_GAINS == INPUT_COEFF[1];
    GainsAreMixer(Played(LEFT_FLOW, 0, ZEROED), LEFT_GAINS);
  }

  lemma PlayedLeft()
    requires WellFormed(LEFT_FLOW, 0, 0) && WellFormed(LEFT_FLOW, 3, 0x32)
    requires WellFormed(LEFT_FLOW, 13, 0x32) && WellFormed(LEFT_FLOW, 23, 0x32)
    ensures Played(LEFT_FLOW, 0, ZEROED) == AfterSlots()
  {
    FlowLayout();
    var d, e, f := AfterPage(), PutAll(AfterPage(), 0x5C, LEFT_GAINS), AfterSlots();
    PutAllAt(d, 0x5C, LEFT_GAINS, 0x32, 0x5C);
    PutAllAt(e, 0x70, LEFT_GAINS, 0x32, 0x70);
    var one: seq<Byte> := [0x32];
    assert one[1..] == [] && PutAll(ZEROED, 0x00, one) == d;
    assert Played(LEFT_FLOW, 23, f) == f;
    assert Played(LEFT_FLOW, 13, e) == f;
    assert Played(LEFT_FLOW, 3, d) == f;
  }
}
