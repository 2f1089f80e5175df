/** The display's frame as the source sends it: runs of changed rows found by
    comparing with the shadow, against DirtyRows. */
module Display {
  import opened DirtyRows

  class Display {
    const rowBytes: nat
    const buf: array<Row>
    const panel: array<Row>
    const shadow: array<Row>
    var shadowValid: bool
    /** How many transfers have failed. */
    var errors: nat

    ghost function Abstract(): Cache
      reads this, panel, shadow
    {
      Cache(panel[..], shadow[..], shadowValid)
    }

    ghost predicate Distinct()
      reads this
    {
      && buf != panel && buf != shadow && panel != shadow
      && buf.Length == panel.Length == shadow.Length
    }

    constructor (rowBytes: nat, buf: array<Row>, panel: array<Row>)
      requires buf != panel && buf.Length == panel.Length
      ensures this.rowBytes == rowBytes && this.buf == buf && this.panel == panel && fresh(shadow)
      ensures Distinct() && !shadowValid && errors == 0
    {
      this.rowBytes, this.buf, this.panel := rowBytes, buf, panel;
      shadow := new Row[buf.Length](_ => []);
      shadowValid, errors := false, 0;
    }

    /** Does the shadow have room for the whole display? */
    predicate Cached()
      reads this
    {
      rowBytes * buf.Length <= SHADOW_BYTES
    }

    /** Transfer rows from first to end, one after the other. */
    method SendArea(first: nat, end: nat, bus: seq<Transfer>)
      requires Distinct() && first <= end <= buf.Length == |bus|
      modifies panel, `errors
      ensures forall i :: 0 <= i < panel.Length ==>
        (panel[i] == if first <= i < end then Outcome(buf[i], bus[i]) else old(panel[i]))
      ensures errors == old(errors) + DroppedIn(bus, first, end)
    {
      var row := first;
      while row < end
        invariant first <= row <= end
        invariant forall i :: 0 <= i < panel.Length ==>
          (panel[i] == if first <= i < row then Outcome(buf[i], bus[i]) else old(panel[i]))
        invariant errors == old(errors) + DroppedIn(bus, first, row)
      {
        panel[row] := Outcome(buf[row], bus[row]);
        if bus[row].Dropped? {
          errors := errors + 1;
        }
        row := row + 1;
      }
    }

    /** Send the runs of rows that differ from the shadow. */
    method SendRuns(bus: seq<Transfer>)
      requires Distinct() && |bus| == buf.Length
      modifies panel, `errors
      ensures forall i :: 0 <= i < panel.Length ==>
        (panel[i] == if buf[i] != shadow[i] then Outcome(buf[i], bus[i]) else old(panel[i]))
      ensures errors >= old(errors)
      ensures errors == old(errors) <==> forall i :: 0 <= i < buf.Length && buf[i] != shadow[i] ==> bus[i].Landed?
    {
      var row := 0;
      while row < buf.Length
        invariant 0 <= row <= buf.Length && errors >= old(errors)
        invariant forall i :: 0 <= i < panel.Length ==>
          (panel[i] == if i < row && buf[i] != shadow[i] then Outcome(buf[i], bus[i]) else old(panel[i]))
        invariant errors == old(errors) <==> forall i :: 0 <= i < row && buf[i] != shadow[i] ==> bus[i].Landed?
      {
        if buf[row] == shadow[row] {
          row := row + 1;
        } else {
          var first := row;
          while row < buf.Length && buf[row] != shadow[row]
            invariant first <= row <= buf.Length
            invariant forall i :: first <= i < row ==> buf[i] != shadow[i]
          {
            row := row + 1;
          }
          SendArea(first, row, bus);
          NoneDropped(bus, first, row);
        }
      }
    }

    /** Send what moved since the last good frame. */
    method SendDirtyRows(bus: seq<Transfer>)
      requires Distinct() && |bus| == buf.Length
      modifies panel, shadow, this`errors, this`shadowValid
      ensures Abstract() == Frame(old(Abstract()), old(buf[..]), bus, Cached())
      ensures buf[..] == old(buf[..])
      ensures errors == old(errors) <==> !Fails(old(Abstract()), old(buf[..]), bus, Cached())
    {
      var before := errors;
      if rowBytes * buf.Length > SHADOW_BYTES {
        SendArea(0, buf.Length, bus);
        NoneDropped(bus, 0, buf.Length);
        assert panel[..] == Frame(old(Abstract()), old(buf[..]), bus, Cached()).panel;
        return;
      }
      if !shadowValid {
        SendArea(0, buf.Length, bus);
        NoneDropped(bus, 0, buf.Length);
      } else {
        SendRuns(bus);
      }
      assert panel[..] == Frame(old(Abstract()), old(buf[..]), bus, Cached()).panel;
      if errors != before {
        shadowValid := false;
        return;
      }
      CopyShadow();
      shadowValid := true;
    }

    method CopyShadow()
      requires Distinct()
      modifies shadow
      ensures shadow[..] == buf[..]
    {
      var i := 0;
      while i < buf.Length
        invariant 0 <= i <= buf.Length && shadow[..i] == buf[..i]
      {
        shadow[i] := buf[i];
        i := i + 1;
      }
    }
  }

  /** A row of the panel after a transfer. */
  function Outcome(row: Row, t: Transfer): Row {
    match t
    case Landed => row
    case Dropped(left) => left
  }

  function DroppedIn(bus: seq<Transfer>, lo: nat, hi: nat): nat
    requires lo <= hi <= |bus|
    decreases hi
  {
    if lo == hi then 0 else DroppedIn(bus, lo, hi - 1) + (if bus[hi - 1].Dropped? then 1 else 0)
  }

  lemma {:induction false} NoneDropped(bus: seq<Transfer>, lo: nat, hi: nat)
    requires lo <= hi <= |bus|
    ensures DroppedIn(bus, lo, hi) == 0 <==> forall i :: lo <= i < hi ==> bus[i].Landed?
    decreases hi
  {
    if lo < hi {
      NoneDropped(bus, lo, hi - 1);
    }
  }
}
