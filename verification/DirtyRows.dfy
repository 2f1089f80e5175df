/** The display's row cache: only rows whose pixels moved are sent, and the
    copy of what the panel shows must not be trusted further than the bus. */
module DirtyRows {
  import opened Bytes

  type Row = seq<Byte>

  const SHADOW_BYTES := 1024

  /** What a transfer leaves in a row of the panel: the row, or something else
      and a counted error. */
  datatype Transfer = Landed | Dropped(left: Row)

  /** What the panel shows, what the driver believes, and whether it does. */
  datatype Cache = Cache(panel: seq<Row>, shadow: seq<Row>, valid: bool)

  /** A row is sent. */
  predicate IsSent(s: Cache, buf: seq<Row>, cached: bool, i: nat)
    requires i < |buf| == |s.shadow|
  {
    !cached || !s.valid || buf[i] != s.shadow[i]
  }

  /** The panel's row after its turn. */
  function Shown(s: Cache, buf: seq<Row>, bus: seq<Transfer>, cached: bool, i: nat): Row
    requires i < |buf| == |s.shadow| == |s.panel| == |bus|
  {
    if !IsSent(s, buf, cached, i) then s.panel[i]
    else match bus[i]
      case Landed => buf[i]
      case Dropped(left) => left
  }

  predicate Fails(s: Cache, buf: seq<Row>, bus: seq<Transfer>, cached: bool)
    requires |buf| == |s.shadow| == |s.panel| == |bus|
  {
    exists i :: 0 <= i < |buf| && IsSent(s, buf, cached, i) && bus[i].Dropped?
  }

  predicate SameSize(s: Cache, buf: seq<Row>, bus: seq<Transfer>) {
    |buf| == |s.shadow| == |s.panel| == |bus|
  }

  /** One frame. A display too large for the shadow is always sent whole. */
  function Frame(s: Cache, buf: seq<Row>, bus: seq<Transfer>, cached: bool): (t: Cache)
    requires SameSize(s, buf, bus)
    ensures |t.panel| == |t.shadow| == |buf|
  {
    var panel := seq(|buf|, i requires 0 <= i < |buf| => Shown(s, buf, bus, cached, i));
    if !cached then s.(panel := panel)
    else if Fails(s, buf, bus, cached) then Cache(panel, s.shadow, false)
    else Cache(panel, buf, true)
  }

  /** While the shadow counts, it is what the panel shows. */
  predicate Truthful(s: Cache) {
    |s.panel| == |s.shadow| && (s.valid ==> s.panel == s.shadow)
  }

  /** A frame without an error leaves the panel showing the buffer, and a shadow, if
      there is room for one, that is known to be the same; one with an error makes
      the next frame send every row; the shadow stays truthful. */
  lemma FrameShowsBuffer(s: Cache, buf: seq<Row>, bus: seq<Transfer>, cached: bool)
    requires Truthful(s) && SameSize(s, buf, bus) && (!cached ==> !s.valid)
    ensures var t := Frame(s, buf, bus, cached);
      && Truthful(t) && (!cached ==> !t.valid)
      && (!Fails(s, buf, bus, cached) ==> t.panel == buf)
      && (Fails(s, buf, bus, cached) ==> !t.valid)
      && (cached && !Fails(s, buf, bus, cached) ==> t.valid && t.shadow == buf)
  {
    var t := Frame(s, buf, bus, cached);
    if !Fails(s, buf, bus, cached) {
      forall i | 0 <= i < |buf| ensures t.panel[i] == buf[i] {
        assert IsSent(s, buf, cached, i) ==> !bus[i].Dropped?;
      }
      assert t.panel == buf;
    }
  }

  /** Rows that did not move since a good frame are not sent, so that nothing on the
      bus can touch them; every other row is. */
  lemma OnlyMovedRowsAreSent(s: Cache, buf: seq<Row>, bus: seq<Transfer>, cached: bool, i: nat)
    requires SameSize(s, buf, bus) && i < |buf|
    ensures var row := Frame(s, buf, bus, cached).panel[i];
      if cached && s.valid && buf[i] == s.shadow[i] then row == s.panel[i]
      else row == if bus[i].Landed? then buf[i] else bus[i].left
  {
  }

  /** A frame to be shown, and what the bus makes of it. */
  datatype Show = Show(buf: seq<Row>, bus: seq<Transfer>)

  predicate AllSized(frames: seq<Show>, rows: nat) {
    forall k :: 0 <= k < |frames| ==> |frames[k].buf| == rows && |frames[k].bus| == rows
  }

  function Run(s: Cache, frames: seq<Show>, cached: bool): (t: Cache)
    requires |s.panel| == |s.shadow| && AllSized(frames, |s.panel|)
    ensures |t.panel| == |t.shadow| == |s.panel|
  {
    if frames == [] then s
    else
      var last := frames[|frames| - 1];
      Frame(Run(s, frames[..|frames| - 1], cached), last.buf, last.bus, cached)
  }

  lemma {:induction false} RunIsTruthful(s: Cache, frames: seq<Show>, cached: bool)
    requires Truthful(s) && AllSized(frames, |s.panel|) && (!cached ==> !s.valid)
    ensures Truthful(Run(s, frames, cached)) && (!cached ==> !Run(s, frames, cached).valid)
  {
    if frames != [] {
      var init, last := frames[..|frames| - 1], frames[|frames| - 1];
      RunIsTruthful(s, init, cached);
      FrameShowsBuffer(Run(s, init, cached), last.buf, last.bus, cached);
    }
  }

  /** From the start, after any frames, whatever the bus has dropped: a frame
      whose rows all land leaves on the panel exactly what sending all of it
      would have left. */
  lemma SendingDirtyRowsIsSendingAll(panel: seq<Row>, shadow: seq<Row>, frames: seq<Show>, f: Show, cached: bool)
    requires |panel| == |shadow| && AllSized(frames, |panel|) && |f.buf| == |f.bus| == |panel|
    requires forall i :: 0 <= i < |f.bus| ==> f.bus[i].Landed?
    ensures Frame(Run(Cache(panel, shadow, false), frames, cached), f.buf, f.bus, cached).panel == f.buf
  {
    var s := Cache(panel, shadow, false);
    RunIsTruthful(s, frames, cached);
    FrameShowsBuffer(Run(s, frames, cached), f.buf, f.bus, cached);
  }
}
