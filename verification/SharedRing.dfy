/** The byte ring between the file reader and the player, as the two tasks see
    it: one writer and one reader, no lock, every access to the shared indices
    and every copied byte a step of its own. */
module SharedRing {
  import opened Bytes

  /** Where the writing task is: it sizes a read with one look at the ring,
      and the write looks again. */
  datatype Writer =
    | Rest
    | Sizing(h: int)
    | Sized(space: int)
    | Holding(data: seq<Byte>)
    | Checking(data: seq<Byte>, h: int)
    | Ready(data: seq<Byte>, len: int)
    | Copying(data: seq<Byte>, len: int, h: int, done: nat)

  datatype Reader =
    | Quiet
    | Looking(h: int)
    | Seen(avail: int)
    | Asking(want: int, h: int)
    | Granted(len: int)
    | Taking(len: int, t: int, got: seq<Byte>)

  /** The ring, the two tasks, and the logs of what was published by either. */
  datatype Ring = Ring(buf: seq<Byte>, head: int, tail: int, w: Writer, r: Reader, written: seq<Byte>, read: seq<Byte>)
  {
    function Size(): nat {
      |buf|
    }
  }

  function Min(a: int, b: int): (m: int)
    ensures m <= a && m <= b && (m == a || m == b)
  {
    if a < b then a else b
  }

  /** The used bytes as one task computes them from two indices. */
  function Used(h: int, t: int, size: int): int {
    if h >= t then h - t else size - t + h
  }

  function Free(h: int, t: int, size: int): int {
    size - Used(h, t, size) - 1
  }

  /** The byte i places after index x: memcpy in two parts. */
  function Wrap(x: int, i: int, size: int): int {
    if i < size - x then x + i else i - (size - x)
  }

  datatype Event =
    | LookHead | LookTail            // the writer sizes its next read
    | Fetch(data: seq<Byte>)         // and gets at most that much
    | CheckHead | CheckTail          // the write sizes itself
    | StartCopy | CopyByte | PublishHead
    | PeekHead | PeekTail            // the reader sees what there is
    | Ask(limit: nat)                // and asks for at most a buffer full
    | AskTail
    | StartTake | TakeByte | PublishTail

  /** One step of one of the tasks; what is not possible changes nothing. */
  function Step(s: Ring, e: Event): Ring {
    match e
    case LookHead => if s.w.Rest? then s.(w := Sizing(s.head)) else s
    case LookTail => if s.w.Sizing? then s.(w := Sized(Free(s.w.h, s.tail, s.Size()))) else s
    case Fetch(data) =>
      if s.w.Sized? then s.(w := if 0 < |data| <= s.w.space then Holding(data) else Rest) else s
    case CheckHead => if s.w.Holding? then s.(w := Checking(s.w.data, s.head)) else s
    case CheckTail =>
      if s.w.Checking? then
        var len := Min(|s.w.data|, Free(s.w.h, s.tail, s.Size()));
        s.(w := if len == 0 then Rest else Ready(s.w.data, len))
      else s
    case StartCopy => if s.w.Ready? then s.(w := Copying(s.w.data, s.w.len, s.head, 0)) else s
    case CopyByte => if s.w.Copying? && s.w.done < s.w.len then CopyStep(s) else s
    case PublishHead => if s.w.Copying? && s.w.done >= s.w.len then PublishWrite(s) else s
    case PeekHead => if s.r.Quiet? then s.(r := Looking(s.head)) else s
    case PeekTail => if s.r.Looking? then s.(r := Seen(Used(s.r.h, s.tail, s.Size()))) else s
    case Ask(limit) =>
      if s.r.Seen? then s.(r := if s.r.avail == 0 then Quiet else Asking(Min(s.r.avail, limit), s.head)) else s
    case AskTail =>
      if s.r.Asking? then
        var len := Min(s.r.want, Used(s.r.h, s.tail, s.Size()));
        s.(r := if len == 0 then Quiet else Granted(len))
      else s
    case StartTake => if s.r.Granted? then s.(r := Taking(s.r.len, s.tail, [])) else s
    case TakeByte => if s.r.Taking? && |s.r.got| < s.r.len then TakeStep(s) else s
    case PublishTail => if s.r.Taking? && |s.r.got| >= s.r.len then PublishRead(s) else s
  }

  /** The index the writer is about to write. */
  function WriteIndex(s: Ring): int
    requires s.w.Copying?
  {
    Wrap(s.w.h, s.w.done, s.Size())
  }

  function ReadIndex(s: Ring): int
    requires s.r.Taking?
  {
    Wrap(s.r.t, |s.r.got|, s.Size())
  }

  function CopyStep(s: Ring): Ring
    requires s.w.Copying?
  {
    var i := WriteIndex(s);
    if 0 <= i < |s.buf| && s.w.done < |s.w.data|
    then s.(buf := s.buf[i := s.w.data[s.w.done]], w := s.w.(done := s.w.done + 1))
    else s
  }

  function PublishWrite(s: Ring): Ring
    requires s.w.Copying?
  {
    if 0 <= s.w.len <= |s.w.data| && s.Size() > 0
    then s.(head := Slot(s.w.h + s.w.len, s.Size()), written := s.written + s.w.data[..s.w.len], w := Rest)
    else s
  }

  function TakeStep(s: Ring): Ring
    requires s.r.Taking?
  {
    var i := ReadIndex(s);
    if 0 <= i < |s.buf| then s.(r := s.r.(got := s.r.got + [s.buf[i]])) else s
  }

  function PublishRead(s: Ring): Ring
    requires s.r.Taking?
  {
    if s.Size() > 0
    then s.(tail := Slot(s.r.t + s.r.len, s.Size()), read := s.read + s.r.got, r := Quiet)
    else s
  }

  function Run(s: Ring, es: seq<Event>): Ring {
    if es == [] then s else Step(Run(s, es[..|es| - 1]), es[|es| - 1])
  }

  function Empty(buf: seq<Byte>): Ring {
    Ring(buf, 0, 0, Rest, Quiet, [], [])
  }

  /* ---------- Where byte k of the stream lives ---------- */

  function Slot(k: int, size: int): (i: int)
    requires size > 0
    ensures 0 <= i < size
  {
    k % size
  }

  lemma SlotWrap(k: nat, i: nat, size: int)
    requires size > 0 && i < size
    ensures Wrap(Slot(k, size), i, size) == Slot(k + i, size)
  {
    var q := k / size;
    assert k == q * size + k % size;
    if k % size + i < size {
      Residue(k + i, q, k % size + i, size);
    } else {
      assert k + i == (q + 1) * size + (k % size + i - size);
      Residue(k + i, q + 1, k % size + i - size, size);
    }
  }

  lemma Residue(n: int, q: int, r: int, size: int)
    requires size > 0 && 0 <= r < size && n == q * size + r
    ensures n % size == r
  {
    var d := n / size - q;
    assert d * size == r - n % size;
    assert d != 0 ==> d * size >= size || d * size <= -size;
  }

  lemma SlotAdd(k: nat, i: nat, size: int)
    requires size > 0 && i < size
    ensures Slot(Slot(k, size) + i, size) == Slot(k + i, size)
  {
    SlotWrap(k, i, size);
    var x := Slot(k, size) + i;
    if x < size {
      Residue(x, 0, x, size);
    } else {
      Residue(x, 1, x - size, size);
    }
  }

  lemma SlotsDiffer(j: nat, k: nat, size: int)
    requires size > 0 && j < k < j + size
    ensures Slot(j, size) != Slot(k, size)
  {
    SlotWrap(j, k - j, size);
  }

  lemma UsedIs(wr: nat, rd: nat, size: int)
    requires size > 0 && rd <= wr < rd + size
    ensures Used(Slot(wr, size), Slot(rd, size), size) == wr - rd
  {
    SlotWrap(rd, wr - rd, size);
  }

  /* ---------- The invariant ---------- */

  /** The indices follow the logs, what was read is what was written, and the
      unread bytes are in place. */
  ghost predicate Intact(s: Ring) {
    && s.Size() > 0
    && |s.read| <= |s.written| < |s.read| + s.Size()
    && s.head == Slot(|s.written|, s.Size()) && s.tail == Slot(|s.read|, s.Size())
    && s.read <= s.written
    && Unread(s.buf, s.written, |s.read|)
  }

  ghost predicate Unread(buf: seq<Byte>, written: seq<Byte>, from: nat)
    requires |buf| > 0
  {
    forall k :: from <= k < |written| ==> buf[Slot(k, |buf|)] == written[k]
  }

  function Room(s: Ring): int {
    s.Size() - 1 - (|s.written| - |s.read|)
  }

  function Fill(s: Ring): int {
    |s.written| - |s.read|
  }

  /** What the writer knows stays true while the reader works: it holds no
      more than fits, so its write will never be short. */
  ghost predicate WriterOk(s: Ring)
    requires s.Size() > 0
  {
    match s.w
    case Rest => true
    case Sizing(h) => h == s.head
    case Sized(space) => space <= Room(s)
    case Holding(data) => 0 < |data| <= Room(s)
    case Checking(data, h) => h == s.head && 0 < |data| <= Room(s)
    case Ready(data, len) => 0 < len == |data| <= Room(s)
    case Copying(data, len, h, done) =>
      && h == s.head && 0 < len == |data| <= Room(s) && done <= len
      && Placed(s.buf, |s.written|, data[..done])
  }

  /** Bytes copied but not yet published. */
  ghost predicate Placed(buf: seq<Byte>, at: nat, bytes: seq<Byte>)
    requires |buf| > 0
  {
    forall j :: 0 <= j < |bytes| ==> buf[Slot(at + j, |buf|)] == bytes[j]
  }

  ghost predicate ReaderOk(s: Ring) {
    match s.r
    case Quiet => true
    case Looking(h) => 0 <= Used(h, s.tail, s.Size()) <= Fill(s)
    case Seen(avail) => 0 <= avail <= Fill(s)
    case Asking(want, h) => 0 <= want && 0 <= Used(h, s.tail, s.Size()) <= Fill(s)
    case Granted(len) => 0 < len <= Fill(s)
    case Taking(len, t, got) =>
      && t == s.tail && 0 < len <= Fill(s) && |got| <= len && s.read + got <= s.written
  }

  ghost predicate Inv(s: Ring) {
    Intact(s) && WriterOk(s) && ReaderOk(s)
  }

  lemma InitInv(buf: seq<Byte>)
    requires |buf| > 0
    ensures Inv(Empty(buf))
  {
    assert Slot(0, |buf|) == 0;
  }

  /** Both indices measure the fill exactly. */
  lemma Measures(s: Ring)
    requires Intact(s)
    ensures Used(s.head, s.tail, s.Size()) == Fill(s)
    ensures Free(s.head, s.tail, s.Size()) == Room(s)
  {
    UsedIs(|s.written|, |s.read|, s.Size());
  }

  /** A byte copied beyond the published ones hits none that is still unread,
      and none copied before. */
  lemma CopyKeeps(s: Ring)
    requires Inv(s) && s.w.Copying? && s.w.done < s.w.len
    ensures WriteIndex(s) == Slot(|s.written| + s.w.done, s.Size())
    ensures Inv(CopyStep(s))
  {
    var i, n := WriteIndex(s), |s.written|;
    SlotWrap(n, s.w.done, s.Size());
    var b := s.buf[i := s.w.data[s.w.done]];
    forall k | |s.read| <= k < n + s.w.done ensures Slot(k, s.Size()) != i {
      SlotsDiffer(k, n + s.w.done, s.Size());
    }
    assert Unread(b, s.written, |s.read|);
    PlacedGrows(s.buf, b, n, s.w.data, s.w.done, i);
  }

  lemma PlacedGrows(buf: seq<Byte>, b: seq<Byte>, at: nat, data: seq<Byte>, done: nat, i: int)
    requires |buf| > 0 && done < |data| && i == Slot(at + done, |buf|) && b == buf[i := data[done]]
    requires Placed(buf, at, data[..done])
    requires forall k :: at <= k < at + done ==> Slot(k, |buf|) != i
    ensures Placed(b, at, data[..done + 1])
  {
    var p := data[..done + 1];
    forall j | 0 <= j < |p| ensures b[Slot(at + j, |buf|)] == p[j] {
      if j < done {
        assert buf[Slot(at + j, |buf|)] == data[..done][j];
      }
    }
  }

  lemma PublishWriteKeeps(s: Ring)
    requires Inv(s) && s.w.Copying? && s.w.done >= s.w.len
    ensures Inv(PublishWrite(s)) && PublishWrite(s).written == s.written + s.w.data
  {
    assert s.w.data[..s.w.len] == s.w.data;
    SlotAdd(|s.written|, s.w.len, s.Size());
    UnreadGrows(s.buf, s.written, s.w.data, |s.read|);
  }

  lemma UnreadGrows(buf: seq<Byte>, written: seq<Byte>, data: seq<Byte>, from: nat)
    requires |buf| > 0 && Unread(buf, written, from) && Placed(buf, |written|, data)
    ensures Unread(buf, written + data, from)
  {
    var n, all := |written|, written + data;
    forall k | from <= k < |all| ensures buf[Slot(k, |buf|)] == all[k] {
      if k >= n {
        assert buf[Slot(n + (k - n), |buf|)] == data[k - n];
      }
    }
  }

  lemma TakeKeeps(s: Ring)
    requires Inv(s) && s.r.Taking? && |s.r.got| < s.r.len
    ensures ReadIndex(s) == Slot(|s.read| + |s.r.got|, s.Size())
    ensures Inv(TakeStep(s)) && TakeStep(s) == s.(r := TakeStep(s).r)
  {
    var k := |s.read| + |s.r.got|;
    SlotWrap(|s.read|, |s.r.got|, s.Size());
    assert s.buf[Slot(k, s.Size())] == s.written[k];
    PrefixGrows(s.read, s.r.got, s.written, s.buf[ReadIndex(s)]);
  }

  lemma PrefixGrows(a: seq<Byte>, b: seq<Byte>, s: seq<Byte>, x: Byte)
    requires a + b <= s && |a| + |b| < |s| && s[|a| + |b|] == x
    ensures a + (b + [x]) <= s
  {
    assert a + (b + [x]) == (a + b) + [x];
  }

  lemma PublishReadKeeps(s: Ring)
    requires Inv(s) && s.r.Taking? && |s.r.got| >= s.r.len
    ensures Inv(PublishRead(s)) && PublishRead(s).read == s.read + s.r.got
    ensures PublishRead(s) == s.(tail := PublishRead(s).tail, read := PublishRead(s).read, r := Quiet)
  {
    SlotAdd(|s.read|, s.r.len, s.Size());
  }

  predicate IsWriterEvent(e: Event) {
    || e.LookHead? || e.LookTail? || e.Fetch? || e.CheckHead? || e.CheckTail?
    || e.StartCopy? || e.CopyByte? || e.PublishHead?
  }

  /** The writer's looks at the ring. */
  lemma WriterLookKeeps(s: Ring, e: Event)
    requires Inv(s) && IsWriterEvent(e) && !e.CopyByte? && !e.PublishHead?
    ensures Inv(Step(s, e)) && Step(s, e).Size() == s.Size()
    ensures Step(s, e) == s.(w := Step(s, e).w)
  {
    Measures(s);
    var t := Step(s, e);
    assert WriterOk(t);
  }

  lemma WriterStepKeeps(s: Ring, e: Event)
    requires Inv(s) && IsWriterEvent(e)
    ensures Inv(Step(s, e)) && Step(s, e).Size() == s.Size()
    ensures Step(s, e).read == s.read && Step(s, e).r == s.r
  {
    if e.CopyByte? {
      if s.w.Copying? && s.w.done < s.w.len {
        CopyKeeps(s);
      }
    } else if e.PublishHead? {
      if s.w.Copying? && s.w.done >= s.w.len {
        PublishWriteKeeps(s);
      }
    } else {
      WriterLookKeeps(s, e);
    }
  }

  lemma ReaderLookKeeps(s: Ring, e: Event)
    requires Inv(s) && !IsWriterEvent(e) && !e.TakeByte? && !e.PublishTail?
    ensures Inv(Step(s, e)) && Step(s, e).Size() == s.Size()
    ensures Step(s, e) == s.(r := Step(s, e).r)
  {
    Measures(s);
    var t := Step(s, e);
    assert ReaderOk(t);
  }

  lemma ReaderStepKeeps(s: Ring, e: Event)
    requires Inv(s) && !IsWriterEvent(e)
    ensures Inv(Step(s, e)) && Step(s, e).Size() == s.Size()
    ensures Step(s, e).written == s.written && Step(s, e).w == s.w
  {
    if e.TakeByte? {
      if s.r.Taking? && |s.r.got| < s.r.len {
        TakeKeeps(s);
      }
    } else if e.PublishTail? {
      if s.r.Taking? && |s.r.got| >= s.r.len {
        PublishReadKeeps(s);
      }
    } else {
      ReaderLookKeeps(s, e);
    }
  }

  lemma StepKeeps(s: Ring, e: Event)
    requires Inv(s)
    ensures Inv(Step(s, e)) && Step(s, e).Size() == s.Size()
  {
    if IsWriterEvent(e) {
      WriterStepKeeps(s, e);
    } else {
      ReaderStepKeeps(s, e);
    }
  }

  lemma {:induction false} RunKeeps(s: Ring, es: seq<Event>)
    requires Inv(s)
    ensures Inv(Run(s, es))
  {
    if es != [] {
      RunKeeps(s, es[..|es| - 1]);
      StepKeeps(Run(s, es[..|es| - 1]), es[|es| - 1]);
    }
  }

  /** In every state that any interleaving reaches from an empty ring: what was
      read is a prefix of what was written, in order and without a loss; both
      indices and every byte about to be copied are inside the buffer; and a
      write that was sized by an earlier look at the ring is never short. */
  lemma Fifo(buf: seq<Byte>, es: seq<Event>)
    requires |buf| > 0
    ensures var s := Run(Empty(buf), es);
      && s.read <= s.written && |s.buf| == |buf| && |s.written| - |s.read| < |buf|
      && 0 <= s.head < |buf| && 0 <= s.tail < |buf|
      && (s.w.Ready? ==> s.w.len == |s.w.data|)
      && (s.w.Copying? && s.w.done < s.w.len ==> 0 <= WriteIndex(s) < |buf|)
      && (s.r.Taking? && |s.r.got| < s.r.len ==> 0 <= ReadIndex(s) < |buf|)
      && (s.r.Taking? ==> s.read + s.r.got <= s.written)
  {
    InitInv(buf);
    RunKeeps(Empty(buf), es);
    var s := Run(Empty(buf), es);
    RunSize(Empty(buf), es);
    if s.w.Copying? && s.w.done < s.w.len {
      CopyKeeps(s);
    }
    if s.r.Taking? && |s.r.got| < s.r.len {
      TakeKeeps(s);
    }
  }

  lemma {:induction false} RunSize(s: Ring, es: seq<Event>)
    ensures Run(s, es).Size() == s.Size()
  {
    if es != [] {
      RunSize(s, es[..|es| - 1]);
    }
  }

  lemma UnreadIsSafe(s: Ring, k: nat)
    requires Inv(s) && |s.read| <= k < |s.written|
    ensures s.buf[Slot(k, s.Size())] == s.written[k]
    ensures s.w.Copying? && s.w.done < s.w.len ==> WriteIndex(s) != Slot(k, s.Size())
  {
    if s.w.Copying? && s.w.done < s.w.len {
      CopyKeeps(s);
      SlotsDiffer(k, |s.written| + s.w.done, s.Size());
    }
  }

  /** The byte about to be overwritten is never one that is still to be read,
      and every such byte is in its place. */
  lemma NeverOverwrites(buf: seq<Byte>, es: seq<Event>, k: nat)
    requires |buf| > 0
    ensures var s := Run(Empty(buf), es);
      |s.read| <= k < |s.written| ==>
        && |s.buf| == |buf| && s.buf[Slot(k, |buf|)] == s.written[k]
        && (s.w.Copying? && s.w.done < s.w.len ==> WriteIndex(s) != Slot(k, |buf|))
  {
    InitInv(buf);
    RunKeeps(Empty(buf), es);
    RunSize(Empty(buf), es);
    var s := Run(Empty(buf), es);
    if |s.read| <= k < |s.written| {
      UnreadIsSafe(s, k);
    }
  }

  /** The write looks at the room itself, whatever the writer brings: it is granted all
      that fits, and gives up if nothing does. */
  lemma CheckGrantsRoom(s: Ring, data: seq<Byte>)
    requires Intact(s) && s.w == Checking(data, s.head)
    ensures var len := if |data| < Room(s) then |data| else Room(s);
      Step(s, CheckTail).w == if len == 0 then Rest else Ready(data, len)
  {
    Measures(s);
  }

  /** And so does the read. */
  lemma AskGrantsFill(s: Ring, want: nat)
    requires Intact(s) && s.r == Asking(want, s.head)
    ensures var len := if want < Fill(s) then want else Fill(s);
      Step(s, AskTail).r == if len == 0 then Quiet else Granted(len)
  {
    Measures(s);
  }

  lemma WritesAll(s: Ring)
    requires Inv(s)
    ensures s.w.Checking? ==> Step(s, CheckTail).w == Ready(s.w.data, |s.w.data|)
    ensures s.w.Copying? && s.w.done >= s.w.len ==> Step(s, PublishHead).written == s.written + s.w.data
  {
    if s.w.Checking? {
      Measures(s);
    } else if s.w.Copying? && s.w.done >= s.w.len {
      PublishWriteKeeps(s);
    }
  }

  /** What the writer fetched is what it publishes: no byte is dropped between
      the read from the file and the ring. */
  lemma NoDroppedBytes(buf: seq<Byte>, es: seq<Event>)
    requires |buf| > 0
    ensures var s := Run(Empty(buf), es);
      && (s.w.Checking? ==> Step(s, CheckTail).w == Ready(s.w.data, |s.w.data|))
      && (s.w.Copying? && s.w.done >= s.w.len ==> Step(s, PublishHead).written == s.written + s.w.data)
  {
    InitInv(buf);
    RunKeeps(Empty(buf), es);
    WritesAll(Run(Empty(buf), es));
  }

  /* ---------- A reset under the writer's feet ---------- */

  /** What holds of the indices and the writer even when the ring is reset
      while the writer is at work: it never leaves the buffer. */
  ghost predicate Bounded(s: Ring) {
    && 0 <= s.head < s.Size() && 0 <= s.tail < s.Size()
    && match s.w
       case Rest => true
       case Sizing(h) => 0 <= h < s.Size()
       case Sized(space) => space < s.Size()
       case Holding(data) => |data| < s.Size()
       case Checking(data, h) => 0 <= h < s.Size() && |data| < s.Size()
       case Ready(data, len) => 0 <= len <= |data| < s.Size()
       case Copying(data, len, h, done) => 0 <= h < s.Size() && 0 <= done <= len <= |data| < s.Size()
  }

  lemma InvIsBounded(s: Ring)
    requires Inv(s)
    ensures Bounded(s)
  {
  }

  lemma WriterStepBounded(s: Ring, e: Event)
    requires Bounded(s) && IsWriterEvent(e)
    ensures Bounded(Step(s, e)) && Step(s, e).Size() == s.Size()
    ensures Step(s, e).r == s.r && Step(s, e).read == s.read
    ensures e.CopyByte? && s.w.Copying? && s.w.done < s.w.len ==> 0 <= WriteIndex(s) < s.Size()
  {
  }

  /** The writer at work, and the two stores of a reset, in any order. */
  datatype Upset = Work(e: Event) | ZeroHead | ZeroTail

  function UpsetStep(s: Ring, u: Upset): Ring {
    match u
    case Work(e) => if IsWriterEvent(e) then Step(s, e) else s
    case ZeroHead => s.(head := 0)
    case ZeroTail => s.(tail := 0)
  }

  function UpsetRun(s: Ring, us: seq<Upset>): Ring {
    if us == [] then s else UpsetStep(UpsetRun(s, us[..|us| - 1]), us[|us| - 1])
  }

  /** The writer does what it does, and the two stores zero the two indices. */
  lemma UpsetIsReset(s: Ring, e: Event)
    ensures IsWriterEvent(e) ==> UpsetStep(s, Work(e)) == Step(s, e)
    ensures UpsetStep(UpsetStep(s, ZeroHead), ZeroTail) == s.(head := 0, tail := 0)
    ensures UpsetStep(s, ZeroHead).tail == s.tail && UpsetStep(s, ZeroTail).head == s.head
  {
  }

  lemma {:induction false} UpsetRunBounded(s: Ring, us: seq<Upset>)
    requires Bounded(s)
    ensures Bounded(UpsetRun(s, us)) && UpsetRun(s, us).Size() == s.Size()
  {
    if us != [] {
      var init, u := us[..|us| - 1], us[|us| - 1];
      UpsetRunBounded(s, init);
      if u.Work? && IsWriterEvent(u.e) {
        WriterStepBounded(UpsetRun(s, init), u.e);
      }
    }
  }

  /** From any state of the two tasks on, however often and at whatever points
      the ring is reset while the writer is at work: the indices stay in the
      buffer, every byte is copied inside it, and no more than fits. */
  lemma WriterStaysBounded(buf: seq<Byte>, es: seq<Event>, us: seq<Upset>)
    requires |buf| > 0
    ensures var s := UpsetRun(Run(Empty(buf), es), us);
      && |s.buf| == |buf| && 0 <= s.head < |buf| && 0 <= s.tail < |buf|
      && (s.w.Ready? ==> s.w.len <= |s.w.data| < |buf|)
      && (s.w.Copying? && s.w.done < s.w.len ==> 0 <= WriteIndex(s) < |buf| && s.w.done < |s.w.data|)
  {
    InitInv(buf);
    RunKeeps(Empty(buf), es);
    RunSize(Empty(buf), es);
    InvIsBounded(Run(Empty(buf), es));
    UpsetRunBounded(Run(Empty(buf), es), us);
    var s := UpsetRun(Run(Empty(buf), es), us);
    if s.w.Copying? && s.w.done < s.w.len {
      WriterStepBounded(s, CopyByte);
    }
  }
}
