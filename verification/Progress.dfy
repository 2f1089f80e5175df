/** That the two tasks get somewhere: what the player takes and the reader
    delivers when it is their turn, and a run in which a whole file is taken. */
module Progress {
  import opened Bytes
  import opened SharedRing
  import opened Player
  import opened PlayerTraces

  predicate OfPlayer(ms: seq<Move>) {
    forall i :: 0 <= i < |ms| ==> ms[i].PlayerMoves?
  }

  predicate OfReader(ms: seq<Move>) {
    forall i :: 0 <= i < |ms| ==> ms[i].TaskMoves?
  }

  /** The unread bytes of the ring. */
  function Unconsumed(r: Ring): (bs: seq<Byte>) {
    if |r.read| <= |r.written| then r.written[|r.read|..] else []
  }

  /** The first n of some bytes, or all. */
  function UpTo(bs: seq<Byte>, n: nat): seq<Byte> {
    if |bs| <= n then bs else bs[..n]
  }

  /* ---------- The player takes bytes ---------- */

  ghost predicate Feeding(files: Files, s: State) {
    Safe(files, s) && s.pc == Playing(Feed)
  }

  lemma LooksOnce(files: Files, s: State)
    requires Feeding(files, s) && s.ring.r.Quiet?
    ensures Moves(files, s, [GO]) == s.(ring := s.ring.(r := Looking(s.ring.head)))
  {
    Once(files, s, GO);
  }

  lemma LooksAgain(files: Files, s: State)
    requires Feeding(files, s) && s.ring.r == Looking(s.ring.head)
    ensures Moves(files, s, [GO]) == s.(ring := s.ring.(r := Seen(Fill(s.ring))))
  {
    Measures(s.ring);
    Once(files, s, GO);
  }

  lemma AsksFor(files: Files, s: State, len: int)
    requires Feeding(files, s) && s.ring.r == Seen(Fill(s.ring)) && Fill(s.ring) > 0
    requires len == if Fill(s.ring) < 65536 then Fill(s.ring) else 65536
    ensures Moves(files, s, [GO]) == s.(ring := s.ring.(r := Asking(len, s.ring.head)))
  {
    Once(files, s, GO);
  }

  lemma IsGranted(files: Files, s: State, len: int)
    requires Feeding(files, s) && s.ring.r == Asking(len, s.ring.head) && 0 < len <= Fill(s.ring)
    ensures Moves(files, s, [GO]) == s.(ring := s.ring.(r := Granted(len)))
  {
    Measures(s.ring);
    Once(files, s, GO);
  }

  lemma BeginsTake(files: Files, s: State)
    requires Feeding(files, s) && s.ring.r.Granted?
    ensures Moves(files, s, [GO]) == s.(ring := s.ring.(r := Taking(s.ring.r.len, s.ring.tail, [])))
  {
    Once(files, s, GO);
  }

  /** What taking leaves alone. */
  predicate OnlyTakes(s: State, t: State) {
    && t.f == s.f && t.rd == s.rd && t.cur == s.cur && t.track == s.track
    && t.ring.w == s.ring.w && t.ring.written == s.ring.written && t.ring.Size() == s.ring.Size()
  }

  lemma TakesByte(files: Files, s: State)
    requires Feeding(files, s) && s.ring.r.Taking? && |s.ring.r.got| < s.ring.r.len
    ensures var t := MoveOf(files, s, GO);
      && Feeding(files, t) && OnlyTakes(s, t) && t.taken == s.taken
      && t.ring.r.Taking? && t.ring.r.len == s.ring.r.len && |t.ring.r.got| == |s.ring.r.got| + 1
  {
    MoveKeeps(files, s, GO);
    TakeKeeps(s.ring);
  }

  lemma PublishesTaken(files: Files, s: State)
    requires Feeding(files, s) && s.ring.r.Taking? && |s.ring.r.got| >= s.ring.r.len
    ensures var t := MoveOf(files, s, GO);
      && Safe(files, t) && OnlyTakes(s, t) && t.pc == Playing(Decode) && t.ring.r.Quiet?
      && |t.taken| == |s.taken| + s.ring.r.len
  {
    MoveKeeps(files, s, GO);
    PublishReadKeeps(s.ring);
  }

  lemma {:induction false} TakesAll(files: Files, s: State) returns (ms: seq<Move>)
    requires Feeding(files, s) && s.ring.r.Taking?
    ensures OfPlayer(ms)
    ensures var t := Moves(files, s, ms);
      && Safe(files, t) && OnlyTakes(s, t) && t.pc == Playing(Decode) && t.ring.r.Quiet?
      && |t.taken| == |s.taken| + s.ring.r.len
    decreases s.ring.r.len - |s.ring.r.got|
  {
    var t := MoveOf(files, s, GO);
    Once(files, s, GO);
    if |s.ring.r.got| < s.ring.r.len {
      TakesByte(files, s);
      var rest := TakesAll(files, t);
      Then(files, s, [GO], t, rest, Moves(files, t, rest));
      ms := [GO] + rest;
    } else {
      PublishesTaken(files, s);
      ms := [GO];
    }
  }

  lemma NextOfPrefix(a: seq<Byte>, b: seq<Byte>, all: seq<Byte>, len: nat)
    requires a <= all && b <= all && |b| == |a| + len
    ensures b == a + all[|a|..|a| + len]
  {
  }

  lemma TakenIsRead(files: Files, s: State)
    requires Safe(files, s) && OnTrack(s.pc)
    ensures s.taken == s.ring.read <= s.ring.written
  {
  }

  /** The next bytes of what was written, by the number of them. */
  lemma NextOfWritten(files: Files, s: State, t: State, len: nat)
    requires Safe(files, s) && Safe(files, t) && OnTrack(s.pc) && OnTrack(t.pc) && OnlyTakes(s, t)
    requires |t.taken| == |s.taken| + len
    ensures |s.ring.read| + len <= |s.ring.written|
    ensures t.taken == s.taken + s.ring.written[|s.ring.read|..|s.ring.read| + len] == t.ring.read
  {
    TakenIsRead(files, s);
    TakenIsRead(files, t);
    NextOfPrefix(s.taken, t.taken, s.ring.written, len);
  }

  /** From the look at the ring to the grant. */
  lemma SeesAndAsks(files: Files, s: State, len: nat)
    requires Feeding(files, s) && s.ring.r.Quiet? && Fill(s.ring) > 0
    requires len == if Fill(s.ring) < 65536 then Fill(s.ring) else 65536
    ensures Moves(files, s, [GO] + [GO] + [GO] + [GO]) == s.(ring := s.ring.(r := Granted(len)))
  {
    LooksOnce(files, s);
    var s1 := s.(ring := s.ring.(r := Looking(s.ring.head)));
    MovesKeep(files, s, [GO]);
    LooksAgain(files, s1);
    var s2 := s.(ring := s.ring.(r := Seen(Fill(s.ring))));
    MovesKeep(files, s1, [GO]);
    Then(files, s, [GO], s1, [GO], s2);
    AsksFor(files, s2, len);
    var s3 := s.(ring := s.ring.(r := Asking(len, s.ring.head)));
    MovesKeep(files, s2, [GO]);
    Then(files, s, [GO] + [GO], s2, [GO], s3);
    IsGranted(files, s3, len);
    Then(files, s, [GO] + [GO] + [GO], s3, [GO], s.(ring := s.ring.(r := Granted(len))));
  }

  lemma TakesGranted(files: Files, s: State, len: nat) returns (ms: seq<Move>)
    requires Feeding(files, s) && s.ring.r.Quiet? && Fill(s.ring) > 0
    requires len == if Fill(s.ring) < 65536 then Fill(s.ring) else 65536
    ensures OfPlayer(ms)
    ensures var t := Moves(files, s, ms);
      && Safe(files, t) && OnlyTakes(s, t) && t.pc == Playing(Decode) && t.ring.r.Quiet?
      && |t.taken| == |s.taken| + len
  {
    var first := [GO] + [GO] + [GO] + [GO];
    SeesAndAsks(files, s, len);
    var s1 := s.(ring := s.ring.(r := Granted(len)));
    MovesKeep(files, s, first);
    BeginsTake(files, s1);
    var s2 := s.(ring := s.ring.(r := Taking(len, s.ring.tail, [])));
    MovesKeep(files, s1, [GO]);
    Then(files, s, first, s1, [GO], s2);
    var rest := TakesAll(files, s2);
    Then(files, s, first + [GO], s2, rest, Moves(files, s2, rest));
    ms := first + [GO] + rest;
  }

  /** With unread bytes in the ring, the player's own next moves take the first of
      them, up to 64 KB, and hand them to the decoder. */
  lemma PlayerTakesBytes(files: Files, s: State) returns (ms: seq<Move>)
    requires Safe(files, s) && s.pc == Playing(Feed) && s.ring.r.Quiet? && Unconsumed(s.ring) != []
    ensures OfPlayer(ms)
    ensures var t, bytes := Moves(files, s, ms), UpTo(Unconsumed(s.ring), 65536);
      && Safe(files, t) && t.pc == Playing(Decode) && OnlyTakes(s, t) && t.ring.r.Quiet?
      && t.taken == s.taken + bytes && t.ring.read == s.ring.read + bytes
  {
    var len := if Fill(s.ring) < 65536 then Fill(s.ring) else 65536;
    ms := TakesGranted(files, s, len);
    NextOfWritten(files, s, Moves(files, s, ms), len);
  }

  /* ---------- The reader delivers bytes ---------- */

  /** A step of the reader; a read gives it as much of the file as it asks for. */
  const FILL := TaskMoves(true, 65536)

  /** What delivering leaves alone. */
  predicate OnlyDelivers(s: State, t: State) {
    && t.f == s.f && t.pc == s.pc && t.cur == s.cur && t.track == s.track && t.taken == s.taken
    && t.rd.file == s.rd.file && t.ring.r == s.ring.r && t.ring.read == s.ring.read && t.ring.Size() == s.ring.Size()
  }

  ghost predicate Delivering(files: Files, s: State) {
    Safe(files, s) && OnTrack(s.pc) && s.rd.task.Body? && s.rd.file == s.track
  }

  lemma EntersLoop(files: Files, s: State)
    requires Safe(files, s) && s.rd.task.AtTop? && !s.f.stop && !s.f.abort
    ensures Moves(files, s, [FILL, FILL]) == s.(rd := s.rd.(task := Body))
  {
    Twice(files, s, FILL);
  }

  lemma Sizes(files: Files, s: State)
    requires Delivering(files, s) && s.ring.w.Rest?
    ensures Moves(files, s, [FILL, FILL]) == s.(ring := s.ring.(w := Sized(Room(s.ring))))
  {
    Measures(s.ring);
    Twice(files, s, FILL);
  }

  /** The next bytes of a file, as many as there is room for, up to 8 KB. */
  function NextBytes(file: seq<Byte>, pos: nat, room: nat): seq<Byte>
    requires pos <= |file|
  {
    UpTo(UpTo(file[pos..], room), 8192)
  }

  lemma ChunkIsNextBytes(files: Files, s: State)
    requires Delivering(files, s) && s.ring.w == Sized(Room(s.ring)) && Room(s.ring) > 0
    ensures s.rd.pos <= |files[s.track]|
    ensures NextChunk(files, s, 65536) == NextBytes(files[s.track], s.rd.pos, Room(s.ring))
  {
    var file, pos := files[s.track], s.rd.pos;
    var len := Min(Min(65536, Min(Room(s.ring), 8192)), |file| - pos);
    assert Chunk(files, s.rd, Min(65536, Min(Room(s.ring), 8192))) == file[pos..pos + len] == file[pos..][..len];
  }

  lemma FetchesData(files: Files, s: State, data: seq<Byte>)
    requires Delivering(files, s) && s.ring.w == Sized(Room(s.ring)) && Room(s.ring) > 0
    requires data == NextChunk(files, s, 65536) && data != []
    ensures Moves(files, s, [FILL]) ==
            s.(ring := s.ring.(w := Holding(data)), rd := FileReader(Body, s.rd.file, s.rd.pos + |data|))
  {
    Once(files, s, FILL);
  }

  lemma ChecksHead(files: Files, s: State, data: seq<Byte>)
    requires Delivering(files, s) && s.ring.w == Holding(data)
    ensures Moves(files, s, [FILL]) == s.(ring := s.ring.(w := Checking(data, s.ring.head)))
  {
    Once(files, s, FILL);
  }

  lemma ChecksRoom(files: Files, s: State, data: seq<Byte>)
    requires Delivering(files, s) && s.ring.w == Checking(data, s.ring.head)
    ensures Moves(files, s, [FILL]) == s.(ring := s.ring.(w := Ready(data, |data|)))
  {
    Measures(s.ring);
    Once(files, s, FILL);
  }

  lemma BeginsCopy(files: Files, s: State, data: seq<Byte>)
    requires Delivering(files, s) && s.ring.w == Ready(data, |data|)
    ensures Moves(files, s, [FILL]) == s.(ring := s.ring.(w := Copying(data, |data|, s.ring.head, 0)))
  {
    Once(files, s, FILL);
  }

  lemma CopiesByte(files: Files, s: State)
    requires Delivering(files, s) && s.ring.w.Copying? && s.ring.w.done < s.ring.w.len
    ensures var t := MoveOf(files, s, FILL);
      && Delivering(files, t) && OnlyDelivers(s, t) && t.rd == s.rd
      && t.ring.written == s.ring.written && t.ring.w == s.ring.w.(done := s.ring.w.done + 1)
  {
    MoveKeeps(files, s, FILL);
    CopyKeeps(s.ring);
  }

  lemma PublishesCopied(files: Files, s: State)
    requires Delivering(files, s) && s.ring.w.Copying? && s.ring.w.done >= s.ring.w.len
    ensures var t := MoveOf(files, s, FILL);
      && Safe(files, t) && OnlyDelivers(s, t) && t.rd == s.rd.(task := AtTop)
      && t.ring.written == s.ring.written + s.ring.w.data && t.ring.w.Rest?
  {
    MoveKeeps(files, s, FILL);
    PublishWriteKeeps(s.ring);
  }

  lemma {:induction false} CopiesAll(files: Files, s: State) returns (ms: seq<Move>)
    requires Delivering(files, s) && s.ring.w.Copying?
    ensures OfReader(ms)
    ensures var t := Moves(files, s, ms);
      && Safe(files, t) && OnlyDelivers(s, t) && t.rd == s.rd.(task := AtTop)
      && t.ring.written == s.ring.written + s.ring.w.data && t.ring.w.Rest?
    decreases s.ring.w.len - s.ring.w.done
  {
    var t := MoveOf(files, s, FILL);
    Once(files, s, FILL);
    if s.ring.w.done < s.ring.w.len {
      CopiesByte(files, s);
      var rest := CopiesAll(files, t);
      Then(files, s, [FILL], t, rest, Moves(files, t, rest));
      ms := [FILL] + rest;
    } else {
      PublishesCopied(files, s);
      ms := [FILL];
    }
  }

  lemma DeliversHeld(files: Files, s: State, data: seq<Byte>) returns (ms: seq<Move>)
    requires Delivering(files, s) && s.ring.w == Holding(data)
    ensures OfReader(ms)
    ensures var t := Moves(files, s, ms);
      && Safe(files, t) && OnlyDelivers(s, t) && t.rd == s.rd.(task := AtTop)
      && t.ring.written == s.ring.written + data && t.ring.w.Rest?
  {
    ChecksHead(files, s, data);
    var s1 := s.(ring := s.ring.(w := Checking(data, s.ring.head)));
    MovesKeep(files, s, [FILL]);
    ChecksRoom(files, s1, data);
    var s2 := s.(ring := s.ring.(w := Ready(data, |data|)));
    MovesKeep(files, s1, [FILL]);
    Then(files, s, [FILL], s1, [FILL], s2);
    var rest := CopiesReady(files, s2, data);
    Then(files, s, [FILL] + [FILL], s2, rest, Moves(files, s2, rest));
    ms := [FILL] + [FILL] + rest;
  }

  lemma CopiesReady(files: Files, s: State, data: seq<Byte>) returns (ms: seq<Move>)
    requires Delivering(files, s) && s.ring.w == Ready(data, |data|)
    ensures OfReader(ms)
    ensures var t := Moves(files, s, ms);
      && Safe(files, t) && OnlyDelivers(s, t) && t.rd == s.rd.(task := AtTop)
      && t.ring.written == s.ring.written + data && t.ring.w.Rest?
  {
    BeginsCopy(files, s, data);
    var s1 := s.(ring := s.ring.(w := Copying(data, |data|, s.ring.head, 0)));
    MovesKeep(files, s, [FILL]);
    var rest := CopiesAll(files, s1);
    Then(files, s, [FILL], s1, rest, Moves(files, s1, rest));
    ms := [FILL] + rest;
  }

  lemma FetchesNext(files: Files, s: State, data: seq<Byte>)
    requires Safe(files, s) && OnTrack(s.pc) && s.rd.task.AtTop? && !s.f.stop && !s.f.abort && Room(s.ring) > 0
    requires s.rd.pos < |files[s.track]| && data == NextBytes(files[s.track], s.rd.pos, Room(s.ring))
    ensures Moves(files, s, FETCH) == Fetched(s, data)
  {
    EntersLoop(files, s);
    var s1 := s.(rd := s.rd.(task := Body));
    MovesKeep(files, s, [FILL, FILL]);
    Sizes(files, s1);
    var s2 := s1.(ring := s.ring.(w := Sized(Room(s.ring))));
    MovesKeep(files, s1, [FILL, FILL]);
    Then(files, s, [FILL, FILL], s1, [FILL, FILL], s2);
    ChunkIsNextBytes(files, s2);
    FetchesData(files, s2, data);
    Then(files, s, [FILL, FILL] + [FILL, FILL], s2, [FILL], Fetched(s, data));
  }

  lemma FetchedIsDelivering(files: Files, s: State, data: seq<Byte>)
    requires Safe(files, s) && OnTrack(s.pc) && s.rd.task.AtTop? && Safe(files, Fetched(s, data))
    ensures Delivering(files, Fetched(s, data))
  {
  }

  const FETCH: seq<Move> := [FILL, FILL] + [FILL, FILL] + [FILL]

  lemma DeliversFetched(files: Files, s: State, data: seq<Byte>, first: seq<Move>) returns (ms: seq<Move>)
    requires Delivering(files, Fetched(s, data)) && s.rd.task.AtTop?
    requires OfReader(first) && Moves(files, s, first) == Fetched(s, data)
    ensures OfReader(ms)
    ensures var t := Moves(files, s, ms);
      && Safe(files, t) && OnlyDelivers(s, t) && t.rd == s.rd.(pos := s.rd.pos + |data|)
      && t.ring.written == s.ring.written + data && t.ring.w.Rest?
  {
    var s1 := Fetched(s, data);
    var rest := DeliversHeld(files, s1, data);
    var t := Moves(files, s1, rest);
    Then(files, s, first, s1, rest, t);
    DeliveredInAll(s, data, s1, t);
    ms := first + rest;
  }

  lemma DeliversNext(files: Files, s: State, data: seq<Byte>) returns (ms: seq<Move>)
    requires Safe(files, s) && OnTrack(s.pc) && s.rd.task.AtTop? && !s.f.stop && !s.f.abort && Room(s.ring) > 0
    requires s.rd.pos < |files[s.track]| && data == NextBytes(files[s.track], s.rd.pos, Room(s.ring))
    ensures OfReader(ms)
    ensures var t := Moves(files, s, ms);
      && Safe(files, t) && OnlyDelivers(s, t) && t.rd == s.rd.(pos := s.rd.pos + |data|)
      && t.ring.written == s.ring.written + data && t.ring.w.Rest?
  {
    FetchesNext(files, s, data);
    MovesKeep(files, s, FETCH);
    FetchedIsDelivering(files, s, data);
    ms := DeliversFetched(files, s, data, FETCH);
  }

  /** With room in the ring and bytes left in the file, the reader's own next moves
      put the next of them into the ring: as many as fit, up to 8 KB. */
  lemma ReaderDeliversBytes(files: Files, s: State) returns (ms: seq<Move>)
    requires Safe(files, s) && OnTrack(s.pc) && s.rd.task.AtTop? && !s.f.stop && !s.f.abort
    requires Room(s.ring) > 0 && s.rd.pos < |files[s.track]|
    ensures OfReader(ms)
    ensures var t, bytes := Moves(files, s, ms), NextBytes(files[s.track], s.rd.pos, Room(s.ring));
      && Safe(files, t) && OnlyDelivers(s, t) && t.rd == s.rd.(pos := s.rd.pos + |bytes|)
      && t.ring.written == s.ring.written + bytes && t.ring.w.Rest?
  {
    ms := DeliversNext(files, s, NextBytes(files[s.track], s.rd.pos, Room(s.ring)));
  }

  function Fetched(s: State, data: seq<Byte>): State {
    s.(ring := s.ring.(w := Holding(data)), rd := FileReader(Body, s.rd.file, s.rd.pos + |data|))
  }

  lemma DeliveredInAll(s: State, data: seq<Byte>, s1: State, t: State)
    requires s1 == Fetched(s, data) && s.rd.task.AtTop? && OnlyDelivers(s1, t) && t.rd == s1.rd.(task := AtTop)
    requires t.ring.written == s1.ring.written + data
    ensures OnlyDelivers(s, t) && t.rd == s.rd.(pos := s.rd.pos + |data|) && t.ring.written == s.ring.written + data
  {
  }

  /* ---------- A whole file ---------- */

  /** Both tasks are at the top of their loops, and all that was delivered is taken. */
  ghost predicate Even(files: Files, s: State) {
    && Safe(files, s) && s.pc == Playing(MayStop) && s.rd.task.AtTop? && s.ring.r.Quiet?
    && !s.f.stop && !s.f.abort && !s.f.skip && s.ring.Size() >= 2 && s.ring.read == s.ring.written
  }

  lemma EvenIsTaken(files: Files, s: State)
    requires Even(files, s)
    ensures s.rd.pos <= |files[s.track]| && s.taken == files[s.track][..s.rd.pos]
  {
    assert Pending(s.ring.w) == [];
    assert s.ring.written + [] == s.ring.written;
  }

  lemma ReachesFeed(files: Files, s: State)
    requires s.pc == Playing(MayStop) && !s.f.stop && !s.f.skip
    ensures Moves(files, s, [GO, GO]) == s.(pc := Playing(Feed))
  {
    Twice(files, s, GO);
  }

  lemma Decodes(files: Files, s: State)
    requires s.pc == Playing(Decode)
    ensures Moves(files, s, [GO]) == s.(pc := Playing(MayStop))
  {
    Once(files, s, GO);
  }

  /** After a delivery, the player's turn. */
  lemma TakesDelivered(files: Files, s: State) returns (ms: seq<Move>)
    requires Safe(files, s) && s.pc == Playing(MayStop) && !s.f.stop && !s.f.skip && s.ring.r.Quiet?
    requires 0 < |Unconsumed(s.ring)| <= 65536
    ensures var t := Moves(files, s, ms);
      && Safe(files, t) && OnlyTakes(s, t) && t.pc == Playing(MayStop) && t.ring.r.Quiet?
      && t.ring.read == s.ring.read + Unconsumed(s.ring)
  {
    ReachesFeed(files, s);
    var s1 := s.(pc := Playing(Feed));
    MovesKeep(files, s, [GO, GO]);
    var b := PlayerTakesBytes(files, s1);
    var s2 := Moves(files, s1, b);
    Then(files, s, [GO, GO], s1, b, s2);
    Decodes(files, s2);
    MovesKeep(files, s2, [GO]);
    Then(files, s, [GO, GO] + b, s2, [GO], s2.(pc := Playing(MayStop)));
    ms := [GO, GO] + b + [GO];
  }

  lemma EvenHasRoom(files: Files, s: State)
    requires Even(files, s)
    ensures Room(s.ring) > 0 && OnTrack(s.pc)
  {
  }

  lemma DeliveredIsUnconsumed(s: State, t: State, bytes: seq<Byte>)
    requires s.ring.read == s.ring.written && OnlyDelivers(s, t) && t.ring.written == s.ring.written + bytes
    ensures Unconsumed(t.ring) == bytes && t.ring.read + Unconsumed(t.ring) == t.ring.written
  {
  }

  lemma NextBytesIsSome(file: seq<Byte>, pos: nat, room: nat)
    requires pos < |file| && room > 0
    ensures 0 < |NextBytes(file, pos, room)| <= 8192
  {
  }

  /** The reader delivers and the player takes. */
  lemma Round(files: Files, s: State) returns (ms: seq<Move>)
    requires Even(files, s) && s.rd.pos < |files[s.track]|
    ensures var t := Moves(files, s, ms); Even(files, t) && t.track == s.track && t.rd.pos > s.rd.pos
  {
    EvenHasRoom(files, s);
    var bytes := NextBytes(files[s.track], s.rd.pos, Room(s.ring));
    NextBytesIsSome(files[s.track], s.rd.pos, Room(s.ring));
    var a := DeliversNext(files, s, bytes);
    var s1 := Moves(files, s, a);
    DeliveredIsUnconsumed(s, s1, bytes);
    var b := TakesDelivered(files, s1);
    Then(files, s, a, s1, b, Moves(files, s1, b));
    ms := a + b;
  }

  lemma {:induction false} Rounds(files: Files, s: State) returns (ms: seq<Move>)
    requires Even(files, s)
    ensures var t := Moves(files, s, ms); Even(files, t) && t.track == s.track && t.taken == files[s.track]
    decreases |files[s.track]| - s.rd.pos
  {
    EvenIsTaken(files, s);
    if s.rd.pos == |files[s.track]| {
      ms := [];
    } else {
      var first := Round(files, s);
      var t := Moves(files, s, first);
      EvenIsTaken(files, t);
      var rest := Rounds(files, t);
      Then(files, s, first, t, rest, Moves(files, t, rest));
      ms := first + rest;
    }
  }

  lemma BecomesEven(files: Files, buf: seq<Byte>, start: nat) returns (ms: seq<Move>)
    requires start < |files| && |buf| >= 2
    ensures var t := Moves(files, Fresh(buf, start), ms); Even(files, t) && t.track == start
  {
    var s0 := Fresh(buf, start);
    Once(files, s0, GO);
    var s1 := s0.(pc := Beginning(Choose));
    Begins(files, s1);
    var s2 := Launched(Emptied(Chosen(s1)));
    Then(files, s0, [GO], s1, BEGIN, s2);
    Once(files, s2, GO);
    var s3 := s2.(pc := Playing(MayStop));
    Then(files, s0, [GO] + BEGIN, s2, [GO], s3);
    Once(files, s3, FILL);
    var s4 := s3.(rd := FileReader(AtTop, start, 0));
    Then(files, s0, [GO] + BEGIN + [GO], s3, [FILL], s4);
    ms := [GO] + BEGIN + [GO] + [FILL];
    FreshIsSafe(files, buf, start);
    MovesKeep(files, s0, ms);
  }

  /** For every list, every track and every ring there is a run in which the player
      takes the whole of that track's file. */
  lemma WholeFileIsTaken(files: Files, buf: seq<Byte>, start: nat) returns (ms: seq<Move>)
    requires start < |files| && |buf| >= 2
    ensures var s := Moves(files, Fresh(buf, start), ms); s.track == start && s.taken == files[start]
  {
    var first := BecomesEven(files, buf, start);
    var t := Moves(files, Fresh(buf, start), first);
    var rest := Rounds(files, t);
    Then(files, Fresh(buf, start), first, t, rest, Moves(files, t, rest));
    ms := first + rest;
  }

  /* ---------- Waiting ---------- */

  lemma FindsFull(files: Files, s: State)
    requires Delivering(files, s) && s.ring.w == Sized(0)
    ensures Moves(files, s, [FILL]) == s.(ring := s.ring.(w := Rest), rd := s.rd.(task := AtTop))
  {
    Once(files, s, FILL);
  }

  /** With the ring full, the reader comes back to the top of its loop, with nothing
      changed and the file not at its end. */
  lemma ReaderWaitsIfFull(files: Files, s: State)
    requires Safe(files, s) && OnTrack(s.pc) && s.rd.task.AtTop? && !s.f.stop && !s.f.abort && Room(s.ring) == 0
    ensures Moves(files, s, FETCH) == s
  {
    EntersLoop(files, s);
    var s1 := s.(rd := s.rd.(task := Body));
    MovesKeep(files, s, [FILL, FILL]);
    Sizes(files, s1);
    var s2 := s1.(ring := s.ring.(w := Sized(0)));
    MovesKeep(files, s1, [FILL, FILL]);
    Then(files, s, [FILL, FILL], s1, [FILL, FILL], s2);
    FindsFull(files, s2);
    assert s2.(ring := s.ring.(w := Rest), rd := s.rd.(task := AtTop)) == s;
    Then(files, s, [FILL, FILL] + [FILL, FILL], s2, [FILL], s);
  }

  /** With the ring empty and the reader at work, the player comes back to the top of
      its loop, with nothing changed. */
  lemma PlayerWaitsIfEmpty(files: Files, s: State)
    requires Safe(files, s) && s.pc == Playing(Feed) && s.ring.r.Quiet? && Unconsumed(s.ring) == [] && s.f.running
    ensures Moves(files, s, [GO] + [GO] + [GO] + [GO]) == s.(pc := Playing(MayStop))
  {
    LooksOnce(files, s);
    var s1 := s.(ring := s.ring.(r := Looking(s.ring.head)));
    MovesKeep(files, s, [GO]);
    LooksAgain(files, s1);
    var s2 := s.(ring := s.ring.(r := Seen(0)));
    MovesKeep(files, s1, [GO]);
    Then(files, s, [GO], s1, [GO], s2);
    Once(files, s2, GO);
    var s3 := s.(pc := Playing(Drained));
    assert s2.(ring := s2.ring.(r := Quiet), pc := Playing(Drained)) == s3;
    Then(files, s, [GO] + [GO], s2, [GO], s3);
    Once(files, s3, GO);
    Then(files, s, [GO] + [GO] + [GO], s3, [GO], s.(pc := Playing(MayStop)));
  }

  /* ---------- The end ---------- */

  /** A player that is through leaves no reader behind that it has not told to go. */
  predicate LeavesNone(f: Flags, pc: Pc) {
    && (pc == Cleaning(CutReader) ==> f.stop)
    && (pc == Cleaning(AwaitReader) ==> f.stop && f.abort)
    && (pc.Done? && f.alive ==> f.stop && f.abort)
  }

  /** The reader is said to run only while it is there, or about to be. */
  predicate RunsTruly(f: Flags, task: Task, pc: Pc) {
    && (f.running ==> f.alive || pc == Starting(Create))
    && (task.Leaving? ==> !f.running)
  }

  /** Not yet past the first point of cleaning up. */
  predicate NotCleaning(pc: Pc) {
    (pc.Cleaning? ==> pc.cleanAt.Look?) && !pc.Done?
  }

  lemma PlayIsNotCleaning(s: State, ok: bool)
    requires s.pc.Playing?
    ensures NotCleaning(PlayStep(s, ok).pc)
  {
  }

  lemma SettleIsNotCleaning(s: State, ok: bool)
    requires s.pc.Settling?
    ensures NotCleaning(SettleStep(s, ok).pc)
  {
  }

  lemma StartIsNotCleaning(s: State, ok: bool)
    requires s.pc.Starting?
    ensures NotCleaning(StartStep(s, ok).pc)
  {
  }

  lemma OthersAreNotCleaning(files: Files, s: State, ok: bool)
    requires !s.pc.Cleaning? && !s.pc.Done? && !s.pc.Playing? && !s.pc.Settling? && !s.pc.Starting?
    ensures NotCleaning(PlayerStep(files, s, ok).pc)
  {
  }

  lemma PlayerEndsWell(files: Files, s: State, ok: bool)
    requires LeavesNone(s.f, s.pc)
    ensures var t := PlayerStep(files, s, ok); LeavesNone(t.f, t.pc)
  {
    match s.pc
    case Cleaning(_) => CleanEndsWell(s, ok);
    case Playing(_) => PlayIsNotCleaning(s, ok);
    case Settling(_) => SettleIsNotCleaning(s, ok);
    case Starting(_) => StartIsNotCleaning(s, ok);
    case Done =>
    case _ => OthersAreNotCleaning(files, s, ok);
  }

  lemma CleanEndsWell(s: State, ok: bool)
    requires s.pc.Cleaning? && LeavesNone(s.f, s.pc)
    ensures var t := CleanStep(s, ok); LeavesNone(t.f, t.pc)
  {
    var f, pc := CleanFlags(s.f, s.pc.cleanAt), CleanNext(s.pc.cleanAt, s.f.alive, ok);
    assert f.alive == s.f.alive;
  }

  /** What the reader's steps do to the flags. */
  lemma TaskFrame(files: Files, s: State, ok: bool, n: nat)
    ensures var t := TaskStep(files, s, ok, n);
      && t.pc == s.pc && t.f.stop == s.f.stop && t.f.abort == s.f.abort
      && (t.f.alive ==> s.f.alive) && (t.f.running ==> s.f.running)
  {
    if s.rd.task.Body? {
      assert BodyStep(files, s, n).f == s.f && BodyStep(files, s, n).pc == s.pc;
    }
  }

  lemma StoreKeepsEnd(s: State, m: Move)
    requires !m.PlayerMoves? && !m.TaskMoves? && LeavesNone(s.f, s.pc)
    ensures var t := FlagStep(s, m); LeavesNone(t.f, t.pc)
  {
  }

  lemma MoveEndsWell(files: Files, s: State, m: Move)
    requires LeavesNone(s.f, s.pc)
    ensures var t := MoveOf(files, s, m); LeavesNone(t.f, t.pc)
  {
    match m
    case PlayerMoves(ok) => PlayerEndsWell(files, s, ok);
    case TaskMoves(ok, n) => TaskFrame(files, s, ok, n);
    case _ => StoreKeepsEnd(s, m);
  }

  /** In every run: a player that is done has left no reader behind, or has told it to
      stop and cut it off. */
  lemma {:induction false} EndedPlayerStopsReader(files: Files, buf: seq<Byte>, start: nat, ms: seq<Move>)
    ensures var s := Moves(files, Fresh(buf, start), ms);
      LeavesNone(s.f, s.pc) && (s.pc.Done? ==> !s.f.alive || (s.f.stop && s.f.abort))
  {
    if ms != [] {
      EndedPlayerStopsReader(files, buf, start, ms[..|ms| - 1]);
      MoveEndsWell(files, Moves(files, Fresh(buf, start), ms[..|ms| - 1]), ms[|ms| - 1]);
    }
  }

  lemma TaskRunsTruly(files: Files, s: State, ok: bool, n: nat)
    requires RunsTruly(s.f, s.rd.task, s.pc)
    ensures var t := TaskStep(files, s, ok, n); RunsTruly(t.f, t.rd.task, t.pc)
  {
    if s.rd.task.Body? {
      BodyStaysInLoop(files, s, n);
    } else {
      var f, rd := FlagsAfter(s.f, s.rd.task, ok), ReaderAfter(files, s.f, s.rd, s.track, ok);
      assert RunsTruly(f, rd.task, s.pc);
    }
  }

  lemma BodyStaysInLoop(files: Files, s: State, n: nat)
    requires s.rd.task.Body?
    ensures var t := BodyStep(files, s, n); t.f == s.f && t.pc == s.pc && !t.rd.task.Leaving?
  {
  }

  lemma StartRunsTruly(s: State, ok: bool)
    requires s.pc.Starting? && !s.f.alive && s.rd.task.Gone? && RunsTruly(s.f, s.rd.task, s.pc)
    ensures var t := StartStep(s, ok); RunsTruly(t.f, t.rd.task, t.pc)
  {
    var f, pc := StartFlags(s.f, s.pc.startAt, ok), StartNext(s.pc.startAt, ok);
    assert f.running ==> f.alive || pc == Starting(Create);
  }

  /** What is said about the reader stays, and no reader is about to start. */
  predicate LeavesReader(s: State, t: State) {
    t.rd == s.rd && t.f.running == s.f.running && t.f.alive == s.f.alive && t.pc != Starting(Create)
  }

  lemma PlayLeavesReader(s: State, ok: bool)
    requires s.pc.Playing?
    ensures LeavesReader(s, PlayStep(s, ok))
  {
  }

  lemma SettleLeavesReader(s: State, ok: bool)
    requires s.pc.Settling?
    ensures LeavesReader(s, SettleStep(s, ok))
  {
  }

  lemma SkipLeavesReader(files: Files, s: State)
    requires s.pc.Skipping?
    ensures LeavesReader(s, SkipStep(files, s))
  {
    var f := SkipFlags(s.f, s.pc.skipAt);
    assert f.running == s.f.running && f.alive == s.f.alive;
  }

  lemma CleanLeavesReader(s: State, ok: bool)
    requires s.pc.Cleaning?
    ensures LeavesReader(s, CleanStep(s, ok))
  {
    var f := CleanFlags(s.f, s.pc.cleanAt);
    assert f.running == s.f.running && f.alive == s.f.alive;
  }

  lemma BeginLeavesReader(files: Files, s: State)
    requires s.pc.Beginning?
    ensures LeavesReader(s, BeginStep(files, s))
  {
    var f := BeginFlags(s.f, s.pc.beginAt);
    assert f.running == s.f.running && f.alive == s.f.alive;
  }

  lemma AfterLeavesReader(files: Files, s: State)
    ensures LeavesReader(s, AfterStep(files, s))
  {
  }

  /** A player's step that starts nothing leaves what is said about the reader. */
  lemma OthersLeaveReader(files: Files, s: State, ok: bool)
    requires !s.pc.Starting?
    ensures LeavesReader(s, PlayerStep(files, s, ok))
  {
    match s.pc
    case Skipping(_, _) => SkipLeavesReader(files, s);
    case Beginning(_) => BeginLeavesReader(files, s);
    case Playing(_) => PlayLeavesReader(s, ok);
    case Settling(_) => SettleLeavesReader(s, ok);
    case After => AfterLeavesReader(files, s);
    case Cleaning(_) => CleanLeavesReader(s, ok);
    case _ =>
  }

  lemma MoveRunsTruly(files: Files, s: State, m: Move)
    requires Safe(files, s) && RunsTruly(s.f, s.rd.task, s.pc)
    ensures var t := MoveOf(files, s, m); RunsTruly(t.f, t.rd.task, t.pc)
  {
    match m
    case PlayerMoves(ok) =>
      if s.pc.Starting? {
        StartRunsTruly(s, ok);
      } else {
        OthersLeaveReader(files, s, ok);
      }
    case TaskMoves(ok, n) => TaskRunsTruly(files, s, ok, n);
    case _ =>
  }

  /** In every run: while the player waits for more of a track, because its reader is
      said to run, the reader is there. */
  lemma {:induction false} RunningReaderIsThere(files: Files, buf: seq<Byte>, start: nat, ms: seq<Move>)
    requires start < |files| && |buf| > 0
    ensures var s := Moves(files, Fresh(buf, start), ms);
      RunsTruly(s.f, s.rd.task, s.pc) && (s.f.running && s.pc != Starting(Create) ==> s.f.alive)
  {
    if ms != [] {
      RunningReaderIsThere(files, buf, start, ms[..|ms| - 1]);
      FreshIsSafe(files, buf, start);
      MovesKeep(files, Fresh(buf, start), ms[..|ms| - 1]);
      MoveRunsTruly(files, Moves(files, Fresh(buf, start), ms[..|ms| - 1]), ms[|ms| - 1]);
    }
  }

  /* ---------- Failures ---------- */

  /** A track whose decoder cannot be opened, undisturbed, is noted as failed. */
  lemma FailedOpenIsNoted(files: Files, s: State)
    requires s.pc == Playing(Open) && !s.f.abort
    ensures var t := Moves(files, s, [PlayerMoves(false)] + [GO, GO]);
      t.pc == Settling(RaiseAbort) && t.bad && !t.aborted && t.cur == s.cur
  {
    Once(files, s, PlayerMoves(false));
    var s1 := s.(f := s.f.(failed := true), pc := Settling(NoteAbort));
    Twice(files, s1, GO);
    Then(files, s, [PlayerMoves(false)], s1, [GO, GO],
         s1.(aborted := false, bad := true, pc := Settling(RaiseAbort)));
  }

  /** And a failed track, or one whose reader does not go, is the last that is played. */
  lemma FailureEndsList(files: Files, s: State, ok: bool)
    ensures s.pc.After? && s.bad && !s.aborted ==> PlayerStep(files, s, ok) == s.(pc := Cleaning(Look))
    ensures s.pc == Settling(TimedOut) && s.f.alive ==>
      PlayerStep(files, s, ok) == s.(f := s.f.(stop := true), pc := Cleaning(Look))
    ensures s.pc == Cleaning(AwaitReader) && !s.f.alive ==> PlayerStep(files, s, ok) == s.(pc := Done)
  {
  }
}
