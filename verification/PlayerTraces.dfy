/** Runs of the player that end where its comments say it cannot: they mark the
    edges of the laws proved in modules Player and Skips. */
module PlayerTraces {
  import opened Bytes
  import opened SharedRing
  import opened Player

  lemma {:induction false} MovesJoin(files: Files, s: State, a: seq<Move>, b: seq<Move>)
    ensures Moves(files, s, a + b) == Moves(files, Moves(files, s, a), b)
  {
    if b == [] {
      assert a + b == a;
    } else {
      var init := b[..|b| - 1];
      MovesJoin(files, s, a, init);
      assert (a + b)[..|a + b| - 1] == a + init;
    }
  }

  lemma Once(files: Files, s: State, m: Move)
    ensures Moves(files, s, [m]) == MoveOf(files, s, m)
  {
    assert [m][..0] == [];
  }

  const GO := PlayerMoves(true)

  const READ := TaskMoves(true, 1)

  /** Two runs in a row. */
  lemma Then(files: Files, s: State, a: seq<Move>, t: State, b: seq<Move>, u: State)
    requires Moves(files, s, a) == t && Moves(files, t, b) == u
    ensures Moves(files, s, a + b) == u
  {
    MovesJoin(files, s, a, b);
  }

  lemma Twice(files: Files, s: State, m: Move)
    ensures Moves(files, s, [m, m]) == MoveOf(files, MoveOf(files, s, m), m)
  {
    Once(files, s, m);
    assert [m, m][..1] == [m];
  }

  function Chosen(s: State): State {
    s.(track := if s.cur >= 0 then s.cur else 0, taken := [],
       f := s.f.(abort := false, failed := false), pc := Resetting(false, false))
  }

  lemma Chooses(files: Files, s: State)
    requires s.pc == Beginning(Choose) && 0 <= s.cur < |files|
    ensures Moves(files, s, [GO, GO] + [GO]) == Chosen(s)
  {
    Twice(files, s, GO);
    var t := s.(track := s.cur, taken := [], f := s.f.(failed := false), pc := Beginning(ClearAbort));
    Once(files, t, GO);
    Then(files, s, [GO, GO], t, [GO], Chosen(s));
  }

  function Emptied(s: State): State {
    s.(ring := s.ring.(head := 0, tail := 0, written := [], read := []), pc := Starting(UnsetAbort))
  }

  lemma Empties(files: Files, s: State)
    requires s.pc == Resetting(false, false)
    ensures Moves(files, s, [GO, GO]) == Emptied(s)
  {
    Twice(files, s, GO);
  }

  function Launched(s: State): State {
    s.(f := s.f.(abort := false, failed := false, running := true, alive := true),
       rd := FileReader(Opening, s.rd.file, 0), pc := Playing(Open))
  }

  lemma Launches(files: Files, s: State)
    requires s.pc == Starting(UnsetAbort)
    ensures Moves(files, s, [GO, GO] + [GO, GO]) == Launched(s)
  {
    Twice(files, s, GO);
    var t := s.(f := s.f.(abort := false, failed := false), pc := Starting(SetRunning));
    Twice(files, t, GO);
    Then(files, s, [GO, GO], t, [GO, GO], Launched(s));
  }

  const BEGIN: seq<Move> := [GO, GO] + [GO] + [GO, GO] + ([GO, GO] + [GO, GO])

  /** A chosen track begins. */
  lemma Begins(files: Files, s: State)
    requires s.pc == Beginning(Choose) && 0 <= s.cur < |files|
    ensures Moves(files, s, BEGIN) == Launched(Emptied(Chosen(s)))
  {
    Chooses(files, s);
    Empties(files, Chosen(s));
    Then(files, s, [GO, GO] + [GO], Chosen(s), [GO, GO], Emptied(Chosen(s)));
    Launches(files, Emptied(Chosen(s)));
    Then(files, s, [GO, GO] + [GO] + [GO, GO], Emptied(Chosen(s)), [GO, GO] + [GO, GO], Launched(Emptied(Chosen(s))));
  }

  /* ---------- A skip that is lost on the reader moves two tracks ---------- */

  const SKIP: seq<Move> := [SetDelta(1), SetSkip, SetAbort]

  lemma Skips(files: Files, s: State)
    ensures Moves(files, s, SKIP) == s.(f := s.f.(delta := 1, skip := true, abort := true))
  {
    assert SKIP[..2] == [SetDelta(1), SetSkip] && [SetDelta(1), SetSkip][..1] == [SetDelta(1)];
    Once(files, s, SetDelta(1));
  }

  /** From an opened decoder to the end of the track, by way of the skip. */
  lemma Consumes(files: Files, s: State)
    requires s.pc == Playing(Open) && s.f.skip && !s.f.stop
    ensures Moves(files, s, [GO, GO] + [GO]) == s.(pc := Skipping(true, ReadDelta))
  {
    Twice(files, s, GO);
    var t := s.(pc := Playing(MaySkip));
    Once(files, t, GO);
    Then(files, s, [GO, GO], t, [GO], s.(pc := Skipping(true, ReadDelta)));
  }

  lemma Targets(files: Files, s: State)
    requires s.pc == Skipping(true, ReadDelta) && s.f.delta == 1 && 0 <= s.cur && s.cur + 1 < |files|
    ensures Moves(files, s, [GO, GO] + [GO]) ==
            s.(f := s.f.(skip := false, delta := 0), cur := s.cur + 1, pc := Resetting(true, false))
  {
    Twice(files, s, GO);
    var t := s.(f := s.f.(skip := false), pc := Skipping(true, ClearDelta(1)));
    Once(files, t, GO);
    Then(files, s, [GO, GO], t, [GO],
         s.(f := s.f.(skip := false, delta := 0), cur := s.cur + 1, pc := Resetting(true, false)));
  }

  lemma Drops(files: Files, s: State)
    requires s.pc == Resetting(true, false) && !s.f.abort && !s.f.failed
    ensures Moves(files, s, [GO, GO] + [GO, GO]) ==
            s.(ring := s.ring.(head := 0, tail := 0, written := [], read := []), aborted := false, bad := false,
               pc := Settling(RaiseAbort))
  {
    Twice(files, s, GO);
    var t := s.(ring := s.ring.(head := 0, tail := 0, written := [], read := []), pc := Settling(NoteAbort));
    Twice(files, t, GO);
    Then(files, s, [GO, GO], t, [GO, GO], t.(aborted := false, bad := false, pc := Settling(RaiseAbort)));
  }

  lemma SeesSign(files: Files, s: State)
    requires s.rd.task == MayRead && s.f.abort
    ensures Moves(files, s, [READ, READ]) == s.(f := s.f.(running := false), rd := s.rd.(task := Leaving))
  {
    Twice(files, s, READ);
  }

  /** The reader opens its file, sees the stop sign and goes. */
  lemma Goes(files: Files, s: State)
    requires s.rd.task == Opening && s.f.abort && !s.f.stop
    ensures Moves(files, s, [READ, READ] + [READ, READ] + [READ]) ==
            s.(f := s.f.(running := false, alive := false), rd := FileReader(Gone, s.track, s.rd.pos))
  {
    Twice(files, s, READ);
    var t := s.(rd := FileReader(MayRead, s.track, s.rd.pos));
    SeesSign(files, t);
    var u := s.(f := s.f.(running := false), rd := FileReader(Leaving, s.track, s.rd.pos));
    Then(files, s, [READ, READ], t, [READ, READ], u);
    Once(files, u, READ);
    Then(files, s, [READ, READ] + [READ, READ], u, [READ],
         s.(f := s.f.(running := false, alive := false), rd := FileReader(Gone, s.track, s.rd.pos)));
  }

  lemma Advances(files: Files, s: State)
    requires s.pc == Settling(Wait) && !s.f.alive && !s.f.stop && !s.bad && !s.aborted && s.cur == 1 && |files| == 3
    ensures Moves(files, s, [GO, GO]) == s.(cur := 2, pc := Top)
  {
    Twice(files, s, GO);
  }

  /** The moves of the run: the player looks for a skip and finds none, the
      skip to the next track comes, and everything then takes its course. */
  const LOST_SKIP: seq<Move> := [GO] + SKIP + BEGIN + AFTER_SKIP

  const DROP: seq<Move> :=
    ([GO, GO] + [GO]) + ([GO, GO] + [GO]) + ([GO, GO] + [GO, GO]) + [GO] + ([READ, READ] + [READ, READ] + [READ])

  const AFTER_SKIP: seq<Move> := DROP + [GO, GO]

  /** A single skip forward, made between the player's look for skips and the
      start of the reader, moves from the first track to the third: starting the
      track clears the sign that the reader was cut off, and the track that the
      skip has left counts as finished. */
  lemma LostSkipMovesTwo(files: Files, buf: seq<Byte>)
    requires |files| == 3
    ensures var s := Moves(files, Fresh(buf, 0), LOST_SKIP); s.pc == Top && s.cur == 2 && !s.f.skip
  {
    var s0 := Fresh(buf, 0);
    Once(files, s0, GO);
    var s1 := s0.(pc := Beginning(Choose));
    Skips(files, s1);
    var s2 := s1.(f := s1.f.(delta := 1, skip := true, abort := true));
    Then(files, s0, [GO], s1, SKIP, s2);
    Begins(files, s2);
    var s3 := Launched(Emptied(Chosen(s2)));
    Then(files, s0, [GO] + SKIP, s2, BEGIN, s3);
    var s4 := LostRest(files, s3);
    Then(files, s0, [GO] + SKIP + BEGIN, s3, AFTER_SKIP, s4);
  }

  const REQUEST: seq<Move> := [SetDelta(1), SetSkip]

  lemma Requests(files: Files, s: State)
    ensures Moves(files, s, REQUEST) == s.(f := s.f.(delta := 1, skip := true))
  {
    assert REQUEST[..1] == [SetDelta(1)];
    Once(files, s, SetDelta(1));
  }

  const LATE_CUT: seq<Move> := [GO] + BEGIN + REQUEST

  lemma LateRequest(files: Files, buf: seq<Byte>) returns (t: State)
    requires |files| == 3
    ensures Moves(files, Fresh(buf, 0), LATE_CUT) == t
    ensures t.pc == Playing(Open) && t.f.skip && !t.f.stop && t.f.delta == 1 && t.cur == 0
    ensures !t.f.abort && !t.f.failed && t.rd.task == Opening
  {
    var s0 := Fresh(buf, 0);
    Once(files, s0, GO);
    var s1 := s0.(pc := Beginning(Choose));
    Begins(files, s1);
    var s2 := Launched(Emptied(Chosen(s1)));
    Then(files, s0, [GO], s1, BEGIN, s2);
    Requests(files, s2);
    t := s2.(f := s2.f.(delta := 1, skip := true));
    Then(files, s0, [GO] + BEGIN, s2, REQUEST, t);
  }

  /** The other edge: the request is made while the first track is on, and the
      player consumes it and looks at the cut-off sign before the call comes to
      store that sign. */
  lemma LateCutMovesTwo(files: Files, buf: seq<Byte>)
    requires |files| == 3
    ensures var s := Moves(files, Fresh(buf, 0), LATE_CUT + AFTER_SKIP + [SetAbort]);
      s.pc == Top && s.cur == 2 && !s.f.skip
  {
    var s0 := Fresh(buf, 0);
    var s1 := LateRequest(files, buf);
    var s2 := LostRest(files, s1);
    Then(files, s0, LATE_CUT, s1, AFTER_SKIP, s2);
    Once(files, s2, SetAbort);
    Then(files, s0, LATE_CUT + AFTER_SKIP, s2, [SetAbort], s2.(f := s2.f.(abort := true)));
  }

  /** The player consumes the request and drops the track, and its reader goes. */
  lemma Dropped(files: Files, s: State) returns (t: State)
    requires s.pc == Playing(Open) && s.f.skip && !s.f.stop && s.f.delta == 1 && 0 <= s.cur && s.cur + 1 < |files|
    requires !s.f.abort && !s.f.failed && s.rd.task == Opening
    ensures t.pc == Settling(Wait) && t.cur == s.cur + 1 && t.track == s.track && !t.aborted && !t.bad
    ensures !t.f.skip && !t.f.stop && !t.f.alive
    ensures Moves(files, s, DROP) == t
  {
    Consumes(files, s);
    var s1 := s.(pc := Skipping(true, ReadDelta));
    Targets(files, s1);
    var s2 := s1.(f := s1.f.(skip := false, delta := 0), cur := s.cur + 1, pc := Resetting(true, false));
    var m1 := [GO, GO] + [GO];
    Then(files, s, m1, s1, m1, s2);
    Drops(files, s2);
    var s3 := s2.(ring := s2.ring.(head := 0, tail := 0, written := [], read := []), aborted := false, bad := false,
                  pc := Settling(RaiseAbort));
    Then(files, s, m1 + m1, s2, [GO, GO] + [GO, GO], s3);
    Once(files, s3, GO);
    var s4 := s3.(f := s3.f.(abort := true), pc := Settling(Wait));
    var m4 := m1 + m1 + ([GO, GO] + [GO, GO]);
    Then(files, s, m4, s3, [GO], s4);
    Goes(files, s4);
    t := s4.(f := s4.f.(running := false, alive := false), rd := FileReader(Gone, s4.track, s4.rd.pos));
    Then(files, s, m4 + [GO], s4, [READ, READ] + [READ, READ] + [READ], t);
  }

  lemma LostRest(files: Files, s: State) returns (t: State)
    requires s.pc == Playing(Open) && s.f.skip && !s.f.stop && s.f.delta == 1 && |files| == 3 && s.cur == 0
    requires !s.f.abort && !s.f.failed && s.rd.task == Opening
    ensures t.pc == Top && t.cur == 2 && !t.f.skip
    ensures Moves(files, s, AFTER_SKIP) == t
  {
    var u := Dropped(files, s);
    Advances(files, u);
    t := u.(cur := 2, pc := Top);
    Then(files, s, DROP, u, [GO, GO], t);
  }

  /* ---------- A lost cut-off before the last track ends the list ---------- */

  lemma Finishes(files: Files, s: State)
    requires s.pc == Settling(Wait) && !s.f.alive && !s.f.stop && !s.bad && !s.aborted && s.cur + 1 >= |files|
    ensures Moves(files, s, [GO, GO] + [GO]) == s.(pc := Done)
  {
    Twice(files, s, GO);
    Once(files, s.(pc := Cleaning(Look)), GO);
    Then(files, s, [GO, GO], s.(pc := Cleaning(Look)), [GO], s.(pc := Done));
  }

  const LOST_LAST: seq<Move> := [GO] + SKIP + BEGIN + DROP + ([GO, GO] + [GO])

  /** A skip forward from the last track but one, made before the reader of that
      track starts, ends the list: the player is done, neither stopped nor failed,
      and the last track, which is the target, has not begun. */
  lemma LostCutOffEndsList(files: Files, buf: seq<Byte>)
    requires |files| == 3
    ensures var s := Moves(files, Fresh(buf, 1), LOST_LAST);
      s.pc == Done && s.cur == 2 && s.track == 1 && !s.f.stop && !s.bad && !s.f.skip
  {
    var s0 := Fresh(buf, 1);
    Once(files, s0, GO);
    var s1 := s0.(pc := Beginning(Choose));
    Skips(files, s1);
    var s2 := s1.(f := s1.f.(delta := 1, skip := true, abort := true));
    Then(files, s0, [GO], s1, SKIP, s2);
    Begins(files, s2);
    var s3 := Launched(Emptied(Chosen(s2)));
    Then(files, s0, [GO] + SKIP, s2, BEGIN, s3);
    var s4 := Dropped(files, s3);
    Then(files, s0, [GO] + SKIP + BEGIN, s3, DROP, s4);
    Finishes(files, s4);
    Then(files, s0, [GO] + SKIP + BEGIN + DROP, s4, [GO, GO] + [GO], s4.(pc := Done));
  }

  /* ---------- A track given up while bytes of it are still in the ring ---------- */

  const PAIR: seq<Move> := [READ, READ]

  lemma Enters(files: Files, s: State)
    requires s.pc == Playing(Open) && !s.f.stop
    ensures Moves(files, s, [GO, GO]) == s.(pc := Playing(MaySkip))
  {
    Twice(files, s, GO);
  }

  lemma Looks(files: Files, s: State)
    requires s.pc == Playing(MaySkip) && !s.f.skip && s.ring.r == Quiet && s.ring.head == 0
    ensures Moves(files, s, [GO, GO]) == s.(pc := Playing(Feed), ring := s.ring.(r := Looking(0)))
  {
    Twice(files, s, GO);
  }

  lemma Sees(files: Files, s: State)
    requires s.pc == Playing(Feed) && s.ring.r == Looking(0) && s.ring.tail == 0
    ensures Moves(files, s, [GO]) == s.(ring := s.ring.(r := Seen(0)))
  {
    Once(files, s, GO);
  }

  /** The player looks into an empty ring. */
  lemma Peeks(files: Files, s: State)
    requires s.pc == Playing(Open) && !s.f.stop && !s.f.skip && s.ring == Empty(s.ring.buf)
    ensures Moves(files, s, [GO, GO] + [GO, GO] + [GO]) == s.(pc := Playing(Feed), ring := s.ring.(r := Seen(0)))
  {
    Enters(files, s);
    var t := s.(pc := Playing(MaySkip));
    Looks(files, t);
    var u := s.(pc := Playing(Feed), ring := s.ring.(r := Looking(0)));
    Then(files, s, [GO, GO], t, [GO, GO], u);
    Sees(files, u);
    Then(files, s, [GO, GO] + [GO, GO], u, [GO], s.(pc := Playing(Feed), ring := s.ring.(r := Seen(0))));
  }

  /** The reader opens its file and sizes its first read. */
  lemma ReadsOn(files: Files, s: State)
    requires s.rd.task == AtTop && s.ring.w == Rest && !s.f.stop && !s.f.abort
    ensures Moves(files, s, PAIR + PAIR) ==
            s.(rd := s.rd.(task := Body), ring := s.ring.(w := Sized(Free(s.ring.head, s.ring.tail, s.ring.Size()))))
  {
    Twice(files, s, READ);
    var t := s.(rd := s.rd.(task := Body));
    Twice(files, t, READ);
    Then(files, s, PAIR, t, PAIR,
         s.(rd := s.rd.(task := Body), ring := s.ring.(w := Sized(Free(s.ring.head, s.ring.tail, s.ring.Size())))));
  }

  /** One byte goes from the file into the ring. */
  lemma Delivers(files: Files, s: State, x: Byte)
    requires |files| == 1 && files[0] == [x] && s.rd == FileReader(Body, 0, 0) && s.ring.Size() >= 3
    requires s.ring.w == Sized(s.ring.Size() - 1) && s.ring.head == 0 && s.ring.tail == 0
    ensures Moves(files, s, PAIR + PAIR) ==
            s.(rd := FileReader(Body, 0, 1), ring := s.ring.(w := Copying([x], 1, 0, 0)))
  {
    Fetches(files, s, x);
    var t := s.(rd := FileReader(Body, 0, 1), ring := s.ring.(w := Checking([x], 0)));
    ChecksIn(files, t, x);
    Then(files, s, PAIR, t, PAIR, s.(rd := FileReader(Body, 0, 1), ring := s.ring.(w := Copying([x], 1, 0, 0))));
  }

  lemma TakesByte(files: Files, rd: FileReader, x: Byte)
    requires |files| == 1 && files[0] == [x] && rd.file == 0 && rd.pos == 0
    ensures Chunk(files, rd, 1) == [x]
  {
  }

  lemma Fetches(files: Files, s: State, x: Byte)
    requires |files| == 1 && files[0] == [x] && s.rd == FileReader(Body, 0, 0)
    requires s.ring.w.Sized? && s.ring.w.space >= 2 && s.ring.head == 0
    ensures Moves(files, s, PAIR) == s.(rd := FileReader(Body, 0, 1), ring := s.ring.(w := Checking([x], 0)))
  {
    TakesByte(files, s.rd, x);
    assert NextChunk(files, s, 1) == [x];
    Twice(files, s, READ);
  }

  lemma ChecksIn(files: Files, s: State, x: Byte)
    requires s.rd.task == Body && s.ring.Size() >= 3
    requires s.ring.w == Checking([x], 0) && s.ring.head == 0 && s.ring.tail == 0
    ensures Moves(files, s, PAIR) == s.(ring := s.ring.(w := Copying([x], 1, 0, 0)))
  {
    var t := s.(ring := s.ring.(w := Ready([x], 1)));
    Checks(files, s, x);
    StartsCopy(files, t, x);
    Twice(files, s, READ);
  }

  lemma Checks(files: Files, s: State, x: Byte)
    requires s.rd.task == Body && s.ring.Size() >= 3
    requires s.ring.w == Checking([x], 0) && s.ring.head == 0 && s.ring.tail == 0
    ensures MoveOf(files, s, READ) == s.(ring := s.ring.(w := Ready([x], 1)))
  {
  }

  lemma StartsCopy(files: Files, s: State, x: Byte)
    requires s.rd.task == Body && s.ring.w == Ready([x], 1) && s.ring.head == 0
    ensures MoveOf(files, s, READ) == s.(ring := s.ring.(w := Copying([x], 1, 0, 0)))
  {
  }

  lemma Publishes(files: Files, s: State, x: Byte)
    requires s.rd.task == Body && s.ring.Size() >= 3 && s.ring.w == Copying([x], 1, 0, 0)
    ensures Moves(files, s, PAIR) ==
            s.(rd := s.rd.(task := AtTop),
               ring := s.ring.(buf := s.ring.buf[0 := x], head := 1, written := s.ring.written + [x], w := Rest))
  {
    assert WriteIndex(s.ring) == 0;
    var r := s.ring.(buf := s.ring.buf[0 := x], w := Copying([x], 1, 0, 1));
    assert Step(s.ring, CopyByte) == r;
    PublishesByte(r, x);
    Twice(files, s, READ);
  }

  lemma PublishesByte(r: Ring, x: Byte)
    requires r.Size() >= 3 && r.w == Copying([x], 1, 0, 1)
    ensures Step(r, PublishHead) == r.(head := 1, written := r.written + [x], w := Rest)
  {
    assert [x][..1] == [x];
    Residue(1, 0, 1, r.Size());
  }

  /** The end of the file: the reader is gone but for its handle. */
  lemma FileEnds(files: Files, s: State)
    requires s.rd.task == Body && AtEnd(files, s.rd) && s.ring.w.Sized? && s.ring.w.space >= 1
    ensures Moves(files, s, PAIR + [READ]) ==
            s.(rd := s.rd.(task := Leaving), ring := s.ring.(w := Rest), f := s.f.(running := false))
  {
    Twice(files, s, READ);
    var t := s.(rd := s.rd.(task := Closing), ring := s.ring.(w := Rest));
    Once(files, t, READ);
    Then(files, s, PAIR, t, [READ],
         s.(rd := s.rd.(task := Leaving), ring := s.ring.(w := Rest), f := s.f.(running := false)));
  }

  const WHOLE_FILE: seq<Move> := [READ] + (PAIR + PAIR) + (PAIR + PAIR) + PAIR + (PAIR + PAIR) + (PAIR + [READ])

  /** The reader from its start to its end, while the player stands still. */
  lemma ReadsItAll(files: Files, s: State, x: Byte)
    requires |files| == 1 && files[0] == [x] && s.rd == FileReader(Opening, 0, 0) && s.track == 0
    requires s.ring == Empty(s.ring.buf).(r := s.ring.r) && s.ring.Size() >= 3 && !s.f.stop && !s.f.abort
    ensures Moves(files, s, WHOLE_FILE) ==
            s.(rd := FileReader(Leaving, 0, 1), f := s.f.(running := false),
               ring := s.ring.(buf := s.ring.buf[0 := x], head := 1, written := [x]))
  {
    var begin := [READ] + (PAIR + PAIR);
    ReadsFirst(files, s);
    var s2 := s.(rd := FileReader(Body, 0, 0), ring := s.ring.(w := Sized(s.ring.Size() - 1)));
    Delivers(files, s2, x);
    var s3 := s.(rd := FileReader(Body, 0, 1), ring := s.ring.(w := Copying([x], 1, 0, 0)));
    Then(files, s, begin, s2, PAIR + PAIR, s3);
    PublishesFirst(files, s3, x);
    var s4 := s.(rd := FileReader(AtTop, 0, 1), ring := s.ring.(buf := s.ring.buf[0 := x], head := 1, written := [x]));
    Then(files, s, begin + (PAIR + PAIR), s3, PAIR, s4);
    ReadsRest(files, s, s4, x);
  }

  lemma ReadsFirst(files: Files, s: State)
    requires s.rd == FileReader(Opening, 0, 0) && s.track == 0
    requires s.ring.w == Rest && s.ring.head == 0 && s.ring.tail == 0 && s.ring.Size() >= 3 && !s.f.stop && !s.f.abort
    ensures Moves(files, s, [READ] + (PAIR + PAIR)) ==
            s.(rd := FileReader(Body, 0, 0), ring := s.ring.(w := Sized(s.ring.Size() - 1)))
  {
    Once(files, s, READ);
    var s1 := s.(rd := FileReader(AtTop, 0, 0));
    ReadsOn(files, s1);
    Then(files, s, [READ], s1, PAIR + PAIR,
         s.(rd := FileReader(Body, 0, 0), ring := s.ring.(w := Sized(s.ring.Size() - 1))));
  }

  lemma PublishesFirst(files: Files, s: State, x: Byte)
    requires s.rd.task == Body && s.ring.Size() >= 3 && s.ring.w == Copying([x], 1, 0, 0) && s.ring.written == []
    ensures Moves(files, s, PAIR) ==
            s.(rd := s.rd.(task := AtTop),
               ring := s.ring.(buf := s.ring.buf[0 := x], head := 1, written := [x], w := Rest))
  {
    Publishes(files, s, x);
    assert [] + [x] == [x];
  }

  lemma ReadsOnce(files: Files, s: State)
    requires s.rd == FileReader(AtTop, 0, 1) && s.ring.w == Rest && !s.f.stop && !s.f.abort
    requires s.ring.Size() >= 3 && s.ring.head == 1 && s.ring.tail == 0
    ensures Moves(files, s, PAIR + PAIR) ==
            s.(rd := FileReader(Body, 0, 1), ring := s.ring.(w := Sized(s.ring.Size() - 2)))
  {
    ReadsOn(files, s);
  }

  lemma ReadsRest(files: Files, s: State, s4: State, x: Byte)
    requires |files| == 1 && files[0] == [x] && !s4.f.stop && !s4.f.abort
    requires s4.rd == FileReader(AtTop, 0, 1) && s4.ring.w == Rest
    requires s4.ring.Size() >= 3 && s4.ring.head == 1 && s4.ring.tail == 0
    requires Moves(files, s, [READ] + (PAIR + PAIR) + (PAIR + PAIR) + PAIR) == s4
    ensures Moves(files, s, WHOLE_FILE) == s4.(rd := FileReader(Leaving, 0, 1), f := s4.f.(running := false))
  {
    ReadsOnce(files, s4);
    var s5 := s4.(rd := FileReader(Body, 0, 1), ring := s4.ring.(w := Sized(s4.ring.Size() - 2)));
    var done := [READ] + (PAIR + PAIR) + (PAIR + PAIR) + PAIR;
    Then(files, s, done, s4, PAIR + PAIR, s5);
    FileEnds(files, s5);
    Then(files, s, done + (PAIR + PAIR), s5, PAIR + [READ],
         s4.(rd := FileReader(Leaving, 0, 1), f := s4.f.(running := false)));
  }

  lemma GivesUp(files: Files, s: State)
    requires s.pc == Playing(Feed) && s.ring.r == Seen(0) && !s.f.running
    ensures Moves(files, s, [GO, GO]) == s.(pc := Settling(NoteAbort), ring := s.ring.(r := Quiet))
  {
    Twice(files, s, GO);
  }

  const GIVEN_UP: seq<Move> := [GO] + BEGIN + ([GO, GO] + [GO, GO] + [GO]) + WHOLE_FILE + [GO, GO]

  /** The player looks into the ring before the reader has put anything there,
      and at the reader after it has put the whole file there and ended: the
      track counts as played, undisturbed, and not a byte of it was taken. */
  lemma UnplayedTrackEnds(files: Files, buf: seq<Byte>, x: Byte)
    requires files == [[x]] && |buf| >= 3
    ensures var s := Moves(files, Fresh(buf, 0), GIVEN_UP);
      && s.pc == Settling(NoteAbort) && !s.f.abort && !s.f.failed && !s.f.stop
      && s.taken == [] && s.ring.written == files[0]
  {
    var s0 := Fresh(buf, 0);
    Once(files, s0, GO);
    var s1 := s0.(pc := Beginning(Choose));
    Begins(files, s1);
    var s2 := Launched(Emptied(Chosen(s1)));
    Then(files, s0, [GO], s1, BEGIN, s2);
    Peeks(files, s2);
    var s3 := s2.(pc := Playing(Feed), ring := s2.ring.(r := Seen(0)));
    Then(files, s0, [GO] + BEGIN, s2, [GO, GO] + [GO, GO] + [GO], s3);
    ReadsItAll(files, s3, x);
    var s4 := s3.(rd := FileReader(Leaving, 0, 1), f := s3.f.(running := false),
                  ring := s3.ring.(buf := s3.ring.buf[0 := x], head := 1, written := [x]));
    Then(files, s0, [GO] + BEGIN + ([GO, GO] + [GO, GO] + [GO]), s3, WHOLE_FILE, s4);
    GivesUp(files, s4);
    Then(files, s0, [GO] + BEGIN + ([GO, GO] + [GO, GO] + [GO]) + WHOLE_FILE, s4, [GO, GO],
         s4.(pc := Settling(NoteAbort), ring := s4.ring.(r := Quiet)));
  }

  /* ---------- A request that comes after the last look ---------- */

  const EMPTY_FILE: seq<Move> := [READ] + (PAIR + PAIR) + (PAIR + [READ]) + [READ]

  /** The reader of an empty file, from its start until it is gone. */
  lemma ReadsNothing(files: Files, s: State)
    requires s.track < |files| && files[s.track] == [] && s.rd.task == Opening && s.rd.pos == 0
    requires s.ring == Empty(s.ring.buf).(r := s.ring.r) && s.ring.Size() >= 2 && !s.f.stop && !s.f.abort
    ensures Moves(files, s, EMPTY_FILE) ==
            s.(rd := FileReader(Gone, s.track, 0), f := s.f.(running := false, alive := false))
  {
    Once(files, s, READ);
    var s1 := s.(rd := FileReader(AtTop, s.track, 0));
    ReadsOn(files, s1);
    var s2 := s.(rd := FileReader(Body, s.track, 0), ring := s.ring.(w := Sized(s.ring.Size() - 1)));
    Then(files, s, [READ], s1, PAIR + PAIR, s2);
    FileEnds(files, s2);
    var s3 := s.(rd := FileReader(Leaving, s.track, 0), f := s.f.(running := false));
    Then(files, s, [READ] + (PAIR + PAIR), s2, PAIR + [READ], s3);
    Once(files, s3, READ);
    Then(files, s, [READ] + (PAIR + PAIR) + (PAIR + [READ]), s3, [READ],
         s.(rd := FileReader(Gone, s.track, 0), f := s.f.(running := false, alive := false)));
  }

  const PLAYED: seq<Move> := [GO] + BEGIN + ([GO, GO] + [GO, GO] + [GO]) + EMPTY_FILE + [GO, GO]

  /** The last of three tracks, an empty file, from start to end. */
  lemma Plays(files: Files, buf: seq<Byte>) returns (t: State)
    requires |files| == 3 && files[2] == [] && |buf| >= 2
    ensures Moves(files, Fresh(buf, 2), PLAYED) == t
    ensures t.pc == Settling(NoteAbort) && t.cur == 2 && t.f == Flags(false, false, false, false, false, false, 0)
  {
    var s0 := Fresh(buf, 2);
    Once(files, s0, GO);
    var s1 := s0.(pc := Beginning(Choose));
    Begins(files, s1);
    var s2 := Launched(Emptied(Chosen(s1)));
    Then(files, s0, [GO], s1, BEGIN, s2);
    Peeks(files, s2);
    var s3 := s2.(pc := Playing(Feed), ring := s2.ring.(r := Seen(0)));
    Then(files, s0, [GO] + BEGIN, s2, [GO, GO] + [GO, GO] + [GO], s3);
    ReadsNothing(files, s3);
    var s4 := s3.(rd := FileReader(Gone, 2, 0), f := s3.f.(running := false, alive := false));
    Then(files, s0, [GO] + BEGIN + ([GO, GO] + [GO, GO] + [GO]), s3, EMPTY_FILE, s4);
    GivesUp(files, s4);
    t := s4.(pc := Settling(NoteAbort), ring := s4.ring.(r := Quiet));
    Then(files, s0, [GO] + BEGIN + ([GO, GO] + [GO, GO] + [GO]) + EMPTY_FILE, s4, [GO, GO], t);
  }

  const ENDS: seq<Move> := [GO, GO] + [GO, GO] + [GO]

  /** The end of the last track, with its cut-off too late to be seen. */
  lemma Ends(files: Files, s: State)
    requires s.pc == Settling(NoteFailed) && !s.aborted && !s.f.failed && !s.f.stop && !s.f.alive
    requires s.cur + 1 >= |files|
    ensures Moves(files, s, ENDS) == s.(bad := false, f := s.f.(abort := true), pc := Done)
  {
    Twice(files, s, GO);
    var t := s.(bad := false, f := s.f.(abort := true), pc := Settling(Wait));
    Twice(files, t, GO);
    Then(files, s, [GO, GO], t, [GO, GO], t.(pc := Cleaning(Look)));
    Once(files, t.(pc := Cleaning(Look)), GO);
    Then(files, s, [GO, GO] + [GO, GO], t.(pc := Cleaning(Look)), [GO], t.(pc := Done));
  }

  const LOST_REQUEST: seq<Move> := PLAYED + [GO] + SKIP + ENDS

  /** A skip forward at the end of the last track, made after the player has
      looked at the cut-off sign, moves nowhere: the player ends with the request
      still there, neither stopped nor failed, though the first track is meant. */
  lemma LostRequestMovesNone(files: Files, buf: seq<Byte>)
    requires |files| == 3 && files[2] == [] && |buf| >= 2
    ensures var s := Moves(files, Fresh(buf, 2), LOST_REQUEST);
      && s.pc == Done && s.cur == 2 && s.f.skip && !s.f.stop && !s.bad
      && SkipTarget(s.f.delta, s.cur, |files|) == 0
  {
    var s0 := Fresh(buf, 2);
    var s1 := Plays(files, buf);
    Once(files, s1, GO);
    var s2 := s1.(aborted := false, pc := Settling(NoteFailed));
    Then(files, s0, PLAYED, s1, [GO], s2);
    Skips(files, s2);
    var s3 := s2.(f := s2.f.(delta := 1, skip := true, abort := true));
    Then(files, s0, PLAYED + [GO], s2, SKIP, s3);
    Ends(files, s3);
    Then(files, s0, PLAYED + [GO] + SKIP, s3, ENDS, s3.(bad := false, pc := Done));
  }
}
