/** The handover of the ring from track to track: the task that plays, the
    task that reads the current file into the ring, and the calls that skip
    and stop, in any order of their steps. Every access to shared state is a
    step of its own. */
module Player {
  import opened Bytes
  import opened SharedRing

  const READ_CHUNK := 8192
  const DECODER_INPUT := 65536

  /** Where the file reader is. */
  datatype Task = Gone | Opening | AtTop | MayRead | Body | Ended | Erring | Failing | Closing | Leaving

  /** Where the player is: between tracks, on one, or done with one. A skip is
      consumed at the top of the track loop or in the decoding loop, a reset is
      done before a track or when one is dropped. */
  datatype Pc =
    | Top
    | Skipping(inLoop: bool, skipAt: SkipPc)
    | Beginning(beginAt: BeginPc)
    | Resetting(inLoop: bool, half: bool)
    | Starting(startAt: StartPc)
    | Playing(playAt: PlayPc)
    | Settling(settleAt: SettlePc)
    | After
    | Cleaning(cleanAt: CleanPc)
    | Done

  datatype SkipPc = ReadDelta | ClearSkip(d: int) | ClearDelta(d: int)
  datatype BeginPc = Choose | ClearFailed | ClearAbort
  datatype StartPc = UnsetAbort | UnsetFailed | SetRunning | Create
  datatype PlayPc = Open | MayStop | MaySkip | Feed | Drained | Decode
  datatype SettlePc = NoteAbort | NoteFailed | RaiseAbort | Wait | TimedOut
  datatype CleanPc = Look | RaiseStop | CutReader | AwaitReader

  datatype Flags = Flags(stop: bool, running: bool, alive: bool, abort: bool, failed: bool, skip: bool, delta: int)

  datatype FileReader = FileReader(task: Task, file: nat, pos: nat)

  datatype State = State(
    ring: Ring, f: Flags, rd: FileReader,
    pc: Pc, cur: int, track: nat, aborted: bool, bad: bool, taken: seq<Byte>)

  type Files = seq<seq<Byte>>

  /** The track a skip leads to: forward wraps around, backward stops at the first. */
  function SkipTarget(d: int, cur: int, count: nat): (n: int)
    requires 0 <= cur < count
    ensures 0 <= n < count
  {
    if count <= 1 then cur
    else if d > 0 then (if cur + 1 == count then 0 else cur + 1)
    else if cur > 0 then cur - 1 else 0
  }

  /** What follows a finished track. */
  datatype Verdict = Stop | Failed | Again(cur: int) | Advance(cur: int) | Finished

  function Decide(stop: bool, failed: bool, aborted: bool, cur: int, count: nat): Verdict {
    if stop then Stop
    else if failed && !aborted then Failed
    else if aborted then Again(cur)
    else if cur + 1 < count then Advance(cur + 1)
    else Finished
  }

  /** Consuming a skip request: the flag, the delta, then the track it leads to. */
  function SkipStep(files: Files, s: State): State
    requires s.pc.Skipping?
  {
    s.(f := SkipFlags(s.f, s.pc.skipAt),
       cur := if s.pc.skipAt.ClearDelta? && 0 <= s.cur < |files|
              then SkipTarget(s.pc.skipAt.d, s.cur, |files|) else s.cur,
       pc := SkipNext(s.pc, s.f.delta))
  }

  function SkipFlags(f: Flags, at: SkipPc): Flags {
    match at
    case ReadDelta => f
    case ClearSkip(_) => f.(skip := false)
    case ClearDelta(_) => f.(delta := 0)
  }

  function SkipNext(pc: Pc, delta: int): Pc
    requires pc.Skipping?
  {
    match pc.skipAt
    case ReadDelta => Skipping(pc.inLoop, ClearSkip(delta))
    case ClearSkip(d) => Skipping(pc.inLoop, ClearDelta(d))
    case ClearDelta(d) => if pc.inLoop then Resetting(true, false) else Beginning(Choose)
  }

  /** Going to the chosen track. */
  function BeginStep(files: Files, s: State): State
    requires s.pc.Beginning?
  {
    var chosen := s.pc.beginAt.Choose? && 0 <= s.cur < |files|;
    s.(track := if chosen then s.cur else s.track, taken := if chosen then [] else s.taken,
       f := BeginFlags(s.f, s.pc.beginAt), pc := BeginNext(s.pc.beginAt, chosen))
  }

  function BeginFlags(f: Flags, at: BeginPc): Flags {
    match at
    case Choose => f
    case ClearFailed => f.(failed := false)
    case ClearAbort => f.(abort := false)
  }

  function BeginNext(at: BeginPc, chosen: bool): Pc {
    match at
    case Choose => if chosen then Beginning(ClearFailed) else Cleaning(Look)
    case ClearFailed => Beginning(ClearAbort)
    case ClearAbort => Resetting(false, false)
  }

  /** Resetting the ring, one index after the other. */
  function ResetStep(s: State): State
    requires s.pc.Resetting?
  {
    s.(ring := if s.pc.half then s.ring.(tail := 0, written := [], read := []) else s.ring.(head := 0),
       pc := if !s.pc.half then Resetting(s.pc.inLoop, true)
             else if s.pc.inLoop then Settling(NoteAbort)
             else Starting(UnsetAbort))
  }

  /** Starting the file reader. */
  function StartStep(s: State, ok: bool): State
    requires s.pc.Starting?
  {
    s.(f := StartFlags(s.f, s.pc.startAt, ok),
       rd := if s.pc.startAt.Create? && ok then FileReader(Opening, s.rd.file, 0) else s.rd,
       pc := StartNext(s.pc.startAt, ok))
  }

  function StartFlags(f: Flags, at: StartPc, ok: bool): Flags {
    match at
    case UnsetAbort => f.(abort := false)
    case UnsetFailed => f.(failed := false)
    case SetRunning => f.(running := true)
    case Create => if ok then f.(alive := true) else f.(running := false)
  }

  function StartNext(at: StartPc, ok: bool): Pc {
    match at
    case UnsetAbort => Starting(UnsetFailed)
    case UnsetFailed => Starting(SetRunning)
    case SetRunning => Starting(Create)
    case Create => if ok then Playing(Open) else Cleaning(Look)
  }

  /** The decoding loop. */
  function PlayStep(s: State, ok: bool): State
    requires s.pc.Playing?
  {
    match s.pc.playAt
    case Open => if ok then s.(pc := Playing(MayStop)) else s.(f := s.f.(failed := true), pc := Settling(NoteAbort))
    case MayStop => s.(pc := if s.f.stop then Settling(NoteAbort) else Playing(MaySkip))
    case MaySkip => s.(pc := if s.f.skip then Skipping(true, ReadDelta) else Playing(Feed))
    case Feed => FeedStep(s)
    case Drained => s.(pc := if s.f.running then Playing(MayStop) else Settling(NoteAbort))
    case Decode => s.(pc := if ok then Playing(MayStop) else Cleaning(Look))
  }

  /** The end of a track: the two flags are noted before the reader is told to
      go and waited for. */
  function SettleStep(s: State, ok: bool): State
    requires s.pc.Settling?
  {
    match s.pc.settleAt
    case NoteAbort => s.(aborted := s.f.abort, pc := Settling(NoteFailed))
    case NoteFailed => s.(bad := s.f.failed, pc := Settling(RaiseAbort))
    case RaiseAbort => s.(f := s.f.(abort := true), pc := Settling(Wait))
    case Wait => s.(pc := if !s.f.alive then After else Settling(if ok then Wait else TimedOut))
    case TimedOut => if s.f.alive then s.(f := s.f.(stop := true), pc := Cleaning(Look)) else s.(pc := After)
  }

  function AfterStep(files: Files, s: State): State {
    match Decide(s.f.stop, s.bad, s.aborted, s.cur, |files|)
    case Again(cur) => s.(pc := Top)
    case Advance(cur) => s.(cur := cur, pc := Top)
    case _ => s.(pc := Cleaning(Look))
  }

  function CleanStep(s: State, ok: bool): State
    requires s.pc.Cleaning?
  {
    s.(f := CleanFlags(s.f, s.pc.cleanAt), pc := CleanNext(s.pc.cleanAt, s.f.alive, ok))
  }

  function CleanFlags(f: Flags, at: CleanPc): Flags {
    match at
    case RaiseStop => f.(stop := true)
    case CutReader => f.(abort := true)
    case _ => f
  }

  function CleanNext(at: CleanPc, alive: bool, ok: bool): Pc {
    match at
    case Look => if alive then Cleaning(RaiseStop) else Done
    case RaiseStop => Cleaning(CutReader)
    case CutReader => Cleaning(AwaitReader)
    case AwaitReader => if alive && ok then Cleaning(AwaitReader) else Done
  }

  /** One step of the player; ok settles what the outside decides. */
  function PlayerStep(files: Files, s: State, ok: bool): State {
    match s.pc
    case Top => s.(pc := if s.f.skip then Skipping(false, ReadDelta) else Beginning(Choose))
    case Skipping(_, _) => SkipStep(files, s)
    case Beginning(_) => BeginStep(files, s)
    case Resetting(_, _) => ResetStep(s)
    case Starting(_) => StartStep(s, ok)
    case Playing(_) => PlayStep(s, ok)
    case Settling(_) => SettleStep(s, ok)
    case After => AfterStep(files, s)
    case Cleaning(_) => CleanStep(s, ok)
    case Done => s
  }

  /** The next step of taking a block out of the ring. */
  function TakeEvent(r: Reader): Event {
    match r
    case Quiet => PeekHead
    case Looking(_) => PeekTail
    case Seen(_) => Ask(DECODER_INPUT)
    case Asking(_, _) => AskTail
    case Granted(_) => StartTake
    case Taking(len, _, got) => if |got| < len then TakeByte else PublishTail
  }

  function FeedStep(s: State): State {
    var t := s.(ring := Step(s.ring, TakeEvent(s.ring.r)));
    if s.ring.r.Seen? && s.ring.r.avail == 0 then t.(pc := Playing(Drained))
    else if s.ring.r.Taking? && |s.ring.r.got| >= s.ring.r.len then
      t.(taken := s.taken + s.ring.r.got, pc := Playing(Decode))
    else if t.ring.r.Quiet? then t.(pc := Playing(MayStop))
    else t
  }

  /** One step of the file reader; ok and n settle what the file system does. */
  function TaskStep(files: Files, s: State, ok: bool, n: nat): State {
    if s.rd.task.Body? then BodyStep(files, s, n) else TaskFlagStep(files, s, ok)
  }

  function At(s: State, task: Task): State {
    s.(rd := s.rd.(task := task))
  }

  function TaskFlagStep(files: Files, s: State, ok: bool): State {
    s.(f := FlagsAfter(s.f, s.rd.task, ok), rd := ReaderAfter(files, s.f, s.rd, s.track, ok))
  }

  function FlagsAfter(f: Flags, task: Task, ok: bool): Flags {
    match task
    case Opening => if ok then f else f.(failed := true)
    case Failing => f.(failed := true)
    case Closing => f.(running := false)
    case Leaving => f.(alive := false)
    case _ => f
  }

  function ReaderAfter(files: Files, f: Flags, rd: FileReader, track: nat, ok: bool): FileReader {
    match rd.task
    case Opening => if ok then rd.(file := track, task := AtTop) else rd.(task := Closing)
    case AtTop => rd.(task := if f.stop then Closing else MayRead)
    case MayRead => rd.(task := if f.abort then Closing else Body)
    case Ended => rd.(task := if (ok && AtEnd(files, rd)) || f.abort then Closing else Erring)
    case Erring => rd.(task := if f.stop then Closing else Failing)
    case Failing => rd.(task := Closing)
    case Closing => rd.(task := Leaving)
    case Leaving => rd.(task := Gone)
    case _ => rd
  }

  /** A read of nothing that is no error is the end of the file. */
  predicate AtEnd(files: Files, rd: FileReader) {
    rd.file < |files| && rd.pos == |files[rd.file]|
  }

  /** Up to n more bytes of the open file. */
  function Chunk(files: Files, rd: FileReader, n: nat): (data: seq<Byte>)
    ensures |data| <= n
  {
    if rd.file < |files| && rd.pos <= |files[rd.file]| then
      var len := Min(n, |files[rd.file]| - rd.pos);
      files[rd.file][rd.pos..rd.pos + len]
    else []
  }

  function FillEvent(w: Writer): Event {
    match w
    case Rest => LookHead
    case Sizing(_) => LookTail
    case Sized(_) => Fetch([])
    case Holding(_) => CheckHead
    case Checking(_, _) => CheckTail
    case Ready(_, _) => StartCopy
    case Copying(_, len, _, done) => if done < len then CopyByte else PublishHead
  }

  function BodyStep(files: Files, s: State, n: nat): State {
    if s.ring.w.Sized? then FetchStep(s, NextChunk(files, s, n)) else FillStep(s)
  }

  function NextChunk(files: Files, s: State, n: nat): seq<Byte>
    requires s.ring.w.Sized?
  {
    Chunk(files, s.rd, Min(n, Max(0, Min(s.ring.w.space, READ_CHUNK))))
  }

  function Max(a: int, b: int): (m: int)
    ensures m >= a && m >= b && (m == a || m == b)
  {
    if a < b then b else a
  }

  function FetchStep(s: State, data: seq<Byte>): State
    requires s.ring.w.Sized?
  {
    if s.ring.w.space <= 0 then At(s.(ring := s.ring.(w := Rest)), AtTop)
    else
      s.(ring := Step(s.ring, Fetch(data)),
         rd := s.rd.(pos := s.rd.pos + |data|, task := if data == [] then Ended else Body))
  }

  function FillStep(s: State): State {
    var r := Step(s.ring, FillEvent(s.ring.w));
    At(s.(ring := r), if r.w.Rest? then AtTop else Body)
  }

  /** What can happen next: a step of either task, or of a call that sets one
      of the shared flags. */
  datatype Move =
    | PlayerMoves(ok: bool)
    | TaskMoves(ok: bool, n: nat)
    | SetDelta(d: int) | SetSkip | SetAbort | SetStop

  function MoveOf(files: Files, s: State, m: Move): State {
    match m
    case PlayerMoves(ok) => PlayerStep(files, s, ok)
    case TaskMoves(ok, n) => TaskStep(files, s, ok, n)
    case _ => FlagStep(s, m)
  }

  function FlagStep(s: State, m: Move): State {
    s.(f := FlagsOf(s.f, m))
  }

  function FlagsOf(f: Flags, m: Move): Flags {
    match m
    case SetDelta(d) => f.(delta := d)
    case SetSkip => f.(skip := true)
    case SetAbort => f.(abort := true)
    case SetStop => f.(stop := true)
    case _ => f
  }

  function Moves(files: Files, s: State, ms: seq<Move>): State {
    if ms == [] then s else MoveOf(files, Moves(files, s, ms[..|ms| - 1]), ms[|ms| - 1])
  }

  /** The player task as it is started on a track of the list. */
  function Fresh(buf: seq<Byte>, start: nat): State {
    State(Empty(buf), Flags(false, false, false, false, false, false, 0), FileReader(Gone, 0, 0),
          Top, start, start, false, false, [])
  }

  /* ---------- The invariant ---------- */

  /** The player is between tracks: no reader is there. */
  predicate Between(pc: Pc) {
    || pc.Top? || pc.Beginning? || pc.Starting? || pc.After?
    || (pc.Skipping? && !pc.inLoop) || (pc.Resetting? && !pc.inLoop)
  }

  /** The player is on a track: the ring holds bytes of that track alone. */
  predicate OnTrack(pc: Pc) {
    pc.Playing? || (pc.Skipping? && pc.inLoop)
  }

  /** The current track is chosen and its reader not yet there. */
  predicate Preparing(pc: Pc) {
    pc.Starting? || (pc.Beginning? && !pc.beginAt.Choose?) || (pc.Resetting? && !pc.inLoop)
  }

  /** The bytes the file reader has fetched but not yet published. */
  function Pending(w: Writer): seq<Byte> {
    match w
    case Holding(data) => data
    case Checking(data, _) => data
    case Ready(data, _) => data
    case Copying(data, _, _, _) => data
    case _ => []
  }

  /** The reader is through with its file. */
  predicate Through(t: Task) {
    t.Closing? || t.Leaving? || t.Gone?
  }

  /** The ring and the reader's hands hold the first pos bytes of the file. */
  ghost predicate Follows(r: Ring, file: seq<Byte>, pos: nat) {
    Inv(r) && pos <= |file| && r.written + Pending(r.w) == file[..pos]
  }

  /** What control keeps in order: the reader is there only while a track is
      on, its flag tells the truth, and the ring is reset before a reader starts.
      When the reader is through without having been disturbed, it has fetched
      the whole file. */
  ghost predicate Orderly(files: Files, s: State) {
    && 0 <= s.cur < |files| && s.track < |files|
    && (s.f.alive <==> !s.rd.task.Gone?)
    && (!s.rd.task.Body? ==> s.ring.w.Rest?)
    && (s.pc != Playing(Feed) ==> s.ring.r.Quiet?)
    && (Between(s.pc) ==> !s.f.alive)
    && (Preparing(s.pc) ==> s.taken == [])
    && (s.pc == Resetting(false, true) ==> s.ring.head == 0)
    && (s.pc.Starting? ==> s.ring == Empty(s.ring.buf))
    && (s.pc == Starting(Create) ==> s.f.running)
    && (OnTrack(s.pc) ==> Honest(s.f, s.rd, s.track, |files[s.track]|))
  }

  /** The reader is at its own file, and when it is through without having been
      disturbed, at the end of it. */
  predicate Honest(f: Flags, rd: FileReader, track: nat, size: nat) {
    && rd.pos <= size
    && (rd.task.Opening? || Through(rd.task) || rd.file == track)
    && (Through(rd.task) ==> f.failed || f.abort || f.stop || rd.pos == size)
    && (!f.running ==> rd.task.Leaving? || rd.task.Gone?)
  }

  /** Everything fetched from the file of the current track is taken, in the
      ring, or in the reader's hands, in this order. */
  ghost predicate Faithful(r: Ring, file: seq<Byte>, pos: nat, taken: seq<Byte>, onTrack: bool) {
    && Bounded(r) && taken <= file
    && (onTrack ==> Follows(r, file, pos) && r.read == taken)
  }

  ghost predicate Safe(files: Files, s: State) {
    Orderly(files, s) && Faithful(s.ring, files[s.track], s.rd.pos, s.taken, OnTrack(s.pc))
  }

  /* ---------- Every step keeps it ---------- */

  /** The writer's own steps move bytes along, they do not change them. */
  lemma WriterKeepsBytes(r: Ring, e: Event)
    requires Inv(r) && e == FillEvent(r.w) && !r.w.Sized?
    ensures Inv(Step(r, e)) && Step(r, e).read == r.read && Step(r, e).r == r.r
    ensures Step(r, e).written + Pending(Step(r, e).w) == r.written + Pending(r.w)
  {
    WriterStepKeeps(r, e);
    Measures(r);
    if r.w.Copying? && r.w.done >= r.w.len {
      PublishWriteKeeps(r);
    }
  }

  lemma FetchKeepsBytes(r: Ring, data: seq<Byte>, file: seq<Byte>, pos: nat)
    requires Follows(r, file, pos) && r.w.Sized? && |data| <= r.w.space
    requires pos + |data| <= |file| && file[..pos] + data == file[..pos + |data|]
    ensures var t := Step(r, Fetch(data));
      Follows(t, file, pos + |data|) && t.read == r.read && t.r == r.r && (data == [] ==> t.w.Rest?)
  {
    WriterStepKeeps(r, Fetch(data));
  }

  lemma FillKeepsBytes(r: Ring, file: seq<Byte>, pos: nat)
    requires Follows(r, file, pos) && !r.w.Sized?
    ensures var t := Step(r, FillEvent(r.w)); Follows(t, file, pos) && t.read == r.read && t.r == r.r
  {
    WriterKeepsBytes(r, FillEvent(r.w));
  }

  lemma ChunkIsNext(files: Files, rd: FileReader, n: nat)
    requires rd.file < |files| && rd.pos <= |files[rd.file]|
    ensures var data, file := Chunk(files, rd, n), files[rd.file];
      rd.pos + |data| <= |file| && file[..rd.pos] + data == file[..rd.pos + |data|]
  {
  }

  lemma RestKeeps(r: Ring, file: seq<Byte>, pos: nat)
    requires Follows(r, file, pos) && r.w.Sized?
    ensures Follows(r.(w := Rest), file, pos)
  {
  }

  /** A step that leaves the bytes alone. */
  predicate SameBytes(s: State, t: State) {
    && t.ring == s.ring && t.track == s.track && t.rd.pos == s.rd.pos && t.taken == s.taken
    && (OnTrack(t.pc) ==> OnTrack(s.pc))
  }

  lemma SameBytesKeep(files: Files, s: State, t: State)
    requires Safe(files, s) && Orderly(files, t) && SameBytes(s, t)
    ensures Safe(files, t)
  {
  }

  lemma BodyIsOrderly(files: Files, s: State, n: nat)
    requires Orderly(files, s) && s.rd.task.Body?
    ensures var t := BodyStep(files, s, n);
      && t == s.(ring := t.ring, rd := t.rd) && t.rd.file == s.rd.file && !Through(t.rd.task) && !t.rd.task.Opening?
      && (!t.rd.task.Body? ==> t.ring.w.Rest?) && t.ring.r == s.ring.r
  {
    if s.ring.w.Sized? {
      var data := NextChunk(files, s, n);
      FillStays(s.ring, Fetch(data));
    } else {
      FillStays(s.ring, FillEvent(s.ring.w));
    }
  }

  lemma FillStays(r: Ring, e: Event)
    requires e == FillEvent(r.w) || e.Fetch?
    ensures Step(r, e).r == r.r
    ensures e == Fetch([]) ==> !Step(r, e).w.Sized?
  {
  }

  lemma BodyKeepsBytes(files: Files, s: State, n: nat)
    requires Safe(files, s) && s.rd.task.Body? && OnTrack(s.pc)
    ensures var t := BodyStep(files, s, n); Follows(t.ring, files[s.track], t.rd.pos) && t.ring.read == s.ring.read
  {
    var file := files[s.track];
    if s.ring.w.Sized? {
      var m := Min(n, Max(0, Min(s.ring.w.space, READ_CHUNK)));
      if s.ring.w.space > 0 {
        ChunkIsNext(files, s.rd, m);
        FetchKeepsBytes(s.ring, Chunk(files, s.rd, m), file, s.rd.pos);
      } else {
        RestKeeps(s.ring, file, s.rd.pos);
      }
    } else {
      FillKeepsBytes(s.ring, file, s.rd.pos);
    }
  }

  lemma BodyStaysBounded(files: Files, s: State, n: nat)
    requires Bounded(s.ring) && s.rd.task.Body?
    ensures Bounded(BodyStep(files, s, n).ring)
  {
    if s.ring.w.Sized? {
      var data := NextChunk(files, s, n);
      WriterStepBounded(s.ring, Fetch(data));
    } else {
      WriterStepBounded(s.ring, FillEvent(s.ring.w));
    }
  }

  lemma BodyKeeps(files: Files, s: State, n: nat)
    requires Safe(files, s) && s.rd.task.Body?
    ensures Safe(files, BodyStep(files, s, n))
  {
    var t := BodyStep(files, s, n);
    BodyIsOrderly(files, s, n);
    BodyStaysBounded(files, s, n);
    if OnTrack(s.pc) {
      BodyKeepsBytes(files, s, n);
    }
    assert Faithful(t.ring, files[t.track], t.rd.pos, t.taken, OnTrack(t.pc));
  }

  /** The reader's steps outside its loop. */
  lemma TaskFlagsKeep(files: Files, s: State, ok: bool)
    requires Orderly(files, s) && !s.rd.task.Body?
    ensures Orderly(files, TaskFlagStep(files, s, ok)) && SameBytes(s, TaskFlagStep(files, s, ok))
  {
    var t := TaskFlagStep(files, s, ok);
    TaskFlagFrame(files, s, ok);
    if OnTrack(s.pc) {
      TaskStaysHonest(files, s, ok);
    }
  }

  lemma TaskFlagFrame(files: Files, s: State, ok: bool)
    requires !s.rd.task.Body? && (s.f.alive <==> !s.rd.task.Gone?)
    ensures var f, rd := FlagsAfter(s.f, s.rd.task, ok), ReaderAfter(files, s.f, s.rd, s.track, ok);
      && (f.alive <==> !rd.task.Gone?) && rd.pos == s.rd.pos && f.stop == s.f.stop
      && (s.rd.task.Gone? ==> f == s.f && rd == s.rd) && (f.running != s.f.running ==> s.rd.task.Closing?)
  {
  }

  lemma TaskStaysHonest(files: Files, s: State, ok: bool)
    requires !s.rd.task.Body? && s.track < |files| && Honest(s.f, s.rd, s.track, |files[s.track]|)
    ensures var f, rd := FlagsAfter(s.f, s.rd.task, ok), ReaderAfter(files, s.f, s.rd, s.track, ok);
      Honest(f, rd, s.track, |files[s.track]|)
  {
  }

  lemma TaskKeeps(files: Files, s: State, ok: bool, n: nat)
    requires Safe(files, s)
    ensures Safe(files, TaskStep(files, s, ok, n))
  {
    if s.rd.task.Body? {
      BodyKeeps(files, s, n);
    } else {
      TaskFlagsKeep(files, s, ok);
      SameBytesKeep(files, s, TaskFlagStep(files, s, ok));
    }
  }

  /** A step of taking bytes out: what is taken continues what was read. */
  lemma TakeKeepsBytes(r: Ring, file: seq<Byte>, pos: nat)
    requires Follows(r, file, pos)
    ensures var t := Step(r, TakeEvent(r.r));
      && Follows(t, file, pos) && t.w == r.w && t.read <= file
      && t.read == (if r.r.Taking? && |r.r.got| >= r.r.len then r.read + r.r.got else r.read)
  {
    var e := TakeEvent(r.r);
    ReaderStepKeeps(r, e);
    if e.PublishTail? {
      PublishReadKeeps(r);
    }
    var t := Step(r, e);
    TakenIsPrefix(t.read, t.written, Pending(t.w), file, pos);
  }

  lemma TakenIsPrefix(taken: seq<Byte>, written: seq<Byte>, pending: seq<Byte>, file: seq<Byte>, pos: nat)
    requires taken <= written && pos <= |file| && written + pending == file[..pos]
    ensures taken <= file
  {
    assert taken == (written + pending)[..|taken|];
    assert taken == file[..|taken|];
  }

  lemma FeedIsOrderly(files: Files, s: State)
    requires Orderly(files, s) && s.pc == Playing(Feed)
    requires s.ring.Size() > 0 && Step(s.ring, TakeEvent(s.ring.r)).w == s.ring.w
    ensures Orderly(files, FeedStep(s)) && OnTrack(FeedStep(s).pc)
    ensures FeedStep(s).ring == Step(s.ring, TakeEvent(s.ring.r))
    ensures FeedStep(s).track == s.track && FeedStep(s).rd == s.rd
    ensures FeedStep(s).taken ==
            if s.ring.r.Taking? && |s.ring.r.got| >= s.ring.r.len then s.taken + s.ring.r.got else s.taken
  {
  }

  lemma FeedKeeps(files: Files, s: State)
    requires Safe(files, s) && s.pc == Playing(Feed)
    ensures Safe(files, FeedStep(s))
  {
    var t := FeedStep(s);
    TakeKeepsBytes(s.ring, files[s.track], s.rd.pos);
    FeedIsOrderly(files, s);
    InvIsBounded(t.ring);
    assert Faithful(t.ring, files[t.track], t.rd.pos, t.taken, OnTrack(t.pc));
  }

  /** Control may move between points that demand no more than the last one. */
  lemma MoveOfControl(files: Files, s: State, skip: bool, delta: int, cur: int, pc: Pc)
    requires Orderly(files, s) && 0 <= cur < |files|
    requires !Preparing(pc) && pc != Playing(Feed) && s.pc != Playing(Feed)
    requires (Between(pc) ==> Between(s.pc)) && (OnTrack(pc) ==> OnTrack(s.pc))
    ensures var t := s.(f := s.f.(skip := skip, delta := delta), cur := cur, pc := pc);
      Orderly(files, t) && SameBytes(s, t)
  {
  }

  lemma SkipMove(files: Files, s: State)
    requires 0 <= s.cur < |files| && s.pc.Skipping?
    ensures var t := SkipStep(files, s);
      && 0 <= t.cur < |files| && t == s.(f := s.f.(skip := t.f.skip, delta := t.f.delta), cur := t.cur, pc := t.pc)
      && !Preparing(t.pc) && t.pc != Playing(Feed)
      && (Between(t.pc) ==> Between(s.pc)) && (OnTrack(t.pc) ==> OnTrack(s.pc))
  {
    var f, pc := SkipFlags(s.f, s.pc.skipAt), SkipNext(s.pc, s.f.delta);
    assert f == s.f.(skip := f.skip, delta := f.delta);
  }

  lemma SkipKeeps(files: Files, s: State)
    requires Orderly(files, s) && s.pc.Skipping?
    ensures Orderly(files, SkipStep(files, s)) && SameBytes(s, SkipStep(files, s))
  {
    var t := SkipStep(files, s);
    SkipMove(files, s);
    MoveOfControl(files, s, t.f.skip, t.f.delta, t.cur, t.pc);
  }

  lemma BeginKeeps(files: Files, s: State)
    requires Orderly(files, s) && s.pc.Beginning?
    ensures var t := BeginStep(files, s);
      && Orderly(files, t) && !OnTrack(t.pc)
      && t.ring == s.ring && (SameBytes(s, t) || t.taken == [])
  {
  }

  lemma ResetKeeps(files: Files, s: State)
    requires Orderly(files, s) && s.pc.Resetting?
    ensures var t := ResetStep(s);
      && Orderly(files, t) && !OnTrack(t.pc) && t.track == s.track && t.taken == s.taken
      && (Bounded(s.ring) ==> Bounded(t.ring))
  {
  }

  lemma StartKeeps(files: Files, s: State, ok: bool)
    requires Orderly(files, s) && s.pc.Starting?
    ensures var t := StartStep(s, ok);
      && Orderly(files, t) && t.track == s.track && t.taken == s.taken && t.ring == s.ring
      && (OnTrack(t.pc) ==> t.ring == Empty(s.ring.buf) && t.taken == [] && t.rd.pos == 0)
  {
  }

  lemma PlayKeeps(files: Files, s: State, ok: bool)
    requires Orderly(files, s) && s.pc.Playing? && !s.pc.playAt.Feed?
    ensures Orderly(files, PlayStep(s, ok)) && SameBytes(s, PlayStep(s, ok))
  {
  }

  lemma SettleKeeps(files: Files, s: State, ok: bool)
    requires Orderly(files, s) && s.pc.Settling?
    ensures Orderly(files, SettleStep(s, ok)) && SameBytes(s, SettleStep(s, ok))
  {
    SettleFrame(s, ok);
  }

  lemma SettleFrame(s: State, ok: bool)
    requires s.pc.Settling?
    ensures var t := SettleStep(s, ok);
      && t.ring == s.ring && t.rd == s.rd && t.cur == s.cur && t.track == s.track && t.taken == s.taken
      && t.f.alive == s.f.alive && (t.pc.Settling? || t.pc.Cleaning? || (t.pc.After? && !t.f.alive))
  {
  }

  lemma AfterKeeps(files: Files, s: State)
    requires Orderly(files, s) && s.pc.After?
    ensures Orderly(files, AfterStep(files, s)) && SameBytes(s, AfterStep(files, s))
  {
  }

  lemma CleanKeeps(files: Files, s: State, ok: bool)
    requires Orderly(files, s) && s.pc.Cleaning?
    ensures Orderly(files, CleanStep(s, ok)) && SameBytes(s, CleanStep(s, ok))
  {
    CleanFrame(s, ok);
  }

  lemma CleanFrame(s: State, ok: bool)
    requires s.pc.Cleaning?
    ensures var t := CleanStep(s, ok);
      && t.ring == s.ring && t.rd == s.rd && t.cur == s.cur && t.track == s.track && t.taken == s.taken
      && t.f.alive == s.f.alive && (t.pc.Cleaning? || t.pc.Done?)
  {
  }

  /** The steps that touch the ring or change the track. */
  lemma HandoverKeeps(files: Files, s: State, ok: bool)
    requires Safe(files, s) && (s.pc.Beginning? || s.pc.Resetting? || s.pc.Starting?)
    ensures Safe(files, PlayerStep(files, s, ok))
  {
    var t := PlayerStep(files, s, ok);
    match s.pc {
      case Beginning(_) => BeginKeeps(files, s);
      case Resetting(_, _) => ResetKeeps(files, s);
      case Starting(_) =>
        StartKeeps(files, s, ok);
        if OnTrack(t.pc) {
          InitInv(s.ring.buf);
        }
    }
    assert Faithful(t.ring, files[t.track], t.rd.pos, t.taken, OnTrack(t.pc));
  }

  lemma PlayerKeeps(files: Files, s: State, ok: bool)
    requires Safe(files, s)
    ensures Safe(files, PlayerStep(files, s, ok))
  {
    if s.pc.Beginning? || s.pc.Resetting? || s.pc.Starting? {
      HandoverKeeps(files, s, ok);
    } else if s.pc == Playing(Feed) {
      FeedKeeps(files, s);
    } else {
      ControlKeeps(files, s, ok);
      SameBytesKeep(files, s, PlayerStep(files, s, ok));
    }
  }

  lemma ControlKeeps(files: Files, s: State, ok: bool)
    requires Orderly(files, s) && s.pc != Playing(Feed) && !s.pc.Beginning? && !s.pc.Resetting? && !s.pc.Starting?
    ensures Orderly(files, PlayerStep(files, s, ok)) && SameBytes(s, PlayerStep(files, s, ok))
  {
    match s.pc
    case Skipping(_, _) => SkipKeeps(files, s);
    case Playing(_) => PlayKeeps(files, s, ok);
    case Settling(_) => SettleKeeps(files, s, ok);
    case After => AfterKeeps(files, s);
    case Cleaning(_) => CleanKeeps(files, s, ok);
    case _ =>
  }

  lemma FlagKeeps(files: Files, s: State, m: Move)
    requires Safe(files, s)
    ensures Safe(files, FlagStep(s, m))
  {
    var t := FlagStep(s, m);
    assert Orderly(files, t);
    SameBytesKeep(files, s, t);
  }

  lemma MoveKeeps(files: Files, s: State, m: Move)
    requires Safe(files, s)
    ensures Safe(files, MoveOf(files, s, m))
  {
    match m
    case PlayerMoves(ok) => PlayerKeeps(files, s, ok);
    case TaskMoves(ok, n) => TaskKeeps(files, s, ok, n);
    case _ => FlagKeeps(files, s, m);
  }

  lemma {:induction false} MovesKeep(files: Files, s: State, ms: seq<Move>)
    requires Safe(files, s)
    ensures Safe(files, Moves(files, s, ms))
  {
    if ms != [] {
      MovesKeep(files, s, ms[..|ms| - 1]);
      MoveKeeps(files, Moves(files, s, ms[..|ms| - 1]), ms[|ms| - 1]);
    }
  }

  /* ---------- What every run does ---------- */

  lemma FreshIsSafe(files: Files, buf: seq<Byte>, start: nat)
    requires start < |files| && |buf| > 0
    ensures Safe(files, Fresh(buf, start))
  {
  }

  /** Whatever the order in which player, reader and callers take their steps:
      what was taken out of the ring for decoding while a track is current is a
      prefix of that track's file, what the ring holds meanwhile is the
      continuation of it in the same file, a track is begun only inside the
      list, and no access ever leaves the buffer. */
  lemma TrackIsolation(files: Files, buf: seq<Byte>, start: nat, ms: seq<Move>)
    requires start < |files| && |buf| > 0
    ensures var s := Moves(files, Fresh(buf, start), ms);
      && s.track < |files| && s.taken <= files[s.track]
      && (OnTrack(s.pc) ==> s.taken == s.ring.read <= s.ring.written <= files[s.track])
      && (s.pc == Beginning(Choose) ==> 0 <= s.cur < |files|)
      && Bounded(s.ring)
  {
    FreshIsSafe(files, buf, start);
    MovesKeep(files, Fresh(buf, start), ms);
    var s := Moves(files, Fresh(buf, start), ms);
    if OnTrack(s.pc) {
      TakenIsPrefix(s.ring.written, s.ring.written, Pending(s.ring.w), files[s.track], s.rd.pos);
    }
  }

  lemma UndisturbedEnd(files: Files, s: State)
    requires Safe(files, s) && s.pc == Playing(Drained)
    requires !s.f.running && !s.f.failed && !s.f.abort && !s.f.stop
    ensures s.ring.written == files[s.track]
    ensures s.taken == files[s.track] <==> Used(s.ring.head, s.ring.tail, s.ring.Size()) == 0
  {
    Measures(s.ring);
    assert s.ring.written == files[s.track][..s.rd.pos];
    assert s.taken <= s.ring.written;
  }

  /** When the player finds the ring empty and the reader gone, nothing having
      failed, the reader has put the whole file into the ring; the player has
      taken all of it exactly if the ring is still empty at that moment. */
  lemma DeliveredIfRingEmpty(files: Files, buf: seq<Byte>, start: nat, ms: seq<Move>)
    requires start < |files| && |buf| > 0
    ensures var s := Moves(files, Fresh(buf, start), ms);
      s.pc == Playing(Drained) && !s.f.running && !s.f.failed && !s.f.abort && !s.f.stop ==>
        && s.track < |files| && s.ring.written == files[s.track]
        && (s.taken == files[s.track] <==> Used(s.ring.head, s.ring.tail, s.ring.Size()) == 0)
  {
    FreshIsSafe(files, buf, start);
    MovesKeep(files, Fresh(buf, start), ms);
    var s := Moves(files, Fresh(buf, start), ms);
    if s.pc == Playing(Drained) && !s.f.running && !s.f.failed && !s.f.abort && !s.f.stop {
      UndisturbedEnd(files, s);
    }
  }

  /* ---------- Skips ---------- */

  /** Skipping forward goes around the list; backward undoes it except at the
      two ends, where it stays at the first track. */
  lemma SkipsGoAround(cur: int, count: nat)
    requires 0 <= cur < count && count > 1
    ensures SkipTarget(1, cur, count) == (cur + 1) % count
    ensures SkipTarget(-1, SkipTarget(1, cur, count), count) == if cur + 1 < count then cur else 0
    ensures SkipTarget(-1, 0, count) == 0
  {
    if cur + 1 < count {
      Residue(cur + 1, 0, cur + 1, count);
    } else {
      Residue(cur + 1, 1, 0, count);
    }
  }
}
