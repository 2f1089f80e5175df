/** What one skip call does. The call stores the direction, the request and the
    sign that cuts the reader off, in this order and with anything in between;
    the player consumes the request at the top of the track loop or while a
    track is on, or never. An observer follows a run and notes what becomes of
    the call. */
module Skips {
  import opened Bytes
  import opened Player

  /* ---------- The cut-off of a track ---------- */

  /** From the start of a track's reader to the look at the cut-off sign. */
  predicate Cuttable(pc: Pc) {
    || (pc.Starting? && !pc.startAt.UnsetAbort?)
    || OnTrack(pc)
    || (pc.Resetting? && pc.inLoop)
    || pc == Settling(NoteAbort)
  }

  /** From that look to the verdict on the track. */
  predicate Noted(pc: Pc) {
    pc.After? || (pc.Settling? && !pc.settleAt.NoteAbort?)
  }

  /** Has the current track been cut off in time? A new track begins without. */
  function CutAfter(cut: bool, s: State, m: Move): bool {
    match m
    case SetAbort => cut || Cuttable(s.pc)
    case PlayerMoves(_) => cut && s.pc != Starting(UnsetAbort)
    case _ => cut
  }

  predicate CutOk(cut: bool, abort: bool, aborted: bool, pc: Pc) {
    (Cuttable(pc) ==> abort == cut) && (Noted(pc) ==> aborted == cut)
  }

  /* ---------- What becomes of a call ---------- */

  datatype Fate =
    | Waiting
    | Taken(start: int, d: int)
    | Landed(start: int, d: int, onTrack: bool, cut: bool, halted: bool)
    | Begun(start: int, d: int, onTrack: bool, cut: bool, halted: bool, track: int)

  datatype Watch = Watch(cut: bool, fate: Fate)

  /** Taken while a track is on, or landed at once at the top of the loop; landed
      with the verdict on the track, or when its reader does not go in time; and
      then the next track begins. Halted: stopped, failed or given up. */
  function FateAfter(files: Files, w: Watch, s: State): Fate {
    match s.pc
    case Skipping(inLoop, ClearDelta(d)) =>
      if inLoop then Taken(s.cur, d) else Landed(s.cur, d, false, false, false)
    case After => Lands(w, s.f.stop || (s.bad && !s.aborted))
    case Settling(TimedOut) => if s.f.alive then Lands(w, true) else w.fate
    case Beginning(Choose) =>
      if !w.fate.Landed? then w.fate
      else Begun(w.fate.start, w.fate.d, w.fate.onTrack, w.fate.cut, w.fate.halted, s.cur)
    case _ => w.fate
  }

  function Lands(w: Watch, halted: bool): Fate {
    if w.fate.Taken? then Landed(w.fate.start, w.fate.d, true, w.cut, halted) else w.fate
  }

  function WatchMove(files: Files, w: Watch, s: State, m: Move): Watch {
    Watch(CutAfter(w.cut, s, m), if m.PlayerMoves? then FateAfter(files, w, s) else w.fate)
  }

  function WatchRun(files: Files, w: Watch, s: State, ms: seq<Move>): Watch {
    if ms == [] then w
    else
      var init := ms[..|ms| - 1];
      WatchMove(files, WatchRun(files, w, s, init), Moves(files, s, init), ms[|ms| - 1])
  }

  /** The observer's first look at a player. */
  function FirstLook(s: State): Watch {
    Watch(if Noted(s.pc) then s.aborted else s.f.abort, Waiting)
  }

  /* ---------- The cut-off is seen exactly if it comes in time ---------- */

  lemma TaskLeavesPlayer(files: Files, s: State, ok: bool, n: nat)
    ensures var t := TaskStep(files, s, ok, n);
      && t.pc == s.pc && t.cur == s.cur && t.aborted == s.aborted
      && t.f.abort == s.f.abort && t.f.skip == s.f.skip && t.f.delta == s.f.delta
  {
    if s.rd.task.Body? {
      BodyLeavesPlayer(files, s, n);
      var t := BodyStep(files, s, n);
      assert t.f == s.f;
    } else {
      TaskLeavesFlags(s.f, s.rd.task, ok);
    }
  }

  lemma TaskLeavesFlags(f: Flags, task: Task, ok: bool)
    ensures var g := FlagsAfter(f, task, ok); g.abort == f.abort && g.skip == f.skip && g.delta == f.delta
  {
  }

  lemma BodyLeavesPlayer(files: Files, s: State, n: nat)
    ensures var t := BodyStep(files, s, n); t == s.(ring := t.ring, rd := t.rd)
  {
    if s.ring.w.Sized? {
      FetchLeavesPlayer(s, NextChunk(files, s, n));
    }
  }

  lemma FetchLeavesPlayer(s: State, data: seq<Byte>)
    requires s.ring.w.Sized?
    ensures var t := FetchStep(s, data); t == s.(ring := t.ring, rd := t.rd)
  {
  }

  lemma SkipKeepsCut(files: Files, s: State, cut: bool)
    requires s.pc.Skipping? && CutOk(cut, s.f.abort, s.aborted, s.pc)
    ensures var t := SkipStep(files, s); CutOk(cut, t.f.abort, t.aborted, t.pc)
  {
    assert SkipFlags(s.f, s.pc.skipAt).abort == s.f.abort;
  }

  lemma StartKeepsCut(s: State, ok: bool, cut: bool)
    requires s.pc.Starting? && CutOk(cut, s.f.abort, s.aborted, s.pc)
    ensures var t := StartStep(s, ok); CutOk(cut && !s.pc.startAt.UnsetAbort?, t.f.abort, t.aborted, t.pc)
  {
    StartFrame(s, ok);
  }

  lemma StartFrame(s: State, ok: bool)
    requires s.pc.Starting?
    ensures var t := StartStep(s, ok);
      && t.f.abort == (s.f.abort && !s.pc.startAt.UnsetAbort?) && t.f.skip == s.f.skip && t.f.delta == s.f.delta
      && t.aborted == s.aborted && t.cur == s.cur
      && ((t.pc.Starting? && !t.pc.startAt.UnsetAbort?) || t.pc == Cleaning(Look)
          || (t.pc == Playing(Open) && !s.pc.startAt.UnsetAbort?))
  {
    var f, pc := StartFlags(s.f, s.pc.startAt, ok), StartNext(s.pc.startAt, ok);
    assert f.abort == (s.f.abort && !s.pc.startAt.UnsetAbort?) && f.skip == s.f.skip && f.delta == s.f.delta;
    assert StartStep(s, ok).pc == pc;
  }

  lemma PlayKeepsCut(s: State, ok: bool, cut: bool)
    requires s.pc.Playing? && CutOk(cut, s.f.abort, s.aborted, s.pc)
    ensures var t := PlayStep(s, ok); CutOk(cut, t.f.abort, t.aborted, t.pc)
  {
    PlayFrame(s, ok);
  }

  lemma PlayFrame(s: State, ok: bool)
    requires s.pc.Playing?
    ensures var t := PlayStep(s, ok);
      && t.f.abort == s.f.abort && t.f.skip == s.f.skip && t.f.delta == s.f.delta
      && t.aborted == s.aborted && t.cur == s.cur
      && (t.pc.Playing? || t.pc == Settling(NoteAbort) || t.pc == Cleaning(Look)
          || (t.pc == Skipping(true, ReadDelta) && s.f.skip))
  {
  }

  lemma SettleKeepsCut(s: State, ok: bool, cut: bool)
    requires s.pc.Settling? && CutOk(cut, s.f.abort, s.aborted, s.pc)
    ensures var t := SettleStep(s, ok); CutOk(cut, t.f.abort, t.aborted, t.pc)
  {
  }

  lemma PlayerKeepsCut(files: Files, s: State, ok: bool, cut: bool)
    requires CutOk(cut, s.f.abort, s.aborted, s.pc)
    ensures var t := PlayerStep(files, s, ok); CutOk(cut && s.pc != Starting(UnsetAbort), t.f.abort, t.aborted, t.pc)
  {
    match s.pc
    case Skipping(_, _) => SkipKeepsCut(files, s, cut);
    case Starting(_) => StartKeepsCut(s, ok, cut);
    case Playing(_) => PlayKeepsCut(s, ok, cut);
    case Settling(_) => SettleKeepsCut(s, ok, cut);
    case _ => OthersKeepCut(files, s, ok, cut);
  }

  lemma OthersKeepCut(files: Files, s: State, ok: bool, cut: bool)
    requires !s.pc.Skipping? && !s.pc.Starting? && !s.pc.Playing? && !s.pc.Settling?
    requires CutOk(cut, s.f.abort, s.aborted, s.pc)
    ensures var t := PlayerStep(files, s, ok); CutOk(cut, t.f.abort, t.aborted, t.pc)
  {
    match s.pc
    case Beginning(_) => BeginIsBetween(files, s);
    case Cleaning(_) => CleaningIsOver(s, ok);
    case After => VerdictIsBetween(files, s);
    case _ =>
  }

  lemma BeginIsBetween(files: Files, s: State)
    requires s.pc.Beginning?
    ensures var pc := BeginStep(files, s).pc; !Cuttable(pc) && !Noted(pc)
  {
  }

  lemma CleaningIsOver(s: State, ok: bool)
    requires s.pc.Cleaning?
    ensures var pc := CleanStep(s, ok).pc; !Cuttable(pc) && !Noted(pc)
  {
  }

  lemma VerdictIsBetween(files: Files, s: State)
    ensures var pc := AfterStep(files, s).pc; pc == Top || pc == Cleaning(Look)
  {
  }

  lemma StoreFrame(s: State, m: Move)
    requires !m.PlayerMoves? && !m.TaskMoves?
    ensures var t := FlagStep(s, m); t.f.abort == (s.f.abort || m.SetAbort?) && t.pc == s.pc && t.aborted == s.aborted
  {
  }

  lemma CutInTime(cut: bool, abort: bool, aborted: bool, pc: Pc)
    requires CutOk(cut, abort, aborted, pc)
    ensures CutOk(cut || Cuttable(pc), true, aborted, pc)
  {
  }

  lemma StoreKeepsCut(s: State, m: Move, cut: bool)
    requires !m.PlayerMoves? && !m.TaskMoves? && CutOk(cut, s.f.abort, s.aborted, s.pc)
    ensures var t := FlagStep(s, m); CutOk(CutAfter(cut, s, m), t.f.abort, t.aborted, t.pc)
  {
    StoreFrame(s, m);
    CutInTime(cut, s.f.abort, s.aborted, s.pc);
  }

  lemma MoveKeepsCut(files: Files, s: State, m: Move, cut: bool)
    requires CutOk(cut, s.f.abort, s.aborted, s.pc)
    ensures var t := MoveOf(files, s, m); CutOk(CutAfter(cut, s, m), t.f.abort, t.aborted, t.pc)
  {
    match m
    case PlayerMoves(ok) => PlayerKeepsCut(files, s, ok, cut);
    case TaskMoves(ok, n) => TaskLeavesPlayer(files, s, ok, n);
    case _ => StoreKeepsCut(s, m, cut);
  }

  lemma {:induction false} RunKeepsCut(files: Files, w: Watch, s: State, ms: seq<Move>)
    requires CutOk(w.cut, s.f.abort, s.aborted, s.pc)
    ensures var t := Moves(files, s, ms); CutOk(WatchRun(files, w, s, ms).cut, t.f.abort, t.aborted, t.pc)
  {
    if ms != [] {
      var init, m := ms[..|ms| - 1], ms[|ms| - 1];
      RunKeepsCut(files, w, s, init);
      MoveKeepsCut(files, Moves(files, s, init), m, WatchRun(files, w, s, init).cut);
    }
  }

  /** Move k stores the sign before the player's look at it. */
  predicate StoredAt(files: Files, s: State, ms: seq<Move>, k: nat)
    requires k < |ms|
  {
    ms[k].SetAbort? && Cuttable(Moves(files, s, ms[..k]).pc)
  }

  ghost predicate StoredInTime(files: Files, s: State, ms: seq<Move>) {
    exists k :: 0 <= k < |ms| && StoredAt(files, s, ms, k)
  }

  /** No reader is started in the run. */
  ghost predicate SameReader(files: Files, s: State, ms: seq<Move>) {
    forall k :: 0 <= k < |ms| ==> Moves(files, s, ms[..k]).pc != Starting(UnsetAbort)
  }

  lemma {:induction false} CutIsStoredInTime(files: Files, w: Watch, s: State, ms: seq<Move>)
    requires !w.cut && SameReader(files, s, ms)
    ensures WatchRun(files, w, s, ms).cut <==> StoredInTime(files, s, ms)
  {
    if ms != [] {
      var init, m := ms[..|ms| - 1], ms[|ms| - 1];
      assert forall k :: 0 <= k <= |init| ==> init[..k] == ms[..k];
      assert SameReader(files, s, init);
      CutIsStoredInTime(files, w, s, init);
      assert ms[..|init|] == init && Moves(files, s, ms[..|init|]).pc != Starting(UnsetAbort);
      StoredInOneMore(files, s, ms);
    }
  }

  lemma StoredAtPrefix(files: Files, s: State, ms: seq<Move>, k: nat)
    requires k + 1 < |ms|
    ensures StoredAt(files, s, ms[..|ms| - 1], k) <==> StoredAt(files, s, ms, k)
  {
    assert ms[..|ms| - 1][..k] == ms[..k];
  }

  lemma StoredInOneMore(files: Files, s: State, ms: seq<Move>)
    requires ms != []
    ensures StoredInTime(files, s, ms) <==>
            StoredInTime(files, s, ms[..|ms| - 1]) || StoredAt(files, s, ms, |ms| - 1)
  {
    var n := |ms| - 1;
    forall k | 0 <= k < n ensures StoredAt(files, s, ms[..n], k) <==> StoredAt(files, s, ms, k) {
      StoredAtPrefix(files, s, ms, k);
    }
    if StoredInTime(files, s, ms) {
      var k :| 0 <= k < |ms| && StoredAt(files, s, ms, k);
      assert k < n ==> StoredAt(files, s, ms[..n], k);
    }
    if StoredInTime(files, s, ms[..n]) {
      var k :| 0 <= k < n && StoredAt(files, s, ms[..n], k);
      assert StoredAt(files, s, ms, k);
    }
  }

  /** From the clearing of the sign at the start of a track's reader to the
      verdict on the track, with anything in between: the player has the reader
      down as cut off exactly if the sign was stored before its look at it. */
  lemma CutOffIsSeenIfInTime(files: Files, s: State, ms: seq<Move>)
    requires s.pc == Starting(UnsetFailed) && !s.f.abort && SameReader(files, s, ms)
    ensures var t := Moves(files, s, ms); t.pc.After? ==> (t.aborted <==> StoredInTime(files, s, ms))
  {
    RunKeepsCut(files, FirstLook(s), s, ms);
    CutIsStoredInTime(files, FirstLook(s), s, ms);
  }

  /* ---------- One call ---------- */

  predicate IsRequest(m: Move) {
    m.SetDelta? || m.SetSkip?
  }

  /** The requests of the calls in a run. The cut-off sign is stored by a skip
      and by a stop, and may be at any time. */
  function Requests(ms: seq<Move>): seq<Move> {
    if ms == [] then []
    else
      var init, m := Requests(ms[..|ms| - 1]), ms[|ms| - 1];
      if IsRequest(m) then init + [m] else init
  }

  function Call(d: int): seq<Move> {
    [SetDelta(d), SetSkip]
  }

  /** A run in which one call is made, or has got so far. */
  predicate OneCall(d: int, ms: seq<Move>) {
    Requests(ms) <= Call(d)
  }

  /** No request is under way. */
  predicate NoRequest(s: State) {
    !s.f.skip && !s.pc.Skipping?
  }

  /** The request before the player has consumed it, after n of its stores. */
  predicate WaitingOk(d: int, n: nat, f: Flags, pc: Pc) {
    && (n >= 1 ==> f.delta == d || (pc.Skipping? && pc.skipAt.ClearDelta?))
    && (n <= 1 ==> !f.skip && !pc.Skipping?)
    && (n >= 2 && !pc.Skipping? ==> f.skip)
    && (pc.Skipping? ==>
          match pc.skipAt
          case ReadDelta => f.skip && f.delta == d
          case ClearSkip(x) => x == d
          case ClearDelta(x) => x == d && !f.skip)
  }

  /** What follows a consumed request. */
  datatype Sequel = Target | OneAfter | End

  /** The target, if the request was consumed between tracks. If it was consumed
      on a track: nothing, when the player is halted; the target, when the reader
      was cut off in time; else the track after the target, if there is one. */
  function SequelOf(onTrack: bool, cut: bool, halted: bool, last: bool): Sequel {
    if !onTrack then Target
    else if halted then End
    else if cut then Target
    else if last then End
    else OneAfter
  }

  predicate IsDecided(fate: Fate) {
    fate.Landed? || fate.Begun?
  }

  function SequelOfFate(fate: Fate, count: nat): Sequel
    requires IsDecided(fate) && 0 <= fate.start < count
  {
    SequelOf(fate.onTrack, fate.cut, fate.halted, SkipTarget(fate.d, fate.start, count) + 1 >= count)
  }

  /** The player is through with all tracks. */
  predicate IsEnding(pc: Pc) {
    pc.Cleaning? || pc.Done?
  }

  /** Track k is what the player went on to, or is about to begin. */
  predicate GoesOnTo(fate: Fate, pc: Pc, cur: int, k: int) {
    || (fate.Begun? && fate.track == k)
    || (fate.Landed? && (pc == Top || pc == Beginning(Choose)) && cur == k)
  }

  /** The player is through without having begun another track. */
  predicate EndsWith(fate: Fate, pc: Pc) {
    fate.Landed? && IsEnding(pc)
  }

  predicate DecidedOk(d: int, count: nat, fate: Fate, pc: Pc, cur: int)
    requires IsDecided(fate)
  {
    && fate.d == d && 0 <= fate.start < count
    && var goal := SkipTarget(d, fate.start, count);
       match SequelOfFate(fate, count)
       case Target => GoesOnTo(fate, pc, cur, goal)
       case OneAfter => GoesOnTo(fate, pc, cur, goal + 1)
       case End => EndsWith(fate, pc)
  }

  predicate LeavingTrack(pc: Pc) {
    (pc.Resetting? && pc.inLoop) || pc.Settling? || pc.After?
  }

  predicate FateOk(d: int, count: nat, n: nat, fate: Fate, f: Flags, pc: Pc, cur: int) {
    && (fate.Waiting? ==> WaitingOk(d, n, f, pc))
    && (!fate.Waiting? ==> n >= 2 && !f.skip && !pc.Skipping?)
    && (fate.Taken? ==>
          fate.d == d && 0 <= fate.start < count && cur == SkipTarget(d, fate.start, count) && LeavingTrack(pc))
    && (IsDecided(fate) ==> DecidedOk(d, count, fate, pc, cur))
  }

  /** Nothing but the flow of control matters to a call that is not consumed. */
  lemma SkippingKeepsFate(files: Files, w: Watch, s: State, d: int, n: nat)
    requires 0 <= s.cur < |files| && s.pc.Skipping? && FateOk(d, |files|, n, w.fate, s.f, s.pc, s.cur)
    ensures var t := SkipStep(files, s); FateOk(d, |files|, n, FateAfter(files, w, s), t.f, t.pc, t.cur)
  {
    assert w.fate.Waiting?;
    var f := SkipFlags(s.f, s.pc.skipAt);
    match s.pc.skipAt
    case ReadDelta =>
    case ClearSkip(x) =>
    case ClearDelta(x) =>
  }

  lemma PlayingKeepsFate(files: Files, w: Watch, s: State, ok: bool, d: int, n: nat)
    requires s.pc.Playing? && FateOk(d, |files|, n, w.fate, s.f, s.pc, s.cur)
    ensures var t := PlayStep(s, ok); FateOk(d, |files|, n, FateAfter(files, w, s), t.f, t.pc, t.cur)
  {
    PlayFrame(s, ok);
  }

  lemma AfterKeepsFate(files: Files, w: Watch, s: State, d: int, n: nat)
    requires 0 <= s.cur < |files| && s.pc.After? && FateOk(d, |files|, n, w.fate, s.f, s.pc, s.cur)
    requires s.aborted == w.cut
    ensures var t := AfterStep(files, s); FateOk(d, |files|, n, FateAfter(files, w, s), t.f, t.pc, t.cur)
  {
    var t := AfterStep(files, s);
    assert t.f == s.f && (t.pc == Top || t.pc == Cleaning(Look));
    if w.fate.Taken? {
      var goal := SkipTarget(d, w.fate.start, |files|);
      VerdictIsSequel(files, s);
    }
  }

  lemma VerdictIsSequel(files: Files, s: State)
    ensures var t, halted := AfterStep(files, s), s.f.stop || (s.bad && !s.aborted);
      match SequelOf(true, s.aborted, halted, s.cur + 1 >= |files|)
      case Target => t.pc == Top && t.cur == s.cur
      case OneAfter => t.pc == Top && t.cur == s.cur + 1
      case End => t.pc == Cleaning(Look)
  {
  }

  lemma BeginKeepsFate(files: Files, w: Watch, s: State, d: int, n: nat)
    requires 0 <= s.cur < |files| && s.pc.Beginning? && FateOk(d, |files|, n, w.fate, s.f, s.pc, s.cur)
    ensures var t := BeginStep(files, s); FateOk(d, |files|, n, FateAfter(files, w, s), t.f, t.pc, t.cur)
  {
    BeginFrame(files, s);
  }

  lemma BeginFrame(files: Files, s: State)
    requires 0 <= s.cur < |files| && s.pc.Beginning?
    ensures var t := BeginStep(files, s);
      && t.cur == s.cur && t.f.skip == s.f.skip && t.f.delta == s.f.delta
      && ((t.pc.Beginning? && !t.pc.beginAt.Choose?) || t.pc.Resetting?)
      && (t.pc.Resetting? ==> !t.pc.inLoop && !s.pc.beginAt.Choose?)
  {
  }

  lemma SettlingKeepsFate(files: Files, w: Watch, s: State, ok: bool, d: int, n: nat)
    requires s.pc.Settling? && FateOk(d, |files|, n, w.fate, s.f, s.pc, s.cur)
    ensures var t := SettleStep(s, ok); FateOk(d, |files|, n, FateAfter(files, w, s), t.f, t.pc, t.cur)
  {
    SettleFrame(s, ok);
    var t := SettleStep(s, ok);
    assert t.f.skip == s.f.skip && t.f.delta == s.f.delta;
  }

  lemma StartingKeepsFate(files: Files, w: Watch, s: State, ok: bool, d: int, n: nat)
    requires s.pc.Starting? && FateOk(d, |files|, n, w.fate, s.f, s.pc, s.cur)
    ensures var t := StartStep(s, ok); FateOk(d, |files|, n, FateAfter(files, w, s), t.f, t.pc, t.cur)
  {
    StartFrame(s, ok);
  }

  lemma CleaningLeavesRequest(s: State, ok: bool)
    requires s.pc.Cleaning?
    ensures var t := CleanStep(s, ok); t.f.skip == s.f.skip && t.f.delta == s.f.delta && t.cur == s.cur
  {
  }

  lemma CleaningKeepsFate(files: Files, w: Watch, s: State, ok: bool, d: int, n: nat)
    requires s.pc.Cleaning? && FateOk(d, |files|, n, w.fate, s.f, s.pc, s.cur)
    ensures var t := CleanStep(s, ok); FateOk(d, |files|, n, FateAfter(files, w, s), t.f, t.pc, t.cur)
  {
    CleaningLeavesRequest(s, ok);
    CleanFrame(s, ok);
  }

  lemma ResettingKeepsFate(files: Files, w: Watch, s: State, d: int, n: nat)
    requires s.pc.Resetting? && FateOk(d, |files|, n, w.fate, s.f, s.pc, s.cur)
    ensures var t := ResetStep(s); FateOk(d, |files|, n, FateAfter(files, w, s), t.f, t.pc, t.cur)
  {
    var t := ResetStep(s);
    assert t.f == s.f && t.cur == s.cur && !t.pc.Skipping? && t.pc != Top && t.pc != Beginning(Choose);
  }

  lemma PlayerKeepsFate(files: Files, w: Watch, s: State, ok: bool, d: int, n: nat)
    requires 0 <= s.cur < |files| && FateOk(d, |files|, n, w.fate, s.f, s.pc, s.cur)
    requires s.pc.After? ==> s.aborted == w.cut
    ensures var t := PlayerStep(files, s, ok); FateOk(d, |files|, n, FateAfter(files, w, s), t.f, t.pc, t.cur)
  {
    match s.pc
    case Skipping(_, _) => SkippingKeepsFate(files, w, s, d, n);
    case Playing(_) => PlayingKeepsFate(files, w, s, ok, d, n);
    case After => AfterKeepsFate(files, w, s, d, n);
    case Beginning(_) => BeginKeepsFate(files, w, s, d, n);
    case Settling(_) => SettlingKeepsFate(files, w, s, ok, d, n);
    case Starting(_) => StartingKeepsFate(files, w, s, ok, d, n);
    case Cleaning(_) => CleaningKeepsFate(files, w, s, ok, d, n);
    case Resetting(_, _) => ResettingKeepsFate(files, w, s, d, n);
    case _ =>
  }

  /** A store of the call, the next one in order. */
  lemma StoreKeepsFate(fate: Fate, s: State, m: Move, d: int, count: nat, n: nat)
    requires n < 2 && m == Call(d)[n] && FateOk(d, count, n, fate, s.f, s.pc, s.cur)
    ensures var t := FlagStep(s, m); FateOk(d, count, n + 1, fate, t.f, t.pc, t.cur)
  {
  }

  lemma SignKeepsFate(fate: Fate, s: State, m: Move, d: int, count: nat, n: nat)
    requires (m.SetAbort? || m.SetStop?) && FateOk(d, count, n, fate, s.f, s.pc, s.cur)
    ensures var t := FlagStep(s, m); FateOk(d, count, n, fate, t.f, t.pc, t.cur)
  {
  }

  lemma MoveKeepsFate(files: Files, w: Watch, s: State, m: Move, d: int, n: nat)
    requires 0 <= s.cur < |files| && FateOk(d, |files|, n, w.fate, s.f, s.pc, s.cur)
    requires s.pc.After? ==> s.aborted == w.cut
    requires IsRequest(m) ==> n < 2 && m == Call(d)[n]
    ensures var t := MoveOf(files, s, m);
      FateOk(d, |files|, if IsRequest(m) then n + 1 else n, WatchMove(files, w, s, m).fate, t.f, t.pc, t.cur)
  {
    match m
    case PlayerMoves(ok) => PlayerKeepsFate(files, w, s, ok, d, n);
    case TaskMoves(ok, k) => TaskLeavesPlayer(files, s, ok, k);
    case SetDelta(_) => StoreKeepsFate(w.fate, s, m, d, |files|, n);
    case SetSkip => StoreKeepsFate(w.fate, s, m, d, |files|, n);
    case _ => SignKeepsFate(w.fate, s, m, d, |files|, n);
  }

  lemma OneCallGrows(ms: seq<Move>, d: int)
    requires ms != [] && OneCall(d, ms)
    ensures var init, m := ms[..|ms| - 1], ms[|ms| - 1];
      && OneCall(d, init)
      && (if !IsRequest(m) then Requests(ms) == Requests(init)
          else |Requests(init)| < 2 && m == Call(d)[|Requests(init)|] && |Requests(ms)| == |Requests(init)| + 1)
  {
    var n := |Requests(ms[..|ms| - 1])|;
    if IsRequest(ms[|ms| - 1]) {
      assert Requests(ms)[n] == Call(d)[n];
      assert Requests(ms)[..n] == Call(d)[..n];
    }
  }

  lemma {:induction false} RunKeepsFate(files: Files, s: State, ms: seq<Move>, d: int)
    requires Safe(files, s) && NoRequest(s) && OneCall(d, ms)
    ensures var t, w := Moves(files, s, ms), WatchRun(files, FirstLook(s), s, ms);
      FateOk(d, |files|, |Requests(ms)|, w.fate, t.f, t.pc, t.cur)
  {
    if ms != [] {
      var init, m := ms[..|ms| - 1], ms[|ms| - 1];
      OneCallGrows(ms, d);
      RunKeepsFate(files, s, init, d);
      var u, w := Moves(files, s, init), WatchRun(files, FirstLook(s), s, init);
      CurStays(files, s, init);
      RunKeepsCut(files, FirstLook(s), s, init);
      MoveKeepsFate(files, w, u, m, d, |Requests(init)|);
    }
  }

  lemma CurStays(files: Files, s: State, ms: seq<Move>)
    requires Safe(files, s)
    ensures 0 <= Moves(files, s, ms).cur < |files|
  {
    MovesKeep(files, s, ms);
  }

  /** The target begins next exactly if the request was consumed at the top of the
      loop, or the player was not halted and the reader was cut off in time; the
      track after the target begins exactly if the request was consumed on a track,
      without halt or cut-off, and there is such a track; and otherwise, exactly,
      the player ends. */
  predicate HasItsOutcome(d: int, count: nat, fate: Fate, pc: Pc, cur: int)
    requires IsDecided(fate)
  {
    && fate.d == d && 0 <= fate.start < count
    && var goal := SkipTarget(d, fate.start, count);
       && (GoesOnTo(fate, pc, cur, goal) <==> !fate.onTrack || (!fate.halted && fate.cut))
       && (GoesOnTo(fate, pc, cur, goal + 1) <==> fate.onTrack && !fate.halted && !fate.cut && goal + 1 < count)
       && (EndsWith(fate, pc) <==> fate.onTrack && (fate.halted || (!fate.cut && goal + 1 >= count)))
  }

  lemma SequelIsOutcome(d: int, count: nat, fate: Fate, pc: Pc, cur: int)
    requires IsDecided(fate) && DecidedOk(d, count, fate, pc, cur)
    ensures HasItsOutcome(d, count, fate, pc, cur)
  {
  }

  /** One call from any state without a request, its stores in any interleaving
      with player, reader, stops and cut-offs: once the player has consumed the
      request and decided what follows, it is one of the three outcomes, each under
      its own condition. */
  lemma SkipOutcome(files: Files, s: State, ms: seq<Move>, d: int)
    requires Safe(files, s) && NoRequest(s) && OneCall(d, ms)
    ensures var t, fate := Moves(files, s, ms), WatchRun(files, FirstLook(s), s, ms).fate;
      IsDecided(fate) ==> HasItsOutcome(d, |files|, fate, t.pc, t.cur)
  {
    RunKeepsFate(files, s, ms, d);
    var t, fate := Moves(files, s, ms), WatchRun(files, FirstLook(s), s, ms).fate;
    if IsDecided(fate) {
      SequelIsOutcome(d, |files|, fate, t.pc, t.cur);
    }
  }

  /** Until then the target is current and the player on its way to the decision;
      a player that ends has consumed and decided, or not consumed at all. */
  lemma SkipIsDecided(files: Files, s: State, ms: seq<Move>, d: int)
    requires Safe(files, s) && NoRequest(s) && OneCall(d, ms)
    ensures var t, fate := Moves(files, s, ms), WatchRun(files, FirstLook(s), s, ms).fate;
      && (fate.Taken? ==>
            && fate.d == d && 0 <= fate.start < |files| && t.cur == SkipTarget(d, fate.start, |files|)
            && LeavingTrack(t.pc))
      && (IsEnding(t.pc) ==> fate.Waiting? || IsDecided(fate))
  {
    RunKeepsFate(files, s, ms, d);
  }

  /** And a track that is decided on does begin, with the player's next steps. */
  lemma DecidedTrackBegins(files: Files, s: State, ms: seq<Move>, d: int, ok: bool)
    requires Safe(files, s) && NoRequest(s) && OneCall(d, ms)
    ensures var t, fate, more := Moves(files, s, ms), WatchRun(files, FirstLook(s), s, ms).fate, ms + [PlayerMoves(ok)];
      var u, next := Moves(files, s, more), WatchRun(files, FirstLook(s), s, more).fate;
      fate.Landed? && !IsEnding(t.pc) ==>
        if t.pc == Top then u.pc == Beginning(Choose) && next == fate && u.cur == t.cur
        else next.Begun? && next.track == t.cur && u.track == t.cur && u.pc == Beginning(ClearFailed)
  {
    var more := ms + [PlayerMoves(ok)];
    assert more[..|ms|] == ms && more[|ms|] == PlayerMoves(ok);
    RunKeepsFate(files, s, ms, d);
    CurStays(files, s, ms);
    var t, w := Moves(files, s, ms), WatchRun(files, FirstLook(s), s, ms);
    if w.fate.Landed? && !IsEnding(t.pc) {
      NextBegins(files, w, t, ok);
    }
  }

  lemma NextBegins(files: Files, w: Watch, s: State, ok: bool)
    requires 0 <= s.cur < |files| && w.fate.Landed? && !s.f.skip
    ensures s.pc == Top ==> var t := PlayerStep(files, s, ok);
      t.pc == Beginning(Choose) && FateAfter(files, w, s) == w.fate && t.cur == s.cur
    ensures s.pc == Beginning(Choose) ==> var t := PlayerStep(files, s, ok);
      FateAfter(files, w, s).Begun? && FateAfter(files, w, s).track == s.cur && t.track == s.cur
      && t.pc == Beginning(ClearFailed)
  {
  }

  /* ---------- The request that is never consumed ---------- */

  /** The two places where the player looks for a request. */
  predicate IsLook(pc: Pc) {
    pc == Top || pc == Playing(MaySkip)
  }

  /** Move k is such a look, with the request stored before. */
  predicate LooksAt(files: Files, s: State, ms: seq<Move>, k: nat)
    requires k < |ms|
  {
    ms[k].PlayerMoves? && IsLook(Moves(files, s, ms[..k]).pc) && SetSkip in ms[..k]
  }

  ghost predicate Looked(files: Files, s: State, ms: seq<Move>) {
    exists k :: 0 <= k < |ms| && LooksAt(files, s, ms, k)
  }

  lemma LooksAtPrefix(files: Files, s: State, ms: seq<Move>, k: nat)
    requires k + 1 < |ms|
    ensures LooksAt(files, s, ms[..|ms| - 1], k) <==> LooksAt(files, s, ms, k)
  {
    assert ms[..|ms| - 1][..k] == ms[..k];
  }

  lemma LookedInOneMore(files: Files, s: State, ms: seq<Move>)
    requires ms != []
    ensures Looked(files, s, ms) <==> Looked(files, s, ms[..|ms| - 1]) || LooksAt(files, s, ms, |ms| - 1)
  {
    var n := |ms| - 1;
    forall k | 0 <= k < n ensures LooksAt(files, s, ms[..n], k) <==> LooksAt(files, s, ms, k) {
      LooksAtPrefix(files, s, ms, k);
    }
    if Looked(files, s, ms) {
      var k :| 0 <= k < |ms| && LooksAt(files, s, ms, k);
      assert k < n ==> LooksAt(files, s, ms[..n], k);
    }
    if Looked(files, s, ms[..n]) {
      var k :| 0 <= k < n && LooksAt(files, s, ms[..n], k);
      assert LooksAt(files, s, ms, k);
    }
  }

  lemma {:induction false} RequestsOf(ms: seq<Move>, d: int)
    requires OneCall(d, ms)
    ensures SetSkip in ms <==> |Requests(ms)| == 2
  {
    if ms != [] {
      OneCallGrows(ms, d);
      RequestsOf(ms[..|ms| - 1], d);
      assert ms == ms[..|ms| - 1] + [ms[|ms| - 1]];
    }
  }

  /** A request is untouched, and the player is not about to consume it. */
  predicate Untouched(fate: Fate, pc: Pc) {
    fate.Waiting? && !pc.Skipping?
  }

  /** Only a look leads to the consumption of a request. */
  lemma OnlyLooksConsume(files: Files, w: Watch, s: State, ok: bool, d: int)
    requires 0 <= s.cur < |files| && FateOk(d, |files|, 2, w.fate, s.f, s.pc, s.cur)
    ensures Untouched(FateAfter(files, w, s), PlayerStep(files, s, ok).pc) <==>
            Untouched(w.fate, s.pc) && !IsLook(s.pc)
  {
    match s.pc
    case Skipping(_, _) =>
    case Playing(_) => PlayFrame(s, ok);
    case After => VerdictIsBetween(files, s);
    case Beginning(_) => BeginFrame(files, s);
    case Settling(_) => SettleFrame(s, ok);
    case Starting(_) =>
    case Cleaning(_) => CleanFrame(s, ok);
    case _ =>
  }

  lemma MoveTouches(files: Files, w: Watch, s: State, m: Move, d: int)
    requires 0 <= s.cur < |files| && FateOk(d, |files|, 2, w.fate, s.f, s.pc, s.cur) && !IsRequest(m)
    ensures Untouched(WatchMove(files, w, s, m).fate, MoveOf(files, s, m).pc) <==>
            Untouched(w.fate, s.pc) && !(m.PlayerMoves? && IsLook(s.pc))
  {
    match m
    case PlayerMoves(ok) => OnlyLooksConsume(files, w, s, ok, d);
    case TaskMoves(ok, k) => TaskLeavesPlayer(files, s, ok, k);
    case _ =>
  }

  lemma {:induction false} RunTouches(files: Files, s: State, ms: seq<Move>, d: int)
    requires Safe(files, s) && NoRequest(s) && OneCall(d, ms) && |Requests(ms)| == 2
    ensures Untouched(WatchRun(files, FirstLook(s), s, ms).fate, Moves(files, s, ms).pc) <==> !Looked(files, s, ms)
  {
    var init, m := ms[..|ms| - 1], ms[|ms| - 1];
    var u, w := Moves(files, s, init), WatchRun(files, FirstLook(s), s, init);
    OneCallGrows(ms, d);
    LookedInOneMore(files, s, ms);
    RunKeepsFate(files, s, init, d);
    CurStays(files, s, init);
    RequestsOf(init, d);
    if IsRequest(m) {
      NotLooked(files, s, init);
    } else {
      RunTouches(files, s, init, d);
      MoveTouches(files, w, u, m, d);
    }
  }

  lemma NotLooked(files: Files, s: State, ms: seq<Move>)
    requires SetSkip !in ms
    ensures !Looked(files, s, ms)
  {
  }

  /** Whenever the player is not consuming a request: the one of the call is still
      there exactly if the player has not looked for requests since it was stored.
      A player that is done will not look any more, so exactly then it is lost. */
  lemma RequestIsLostIfUnseen(files: Files, s: State, ms: seq<Move>, d: int)
    requires Safe(files, s) && NoRequest(s) && OneCall(d, ms) && SetSkip in ms
    ensures var t, fate := Moves(files, s, ms), WatchRun(files, FirstLook(s), s, ms).fate;
      !t.pc.Skipping? ==> (fate.Waiting? <==> t.f.skip) && (t.f.skip <==> !Looked(files, s, ms))
  {
    RequestsOf(ms, d);
    RunKeepsFate(files, s, ms, d);
    RunTouches(files, s, ms, d);
  }

  lemma {:induction false} OneCallPrefix(ms: seq<Move>, j: nat, d: int)
    requires j <= |ms| && OneCall(d, ms)
    ensures OneCall(d, ms[..j])
  {
    if j == |ms| {
      assert ms[..j] == ms;
    } else {
      OneCallGrows(ms, d);
      OneCallPrefix(ms[..|ms| - 1], j, d);
      assert ms[..|ms| - 1][..j] == ms[..j];
    }
  }

  /** Without a look the player stays with its track, until the verdict on it. */
  lemma StaysWithoutLook(files: Files, s: State, m: Move)
    requires !s.pc.Skipping? && !(m.PlayerMoves? && IsLook(s.pc))
    ensures var t := MoveOf(files, s, m); !t.pc.Skipping? && (t.pc != Top ==> t.cur == s.cur && s.pc != Top)
  {
    match m
    case PlayerMoves(ok) => PlayerStays(files, s, ok);
    case TaskMoves(ok, n) => TaskLeavesPlayer(files, s, ok, n);
    case _ =>
  }

  lemma PlayerStays(files: Files, s: State, ok: bool)
    requires !s.pc.Skipping? && !IsLook(s.pc)
    ensures var t := PlayerStep(files, s, ok); !t.pc.Skipping? && (t.pc != Top ==> t.cur == s.cur)
  {
    match s.pc
    case Playing(_) => PlayFrame(s, ok);
    case Settling(_) => SettleFrame(s, ok);
    case Cleaning(_) => CleanFrame(s, ok);
    case Starting(_) => StartFrame(s, ok);
    case _ =>
  }

  /** Still on the same track, or past the verdict on it. */
  predicate Stays(s: State, t: State) {
    !t.pc.Skipping? && (t.pc != Top ==> t.cur == s.cur)
  }

  lemma StaysOn(files: Files, s: State, u: State, m: Move)
    requires Stays(s, u) && !(m.PlayerMoves? && IsLook(u.pc))
    ensures Stays(s, MoveOf(files, u, m))
  {
    StaysWithoutLook(files, u, m);
  }

  lemma StaysOneMore(files: Files, s: State, ms: seq<Move>, u: State)
    requires ms != [] && Stays(u, Moves(files, s, ms[..|ms| - 1]))
    requires !(ms[|ms| - 1].PlayerMoves? && IsLook(Moves(files, s, ms[..|ms| - 1]).pc))
    ensures Stays(u, Moves(files, s, ms))
  {
    StaysOn(files, u, Moves(files, s, ms[..|ms| - 1]), ms[|ms| - 1]);
  }

  lemma {:induction false} UnseenStays(files: Files, s: State, ms: seq<Move>, j: nat, u: State)
    requires j < |ms| && ms[j].SetSkip? && !Looked(files, s, ms)
    requires u == Moves(files, s, ms[..j]) && !u.pc.Skipping?
    ensures Stays(u, Moves(files, s, ms))
  {
    if j < |ms| - 1 {
      UnseenBefore(files, s, ms, j);
      UnseenStays(files, s, ms[..|ms| - 1], j, u);
    }
    StaysOneMore(files, s, ms, u);
  }

  lemma UnseenBefore(files: Files, s: State, ms: seq<Move>, j: nat)
    requires j + 1 < |ms| && ms[j].SetSkip? && !Looked(files, s, ms)
    ensures var init := ms[..|ms| - 1];
      && init[j].SetSkip? && init[..j] == ms[..j] && !Looked(files, s, init)
      && !(ms[|ms| - 1].PlayerMoves? && IsLook(Moves(files, s, init).pc))
  {
    LookedInOneMore(files, s, ms);
    assert ms[..|ms| - 1][j] == SetSkip;
  }

  /** And a lost request moves nothing: the player ends with the track that was
      current when the request, move j, was stored. */
  lemma LostRequestMovesNothing(files: Files, s: State, ms: seq<Move>, d: int, j: nat)
    requires Safe(files, s) && NoRequest(s) && OneCall(d, ms) && j < |ms| && ms[j].SetSkip?
    ensures var t := Moves(files, s, ms);
      t.pc.Done? && t.f.skip ==> t.cur == Moves(files, s, ms[..j]).cur
  {
    OneCallPrefix(ms, j + 1, d);
    OneCallGrows(ms[..j + 1], d);
    assert ms[..j + 1][..j] == ms[..j];
    RunKeepsFate(files, s, ms[..j], d);
    RequestIsLostIfUnseen(files, s, ms, d);
    if !Looked(files, s, ms) {
      UnseenStays(files, s, ms, j, Moves(files, s, ms[..j]));
    }
  }

  lemma VerdictGoesOn(files: Files, s: State)
    ensures AfterStep(files, s).pc == Top <==> !s.f.stop && (s.aborted || (!s.bad && s.cur + 1 < |files|))
  {
  }

  /** At the end of a track the player goes on to a further look exactly if it is
      not stopped, and the reader was cut off in time or the track ended well and
      was not the last. */
  lemma EndedTrackIsLookedAfter(files: Files, s: State, ms: seq<Move>, ok: bool)
    requires Moves(files, s, ms).pc.After?
    ensures var t, cut := Moves(files, s, ms), WatchRun(files, FirstLook(s), s, ms).cut;
      IsLook(MoveOf(files, t, PlayerMoves(ok)).pc) <==> !t.f.stop && (cut || (!t.bad && t.cur + 1 < |files|))
  {
    RunKeepsCut(files, FirstLook(s), s, ms);
    VerdictGoesOn(files, Moves(files, s, ms));
    VerdictIsBetween(files, Moves(files, s, ms));
  }
}
