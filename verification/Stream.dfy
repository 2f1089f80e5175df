/** The resampler as a machine on an unbounded stream: no buffer, no history
    moves, one absolute output position. The theorems about whole runs are
    proved here; Resampler shows that the buffered code refines it. */
module Stream {
  import opened FilterBank
  import opened Bank
  import opened Automaton
  import opened Convolution

  /** One sample per channel. */
  type Frame = seq<real>

  datatype Config = Config(design: Design, filters: seq<seq<real>>, interpolate: bool, channels: nat)
  {
    predicate Valid() {
      design.Valid() && Shaped(design, filters)
    }

    predicate IsFrame(f: Frame) {
      |f| == channels
    }

    /** Half the filter length. */
    function Half(): (h: nat)
      requires design.Valid()
      ensures design.numTaps == 2 * h && h >= 2
    {
      HalfOf(design.numTaps)
    }
  }

  /** Everything received, after the initial silence, and the position of the
      next output in it. */
  datatype State = State(stream: seq<Frame>, pos: real)

  ghost predicate ValidState(c: Config, s: State)
    requires c.Valid()
  {
    && |s.stream| >= c.design.numTaps
    && s.pos >= c.Half() as real
    && AreFrames(c, s.stream)
  }

  ghost predicate AreFrames(c: Config, fs: seq<Frame>) {
    forall k :: 0 <= k < |fs| ==> c.IsFrame(fs[k])
  }

  /** Silence of one filter length, and the position in the middle of it. */
  function Initial(c: Config): State
    requires c.Valid()
  {
    State(seq(c.design.numTaps, _ => seq(c.channels, _ => 0.0)), c.Half() as real)
  }

  /** The samples around a position that a filter is applied to. */
  ghost function Window(c: Config, stream: seq<Frame>, at: int, ch: nat): (w: seq<real>)
    requires c.Valid() && AreFrames(c, stream) && ch < c.channels
    requires c.Half() <= at && at + c.Half() < |stream|
    ensures |w| == c.design.numTaps
  {
    seq(c.design.numTaps, k requires 0 <= k < c.design.numTaps => stream[at - c.Half() + 1 + k][ch])
  }

  /** A position between samples, counted in filters. */
  function Phase(c: Config, pos: real): (x: real)
    requires c.Valid()
    ensures IsPhase(c.design, x)
  {
    InFilters(pos - pos.Floor as real, c.design.numFilters)
  }

  function InFilters(frac: real, n: nat): (x: real)
    requires 0.0 <= frac < 1.0 && n > 0
    ensures 0.0 <= x < n as real
  {
    frac * n as real
  }

  /** The stream has all the samples that the filter at a position needs. */
  predicate Covered(c: Config, stream: seq<Frame>, pos: real)
    requires c.Valid()
  {
    c.Half() as real <= pos < (|stream| - c.Half()) as real
  }

  ghost function SampleAt(c: Config, stream: seq<Frame>, pos: real, ch: nat): real
    requires c.Valid() && AreFrames(c, stream) && ch < c.channels && Covered(c, stream, pos)
  {
    var w := Window(c, stream, pos.Floor, ch);
    if c.interpolate then SubsampleInterpolated(c.design, c.filters, w, Phase(c, pos))
    else SubsampleNearest(c.design, c.filters, w, Phase(c, pos))
  }

  /** The output frame at a position of the stream. */
  ghost function FrameAt(c: Config, stream: seq<Frame>, pos: real): (f: Frame)
    requires c.Valid() && AreFrames(c, stream) && Covered(c, stream, pos)
    ensures c.IsFrame(f)
  {
    seq(c.channels, ch requires 0 <= ch < c.channels => SampleAt(c, stream, pos, ch))
  }

  lemma AreFramesConcat(c: Config, a: seq<Frame>, b: seq<Frame>)
    requires AreFrames(c, a) && AreFrames(c, b)
    ensures AreFrames(c, a + b)
  {
  }

  lemma WindowIsStable(c: Config, stream: seq<Frame>, more: seq<Frame>, at: int, ch: nat)
    requires c.Valid() && AreFrames(c, stream) && AreFrames(c, stream + more) && ch < c.channels
    requires c.Half() <= at && at + c.Half() < |stream|
    ensures Window(c, stream + more, at, ch) == Window(c, stream, at, ch)
  {
    var v, w := Window(c, stream + more, at, ch), Window(c, stream, at, ch);
    forall k | 0 <= k < |v| ensures v[k] == w[k] {
      assert (stream + more)[at - c.Half() + 1 + k] == stream[at - c.Half() + 1 + k];
    }
  }

  /** What is received later does not change a frame that is already covered. */
  lemma FrameIsStable(c: Config, stream: seq<Frame>, more: seq<Frame>, pos: real)
    requires c.Valid() && AreFrames(c, stream) && AreFrames(c, more) && Covered(c, stream, pos)
    ensures AreFrames(c, stream + more) && Covered(c, stream + more, pos)
    ensures FrameAt(c, stream + more, pos) == FrameAt(c, stream, pos)
  {
    AreFramesConcat(c, stream, more);
    forall ch | 0 <= ch < c.channels ensures SampleAt(c, stream + more, pos, ch) == SampleAt(c, stream, pos, ch) {
      WindowIsStable(c, stream, more, pos.Floor, ch);
    }
  }

  /** The next n outputs are all covered. */
  ghost predicate AllCovered(c: Config, stream: seq<Frame>, pos: real, step: real, n: nat)
    requires c.Valid()
  {
    forall j :: 0 <= j < n ==> Covered(c, stream, After(pos, step, j))
  }

  /** The frames at n steps from pos. */
  ghost function Frames(c: Config, stream: seq<Frame>, pos: real, step: real, n: nat): (fs: seq<Frame>)
    requires c.Valid() && AreFrames(c, stream) && AllCovered(c, stream, pos, step, n)
    ensures |fs| == n
  {
    seq(n, j requires 0 <= j < n => FrameAt(c, stream, After(pos, step, j)))
  }

  lemma FramesAreStable(c: Config, stream: seq<Frame>, more: seq<Frame>, pos: real, step: real, n: nat)
    requires c.Valid() && AreFrames(c, stream) && AreFrames(c, more) && AllCovered(c, stream, pos, step, n)
    ensures AreFrames(c, stream + more) && AllCovered(c, stream + more, pos, step, n)
    ensures Frames(c, stream + more, pos, step, n) == Frames(c, stream, pos, step, n)
  {
    AreFramesConcat(c, stream, more);
    forall j | 0 <= j < n
      ensures Covered(c, stream + more, After(pos, step, j))
      ensures FrameAt(c, stream + more, After(pos, step, j)) == FrameAt(c, stream, After(pos, step, j))
    {
      FrameIsStable(c, stream, more, After(pos, step, j));
    }
  }

  lemma FramesJoin(c: Config, stream: seq<Frame>, pos: real, step: real, m: nat, n: nat)
    requires c.Valid() && AreFrames(c, stream)
    requires AllCovered(c, stream, pos, step, m) && AllCovered(c, stream, After(pos, step, m), step, n)
    ensures AllCovered(c, stream, pos, step, m + n)
    ensures Frames(c, stream, pos, step, m + n)
            == Frames(c, stream, pos, step, m) + Frames(c, stream, After(pos, step, m), step, n)
  {
    forall j | m <= j < m + n
      ensures After(pos, step, j) == After(After(pos, step, m), step, j - m)
      ensures Covered(c, stream, After(pos, step, j))
    {
      AfterTwice(pos, step, m, j - m);
      assert Covered(c, stream, After(After(pos, step, m), step, j - m));
    }
  }

  /* ---------- Runs ---------- */

  /** The next output relative to the last sample it may use: negative when
      the output is ready. */
  function Position(c: Config, s: State): real
    requires c.Valid()
  {
    s.pos + c.Half() as real - |s.stream| as real
  }

  /** What a run leaves behind, how much it read, and what it emitted. */
  datatype Outcome = Outcome(state: State, used: nat, out: seq<Frame>)

  lemma RunIsCovered(c: Config, step: real, s: State, n: nat, m: nat, stream': seq<Frame>)
    requires c.Valid() && ValidState(c, s) && step > 0.0
    requires |stream'| == |s.stream| + Steps(Position(c, s), step, n, m).used
    ensures AllCovered(c, stream', s.pos, step, Steps(Position(c, s), step, n, m).made)
  {
    forall j | 0 <= j < Steps(Position(c, s), step, n, m).made ensures Covered(c, stream', After(s.pos, step, j)) {
      EmitsWhenNegative(Position(c, s), step, n, m, j);
      AfterShift(s.pos, step, j, (|s.stream| - c.Half()) as real);
      AfterMonotone(s.pos, step, j);
    }
  }

  /** A run of the automaton: which samples it reads, and the frames it emits,
      each at its own position of the stream. */
  ghost function Run(c: Config, step: real, s: State, input: seq<Frame>, space: nat): (r: Outcome)
    requires c.Valid() && ValidState(c, s) && step > 0.0 && AreFrames(c, input)
    ensures r.used <= |input| && |r.out| <= space
    ensures ValidState(c, r.state)
  {
    var k := Steps(Position(c, s), step, |input|, space);
    var stream' := s.stream + input[..k.used];
    RunIsCovered(c, step, s, |input|, space, stream');
    AfterMonotone(s.pos, step, k.made);
    Outcome(State(stream', After(s.pos, step, k.made)), k.used, Frames(c, stream', s.pos, step, k.made))
  }

  /** Output k of a run is the filter applied to the whole stream at k steps
      from where the run began, however much of the input was read by then. */
  lemma OutputIsStreamSample(c: Config, step: real, s: State, input: seq<Frame>, space: nat, k: nat)
    requires c.Valid() && ValidState(c, s) && step > 0.0 && AreFrames(c, input)
    requires k < |Run(c, step, s, input, space).out|
    ensures AreFrames(c, s.stream + input) && Covered(c, s.stream + input, s.pos + k as real * step)
    ensures Run(c, step, s, input, space).out[k] == FrameAt(c, s.stream + input, s.pos + k as real * step)
  {
    var r := Run(c, step, s, input, space);
    AfterClosedForm(s.pos, step, k);
    RunIsCovered(c, step, s, |input|, space, r.state.stream);
    FrameIsStable(c, r.state.stream, input[r.used..], After(s.pos, step, k));
    assert r.state.stream + input[r.used..] == s.stream + input;
  }

  lemma PositionAfterRun(c: Config, step: real, s: State, input: seq<Frame>, space: nat)
    requires c.Valid() && ValidState(c, s) && step > 0.0 && AreFrames(c, input)
    ensures Position(c, Run(c, step, s, input, space).state)
            == Final(Position(c, s), step, Steps(Position(c, s), step, |input|, space))
  {
    AfterShift(s.pos, step, Steps(Position(c, s), step, |input|, space).made, (|s.stream| - c.Half()) as real);
  }

  /** A run ends for one of two reasons: its output space is used up, or it has
      read all its input and the next output is not ready. */
  lemma RunStopsWhenDone(c: Config, step: real, s: State, input: seq<Frame>, space: nat)
    requires c.Valid() && ValidState(c, s) && step > 0.0 && AreFrames(c, input)
    ensures var r := Run(c, step, s, input, space);
            |r.out| == space || (r.used == |input| && Position(c, r.state) >= 0.0)
  {
    StopsWhenDone(Position(c, s), step, |input|, space);
    PositionAfterRun(c, step, s, input, space);
  }

  /** With a fixed step, the position stays between -1 and the step. */
  lemma RunStaysNearZero(c: Config, step: real, s: State, input: seq<Frame>, space: nat)
    requires c.Valid() && ValidState(c, s) && step > 0.0 && AreFrames(c, input)
    requires -1.0 <= Position(c, s) < step
    ensures -1.0 <= Position(c, Run(c, step, s, input, space).state) < step
  {
    PositionAfterRun(c, step, s, input, space);
    PositionStaysNearZero(Position(c, s), step, |input|, space, step);
  }

  /** The dry-run counts are what a run then does: with the required input it
      emits all m frames and reads no more than that, with less it falls short;
      with room to spare it emits the expected output and reads everything. */
  lemma DryRunsAreExact(c: Config, step: real, s: State, input: seq<Frame>, m: nat)
    requires c.Valid() && ValidState(c, s) && step > 0.0 && AreFrames(c, input)
    ensures var r, need := Run(c, step, s, input, m), Needed(Position(c, s), step, m);
            && (|r.out| == m <==> need <= |input|)
            && (need <= |input| ==> r.used == need)
    ensures var r, due := Run(c, step, s, input, m), Produced(Position(c, s), step, |input|);
            && (due <= m ==> |r.out| == due)
            && (due < m ==> r.used == |input|)
  {
    ExactOutput(Position(c, s), step, |input|, m);
    ExactInput(Position(c, s), step, |input|, m);
    CountsAgree(Position(c, s), step, |input|, m);
  }

  /** From a fresh start, n frames in give exactly ceil(n * ratio) frames out,
      and m frames out take exactly floor((m - 1) / ratio) + 1 frames in. */
  lemma FreshCounts(c: Config, ratio: real, step: real, input: seq<Frame>, m: nat)
    requires c.Valid() && ratio > 0.0 && step > 0.0 && step == 1.0 / ratio && AreFrames(c, input)
    ensures ValidState(c, Initial(c))
    ensures var r, due := Run(c, step, Initial(c), input, m), Ceil(|input| as real * ratio);
            && (due <= m ==> |r.out| == due)
            && (due < m ==> r.used == |input|)
            && (0 < m <= due ==> |r.out| == m && r.used == ((m - 1) as real / ratio).Floor + 1)
  {
    assert Position(c, Initial(c)) == 0.0;
    CountsFromReset(ratio, |input|, m);
    DryRunsAreExact(c, step, Initial(c), input, m);
    CountsAgree(0.0, step, |input|, m);
  }

  /* ---------- Chunking does not matter ---------- */

  function Join(a: Outcome, b: Outcome): Outcome {
    Outcome(b.state, a.used + b.used, a.out + b.out)
  }

  /** One call followed by another that is offered what the first left over is
      the same as a single call, for any cut of the input and of the output. */
  lemma SplitRun(c: Config, step: real, s: State, a: seq<Frame>, b: seq<Frame>, m: nat, n: nat)
    requires c.Valid() && ValidState(c, s) && step > 0.0 && AreFrames(c, a) && AreFrames(c, b)
    requires n > 0
    ensures AreFrames(c, a + b)
    ensures var first := Run(c, step, s, a, m);
            AreFrames(c, a[first.used..] + b)
            && Run(c, step, s, a + b, |first.out| + n)
               == Join(first, Run(c, step, first.state, a[first.used..] + b, n))
  {
    var first := Run(c, step, s, a, m);
    var rest := a[first.used..] + b;
    AreFramesConcat(c, a, b);
    AreFramesConcat(c, a[first.used..], b);
    SplitSteps(Position(c, s), step, |a|, |b|, m, n);
    PositionAfterRun(c, step, s, a, m);
    var second := Run(c, step, first.state, rest, n);
    var stream' := second.state.stream;
    assert stream' == s.stream + (a + b)[..first.used + second.used];
    RunIsCovered(c, step, first.state, |rest|, n, stream');
    RunIsCovered(c, step, s, |a|, m, first.state.stream);
    FramesAreStable(c, first.state.stream, rest[..second.used], s.pos, step, |first.out|);
    FramesJoin(c, stream', s.pos, step, |first.out|, |second.out|);
    AfterTwice(s.pos, step, |first.out|, |second.out|);
  }

  /** A call: the new input offered with it, and the space for its output. */
  datatype Call = Call(input: seq<Frame>, space: nat)

  /** What a call is offered: the input left over and the new input. */
  function Offered(c: Config, pending: seq<Frame>, call: Call): (input: seq<Frame>)
    requires AreFrames(c, pending) && AreFrames(c, call.input)
    ensures AreFrames(c, input)
  {
    pending + call.input
  }

  /** Successive calls, each offered the input not yet consumed. */
  ghost function RunCalls(c: Config, step: real, s: State, pending: seq<Frame>, calls: seq<Call>): (r: Outcome)
    requires c.Valid() && ValidState(c, s) && step > 0.0 && AreFrames(c, pending)
    requires forall i :: 0 <= i < |calls| ==> AreFrames(c, calls[i].input)
    decreases |calls|
  {
    if calls == [] then Outcome(s, 0, [])
    else
      var input := Offered(c, pending, calls[0]);
      var first := Run(c, step, s, input, calls[0].space);
      Join(first, RunCalls(c, step, first.state, input[first.used..], calls[1..]))
  }

  function AllInput(calls: seq<Call>): seq<Frame> {
    if calls == [] then [] else calls[0].input + AllInput(calls[1..])
  }

  /** What the calls before the last produced, and the space of the last. */
  ghost function TotalSpace(c: Config, step: real, s: State, pending: seq<Frame>, calls: seq<Call>): nat
    requires c.Valid() && ValidState(c, s) && step > 0.0 && AreFrames(c, pending)
    requires forall i :: 0 <= i < |calls| ==> AreFrames(c, calls[i].input)
    requires calls != []
    decreases |calls|
  {
    if |calls| == 1 then calls[0].space
    else
      var input := Offered(c, pending, calls[0]);
      var first := Run(c, step, s, input, calls[0].space);
      |first.out| + TotalSpace(c, step, first.state, input[first.used..], calls[1..])
  }

  lemma {:induction false} AllInputIsFrames(c: Config, calls: seq<Call>)
    requires forall i :: 0 <= i < |calls| ==> AreFrames(c, calls[i].input)
    ensures AreFrames(c, AllInput(calls))
  {
    if calls != [] {
      AllInputIsFrames(c, calls[1..]);
    }
  }

  /** However the input and the output space are cut into calls, the calls end
      in the same state, consume the same input and emit the same frames as a
      single one. */
  lemma {:induction false} ChunkingDoesNotMatter(c: Config, step: real, s: State, pending: seq<Frame>, calls: seq<Call>)
    requires c.Valid() && ValidState(c, s) && step > 0.0 && AreFrames(c, pending)
    requires forall i :: 0 <= i < |calls| ==> AreFrames(c, calls[i].input)
    requires calls != [] && calls[|calls| - 1].space > 0
    ensures AreFrames(c, pending + AllInput(calls))
    ensures TotalSpace(c, step, s, pending, calls) > 0
    ensures RunCalls(c, step, s, pending, calls)
            == Run(c, step, s, pending + AllInput(calls), TotalSpace(c, step, s, pending, calls))
    decreases |calls|
  {
    AllInputIsFrames(c, calls);
    AreFramesConcat(c, pending, AllInput(calls));
    if |calls| == 1 {
      InputInParts(pending, calls);
      SingleCall(c, step, s, pending, calls);
    } else {
      var input := Offered(c, pending, calls[0]);
      var first := Run(c, step, s, input, calls[0].space);
      AllInputIsFrames(c, calls[1..]);
      ChunkingDoesNotMatter(c, step, first.state, input[first.used..], calls[1..]);
      MoreCalls(c, step, s, pending, calls, first,
                RunCalls(c, step, first.state, input[first.used..], calls[1..]),
                TotalSpace(c, step, first.state, input[first.used..], calls[1..]));
    }
  }

  lemma CallsUnrolled(c: Config, step: real, s: State, pending: seq<Frame>, calls: seq<Call>)
    requires c.Valid() && ValidState(c, s) && step > 0.0 && AreFrames(c, pending)
    requires |calls| > 1 && forall i :: 0 <= i < |calls| ==> AreFrames(c, calls[i].input)
    ensures var input := Offered(c, pending, calls[0]);
            var first := Run(c, step, s, input, calls[0].space);
            && RunCalls(c, step, s, pending, calls)
               == Join(first, RunCalls(c, step, first.state, input[first.used..], calls[1..]))
            && TotalSpace(c, step, s, pending, calls)
               == |first.out| + TotalSpace(c, step, first.state, input[first.used..], calls[1..])
  {
  }

  /** The first call and, as one run, the calls after it. */
  lemma MoreCalls(c: Config, step: real, s: State, pending: seq<Frame>, calls: seq<Call>, first: Outcome,
                  later: Outcome, n: nat)
    requires c.Valid() && ValidState(c, s) && step > 0.0 && AreFrames(c, pending)
    requires forall i :: 0 <= i < |calls| ==> AreFrames(c, calls[i].input)
    requires |calls| > 1 && AreFrames(c, AllInput(calls[1..])) && n > 0
    requires first == Run(c, step, s, Offered(c, pending, calls[0]), calls[0].space)
    requires later == RunCalls(c, step, first.state, Offered(c, pending, calls[0])[first.used..], calls[1..])
    requires n == TotalSpace(c, step, first.state, Offered(c, pending, calls[0])[first.used..], calls[1..])
    requires AreFrames(c, Offered(c, pending, calls[0])[first.used..] + AllInput(calls[1..]))
    requires later == Run(c, step, first.state, Offered(c, pending, calls[0])[first.used..] + AllInput(calls[1..]), n)
    ensures AreFrames(c, pending + AllInput(calls)) && TotalSpace(c, step, s, pending, calls) > 0
    ensures RunCalls(c, step, s, pending, calls)
            == Run(c, step, s, pending + AllInput(calls), TotalSpace(c, step, s, pending, calls))
  {
    InputInParts(pending, calls);
    CallsUnrolled(c, step, s, pending, calls);
    OneMoreChunk(c, step, s, Offered(c, pending, calls[0]), AllInput(calls[1..]), calls[0].space, later, n);
  }

  lemma SingleCall(c: Config, step: real, s: State, pending: seq<Frame>, calls: seq<Call>)
    requires c.Valid() && ValidState(c, s) && step > 0.0 && AreFrames(c, pending)
    requires |calls| == 1 && AreFrames(c, calls[0].input)
    ensures RunCalls(c, step, s, pending, calls) == Run(c, step, s, Offered(c, pending, calls[0]), calls[0].space)
  {
    var first := Run(c, step, s, Offered(c, pending, calls[0]), calls[0].space);
    assert calls[1..] == [];
    NothingMore(first.out);
  }

  lemma Grouped(a: seq<Frame>, b: seq<Frame>, c: seq<Frame>)
    ensures a + b + c == a + (b + c)
  {
  }

  lemma NothingMore(a: seq<Frame>)
    ensures a + [] == a
  {
  }

  lemma InputInParts(pending: seq<Frame>, calls: seq<Call>)
    requires calls != []
    ensures pending + AllInput(calls) == pending + calls[0].input + AllInput(calls[1..])
    ensures |calls| == 1 ==> pending + AllInput(calls) == pending + calls[0].input
  {
    Grouped(pending, calls[0].input, AllInput(calls[1..]));
    if |calls| == 1 {
      assert calls[1..] == [];
      NothingMore(calls[0].input);
    }
  }

  lemma OneMoreChunk(c: Config, step: real, s: State, a: seq<Frame>, b: seq<Frame>, m: nat, later: Outcome, n: nat)
    requires c.Valid() && ValidState(c, s) && step > 0.0 && AreFrames(c, a) && AreFrames(c, b) && n > 0
    requires var first := Run(c, step, s, a, m);
             AreFrames(c, a[first.used..] + b) && later == Run(c, step, first.state, a[first.used..] + b, n)
    ensures AreFrames(c, a + b)
    ensures var first := Run(c, step, s, a, m); Join(first, later) == Run(c, step, s, a + b, |first.out| + n)
  {
    SplitRun(c, step, s, a, b, m, n);
  }

  lemma InitialIsValid(c: Config)
    requires c.Valid()
    ensures ValidState(c, Initial(c))
  {
  }

  /** A conversion: successive calls from a fresh start. */
  ghost function Conversion(c: Config, step: real, calls: seq<Call>): Outcome
    requires c.Valid() && step > 0.0
    requires forall i :: 0 <= i < |calls| ==> AreFrames(c, calls[i].input)
  {
    InitialIsValid(c);
    RunCalls(c, step, Initial(c), [], calls)
  }

  /** What a conversion sees in the end: silence, then all input. */
  function Seen(c: Config, calls: seq<Call>): seq<Frame>
    requires c.Valid()
  {
    Initial(c).stream + AllInput(calls)
  }

  lemma ConversionIsRun(c: Config, step: real, calls: seq<Call>) returns (space: nat)
    requires c.Valid() && step > 0.0 && calls != [] && calls[|calls| - 1].space > 0
    requires forall i :: 0 <= i < |calls| ==> AreFrames(c, calls[i].input)
    ensures ValidState(c, Initial(c)) && AreFrames(c, AllInput(calls))
    ensures Conversion(c, step, calls) == Run(c, step, Initial(c), AllInput(calls), space)
  {
    InitialIsValid(c);
    AllInputIsFrames(c, calls);
    ChunkingDoesNotMatter(c, step, Initial(c), [], calls);
    assert [] + AllInput(calls) == AllInput(calls);
    space := TotalSpace(c, step, Initial(c), [], calls);
  }

  /** A further call only adds output. */
  lemma {:induction false} OutputOnlyGrows(c: Config, step: real, s: State, pending: seq<Frame>,
                                           calls: seq<Call>, call: Call)
    requires c.Valid() && ValidState(c, s) && step > 0.0 && AreFrames(c, pending) && AreFrames(c, call.input)
    requires forall i :: 0 <= i < |calls| ==> AreFrames(c, calls[i].input)
    ensures RunCalls(c, step, s, pending, calls).out <= RunCalls(c, step, s, pending, calls + [call]).out
    decreases |calls|
  {
    var more := calls + [call];
    if calls != [] {
      assert more[0] == calls[0] && more[1..] == calls[1..] + [call];
      var input := Offered(c, pending, calls[0]);
      var first := Run(c, step, s, input, calls[0].space);
      OutputOnlyGrows(c, step, first.state, input[first.used..], calls[1..], call);
    }
  }

  lemma {:induction false} AllInputSnoc(calls: seq<Call>, call: Call)
    ensures AllInput(calls + [call]) == AllInput(calls) + call.input
  {
    var more := calls + [call];
    if calls != [] {
      assert more[0] == calls[0] && more[1..] == calls[1..] + [call];
      AllInputSnoc(calls[1..], call);
    }
  }

  /** What an output of a run from rest is. */
  ghost predicate IsSampleAt(c: Config, stream: seq<Frame>, at: real, f: Frame)
    requires c.Valid()
  {
    AreFrames(c, stream) && Covered(c, stream, at) && f == FrameAt(c, stream, at)
  }

  lemma RunFromRest(c: Config, step: real, calls: seq<Call>, space: nat, k: nat, at: real)
    requires c.Valid() && ValidState(c, Initial(c)) && step > 0.0 && AreFrames(c, AllInput(calls))
    requires k < |Run(c, step, Initial(c), AllInput(calls), space).out|
    requires at == c.Half() as real + k as real * step
    ensures IsSampleAt(c, Seen(c, calls), at, Run(c, step, Initial(c), AllInput(calls), space).out[k])
  {
    OutputIsStreamSample(c, step, Initial(c), AllInput(calls), space, k);
    assert Initial(c).pos == c.Half() as real;
  }

  lemma LateSample(c: Config, step: real, calls: seq<Call>, k: nat, at: real)
    requires c.Valid() && step > 0.0 && calls != [] && calls[|calls| - 1].space > 0
    requires forall i :: 0 <= i < |calls| ==> AreFrames(c, calls[i].input)
    requires k < |Conversion(c, step, calls).out| && at == c.Half() as real + k as real * step
    ensures IsSampleAt(c, Seen(c, calls), at, Conversion(c, step, calls).out[k])
  {
    var space := ConversionIsRun(c, step, calls);
    RunFromRest(c, step, calls, space, k, at);
  }

  /** A last call with space and without input changes nothing before it. */
  lemma OneMoreCall(c: Config, step: real, calls: seq<Call>, k: nat) returns (more: seq<Call>)
    requires c.Valid() && step > 0.0
    requires forall i :: 0 <= i < |calls| ==> AreFrames(c, calls[i].input)
    requires k < |Conversion(c, step, calls).out|
    ensures more != [] && more[|more| - 1].space > 0
    ensures forall i :: 0 <= i < |more| ==> AreFrames(c, more[i].input)
    ensures k < |Conversion(c, step, more).out| && Conversion(c, step, more).out[k] == Conversion(c, step, calls).out[k]
    ensures Seen(c, more) == Seen(c, calls)
  {
    more := calls + [Call([], 1)];
    InitialIsValid(c);
    OutputOnlyGrows(c, step, Initial(c), [], calls, Call([], 1));
    AllInputSnoc(calls, Call([], 1));
  }

  /** Frame k of a conversion is the filter applied to the silence and all of
      the input, k steps after the middle of the silence, however input and
      output space were cut into calls. */
  lemma ConversionIsStreamSample(c: Config, step: real, calls: seq<Call>, k: nat, at: real)
    requires c.Valid() && step > 0.0
    requires forall i :: 0 <= i < |calls| ==> AreFrames(c, calls[i].input)
    requires k < |Conversion(c, step, calls).out| && at == c.Half() as real + k as real * step
    ensures IsSampleAt(c, Seen(c, calls), at, Conversion(c, step, calls).out[k])
  {
    var more := OneMoreCall(c, step, calls, k);
    LateSample(c, step, more, k, at);
  }

  /* ---------- Positions that fall on filters ---------- */

  /** A distance counted in filters. */
  function Filters(c: Config, x: real): real {
    x * c.design.numFilters as real
  }

  /** A position is a whole number of filters. */
  predicate Aligned(c: Config, x: real) {
    IsInteger(Filters(c, x))
  }

  lemma FiltersSum(c: Config, x: real, y: real)
    ensures Filters(c, x + y) == Filters(c, x) + Filters(c, y)
    ensures Filters(c, x - y) == Filters(c, x) - Filters(c, y)
  {
  }

  lemma IntegerSum(x: real, y: real)
    requires IsInteger(x) && IsInteger(y)
    ensures IsInteger(x + y) && IsInteger(x - y)
  {
    var a, b := x.Floor, y.Floor;
    assert x + y == a as real + b as real && x - y == a as real - b as real;
    FloorIs(x + y, a + b);
    FloorIs(x - y, a - b);
  }

  lemma FloorIs(x: real, n: int)
    requires n as real <= x < n as real + 1.0
    ensures x.Floor == n
  {
  }

  lemma AlignedSum(c: Config, x: real, y: real)
    requires Aligned(c, x) && Aligned(c, y)
    ensures Aligned(c, x + y) && Aligned(c, x - y)
  {
    FiltersSum(c, x, y);
    IntegerSum(Filters(c, x), Filters(c, y));
  }

  lemma AlignedWhole(c: Config, k: int)
    ensures Aligned(c, k as real)
  {
    var m := k * c.design.numFilters;
    assert Filters(c, k as real) == m as real;
  }

  lemma {:induction false} AlignedAfter(c: Config, pos: real, step: real, k: nat)
    requires Aligned(c, pos) && Aligned(c, step)
    ensures Aligned(c, After(pos, step, k))
    decreases k
  {
    if k > 0 {
      AlignedSum(c, pos, step);
      AlignedAfter(c, pos + step, step, k - 1);
    }
  }

  lemma AlignedPhase(c: Config, x: real)
    requires c.Valid() && Aligned(c, x)
    ensures IsInteger(Phase(c, x))
  {
    AlignedWhole(c, x.Floor);
    AlignedSum(c, x, x.Floor as real);
    assert Phase(c, x) == Filters(c, x - x.Floor as real);
  }

  /** Move a position to the nearest filter. */
  function Snap(c: Config, x: real): real
    requires c.Valid()
  {
    x.Floor as real + NearestFilter(c.design, Phase(c, x)) as real / c.design.numFilters as real
  }

  lemma PhaseOverCount(frac: real, n: nat)
    requires 0.0 <= frac < 1.0 && n > 0
    ensures InFilters(frac, n) / n as real == frac
  {
    DivideProduct(frac, n as real, InFilters(frac, n));
  }

  lemma NearestToInteger(x: real)
    requires IsInteger(x)
    ensures (x + 0.5).Floor as real == x
  {
    var n := x.Floor;
    assert x == n as real;
    FloorIs(x + 0.5, n);
  }

  /** Snapping does nothing to a position that is on a filter. */
  lemma SnapIsIdentity(c: Config, x: real)
    requires c.Valid() && Aligned(c, x)
    ensures Snap(c, x) == x
  {
    AlignedPhase(c, x);
    var fi := NearestFilter(c.design, Phase(c, x));
    NearestToInteger(Phase(c, x));
    assert fi as real == Phase(c, x);
    PhaseOverCount(x - x.Floor as real, c.design.numFilters);
  }

  /** When the step is a whole number of filters, a run that begins on a filter
      takes every output on one and ends on one. */
  lemma RunStaysAligned(c: Config, step: real, s: State, input: seq<Frame>, space: nat, k: nat)
    requires c.Valid() && ValidState(c, s) && step > 0.0 && AreFrames(c, input)
    requires Aligned(c, s.pos) && Aligned(c, step)
    ensures Aligned(c, Run(c, step, s, input, space).state.pos)
    ensures Aligned(c, After(s.pos, step, k))
  {
    AlignedAfter(c, s.pos, step, |Run(c, step, s, input, space).out|);
    AlignedAfter(c, s.pos, step, k);
  }

  /** On a filter, taking the sample without interpolation is the plain
      convolution with one filter, also where it is read off directly. */
  lemma AlignedSampleIsConvolution(num: Numerics, c: Config, first: seq<real>, stream: seq<Frame>, pos: real, ch: nat)
    requires num.Valid() && c.Valid() && Normalisable(num, c.design) && IsBank(num, c.design, c.filters, first)
    requires c.design.lowpass || StartsWithImpulse(num, c.design)
    requires AreFrames(c, stream) && ch < c.channels && Covered(c, stream, pos) && Aligned(c, pos)
    ensures SampleAt(c, stream, pos, ch)
            == Dot(c.filters[NearestFilter(c.design, Phase(c, pos))], Window(c, stream, pos.Floor, ch))
  {
    AlignedPhase(c, pos);
    AlignedSubsamplesAgree(num, c.design, c.filters, first, Window(c, stream, pos.Floor, ch), Phase(c, pos));
  }

  /** And interpolating would give the same. */
  lemma AlignedNeedsNoInterpolation(num: Numerics, c: Config, c': Config, first: seq<real>,
                                    stream: seq<Frame>, pos: real, ch: nat)
    requires num.Valid() && c.Valid() && Normalisable(num, c.design) && IsBank(num, c.design, c.filters, first)
    requires c.design.lowpass || StartsWithImpulse(num, c.design)
    requires AreFrames(c, stream) && ch < c.channels && Covered(c, stream, pos) && Aligned(c, pos)
    requires c' == c.(interpolate := !c.interpolate)
    ensures Covered(c', stream, pos) && AreFrames(c', stream)
    ensures SampleAt(c, stream, pos, ch) == SampleAt(c', stream, pos, ch)
  {
    AlignedPhase(c, pos);
    AlignedSubsamplesAgree(num, c.design, c.filters, first, Window(c, stream, pos.Floor, ch), Phase(c, pos));
    OtherModeSeesTheSame(c, c', stream, pos, ch);
  }

  lemma OtherModeSeesTheSame(c: Config, c': Config, stream: seq<Frame>, pos: real, ch: nat)
    requires c.Valid() && AreFrames(c, stream) && ch < c.channels && Covered(c, stream, pos)
    requires c' == c.(interpolate := !c.interpolate)
    ensures Covered(c', stream, pos) && Phase(c', pos) == Phase(c, pos)
    ensures AreFrames(c', stream) && Window(c', stream, pos.Floor, ch) == Window(c, stream, pos.Floor, ch)
  {
    forall k | 0 <= k < |stream| ensures c'.IsFrame(stream[k]) {
      assert c.IsFrame(stream[k]);
    }
    assert Window(c', stream, pos.Floor, ch) == Window(c, stream, pos.Floor, ch);
  }

  /** A whole conversion whose step is a whole number of filters: every sample of
      every frame is the plain convolution of one filter with all that was seen,
      however the calls are cut, with and without interpolation. */
  lemma AlignedConversionIsConvolution(num: Numerics, c: Config, first: seq<real>, step: real, calls: seq<Call>,
                                       k: nat, at: real, ch: nat)
    requires num.Valid() && c.Valid() && Normalisable(num, c.design) && IsBank(num, c.design, c.filters, first)
    requires c.design.lowpass || StartsWithImpulse(num, c.design)
    requires step > 0.0 && Aligned(c, step) && ch < c.channels
    requires forall i :: 0 <= i < |calls| ==> AreFrames(c, calls[i].input)
    requires k < |Conversion(c, step, calls).out| && at == c.Half() as real + k as real * step
    ensures IsSampleAt(c, Seen(c, calls), at, Conversion(c, step, calls).out[k])
    ensures Conversion(c, step, calls).out[k][ch]
            == Dot(c.filters[NearestFilter(c.design, Phase(c, at))], Window(c, Seen(c, calls), at.Floor, ch))
  {
    ConversionIsStreamSample(c, step, calls, k, at);
    AlignedAt(c, step, k, at);
    AlignedSampleIsConvolution(num, c, first, Seen(c, calls), at, ch);
  }

  lemma AlignedAt(c: Config, step: real, k: nat, at: real)
    requires c.Valid() && Aligned(c, step) && at == c.Half() as real + k as real * step
    ensures Aligned(c, at)
  {
    AlignedWhole(c, c.Half());
    AlignedAfter(c, c.Half() as real, step, k);
    AfterClosedForm(c.Half() as real, step, k);
  }
}
