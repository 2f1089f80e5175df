/** The resampler context: sample buffers of 16 filter lengths through which
    the stream slides. Every method is proved against the unbounded stream. */
module Resampler {
  import opened FilterBank
  import opened Bank
  import opened Automaton
  import opened Stream
  import opened Convolution
  import opened FixedRatio

  /** Moving a position by whole samples does not change its phase. */
  lemma SampleOfWindow(c: Config, stream: seq<Frame>, pos: real, ch: nat, w: seq<real>, x: real)
    requires c.Valid() && AreFrames(c, stream) && ch < c.channels && Covered(c, stream, pos)
    requires w == Window(c, stream, pos.Floor, ch) && x == Phase(c, pos)
    ensures SampleAt(c, stream, pos, ch) ==
            if c.interpolate then SubsampleInterpolated(c.design, c.filters, w, x)
            else SubsampleNearest(c.design, c.filters, w, x)
  {
  }

  lemma PhaseOfShift(c: Config, pos: real, n: int)
    requires c.Valid()
    ensures (pos + n as real).Floor == pos.Floor + n
    ensures Phase(c, pos + n as real) == Phase(c, pos)
  {
    FloorIs(pos + n as real, pos.Floor + n);
    assert pos + n as real - (pos.Floor + n) as real == pos - pos.Floor as real;
  }

  /** The first sample of the window around a buffer position. */
  function WindowStart(c: Config, at: int): int
    requires c.Valid()
  {
    at - c.Half() + 1
  }

  /** A window of a buffer. */
  ghost function BufferWindow(c: Config, source: array<real>, at: int): (w: seq<real>)
    requires c.Valid() && c.Half() <= at && at + c.Half() < source.Length
    reads source
    ensures |w| == c.design.numTaps
  {
    source[WindowStart(c, at)..WindowStart(c, at) + c.design.numTaps]
  }

  lemma QuotientOfCount(fi: nat, n: nat)
    requires n > 0 && fi <= n
    ensures fi % n == 0 <==> fi == 0 || fi == n
    ensures fi / n == if fi == n then 1 else 0
  {
    if fi < n {
      assert fi / n == 0;
    }
  }

  method SubsampleNoInterpolate(c: Config, source: array<real>, offset: real) returns (x: real)
    requires c.Valid() && c.Half() <= offset.Floor && offset.Floor + c.Half() < source.Length
    ensures x == SubsampleNearest(c.design, c.filters, BufferWindow(c, source, offset.Floor), Phase(c, offset))
  {
    var fi := NearestFilter(c.design, Phase(c, offset));
    QuotientOfCount(fi, c.design.numFilters);
    if !c.design.lowpass && fi % c.design.numFilters == 0 {
      x := source[offset.Floor + fi / c.design.numFilters];
    } else {
      x := ApplyFilterOutsideIn(c.filters[fi], source, WindowStart(c, offset.Floor));
    }
  }

  method SubsampleInterpolate(c: Config, source: array<real>, offset: real) returns (x: real)
    requires c.Valid() && c.Half() <= offset.Floor && offset.Floor + c.Half() < source.Length
    ensures x == SubsampleInterpolated(c.design, c.filters, BufferWindow(c, source, offset.Floor), Phase(c, offset))
  {
    var frac := Phase(c, offset);
    var fi := frac.Floor;
    var a := ApplyFilterOutsideIn(c.filters[fi], source, WindowStart(c, offset.Floor));
    var b := ApplyFilterOutsideIn(c.filters[fi + 1], source, WindowStart(c, offset.Floor));
    x := Lerp(a, b, frac - fi as real);
  }

  /** Emitting takes the automaton one step on, the position written as the
      buffer has it. */
  lemma AtAfterEmit(start: real, step: real, n: nat, m: nat, k: Counts,
                    offset: real, offset2: real, next: real, half: real, index: real)
    requires At(start, step, n, m, k, offset + offset2 + half - index)
    requires k.made < m && offset + offset2 < index - half && next == offset2 + step
    ensures At(start, step, n, m, Counts(k.used, k.made + 1), offset + next + half - index)
  {
    var p := offset + offset2 + half - index;
    AtEmits(start, step, n, m, k, p);
    assert p + step == offset + next + half - index;
  }

  class Resampler {
    const config: Config
    const numSamples: nat
    /** A fixed-ratio context ignores the ratio it is given. */
    const fixed: bool
    const fixedRatio: real
    /** Round the position to a filter after every call. */
    const snap: bool
    const buffers: seq<array<real>>
    var inputIndex: nat
    var outputOffset: real
    /** Everything received since the last reset, after the initial silence. */
    ghost var stream: seq<Frame>

    ghost predicate Shape() {
      && config.Valid()
      && numSamples == config.design.numTaps * 16
      && |buffers| == config.channels
      && (forall ch :: 0 <= ch < |buffers| ==> buffers[ch].Length == numSamples)
      && (forall ch, ch' :: 0 <= ch < ch' < |buffers| ==> buffers[ch] != buffers[ch'])
      && (fixed ==> fixedRatio > 0.0)
      && (snap ==> fixed && !config.interpolate && Aligned(config, StepOf(fixedRatio)))
    }

    /** The buffers hold the end of the stream. */
    ghost predicate Buffered()
      reads this, buffers
    {
      && Shape()
      && config.design.numTaps <= inputIndex <= numSamples
      && inputIndex <= |stream| && AreFrames(config, stream)
      && forall ch, i :: 0 <= ch < config.channels && 0 <= i < inputIndex ==>
                           buffers[ch][i] == stream[|stream| - inputIndex + i][ch]
    }

    ghost predicate Valid()
      reads this, buffers
    {
      && Buffered() && outputOffset >= config.Half() as real
      && (snap ==> Aligned(config, outputOffset))
    }

    /** The state of the stream machine that this context represents. */
    ghost function Abstract(): State
      requires inputIndex <= |stream|
      reads this
    {
      State(stream, outputOffset + (|stream| - inputIndex) as real)
    }

    function EffectiveRatio(ratio: real): real {
      if fixed then fixedRatio else ratio
    }

    constructor (config: Config, fixed: bool, fixedRatio: real, snap: bool)
      requires config.Valid() && (fixed ==> fixedRatio > 0.0)
      requires snap ==> fixed && !config.interpolate && Aligned(config, StepOf(fixedRatio))
      ensures Valid() && fresh(buffers)
      ensures this.config == config && this.fixed == fixed && this.fixedRatio == fixedRatio && this.snap == snap
      ensures Abstract() == Initial(config)
    {
      AlignedWhole(config, config.Half());
      this.config, this.fixed, this.fixedRatio, this.snap := config, fixed, fixedRatio, snap;
      numSamples := config.design.numTaps * 16;
      var bs: seq<array<real>> := [];
      for i := 0 to config.channels
        invariant |bs| == i && fresh(bs)
        invariant forall ch :: 0 <= ch < i ==> bs[ch].Length == config.design.numTaps * 16
        invariant forall ch, j :: 0 <= ch < i && 0 <= j < config.design.numTaps * 16 ==> bs[ch][j] == 0.0
        invariant forall ch, ch' :: 0 <= ch < ch' < i ==> bs[ch] != bs[ch']
      {
        var b := new real[config.design.numTaps * 16](_ => 0.0);
        bs := bs + [b];
      }
      buffers := bs;
      inputIndex := config.design.numTaps;
      outputOffset := config.design.numTaps as real / 2.0;
      stream := Initial(config).stream;
    }

    /** Negative when the next output needs no further input. */
    function GetPosition(): (p: real)
      requires Valid()
      reads this, buffers
      ensures p == Position(config, Abstract())
    {
      outputOffset + config.design.numTaps as real / 2.0 - inputIndex as real
    }

    /** The samples around a buffer position are those around the same
        position of the stream. */
    lemma WindowMatches(at: int, ch: nat)
      requires Buffered() && ch < config.channels
      requires config.Half() <= at && at + config.Half() < inputIndex
      ensures BufferWindow(config, buffers[ch], at) == Window(config, stream, at + (|stream| - inputIndex), ch)
    {
      var v, w := BufferWindow(config, buffers[ch], at), Window(config, stream, at + (|stream| - inputIndex), ch);
      forall k | 0 <= k < |v| ensures v[k] == w[k] {
        assert v[k] == buffers[ch][WindowStart(config, at) + k];
      }
    }

    /** What the filter sees at a position of the stream is in the buffer. */
    lemma PositionMatches(offset: real, ch: nat, pos: real)
      requires Buffered() && ch < config.channels
      requires config.Half() as real <= offset < (inputIndex - config.Half()) as real
      requires pos == offset + (|stream| - inputIndex) as real
      ensures Covered(config, stream, pos) && Phase(config, pos) == Phase(config, offset)
      ensures Window(config, stream, pos.Floor, ch) == BufferWindow(config, buffers[ch], offset.Floor)
    {
      PhaseOfShift(config, offset, |stream| - inputIndex);
      WindowMatches(offset.Floor, ch);
    }

    /** What a sample of the stream is in terms of the buffer. */
    lemma SampleMatches(offset: real, ch: nat, pos: real)
      requires Buffered() && ch < config.channels
      requires config.Half() as real <= offset < (inputIndex - config.Half()) as real
      requires pos == offset + (|stream| - inputIndex) as real
      ensures Covered(config, stream, pos)
      ensures var w, x := BufferWindow(config, buffers[ch], offset.Floor), Phase(config, offset);
              SampleAt(config, stream, pos, ch)
              == if config.interpolate then SubsampleInterpolated(config.design, config.filters, w, x)
                 else SubsampleNearest(config.design, config.filters, w, x)
    {
      PositionMatches(offset, ch, pos);
      SampleOfWindow(config, stream, pos, ch, BufferWindow(config, buffers[ch], offset.Floor), Phase(config, offset));
    }

    /** One channel of the output at a buffer position. */
    method Subsample(ch: nat, offset: real) returns (x: real)
      requires Buffered() && ch < config.channels
      requires config.Half() as real <= offset < (inputIndex - config.Half()) as real
      ensures Covered(config, stream, offset + (|stream| - inputIndex) as real)
      ensures x == SampleAt(config, stream, offset + (|stream| - inputIndex) as real, ch)
    {
      SampleMatches(offset, ch, offset + (|stream| - inputIndex) as real);
      if config.interpolate {
        x := SubsampleInterpolate(config, buffers[ch], offset);
      } else {
        x := SubsampleNoInterpolate(config, buffers[ch], offset);
      }
    }

    /** The output frame at a buffer position. */
    method SubsampleFrame(offset: real) returns (f: Frame)
      requires Buffered()
      requires config.Half() as real <= offset < (inputIndex - config.Half()) as real
      ensures Covered(config, stream, offset + (|stream| - inputIndex) as real)
      ensures f == FrameAt(config, stream, offset + (|stream| - inputIndex) as real)
    {
      ghost var pos := offset + (|stream| - inputIndex) as real;
      f := [];
      for ch := 0 to config.channels
        invariant |f| == ch
        invariant forall k :: 0 <= k < ch ==> f[k] == SampleAt(config, stream, pos, k)
      {
        var x := Subsample(ch, offset);
        f := f + [x];
      }
    }

    /** Keep the last filter length of every full buffer, at its start. */
    method MoveHistory()
      requires Buffered() && inputIndex == numSamples
      modifies this, buffers
      ensures Buffered() && stream == old(stream)
      ensures inputIndex == config.design.numTaps
      ensures outputOffset == old(outputOffset) - (numSamples - config.design.numTaps) as real
    {
      var t := config.design.numTaps;
      for ch := 0 to config.channels
        invariant Shape() && stream == old(stream) && inputIndex == numSamples && outputOffset == old(outputOffset)
        invariant forall k, i :: 0 <= k < config.channels && 0 <= i < numSamples ==>
                                   buffers[k][i] == old(buffers[k][if k < ch && i < t then numSamples - t + i else i])
      {
        var b := buffers[ch];
        forall i | 0 <= i < t {
          b[i] := b[numSamples - t + i];
        }
      }
      outputOffset := outputOffset - (numSamples - t) as real;
      inputIndex := inputIndex - (numSamples - t);
    }

    /** Store one frame at the input index. */
    method Store(f: Frame)
      requires Buffered() && inputIndex < numSamples && config.IsFrame(f)
      modifies this, buffers
      ensures Buffered() && stream == old(stream) + [f]
      ensures inputIndex == old(inputIndex) + 1 && outputOffset == old(outputOffset)
    {
      for ch := 0 to config.channels
        invariant Shape() && stream == old(stream) && inputIndex == old(inputIndex) && outputOffset == old(outputOffset)
        invariant forall k, i :: 0 <= k < config.channels && 0 <= i < inputIndex ==> buffers[k][i] == old(buffers[k][i])
        invariant forall k :: 0 <= k < ch ==> buffers[k][inputIndex] == f[k]
      {
        buffers[ch][inputIndex] := f[ch];
      }
      stream := stream + [f];
      inputIndex := inputIndex + 1;
    }

    /** A run has reached a buffer position, having emitted these frames. */
    ghost predicate Reached(step: real, s0: State, out: seq<Frame>, offset: real)
      reads this, buffers
    {
      && Buffered() && offset >= config.Half() as real
      && offset + (|stream| - inputIndex) as real == After(s0.pos, step, |out|)
      && AllCovered(config, stream, s0.pos, step, |out|)
      && out == Frames(config, stream, s0.pos, step, |out|)
    }

    /** Take in one frame, moving the history first if the buffers are full.
        Every position keeps its place in the stream. */
    method Receive(f: Frame, ghost step: real, ghost s0: State, ghost out: seq<Frame>, ghost offset: real)
      requires config.IsFrame(f) && Reached(step, s0, out, offset)
      requires offset >= (inputIndex - config.Half()) as real
      modifies this, buffers
      ensures stream == old(stream) + [f]
      ensures outputOffset - old(outputOffset) == (inputIndex - old(inputIndex)) as real - 1.0
      ensures Reached(step, s0, out, offset + (outputOffset - old(outputOffset)))
    {
      FramesAreStable(config, stream, [f], s0.pos, step, |out|);
      if inputIndex == numSamples {
        MoveHistory();
      }
      Store(f);
    }

    /** Emit the frame at a buffer position. */
    method Emit(ghost step: real, ghost s0: State, ghost out: seq<Frame>, offset: real) returns (f: Frame)
      requires Reached(step, s0, out, offset) && step > 0.0
      requires offset < (inputIndex - config.Half()) as real
      ensures Reached(step, s0, out + [f], offset + step)
    {
      f := SubsampleFrame(offset);
      AfterLast(s0.pos, step, |out|);
    }

    /** What a run has read, and the position the automaton is at. */
    ghost predicate OnCourse(step: real, s0: State, input: seq<Frame>, space: nat, used: nat, made: nat, offset2: real)
      requires config.Valid()
      reads this
    {
      && used <= |input| && made <= space
      && stream == s0.stream + input[..used]
      && At(Position(config, s0), step, |input|, space, Counts(used, made),
            outputOffset + offset2 + config.Half() as real - inputIndex as real)
    }

    /** A run is under way: what it has read and emitted, and how far its
        outputs have advanced the position. */
    ghost predicate InRun(step: real, s0: State, input: seq<Frame>, space: nat, used: nat, out: seq<Frame>,
                          offset2: real)
      requires config.Valid()
      reads this, buffers
    {
      OnCourse(step, s0, input, space, used, |out|, offset2) && Reached(step, s0, out, outputOffset + offset2)
    }

    method ReadStep(ghost step: real, ghost s0: State, input: seq<Frame>, ghost space: nat, used: nat,
                    ghost out: seq<Frame>, ghost offset2: real)
      requires config.Valid() && AreFrames(config, input) && InRun(step, s0, input, space, used, out, offset2)
      requires |out| < space && used < |input| && outputOffset + offset2 >= (inputIndex - config.Half()) as real
      modifies this, buffers
      ensures InRun(step, s0, input, space, used + 1, out, offset2)
    {
      ghost var at := outputOffset + offset2;
      AtReads(Position(config, s0), step, |input|, space, Counts(used, |out|),
              at + config.Half() as real - inputIndex as real);
      Receive(input[used], step, s0, out, at);
      assert outputOffset + offset2 == at + (outputOffset - old(outputOffset));
    }

    lemma EmitKeepsCourse(step: real, s0: State, input: seq<Frame>, space: nat, used: nat, made: nat,
                          offset2: real, next: real)
      requires config.Valid() && OnCourse(step, s0, input, space, used, made, offset2)
      requires made < space && outputOffset + offset2 < (inputIndex - config.Half()) as real && next == offset2 + step
      ensures OnCourse(step, s0, input, space, used, made + 1, next)
    {
      AtAfterEmit(Position(config, s0), step, |input|, space, Counts(used, made),
                  outputOffset, offset2, next, config.Half() as real, inputIndex as real);
    }

    method EmitStep(ghost step: real, ghost s0: State, ghost input: seq<Frame>, ghost space: nat, ghost used: nat,
                    ghost out: seq<Frame>, offset2: real, ghost next: real) returns (f: Frame)
      requires config.Valid() && InRun(step, s0, input, space, used, out, offset2)
      requires step > 0.0 && next == offset2 + step
      requires |out| < space && outputOffset + offset2 < (inputIndex - config.Half()) as real
      ensures InRun(step, s0, input, space, used, out + [f], next)
    {
      f := Emit(step, s0, out, outputOffset + offset2);
      assert outputOffset + next == outputOffset + offset2 + step;
      EmitKeepsCourse(step, s0, input, space, used, |out|, offset2, next);
    }

    lemma RunStarts(step: real, input: seq<Frame>, space: nat)
      requires Valid()
      ensures InRun(step, Abstract(), input, space, 0, [], 0.0)
    {
    }

    lemma RunEnds(step: real, s0: State, input: seq<Frame>, space: nat, used: nat, out: seq<Frame>, offset2: real)
      requires config.Valid() && ValidState(config, s0) && step > 0.0 && AreFrames(config, input)
      requires InRun(step, s0, input, space, used, out, offset2)
      requires |out| == space || (used == |input| && outputOffset + offset2 >= (inputIndex - config.Half()) as real)
      ensures outputOffset + offset2 >= config.Half() as real
      ensures Outcome(State(stream, outputOffset + offset2 + (|stream| - inputIndex) as real), used, out)
              == Run(config, step, s0, input, space)
    {
      AtEnds(Position(config, s0), step, |input|, space, Counts(used, |out|),
             outputOffset + offset2 + config.Half() as real - inputIndex as real);
    }

    /** Run until the input is used up or the output space is full. */
    method Process(input: seq<Frame>, space: nat, ratio: real) returns (used: nat, out: seq<Frame>)
      requires Valid() && AreFrames(config, input) && EffectiveRatio(ratio) > 0.0
      modifies this, buffers
      ensures Valid()
      ensures Outcome(Abstract(), used, out) ==
              Run(config, StepOf(if fixed then fixedRatio else ratio), old(Abstract()), input, space)
    {
      var r := EffectiveRatio(ratio);
      ghost var step, s0 := StepOf(r), Abstract();
      var left, offset2 := space, 0.0;
      used, out := 0, [];
      if snap {
        AbstractIsAligned();
      }
      RunStarts(step, input, space);
      while left > 0
        invariant left + |out| == space
        invariant offset2 == After(0.0, step, |out|)
        invariant InRun(step, s0, input, space, used, out, offset2)
        decreases left + |input| - used
      {
        if outputOffset + offset2 >= (inputIndex - config.Half()) as real {
          if used == |input| {
            break;
          }
          ReadStep(step, s0, input, space, used, out, offset2);
          used := used + 1;
        } else {
          var next := NextOffset(|out|, offset2, r, step);
          var f := EmitStep(step, s0, input, space, used, out, offset2, next);
          out, offset2 := out + [f], next;
          left := left - 1;
        }
      }
      Finish(step, s0, input, space, used, out, offset2);
    }

    /** Take over the advance of the outputs, and round it to a filter if asked. */
    method Finish(ghost step: real, ghost s0: State, ghost input: seq<Frame>, ghost space: nat, ghost used: nat,
                  ghost out: seq<Frame>, offset2: real)
      requires config.Valid() && ValidState(config, s0) && step > 0.0 && AreFrames(config, input)
      requires InRun(step, s0, input, space, used, out, offset2)
      requires |out| == space || (used == |input| && outputOffset + offset2 >= (inputIndex - config.Half()) as real)
      requires snap ==> Aligned(config, s0.pos) && Aligned(config, step)
      modifies this`outputOffset
      ensures Valid() && Outcome(Abstract(), used, out) == Run(config, step, s0, input, space)
    {
      RunEnds(step, s0, input, space, used, out, offset2);
      outputOffset := outputOffset + offset2;
      if snap {
        EndsAligned(step, s0, input, space, used, out);
        outputOffset := Snap(config, outputOffset);
      }
    }

    /** A snapped run ends on a filter, so that rounding does not move it. */
    lemma EndsAligned(step: real, s0: State, input: seq<Frame>, space: nat, used: nat, out: seq<Frame>)
      requires Buffered() && ValidState(config, s0) && step > 0.0 && AreFrames(config, input)
      requires Outcome(Abstract(), used, out) == Run(config, step, s0, input, space)
      requires Aligned(config, s0.pos) && Aligned(config, step)
      ensures Aligned(config, outputOffset) && Snap(config, outputOffset) == outputOffset
    {
      RunStaysAligned(config, step, s0, input, space, 0);
      AlignedWhole(config, |stream| - inputIndex);
      AlignedSum(config, Abstract().pos, (|stream| - inputIndex) as real);
      SnapIsIdentity(config, outputOffset);
    }

    lemma AbstractIsAligned()
      requires Valid() && snap
      ensures Aligned(config, Abstract().pos)
    {
      AlignedWhole(config, |stream| - inputIndex);
      AlignedSum(config, outputOffset, (|stream| - inputIndex) as real);
    }

    /** Forget everything received. */
    method Reset()
      requires Valid()
      modifies this, buffers
      ensures Valid() && Abstract() == Initial(config)
    {
      for ch := 0 to config.channels
        invariant Shape()
        invariant forall k, i :: 0 <= k < ch && 0 <= i < numSamples ==> buffers[k][i] == 0.0
      {
        var b := buffers[ch];
        forall i | 0 <= i < numSamples {
          b[i] := 0.0;
        }
      }
      outputOffset := config.design.numTaps as real / 2.0;
      inputIndex := config.design.numTaps;
      stream := Initial(config).stream;
      AlignedWhole(config, config.Half());
    }

    /** The input that a number of outputs will need, without running. */
    method GetRequiredSamples(numOutputFrames: int, ratio: real) returns (inputUsed: nat)
      requires Valid() && EffectiveRatio(ratio) > 0.0
      ensures inputUsed == Needed(Position(config, Abstract()), StepOf(EffectiveRatio(ratio)),
                                  if numOutputFrames < 0 then 0 else numOutputFrames)
    {
      var step := InverseOf(EffectiveRatio(ratio));
      var index, offset, left := inputIndex, outputOffset, numOutputFrames;
      ghost var p := offset + config.Half() as real - index as real;
      ghost var total := Needed(p, step, if numOutputFrames < 0 then 0 else numOutputFrames);
      inputUsed := 0;
      while left > 0
        invariant p == offset + config.Half() as real - index as real && index <= numSamples
        invariant inputUsed + Needed(p, step, if left < 0 then 0 else left) == total
        decreases left, if p < 0.0 then 0 else p.Floor + 1
      {
        NeededStep(p, step, left);
        if offset >= (index - config.Half()) as real {
          if index == numSamples {
            offset := offset - (numSamples - config.design.numTaps) as real;
            index := index - (numSamples - config.design.numTaps);
          }
          index := index + 1;
          inputUsed := inputUsed + 1;
          p := p - 1.0;
        } else {
          offset := offset + step;
          left := left - 1;
          p := p + step;
        }
      }
    }

    /** The output that an amount of input will give, without running. A
        negative amount stands for a flush, which adds half a filter length. */
    method GetExpectedOutput(numInputFrames: int, ratio: real) returns (generated: nat)
      requires Valid() && EffectiveRatio(ratio) > 0.0
      ensures var p, step := Position(config, Abstract()), StepOf(EffectiveRatio(ratio));
              generated == if numInputFrames < 0 then Produced(p - config.Half() as real, step, 0)
                           else Produced(p, step, numInputFrames)
    {
      var step := InverseOf(EffectiveRatio(ratio));
      var index, offset, left := inputIndex, outputOffset, numInputFrames;
      if left < 0 {
        index, left := index + config.Half(), 0;
      }
      ghost var p := offset + config.Half() as real - index as real;
      ghost var total := Produced(p, step, left);
      generated := 0;
      while true
        invariant p == offset + config.Half() as real - index as real && left >= 0
        invariant left > 0 ==> index <= numSamples
        invariant generated + Produced(p, step, left) == total
        decreases left + Produced(p, step, left)
      {
        ProducedStep(p, step, left);
        if offset >= (index - config.Half()) as real {
          if left == 0 {
            break;
          }
          if index == numSamples {
            offset := offset - (numSamples - config.design.numTaps) as real;
            index := index - (numSamples - config.design.numTaps);
          }
          index := index + 1;
          left := left - 1;
          p := p - 1.0;
        } else {
          offset := offset + step;
          generated := generated + 1;
          p := p + step;
        }
      }
    }

    /** Move the output position forward; fractions only when interpolating. */
    method AdvancePosition(delta: real) returns (moved: bool)
      requires Valid()
      modifies this`outputOffset
      ensures Valid()
      ensures moved <==> delta >= 0.0 && (config.interpolate || IsInteger(delta))
      ensures Abstract() == old(Abstract()).(pos := old(Abstract()).pos + if moved then delta else 0.0)
    {
      moved := false;
      if delta >= 0.0 && (config.interpolate || delta.Floor as real == delta) {
        if snap {
          AlignedWhole(config, delta.Floor);
          AlignedSum(config, outputOffset, delta);
        }
        outputOffset := outputOffset + delta;
        moved := true;
      }
    }
  }

  /** The distance between outputs. */
  ghost function StepOf(ratio: real): (step: real)
    requires ratio > 0.0
    ensures step > 0.0
  {
    1.0 / ratio
  }

  method InverseOf(ratio: real) returns (step: real)
    requires ratio > 0.0
    ensures step == StepOf(ratio)
  {
    step := 1.0 / ratio;
  }

  /** How far k + 1 outputs advance the position: (k + 1) / ratio. */
  method NextOffset(k: nat, ghost before: real, ratio: real, ghost step: real) returns (offset: real)
    requires ratio > 0.0 && step == StepOf(ratio) && before == After(0.0, step, k)
    ensures offset == After(0.0, step, k + 1) && offset == before + step
  {
    offset := (k + 1) as real / ratio;
    AfterLast(0.0, step, k);
    AfterClosedForm(0.0, step, k + 1);
    DivideProduct((k + 1) as real * step, ratio, (k + 1) as real);
  }

  /** A context for arbitrary ratios, or none if the sizes are not allowed. */
  method ResampleInit(num: Numerics, channels: nat, numTaps: int, numFilters: int, lowpassRatio: real,
                      kind: WindowKind, interpolate: bool) returns (cxt: Resampler?, ghost first: seq<real>)
    requires num.Valid()
    requires var d := DesignOf(numTaps, numFilters, lowpassRatio, kind); d.Valid() ==> Normalisable(num, d)
    ensures cxt == null <==> !AreSizes(numTaps, numFilters)
    ensures cxt != null ==> fresh(cxt) && fresh(cxt.buffers) && cxt.Valid() && cxt.Abstract() == Initial(cxt.config)
    ensures cxt != null ==>
              && cxt.config.design == DesignOf(numTaps, numFilters, lowpassRatio, kind)
              && cxt.config.channels == channels && cxt.config.interpolate == interpolate
              && !cxt.fixed && IsBank(num, cxt.config.design, cxt.config.filters, first)
  {
    var d := DesignOf(numTaps, numFilters, lowpassRatio, kind);
    first := [];
    if !d.Valid() {
      return null, first;
    }
    var filters;
    filters, first := BuildBank(num, d);
    cxt := new Resampler(Config(d, filters, interpolate, channels), false, 0.0, false);
  }

  /** The low-pass is on for a cutoff strictly between 0 and 1. */
  function DesignOf(numTaps: int, numFilters: int, lowpassRatio: real, kind: WindowKind): Design {
    var lowpass := 0.0 < lowpassRatio < 1.0;
    Design(if numTaps < 0 then 0 else numTaps, if numFilters < 0 then 0 else numFilters,
           lowpass, if lowpass then lowpassRatio else 1.0, kind)
  }

  /** From 4 to 1024 taps, in fours, and from 1 to 1024 filters. */
  predicate AreSizes(numTaps: int, numFilters: int) {
    4 <= numTaps <= 1024 && numTaps % 4 == 0 && 1 <= numFilters <= 1024
  }

  /** The sizes decide whether there is a design, and the low-pass is on for a cutoff
      strictly between 0 and 1. */
  lemma DesignOfParameters(numTaps: int, numFilters: int, lowpassRatio: real, kind: WindowKind)
    ensures var d := DesignOf(numTaps, numFilters, lowpassRatio, kind);
      && (d.Valid() <==> AreSizes(numTaps, numFilters))
      && (d.lowpass <==> 0.0 < lowpassRatio < 1.0)
      && d.lowpassRatio == (if 0.0 < lowpassRatio < 1.0 then lowpassRatio else 1.0)
      && d.window == kind && (d.Valid() ==> d.numTaps == numTaps && d.numFilters == numFilters)
  {
  }

  /** A context for one conversion. With the filter count reduced, every output
      it will ever take falls on a filter. */
  method ResampleFixedRatioInit(num: Numerics, channels: nat, numTaps: int, maxFilters: int, sourceRate: real,
                                destinRate: real, lowpassFreq: int, includeLowpass: bool, kind: WindowKind,
                                interpolate: bool, noReduction: bool)
    returns (cxt: Resampler?, ghost first: seq<real>, ghost plan: Plan)
    requires num.Valid() && 0.0 < sourceRate < 4294967296.0 && 0.0 < destinRate < 4294967296.0
    requires var cutoff := SourceCutoff(numTaps, sourceRate, destinRate, lowpassFreq, includeLowpass);
             forall n: int :: DesignOf(numTaps, n, cutoff, kind).Valid() ==>
                                Normalisable(num, DesignOf(numTaps, n, cutoff, kind))
    ensures cxt == null <==>
              lowpassFreq as real > destinRate / 2.0 || !AreSizes(numTaps, plan.numFilters)
    ensures cxt != null ==> fresh(cxt) && fresh(cxt.buffers) && cxt.Valid() && cxt.Abstract() == Initial(cxt.config)
    ensures var cutoff := SourceCutoff(numTaps, sourceRate, destinRate, lowpassFreq, includeLowpass);
            cxt != null ==>
              && cxt.config.design == DesignOf(numTaps, plan.numFilters, cutoff, kind)
              && cxt.fixed && cxt.fixedRatio == destinRate / sourceRate && cxt.fixedRatio > 0.0
              && cxt.config.interpolate == plan.interpolate && cxt.snap == plan.snap
              && IsBank(num, cxt.config.design, cxt.config.filters, first)
    ensures cxt != null && plan.reduced ==>
              && Aligned(cxt.config, cxt.Abstract().pos) && Aligned(cxt.config, StepOf(cxt.fixedRatio))
  {
    first := [];
    var p := PlanFixedRatio(sourceRate, destinRate, maxFilters, interpolate, noReduction);
    plan := p;
    if lowpassFreq as real > destinRate / 2.0 {
      return null, first, plan;
    }
    var lowpassRatio := SourceCutoff(numTaps, sourceRate, destinRate, lowpassFreq, includeLowpass);
    var d := DesignOf(numTaps, p.numFilters, lowpassRatio, kind);
    if !d.Valid() {
      return null, first, plan;
    }
    RatioIsPositive(destinRate, sourceRate);
    var filters;
    filters, first := BuildBank(num, d);
    var config := Config(d, filters, p.interpolate, channels);
    AlignedWhole(config, config.Half());
    if p.reduced {
      ReducedStepIsAligned(config, sourceRate, destinRate);
    }
    cxt := new Resampler(config, true, destinRate / sourceRate, p.snap);
  }

  lemma RatioIsPositive(a: real, b: real)
    requires a > 0.0 && b > 0.0
    ensures a / b > 0.0
  {
  }

  lemma ReducedStepIsAligned(c: Config, sourceRate: real, destinRate: real)
    requires sourceRate > 0.0 && destinRate > 0.0 && IsInteger(sourceRate) && IsInteger(destinRate)
    requires IsAlignedCount(sourceRate.Floor, destinRate.Floor, c.design.numFilters)
    ensures destinRate / sourceRate > 0.0 && Aligned(c, StepOf(destinRate / sourceRate))
  {
    RatioIsPositive(destinRate, sourceRate);
    InverseOfQuotient(destinRate, sourceRate);
    AlignedStep(c, sourceRate.Floor, destinRate.Floor);
    assert StepOf(destinRate / sourceRate) == Step(sourceRate.Floor, destinRate.Floor);
  }

  /** Every sample that a conversion between integer rates emits, with the reduced
      filter count, is the plain convolution with one filter. */
  lemma ReducedConversionIsConvolution(num: Numerics, c: Config, first: seq<real>, sourceRate: real, destinRate: real,
                                       step: real, calls: seq<Call>, k: nat, at: real, ch: nat)
    requires num.Valid() && c.Valid() && Normalisable(num, c.design) && IsBank(num, c.design, c.filters, first)
    requires c.design.lowpass || StartsWithImpulse(num, c.design)
    requires sourceRate > 0.0 && destinRate > 0.0 && IsInteger(sourceRate) && IsInteger(destinRate)
    requires IsAlignedCount(sourceRate.Floor, destinRate.Floor, c.design.numFilters)
    requires destinRate / sourceRate > 0.0 && step == StepOf(destinRate / sourceRate) && ch < c.channels
    requires forall i :: 0 <= i < |calls| ==> AreFrames(c, calls[i].input)
    requires k < |Conversion(c, step, calls).out| && at == c.Half() as real + k as real * step
    ensures IsSampleAt(c, Seen(c, calls), at, Conversion(c, step, calls).out[k])
    ensures Conversion(c, step, calls).out[k][ch]
            == Dot(c.filters[NearestFilter(c.design, Phase(c, at))], Window(c, Seen(c, calls), at.Floor, ch))
  {
    ReducedStepIsAligned(c, sourceRate, destinRate);
    AlignedConversionIsConvolution(num, c, first, step, calls, k, at, ch);
  }

  lemma AlignedStep(c: Config, source: nat, destin: nat)
    requires destin > 0 && IsAlignedCount(source, destin, c.design.numFilters)
    ensures Aligned(c, Step(source, destin))
  {
    StepIsWholeFilters(source, destin, c.design.numFilters);
    var x := Step(source, destin) * c.design.numFilters as real;
    assert Filters(c, Step(source, destin)) == x;
  }

  lemma InverseOfQuotient(a: real, b: real)
    requires a > 0.0 && b > 0.0 && a / b > 0.0
    ensures 1.0 / (a / b) == b / a
  {
    var p, q := b / a, a / b;
    assert q * b == a && p * a == b;
    Reassociate(p, q, b);
    CancelFactor(p * q, 1.0, b);
    DivideProduct(p, q, 1.0);
  }

  lemma Reassociate(p: real, q: real, b: real)
    ensures p * (q * b) == (p * q) * b
  {
  }
}
