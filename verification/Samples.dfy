/** What the samples that a conversion emits are made of: which samples of the
    stream, with which taps, and for which moment. */
module Samples {
  import opened Convolution
  import opened FilterBank
  import opened Bank
  import opened Automaton
  import opened Stream
  import opened WindowedSinc

  /* ---------- Whole positions ---------- */

  lemma WholePhase(c: Config, n: nat)
    requires c.Valid()
    ensures (n as real).Floor == n && Phase(c, n as real) == 0.0 && NearestFilter(c.design, Phase(c, n as real)) == 0
  {
    FloorIs(n as real, n);
    assert InFilters(0.0, c.design.numFilters) == 0.0;
    FloorIs(0.0 + 0.5, 0);
  }

  /** Without low-pass and interpolation, the frame at a whole position is the
      frame of the stream there. */
  lemma WholePositionIsFrame(c: Config, stream: seq<Frame>, n: nat)
    requires c.Valid() && AreFrames(c, stream) && Covered(c, stream, n as real)
    requires !c.design.lowpass && !c.interpolate
    ensures n < |stream| && FrameAt(c, stream, n as real) == stream[n]
  {
    var f := FrameAt(c, stream, n as real);
    assert c.IsFrame(stream[n]);
    forall ch | 0 <= ch < c.channels ensures f[ch] == stream[n][ch] {
      WholeSample(c, stream, n, ch);
    }
  }

  lemma WholeSample(c: Config, stream: seq<Frame>, n: nat, ch: nat)
    requires c.Valid() && AreFrames(c, stream) && Covered(c, stream, n as real) && ch < c.channels
    requires !c.design.lowpass && !c.interpolate && n < |stream| && c.IsFrame(stream[n])
    ensures SampleAt(c, stream, n as real, ch) == stream[n][ch]
  {
    WholePhase(c, n);
  }

  /** At the ratio 1, a conversion returns half a filter of silence and then its
      input, sample by sample, however the calls are cut. */
  lemma UnitConversionReturnsInput(c: Config, calls: seq<Call>, k: nat)
    requires c.Valid() && !c.design.lowpass && !c.interpolate
    requires forall i :: 0 <= i < |calls| ==> AreFrames(c, calls[i].input)
    requires k < |Conversion(c, 1.0, calls).out|
    ensures k >= c.Half() ==> k - c.Half() < |AllInput(calls)|
    ensures Conversion(c, 1.0, calls).out[k]
            == if k < c.Half() then seq(c.channels, _ => 0.0) else AllInput(calls)[k - c.Half()]
  {
    var n := c.Half() + k;
    ConversionIsStreamSample(c, 1.0, calls, k, n as real);
    WholePositionIsFrame(c, Seen(c, calls), n);
    SeenAt(c, calls, n);
  }

  lemma SeenAt(c: Config, calls: seq<Call>, n: nat)
    requires c.Valid() && n < |Seen(c, calls)|
    ensures Seen(c, calls)[n] == if n < c.design.numTaps then seq(c.channels, _ => 0.0)
                                 else AllInput(calls)[n - c.design.numTaps]
  {
  }

  /* ---------- Impulses ---------- */

  /** One channel of the stream is silent but for a unit impulse at sample n. */
  ghost predicate ImpulseAt(c: Config, stream: seq<Frame>, ch: nat, n: int)
    requires AreFrames(c, stream) && ch < c.channels
  {
    forall k :: 0 <= k < |stream| ==> stream[k][ch] == if k == n then 1.0 else 0.0
  }

  /** Tap j of a filter, and nothing outside it. */
  function TapOf(c: Config, fi: nat, j: int): real
    requires c.Valid() && fi <= c.design.numFilters
  {
    if 0 <= j < c.design.numTaps then c.filters[fi][j] else 0.0
  }

  lemma DotWithImpulse(a: seq<real>, b: seq<real>, m: int)
    requires |a| == |b| && forall k :: 0 <= k < |b| ==> b[k] == if k == m then 1.0 else 0.0
    ensures Dot(a, b) == if 0 <= m < |a| then a[m] else 0.0
  {
    var p := Products(a, b);
    if 0 <= m < |a| {
      SumSingle(p, m);
    } else {
      SumZero(p, 0, |p|);
    }
  }

  /** A filter responds to an impulse at sample n, seen from sample `at`, with the
      tap that lies on it: tap numTaps / 2 - 1 when the two are the same sample,
      and a later one for a later impulse. */
  lemma FilterRespondsWithTap(c: Config, stream: seq<Frame>, at: int, ch: nat, n: int, fi: nat)
    requires c.Valid() && AreFrames(c, stream) && ch < c.channels && fi <= c.design.numFilters
    requires c.Half() <= at && at + c.Half() < |stream| && ImpulseAt(c, stream, ch, n)
    ensures Dot(c.filters[fi], Window(c, stream, at, ch)) == TapOf(c, fi, n - at + c.design.numTaps / 2 - 1)
  {
    var w := Window(c, stream, at, ch);
    var m := n - at + c.design.numTaps / 2 - 1;
    forall k | 0 <= k < |w| ensures w[k] == if k == m then 1.0 else 0.0 {
      assert w[k] == stream[at - c.Half() + 1 + k][ch];
    }
    DotWithImpulse(c.filters[fi], w, m);
  }

  /** Without interpolation, the response is a tap of the filter nearest to the
      position; where samples are read off directly, it is the impulse itself. */
  lemma NearestResponse(c: Config, stream: seq<Frame>, pos: real, ch: nat, n: int)
    requires c.Valid() && AreFrames(c, stream) && ch < c.channels && Covered(c, stream, pos) && !c.interpolate
    requires ImpulseAt(c, stream, ch, n)
    ensures var fi := NearestFilter(c.design, Phase(c, pos));
      SampleAt(c, stream, pos, ch) ==
      if c.design.lowpass || 0 < fi < c.design.numFilters
      then TapOf(c, fi, n - pos.Floor + c.design.numTaps / 2 - 1)
      else if n == (if fi == 0 then pos.Floor else pos.Floor + 1) then 1.0 else 0.0
  {
    var fi := NearestFilter(c.design, Phase(c, pos));
    FilterRespondsWithTap(c, stream, pos.Floor, ch, n, fi);
  }

  lemma InterpolatedIsLerp(c: Config, stream: seq<Frame>, pos: real, ch: nat)
    requires c.Valid() && AreFrames(c, stream) && ch < c.channels && Covered(c, stream, pos) && c.interpolate
    ensures var x, w := Phase(c, pos), Window(c, stream, pos.Floor, ch);
      0 <= x.Floor < c.design.numFilters
      && SampleAt(c, stream, pos, ch)
         == Lerp(Dot(c.filters[x.Floor], w), Dot(c.filters[x.Floor + 1], w), x - x.Floor as real)
  {
  }

  /** With interpolation, it lies between the taps of the two filters around the
      position, in proportion. */
  lemma InterpolatedResponse(c: Config, stream: seq<Frame>, pos: real, ch: nat, n: int, fi: nat, j: int)
    requires c.Valid() && AreFrames(c, stream) && ch < c.channels && Covered(c, stream, pos) && c.interpolate
    requires ImpulseAt(c, stream, ch, n)
    requires fi == Phase(c, pos).Floor && j == n - pos.Floor + c.design.numTaps / 2 - 1
    ensures fi < c.design.numFilters
    ensures SampleAt(c, stream, pos, ch) == Lerp(TapOf(c, fi, j), TapOf(c, fi + 1, j), Phase(c, pos) - fi as real)
  {
    InterpolatedIsLerp(c, stream, pos, ch);
    FilterRespondsWithTap(c, stream, pos.Floor, ch, n, fi);
    FilterRespondsWithTap(c, stream, pos.Floor, ch, n, fi + 1);
  }

  /** A filter stands for a delay: the position that filter fi of the sample at the
      floor of pos belongs to. */
  function FilterPosition(c: Config, pos: real, fi: int): real
    requires c.Valid()
  {
    pos.Floor as real + fi as real / c.design.numFilters as real
  }

  lemma InOrder(a: real, b: real, n: real)
    requires n > 0.0
    ensures a <= b <==> a / n <= b / n
  {
    assert a / n * n == a && b / n * n == b;
    var d := b / n - a / n;
    assert d * n == b - a;
    assert d >= 0.0 ==> d * n >= 0.0;
    assert d < 0.0 ==> d * n < 0.0;
  }

  lemma QuotientOfSum(x: real, d: real, n: real)
    requires n > 0.0
    ensures (x + d) / n == x / n + d / n
  {
    assert x / n * n == x && d / n * n == d;
    assert (x / n + d / n) * n == x + d;
    DivideProduct(x / n + d / n, n, x + d);
  }

  lemma PhaseOverFilters(c: Config, pos: real)
    requires c.Valid()
    ensures pos.Floor as real + Phase(c, pos) / c.design.numFilters as real == pos
  {
    PhaseOverCount(pos - pos.Floor as real, c.design.numFilters);
  }

  /** The nearest filter is nearest: it is off the position by at most half of what
      two filters are apart. */
  lemma NearestIsNearest(c: Config, pos: real)
    requires c.Valid()
    ensures var off := FilterPosition(c, pos, NearestFilter(c.design, Phase(c, pos))) - pos;
      -0.5 / c.design.numFilters as real <= off <= 0.5 / c.design.numFilters as real
  {
    var n, x := c.design.numFilters as real, Phase(c, pos);
    var fi := NearestFilter(c.design, x) as real;
    PhaseOverFilters(c, pos);
    InOrder(fi, x + 0.5, n);
    InOrder(x + -0.5, fi, n);
    QuotientOfSum(x, 0.5, n);
    QuotientOfSum(x, -0.5, n);
  }

  /** The two filters that are interpolated between are around the position. */
  lemma FiltersAreAround(c: Config, pos: real)
    requires c.Valid()
    ensures var fi := Phase(c, pos).Floor; FilterPosition(c, pos, fi) <= pos < FilterPosition(c, pos, fi + 1)
  {
    var n, x := c.design.numFilters as real, Phase(c, pos);
    PhaseOverFilters(c, pos);
    InOrder(x.Floor as real, x, n);
    InOrder((x.Floor + 1) as real, x, n);
  }

  /* ---------- What an impulse sounds like ---------- */

  /** The distance in samples between a filter's position and sample n. */
  function DistanceTo(c: Config, pos: real, fi: int, n: int): real
    requires c.Valid()
  {
    Abs(FilterPosition(c, pos, fi) - n as real)
  }

  lemma TapIsAtDistance(c: Config, pos: real, fi: nat, n: int, j: nat)
    requires c.Valid() && fi <= c.design.numFilters && j == n - pos.Floor + c.design.numTaps / 2 - 1
    ensures TapDistance(c.design, fi, j) == DistanceTo(c, pos, fi, n)
  {
  }

  lemma NormalisedTap(raw: seq<real>, j: nat)
    requires Sum(raw) != 0.0 && j < |raw|
    ensures Normalised(raw)[j] * Sum(raw) == raw[j]
  {
    var z := Sum(raw);
    Cancel(raw[j], Inverse(z), z);
  }

  lemma Cancel(x: real, y: real, z: real)
    requires z * y == 1.0
    ensures x * y * z == x
  {
    assert x * y * z == x * (z * y);
  }

  /** Tap j of a filter as it was designed, normalised, and nothing outside it. */
  ghost function IdealTap(num: Numerics, d: Design, fi: nat, j: int): real
    requires d.Valid() && Normalisable(num, d) && fi < d.numFilters
  {
    if 0 <= j < d.numTaps then IdealBank(num, d)[fi][j] else 0.0
  }

  lemma StoredTap(num: Numerics, c: Config, first: seq<real>, fi: nat, j: int)
    requires c.Valid() && Normalisable(num, c.design) && IsBank(num, c.design, c.filters, first)
    requires (forall x :: num.round(x) == x) && 0 < fi < c.design.numFilters
    ensures TapOf(c, fi, j) == IdealTap(num, c.design, fi, j)
  {
    var ideal := IdealBank(num, c.design)[fi];
    assert Diffused(num, c.filters[fi], ideal);
    assert c.filters[fi] == ideal;
  }

  /** Stored exactly, the response to an impulse is a tap as it was designed. */
  lemma ResponseIsIdealTap(num: Numerics, c: Config, first: seq<real>, stream: seq<Frame>, pos: real, ch: nat,
                           n: int, fi: nat, j: int)
    requires c.Valid() && Normalisable(num, c.design) && IsBank(num, c.design, c.filters, first)
    requires forall x :: num.round(x) == x
    requires AreFrames(c, stream) && ch < c.channels && Covered(c, stream, pos) && !c.interpolate
    requires ImpulseAt(c, stream, ch, n)
    requires fi == NearestFilter(c.design, Phase(c, pos)) && 0 < fi < c.design.numFilters
    requires j == n - pos.Floor + c.design.numTaps / 2 - 1
    ensures SampleAt(c, stream, pos, ch) == IdealTap(num, c.design, fi, j)
  {
    NearestResponse(c, stream, pos, ch, n);
    StoredTap(num, c, first, fi, j);
  }

  lemma IdealTapIsNormalised(num: Numerics, d: Design, fi: nat, j: nat)
    requires d.Valid() && Normalisable(num, d) && fi < d.numFilters && j < d.numTaps
    ensures IdealTap(num, d, fi, j) * Sum(RawTaps(num, d, fi)) == num.tap(d, fi, j)
  {
    NormalisedTap(RawTaps(num, d, fi), j);
  }

  /** Before normalisation, that is the windowed sinc at the distance between the
      impulse, at sample n, and the position that the filter stands for. */
  lemma TapIsWindowedSinc(tr: Trig, num: Numerics, c: Config, pos: real, n: int, fi: nat, j: nat)
    requires c.Valid() && num == SincNumerics(tr, num.round, num.eps)
    requires fi < c.design.numFilters && j < c.design.numTaps && j == n - pos.Floor + c.design.numTaps / 2 - 1
    ensures num.tap(c.design, fi, j) == ValueAt(tr, c.design, tr.Radians(DistanceTo(c, pos, fi, n)))
  {
    TapIsAtDistance(c, pos, fi, n, j);
    assert num.tap(c.design, fi, j) == TapValue(tr, c.design, fi, j);
  }
}
