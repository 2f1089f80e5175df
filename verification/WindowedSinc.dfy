/** The tap values the resampler designs: a windowed sinc, with the
    trigonometric functions as parameters. */
module WindowedSinc {
  import opened Convolution
  import opened FilterBank
  import opened Bank

  datatype Trig = Trig(pi: real, sin: real -> real, cos: real -> real)
  {
    ghost predicate SineVanishes(k: int) {
      k != 0 ==> sin(Radians(k as real)) == 0.0
    }

    /** The angle that x samples of distance span. */
    function Radians(x: real): real {
      x * pi
    }

    /** Sine vanishes at the integer multiples of pi. */
    ghost predicate Valid() {
      pi > 0.0 && forall k: int :: SineVanishes(k)
    }
  }

  function Abs(x: real): real {
    if x < 0.0 then -x else x
  }

  function WindowValue(tr: Trig, w: WindowKind, ratio: real): real {
    match w
    case BlackmanHarris =>
      0.35875 + 0.48829 * tr.cos(ratio) + 0.14128 * tr.cos(2.0 * ratio) + 0.01168 * tr.cos(3.0 * ratio)
    case Hann => 0.5 * (1.0 + tr.cos(ratio))
  }

  /** The distance in samples from the sinc maximum of filter i to its tap j. */
  function TapDistance(d: Design, i: nat, j: nat): real
    requires d.numFilters > 0
  {
    Abs((d.numTaps / 2 - 1) as real + i as real / d.numFilters as real - j as real)
  }

  function Windowed(sine: real, x: real, w: real): real
    requires x != 0.0
  {
    sine / x * w
  }

  /** A distance, of which the window's edge is at half the filter length. */
  function InHalfLengths(dist: real, numTaps: nat): real
    requires numTaps > 0
  {
    dist / (numTaps as real / 2.0)
  }

  /** The angle at a distance, for a low-pass at a part of the bandwidth. */
  function Slowed(dist: real, ratio: real): real {
    dist * ratio
  }

  /** The windowed sinc at a distance from its maximum, in radians. */
  function ValueAt(tr: Trig, d: Design, dist: real): real
    requires d.numTaps > 0 && d.lowpassRatio > 0.0
  {
    if dist != 0.0 then
      NonZero(dist, d.lowpassRatio);
      Windowed(tr.sin(Slowed(dist, d.lowpassRatio)), Slowed(dist, d.lowpassRatio),
               WindowValue(tr, d.window, InHalfLengths(dist, d.numTaps)))
    else
      1.0
  }

  lemma NonZero(x: real, y: real)
    requires x != 0.0 && y != 0.0
    ensures x * y != 0.0
  {
  }

  /** The sine over the angle, through the window. */
  lemma WindowedIsQuotient(sine: real, x: real, w: real)
    requires x != 0.0
    ensures Windowed(sine, x, w) * x == sine * w
  {
    var q := sine / x;
    assert q * x == sine;
    assert q * w * x == q * x * w;
  }

  lemma ZeroScaled(x: real, w: real)
    requires x != 0.0
    ensures Windowed(0.0, x, w) == 0.0
  {
  }

  function TapValue(tr: Trig, d: Design, i: nat, j: nat): real
    requires d.Valid()
  {
    ValueAt(tr, d, tr.Radians(TapDistance(d, i, j)))
  }

  /** The resampler's numerics for given trigonometric functions and rounding. */
  function SincNumerics(tr: Trig, round: real -> real, eps: real): Numerics {
    Numerics((d: Design, i: nat, j: nat) => if d.Valid() then TapValue(tr, d, i, j) else 0.0, round, eps)
  }

  lemma DistanceAtInteger(d: Design, j: nat) returns (k: int)
    requires d.Valid() && j < d.numTaps
    ensures TapDistance(d, 0, j) == k as real && (k == 0 <==> j == d.numTaps / 2 - 1)
  {
    assert 0 as real / d.numFilters as real == 0.0;
    k := if j < d.numTaps / 2 then d.numTaps / 2 - 1 - j else j - (d.numTaps / 2 - 1);
  }

  lemma ValueAtZeroOfSine(tr: Trig, d: Design, dist: real)
    requires d.numTaps > 0 && d.lowpassRatio == 1.0
    requires dist != 0.0 && tr.sin(dist) == 0.0
    ensures ValueAt(tr, d, dist) == 0.0
  {
    var x := Slowed(dist, d.lowpassRatio);
    assert x == dist;
    ZeroScaled(x, WindowValue(tr, d.window, InHalfLengths(dist, d.numTaps)));
  }

  lemma TapAtInteger(tr: Trig, d: Design, j: nat)
    requires tr.Valid() && d.Valid() && !d.lowpass && j < d.numTaps
    ensures TapValue(tr, d, 0, j) == if j == d.numTaps / 2 - 1 then 1.0 else 0.0
  {
    var k := DistanceAtInteger(d, j);
    var dist := tr.Radians(k as real);
    assert tr.SineVanishes(k);
    if k == 0 {
      assert dist == 0.0;
    } else {
      NonZero(k as real, tr.pi);
      ValueAtZeroOfSine(tr, d, dist);
    }
  }

  /** Without a low-pass, the taps of filter 0 vanish except for the middle one. */
  lemma FirstFilterStartsWithImpulse(tr: Trig, round: real -> real, eps: real, d: Design)
    requires tr.Valid() && d.Valid() && !d.lowpass
    requires round(0.0) == 0.0 && round(1.0) == 1.0
    ensures StartsWithImpulse(SincNumerics(tr, round, eps), d)
  {
    var raw := RawTaps(SincNumerics(tr, round, eps), d, 0);
    forall j | 0 <= j < d.numTaps ensures raw[j] == if j == d.numTaps / 2 - 1 then 1.0 else 0.0 {
      TapAtInteger(tr, d, j);
    }
  }

  /* ---------- From filter to filter ---------- */

  /** The peak of filter i lies i / numFilters past tap numTaps / 2 - 1: on either
      side of it the distances grow by one from tap to tap. */
  lemma PeakIsBetweenTaps(d: Design, i: nat, j: nat)
    requires d.Valid() && i <= d.numFilters && j < d.numTaps
    ensures var peak, off := d.numTaps / 2 - 1, i as real / d.numFilters as real;
      && 0.0 <= off <= 1.0
      && TapDistance(d, i, j) == if j <= peak then off + (peak - j) as real else (1.0 - off) + (j - peak - 1) as real
  {
    Fraction(i, d.numFilters);
  }

  lemma Fraction(i: nat, n: nat)
    requires n > 0 && i <= n
    ensures 0.0 <= i as real / n as real <= 1.0 && (i == n ==> i as real / n as real == 1.0)
  {
    var q := i as real / n as real;
    assert q * n as real == i as real;
  }

  /** The taps continue from filter to filter: those of a filter one past the last
      would be those of filter 0, one tap on. */
  lemma TapsContinue(tr: Trig, d: Design, j: nat)
    requires d.Valid()
    ensures TapDistance(d, d.numFilters, j + 1) == TapDistance(d, 0, j)
    ensures TapValue(tr, d, d.numFilters, j + 1) == TapValue(tr, d, 0, j)
  {
    Fraction(d.numFilters, d.numFilters);
    assert 0 as real / d.numFilters as real == 0.0;
  }

  /** Both windows are one at the peak, and what they leave at the edge. */
  lemma WindowAtPeakAndEdge(tr: Trig, w: WindowKind)
    requires CosinesAtEdge(tr) && tr.cos(0.0) == 1.0
    ensures WindowValue(tr, w, 0.0) == 1.0
    ensures WindowValue(tr, w, tr.pi) == if w == Hann then 0.0 else 0.00006
  {
    assert 2.0 * 0.0 == 0.0 && 3.0 * 0.0 == 0.0;
  }

  /* ---------- The outermost tap of the first filter ---------- */

  /** The cosines that the windows take at their edge. */
  ghost predicate CosinesAtEdge(tr: Trig) {
    tr.cos(tr.pi) == -1.0 && tr.cos(2.0 * tr.pi) == 1.0 && tr.cos(3.0 * tr.pi) == -1.0
  }

  /** The Hann window vanishes at its edge, the Blackman-Harris window does not. */
  lemma WindowAtEdge(tr: Trig, w: WindowKind)
    requires CosinesAtEdge(tr)
    ensures WindowValue(tr, w, tr.pi) == 0.0 <==> w == Hann
  {
  }

  /** The angle of the low-passed sinc at its edge. */
  function EdgeAngle(tr: Trig, d: Design): real {
    Slowed(tr.Radians((d.numTaps / 2) as real), d.lowpassRatio)
  }

  lemma EdgeDistance(d: Design)
    requires d.Valid()
    ensures TapDistance(d, 0, d.numTaps - 1) == (d.numTaps / 2) as real
  {
    assert 0 as real / d.numFilters as real == 0.0;
  }

  lemma RatioAtEdge(tr: Trig, n: nat)
    requires n > 0
    ensures InHalfLengths(tr.Radians(n as real), 2 * n) == tr.pi
  {
    assert (2 * n) as real / 2.0 == n as real;
    assert n as real * tr.pi / n as real == tr.pi;
  }

  lemma QuotientIsZero(x: real, y: real, w: real)
    requires y != 0.0
    ensures Windowed(x, y, w) == 0.0 <==> x == 0.0 || w == 0.0
  {
    var q := x / y;
    assert q * y == x;
    if q != 0.0 {
      NonZero(q, y);
      if w != 0.0 {
        NonZero(q, w);
      }
    }
  }

  lemma ValueAtEdge(tr: Trig, d: Design, dist: real)
    requires CosinesAtEdge(tr) && d.numTaps > 0 && d.lowpassRatio > 0.0 && dist != 0.0
    requires InHalfLengths(dist, d.numTaps) == tr.pi
    ensures ValueAt(tr, d, dist) == 0.0 <==> d.window == Hann || tr.sin(Slowed(dist, d.lowpassRatio)) == 0.0
  {
    var x := Slowed(dist, d.lowpassRatio);
    NonZero(dist, d.lowpassRatio);
    QuotientIsZero(tr.sin(x), x, WindowValue(tr, d.window, tr.pi));
    WindowAtEdge(tr, d.window);
  }

  lemma EdgeTap(tr: Trig, d: Design)
    requires tr.Valid() && CosinesAtEdge(tr) && d.Valid()
    ensures TapValue(tr, d, 0, d.numTaps - 1) == 0.0 <==> d.window == Hann || tr.sin(EdgeAngle(tr, d)) == 0.0
  {
    var n := d.numTaps / 2;
    assert d.numTaps == 2 * n;
    EdgeDistance(d);
    NonZero(n as real, tr.pi);
    RatioAtEdge(tr, n);
    ValueAtEdge(tr, d, tr.Radians(n as real));
  }

  /** With exact rounding, the edge filters of a windowed sinc have unity gain
      exactly if the window is Hann's, or the sinc vanishes at its edge. */
  lemma SincEdgeGainIsUnity(tr: Trig, round: real -> real, eps: real, d: Design, filters: seq<seq<real>>,
                            first: seq<real>, i: nat)
    requires tr.Valid() && CosinesAtEdge(tr) && eps >= 0.0 && forall x :: round(x) == x
    requires d.Valid() && Normalisable(SincNumerics(tr, round, eps), d)
    requires IsBank(SincNumerics(tr, round, eps), d, filters, first)
    requires i == 0 || i == d.numFilters
    ensures Sum(filters[i]) == 1.0 <==> d.window == Hann || tr.sin(EdgeAngle(tr, d)) == 0.0
  {
    var num := SincNumerics(tr, round, eps);
    assert num.Valid();
    EdgeGainIsUnity(num, d, filters, first, i);
    EdgeTap(tr, d);
  }

  /** A design that misses it: four taps, one filter, a Blackman-Harris window and a
      low-pass at a quarter. */
  lemma QuarterLowpassMissesUnity(tr: Trig, round: real -> real, eps: real, filters: seq<seq<real>>,
                                  first: seq<real>, i: nat)
    requires tr.Valid() && CosinesAtEdge(tr) && tr.sin(tr.pi / 2.0) == 1.0
    requires eps >= 0.0 && forall x :: round(x) == x
    requires var d := Design(4, 1, true, 0.25, BlackmanHarris); var num := SincNumerics(tr, round, eps);
             Normalisable(num, d) && IsBank(num, d, filters, first)
    requires i <= 1
    ensures Sum(filters[i]) != 1.0
  {
    var d := Design(4, 1, true, 0.25, BlackmanHarris);
    assert EdgeAngle(tr, d) == tr.pi / 2.0;
    SincEdgeGainIsUnity(tr, round, eps, d, filters, first, i);
  }
}
