/** The filter bank as resampleInit builds it, and the two ways of taking a
    sub-sample from it. */
module Bank {
  import opened Convolution
  import opened FilterBank

  ghost predicate Normalisable(num: Numerics, d: Design) {
    forall i :: 0 <= i < d.numFilters ==> Sum(RawTaps(num, d, i)) != 0.0
  }

  predicate Shaped(d: Design, filters: seq<seq<real>>) {
    && |filters| == d.numFilters + 1
    && forall i :: 0 <= i < |filters| ==> |filters[i]| == d.numTaps
  }

  /** Filter 0 is the normalised one with its outermost tap cleared, and the
      extra filter is filter 0 moved by one tap. */
  ghost predicate EdgesMatch(d: Design, filters: seq<seq<real>>, first: seq<real>)
    requires d.Valid() && Shaped(d, filters)
  {
    && |first| == d.numTaps
    && filters[0] == first[d.numTaps - 1 := 0.0]
    && filters[d.numFilters] == [0.0] + filters[0][..d.numTaps - 1]
  }

  /** The filters before rounding, one for each fractional delay. */
  ghost function IdealBank(num: Numerics, d: Design): (ideals: seq<seq<real>>)
    requires d.Valid() && Normalisable(num, d)
    ensures |ideals| == d.numFilters
    ensures forall i :: 0 <= i < |ideals| ==> |ideals[i]| == d.numTaps && Sum(ideals[i]) == 1.0
  {
    seq(d.numFilters, i requires 0 <= i < d.numFilters => Normalised(RawTaps(num, d, i)))
  }

  /** A bank that realises the ideal filters: `first` is filter 0 before its
      outermost tap was cleared. */
  ghost predicate Realises(num: Numerics, d: Design, ideals: seq<seq<real>>, filters: seq<seq<real>>, first: seq<real>)
    requires d.Valid() && |ideals| == d.numFilters && forall i :: 0 <= i < |ideals| ==> |ideals[i]| == d.numTaps
  {
    && Shaped(d, filters)
    && EdgesMatch(d, filters, first)
    && Diffused(num, first, ideals[0])
    && forall i :: 0 < i < d.numFilters ==> Diffused(num, filters[i], ideals[i])
  }

  /** The bank of a design, for some filter 0 that was cleared to make it. */
  ghost predicate IsBank(num: Numerics, d: Design, filters: seq<seq<real>>, first: seq<real>)
    requires d.Valid() && Normalisable(num, d)
  {
    Realises(num, d, IdealBank(num, d), filters, first)
  }

  /** The filters proper, each designed for its own delay. */
  method BuildFilters(num: Numerics, d: Design) returns (filters: seq<seq<real>>)
    requires num.Valid() && d.Valid() && Normalisable(num, d)
    ensures |filters| == d.numFilters
    ensures forall k :: 0 <= k < d.numFilters ==> |filters[k]| == d.numTaps
    ensures forall k :: 0 <= k < d.numFilters ==> Diffused(num, filters[k], IdealBank(num, d)[k])
  {
    ghost var ideals := IdealBank(num, d);
    filters := [];
    for i := 0 to d.numFilters
      invariant |filters| == i
      invariant forall k :: 0 <= k < i ==> |filters[k]| == d.numTaps
      invariant forall k :: 0 <= k < i ==> Diffused(num, filters[k], ideals[k])
    {
      var filter := new real[d.numTaps];
      InitFilter(num, d, i, filter);
      assert Diffused(num, filter[..], ideals[i]);
      filters := filters + [filter[..]];
    }
  }

  lemma WrapIndex(j: nat, t: nat)
    requires j < t
    ensures (j + 1) % t == if j + 1 < t then j + 1 else 0
  {
  }

  /** One filter more than asked for: the last is the first, one tap later.
      The outermost tap of each is then cleared. */
  method AddExtraFilter(d: Design, proper: seq<seq<real>>) returns (filters: seq<seq<real>>)
    requires d.Valid() && |proper| == d.numFilters
    requires forall k :: 0 <= k < d.numFilters ==> |proper[k]| == d.numTaps
    ensures Shaped(d, filters) && EdgesMatch(d, filters, proper[0])
    ensures filters[1..d.numFilters] == proper[1..]
  {
    var t := d.numTaps;
    var extra := new real[t];
    for j := 0 to t
      invariant forall k :: 0 < k <= j && k < t ==> extra[k] == proper[0][k - 1]
    {
      WrapIndex(j, t);
      extra[(j + 1) % t] := proper[0][j];
    }
    extra[0] := 0.0;
    filters := proper[0 := proper[0][t - 1 := 0.0]] + [extra[..]];
    assert filters[d.numFilters] == [0.0] + filters[0][..t - 1];
  }

  method BuildBank(num: Numerics, d: Design) returns (filters: seq<seq<real>>, ghost first: seq<real>)
    requires num.Valid() && d.Valid() && Normalisable(num, d)
    ensures Shaped(d, filters) && IsBank(num, d, filters, first)
  {
    var proper := BuildFilters(num, d);
    first := proper[0];
    filters := AddExtraFilter(d, proper);
    assert forall i :: 0 < i < d.numFilters ==> filters[i] == filters[1..d.numFilters][i - 1] == proper[1..][i - 1];
  }

  /** The two filters at the ends have the same gain: that of `first`, less the
      tap that was cleared. */
  lemma EdgeGain(d: Design, filters: seq<seq<real>>, first: seq<real>)
    requires d.Valid() && Shaped(d, filters) && EdgesMatch(d, filters, first)
    ensures Sum(filters[0]) == Sum(first) - first[d.numTaps - 1]
    ensures Sum(filters[d.numFilters]) == Sum(filters[0])
  {
    var t, a, e := d.numTaps, filters[0], filters[d.numFilters];
    ClearedSum(first, a);
    SumPeelLow(e, 0, t);
    SumShift(e, a, 0, t - 1, 1);
    assert a[t - 1] == 0.0 && e[0] == 0.0;
  }

  lemma ClearedSum(s: seq<real>, t: seq<real>)
    requires |s| > 0 && t == s[|s| - 1 := 0.0]
    ensures Sum(t) == Sum(s) - s[|s| - 1]
  {
    SumShift(t, s, 0, |s| - 1, 0);
  }

  /** Every filter between the two ends has unity gain at DC to within one
      rounding; the two at the ends are short of that by the cleared tap. */
  lemma DcGain(num: Numerics, d: Design, ideals: seq<seq<real>>, filters: seq<seq<real>>, first: seq<real>, i: nat)
    requires d.Valid() && |ideals| == d.numFilters && forall i :: 0 <= i < |ideals| ==> |ideals[i]| == d.numTaps
    requires Realises(num, d, ideals, filters, first)
    requires forall i :: 0 <= i < |ideals| ==> Sum(ideals[i]) == 1.0
    requires i <= d.numFilters
    ensures 0 < i < d.numFilters ==> -num.eps <= Sum(filters[i]) - 1.0 <= num.eps
    ensures i == 0 || i == d.numFilters ==>
              -num.eps <= Sum(filters[i]) + first[d.numTaps - 1] - 1.0 <= num.eps
  {
    EdgeGain(d, filters, first);
  }

  /** Every tap of every filter that is not at an edge is within two roundings of its
      design. */
  lemma BankTapIsNear(num: Numerics, d: Design, filters: seq<seq<real>>, first: seq<real>, i: nat, j: nat)
    requires d.Valid() && Normalisable(num, d) && IsBank(num, d, filters, first)
    requires 0 < i < d.numFilters && j < d.numTaps
    ensures -2.0 * num.eps <= filters[i][j] - IdealBank(num, d)[i][j] <= 2.0 * num.eps
  {
    TapIsNear(num, filters[i], IdealBank(num, d)[i], j);
  }

  /** Unity gain at DC for the bank of any design. */
  lemma BankHasUnityDcGain(num: Numerics, d: Design, filters: seq<seq<real>>, first: seq<real>, i: nat)
    requires num.Valid() && d.Valid() && Normalisable(num, d) && IsBank(num, d, filters, first)
    requires i <= d.numFilters
    ensures 0 < i < d.numFilters ==> -num.eps <= Sum(filters[i]) - 1.0 <= num.eps
    ensures i == 0 || i == d.numFilters ==>
              -num.eps <= Sum(filters[i]) + first[d.numTaps - 1] - 1.0 <= num.eps
  {
    DcGain(num, d, IdealBank(num, d), filters, first, i);
  }

  /** The extra filter at one sample is filter 0 at the next. */
  lemma ExtraFilterIsNextSample(d: Design, filters: seq<seq<real>>, first: seq<real>, x: seq<real>)
    requires d.Valid() && Shaped(d, filters) && EdgesMatch(d, filters, first)
    requires |x| == d.numTaps + 1
    ensures Dot(filters[d.numFilters], x[..d.numTaps]) == Dot(filters[0], x[1..])
  {
    var t := d.numTaps;
    var p, q := Products(filters[d.numFilters], x[..t]), Products(filters[0], x[1..]);
    SumPeelLow(p, 0, t);
    forall k | 0 <= k < t - 1 ensures p[k + 1] == q[k] {
      assert filters[d.numFilters][k + 1] == filters[0][k];
      assert x[..t][k + 1] == x[1..][k];
    }
    SumShift(p, q, 0, t - 1, 1);
    assert p[0] == 0.0 && q[t - 1] == 0.0;
  }

  /** Stored exactly, the two edge filters have unity gain exactly if the design has
      nothing at the outermost tap of filter 0. */
  lemma EdgeGainIsUnity(num: Numerics, d: Design, filters: seq<seq<real>>, first: seq<real>, i: nat)
    requires num.Valid() && d.Valid() && Normalisable(num, d) && IsBank(num, d, filters, first)
    requires forall x :: num.round(x) == x
    requires i == 0 || i == d.numFilters
    ensures Sum(filters[i]) == 1.0 <==> RawTaps(num, d, 0)[d.numTaps - 1] == 0.0
  {
    var raw := RawTaps(num, d, 0);
    EdgeGain(d, filters, first);
    assert first == Normalised(raw);
    ScaledIsZero(raw[d.numTaps - 1], Sum(raw));
  }

  lemma ScaledIsZero(x: real, z: real)
    requires z != 0.0
    ensures Scale(x, Inverse(z)) == 0.0 <==> x == 0.0
  {
    var c := Inverse(z);
    assert x * c * z == x * (z * c);
  }

  ghost predicate IsImpulse(s: seq<real>, m: int) {
    forall k :: 0 <= k < |s| ==> s[k] == if k == m then 1.0 else 0.0
  }

  /** The taps of filter 0 vanish except for the middle one, and are stored exactly. */
  ghost predicate StartsWithImpulse(num: Numerics, d: Design) {
    && IsImpulse(RawTaps(num, d, 0), d.numTaps / 2 - 1)
    && num.round(0.0) == 0.0 && num.round(1.0) == 1.0
  }

  /** Filter 0 is then a unit impulse in the bank as well. */
  lemma FirstFilterIsImpulse(num: Numerics, d: Design, filters: seq<seq<real>>, first: seq<real>)
    requires num.Valid() && d.Valid() && Normalisable(num, d) && StartsWithImpulse(num, d)
    requires IsBank(num, d, filters, first)
    ensures IsImpulse(filters[0], d.numTaps / 2 - 1)
  {
    ImpulseIsNormalised(RawTaps(num, d, 0), d.numTaps / 2 - 1);
  }

  /** When the first filter starts out as an impulse, nothing is lost at the
      edges: every filter of the bank, the extra one included, has unity gain. */
  lemma ImpulseBankHasUnityDcGain(num: Numerics, d: Design, filters: seq<seq<real>>, first: seq<real>, i: nat)
    requires num.Valid() && d.Valid() && Normalisable(num, d) && StartsWithImpulse(num, d)
    requires IsBank(num, d, filters, first) && i <= d.numFilters
    ensures -num.eps <= Sum(filters[i]) - 1.0 <= num.eps
    ensures i == 0 || i == d.numFilters ==> Sum(filters[i]) == 1.0
  {
    BankHasUnityDcGain(num, d, filters, first, i);
    FirstFilterIsImpulse(num, d, filters, first);
    SumSingle(filters[0], d.numTaps / 2 - 1);
    EdgeGain(d, filters, first);
  }

  lemma ImpulseIsNormalised(s: seq<real>, m: nat)
    requires m < |s| && IsImpulse(s, m)
    ensures Sum(s) == 1.0 && IsImpulse(Normalised(s), m)
  {
    SumSingle(s, m);
  }

  /** A phase is a position between two samples, counted in filters. */
  predicate IsPhase(d: Design, x: real) {
    0.0 <= x < d.numFilters as real
  }

  /** The filter whose delay is nearest to a phase. */
  function NearestFilter(d: Design, x: real): (fi: int)
    requires IsPhase(d, x)
    ensures 0 <= fi <= d.numFilters
  {
    (x + 0.5).Floor
  }

  /** A sample taken without interpolation, from the window of numTaps samples
      around it; positions on a sample are read off directly. */
  ghost function SubsampleNearest(d: Design, filters: seq<seq<real>>, window: seq<real>, x: real): real
    requires d.Valid() && Shaped(d, filters) && |window| == d.numTaps && IsPhase(d, x)
  {
    var fi := NearestFilter(d, x);
    if !d.lowpass && fi == 0 then window[d.numTaps / 2 - 1]
    else if !d.lowpass && fi == d.numFilters then window[d.numTaps / 2]
    else Dot(filters[fi], window)
  }

  function Lerp(a: real, b: real, f: real): real {
    a * (1.0 - f) + b * f
  }

  /** From the first value to the second, at an even pace. */
  lemma LerpIsEven(a: real, b: real, f: real, g: real)
    ensures Lerp(a, b, 0.0) == a && Lerp(a, b, 1.0) == b
    ensures Lerp(a, b, (f + g) / 2.0) == (Lerp(a, b, f) + Lerp(a, b, g)) / 2.0
  {
  }

  lemma LerpAtZero(a: real, b: real)
    ensures Lerp(a, b, 0.0) == a
  {
  }

  /** A sample taken between the two adjacent filters, linearly. */
  ghost function SubsampleInterpolated(d: Design, filters: seq<seq<real>>, window: seq<real>, x: real): real
    requires d.Valid() && Shaped(d, filters) && |window| == d.numTaps && IsPhase(d, x)
  {
    var fi := x.Floor;
    Lerp(Dot(filters[fi], window), Dot(filters[fi + 1], window), x - fi as real)
  }

  predicate IsInteger(x: real) {
    x == x.Floor as real
  }

  /** At a phase that falls on a filter, the sample read off directly, the one
      filtered and the one interpolated are the same. */
  lemma AlignedSubsamplesAgree(num: Numerics, d: Design, filters: seq<seq<real>>, first: seq<real>,
                               window: seq<real>, x: real)
    requires num.Valid() && d.Valid() && Normalisable(num, d) && IsBank(num, d, filters, first)
    requires d.lowpass || StartsWithImpulse(num, d)
    requires |window| == d.numTaps && IsPhase(d, x) && IsInteger(x)
    ensures NearestFilter(d, x) as real == x
    ensures SubsampleNearest(d, filters, window, x) == Dot(filters[NearestFilter(d, x)], window)
    ensures SubsampleInterpolated(d, filters, window, x) == Dot(filters[NearestFilter(d, x)], window)
  {
    if !d.lowpass {
      FirstFilterIsImpulse(num, d, filters, first);
      DotImpulse(filters[0], window, d.numTaps / 2 - 1);
    }
    var fi := x.Floor;
    assert NearestFilter(d, x) == fi && x - fi as real == 0.0;
    LerpAtZero(Dot(filters[fi], window), Dot(filters[fi + 1], window));
  }

  /** Rounding a phase up to the extra filter gives what filter 0 gives on the
      window one sample later. */
  lemma RoundingUpIsConsistent(d: Design, filters: seq<seq<real>>, first: seq<real>, samples: seq<real>, x: real)
    requires d.Valid() && Shaped(d, filters) && EdgesMatch(d, filters, first)
    requires |samples| == d.numTaps + 1 && IsPhase(d, x)
    requires NearestFilter(d, x) == d.numFilters
    ensures SubsampleNearest(d, filters, samples[..d.numTaps], x) == SubsampleNearest(d, filters, samples[1..], 0.0)
  {
    assert NearestFilter(d, 0.0) == 0;
    ExtraFilterIsNextSample(d, filters, first, samples);
  }
}
