/** Normalisation of one interpolation filter, with error diffusion. The tap
    values and the rounding to the sample type are parameters; arithmetic is
    otherwise exact. */
module FilterBank {
  import opened Convolution

  datatype WindowKind = Hann | BlackmanHarris

  datatype Design = Design(numTaps: nat, numFilters: nat, lowpass: bool, lowpassRatio: real, window: WindowKind)
  {
    /** What resampleInit checks, and the cutoff it then stores. */
    predicate Valid() {
      && 4 <= numTaps <= 1024 && numTaps % 4 == 0
      && 1 <= numFilters <= 1024
      && (if lowpass then 0.0 < lowpassRatio < 1.0 else lowpassRatio == 1.0)
    }
  }

  /** The value of tap j of filter i before normalisation, and the conversion to
      the stored sample type. */
  datatype Numerics = Numerics(tap: (Design, nat, nat) -> real, round: real -> real, eps: real)
  {
    ghost predicate Valid() {
      eps >= 0.0 && forall x :: -eps <= round(x) - x <= eps
    }
  }

  /** Filter i as first computed. */
  ghost function RawTaps(num: Numerics, d: Design, i: nat): (s: seq<real>)
    ensures |s| == d.numTaps
  {
    seq(d.numTaps, j requires 0 <= j < d.numTaps => num.tap(d, i, j))
  }

  function Scale(x: real, c: real): real {
    x * c
  }

  ghost function Scaled(s: seq<real>, c: real): (t: seq<real>)
    ensures |t| == |s|
  {
    seq(|s|, i requires 0 <= i < |s| => Scale(s[i], c))
  }

  lemma {:induction false} SumScale(s: seq<real>, c: real, n: nat)
    requires n <= |s|
    ensures SumRange(Scaled(s, c), 0, n) == SumRange(s, 0, n) * c
  {
    if n > 0 {
      SumScale(s, c, n - 1);
      var x, y := SumRange(s, 0, n - 1), s[n - 1];
      assert (x + y) * c == x * c + y * c;
    }
  }

  /** The taps scaled to sum to one, before they are rounded. */
  ghost function Normalised(raw: seq<real>): (s: seq<real>)
    requires Sum(raw) != 0.0
    ensures |s| == |raw| && Sum(s) == 1.0
  {
    var c := Inverse(Sum(raw));
    SumScale(raw, c, |raw|);
    Scaled(raw, c)
  }

  function Inverse(z: real): (c: real)
    requires z != 0.0
    ensures z * c == 1.0
  {
    1.0 / z
  }

  /** The stored taps are the ideal ones, each displaced by at most two
      roundings, and together by at most one. */
  ghost predicate Diffused(num: Numerics, filter: seq<real>, ideal: seq<real>)
    requires |filter| == |ideal|
  {
    && (forall i :: 0 <= i < |filter| ==> -2.0 * num.eps <= filter[i] - ideal[i] <= 2.0 * num.eps)
    && -num.eps <= Sum(filter) - Sum(ideal) <= num.eps
    && ((forall i :: 0 <= i < |ideal| ==> num.round(ideal[i]) == ideal[i]) ==> filter == ideal)
  }

  /** No stored tap is off its ideal by more than two roundings. */
  lemma TapIsNear(num: Numerics, filter: seq<real>, ideal: seq<real>, i: nat)
    requires |filter| == |ideal| && Diffused(num, filter, ideal) && i < |filter|
    ensures -2.0 * num.eps <= filter[i] - ideal[i] <= 2.0 * num.eps
  {
  }

  /** Compute the taps and their sum. */
  method FillTaps(num: Numerics, d: Design, i: nat, temp: array<real>) returns (filterSum: real)
    requires temp.Length == d.numTaps
    modifies temp
    ensures temp[..] == RawTaps(num, d, i)
    ensures filterSum == Sum(temp[..])
  {
    ghost var raw := RawTaps(num, d, i);
    filterSum := 0.0;
    for j := 0 to d.numTaps
      invariant forall k :: 0 <= k < j ==> temp[k] == raw[k]
      invariant filterSum == SumRange(raw, 0, j)
    {
      temp[j] := num.tap(d, i, j);
      filterSum := filterSum + temp[j];
    }
    assert temp[..] == raw;
  }

  /** Fill filter i so that it has unity gain at DC. */
  method InitFilter(num: Numerics, d: Design, i: nat, filter: array<real>)
    requires num.Valid() && d.Valid() && filter.Length == d.numTaps
    requires Sum(RawTaps(num, d, i)) != 0.0
    modifies filter
    ensures Diffused(num, filter[..], Normalised(RawTaps(num, d, i)))
    ensures -num.eps <= Sum(filter[..]) - 1.0 <= num.eps
  {
    var tempFilter := new real[d.numTaps];
    var filterSum := FillTaps(num, d, i, tempFilter);
    ghost var ideal := Normalised(RawTaps(num, d, i));
    Normalise(num, tempFilter, Inverse(filterSum), filter, ideal, 2 * QuarterOf(d.numTaps));
  }

  /** The taps visited so far are those in lo..hi, an interval that grows from
      the middle by one tap at alternating ends; i is the next one. */
  ghost predicate ZigZag(t: nat, i: int, lo: int, hi: int) {
    && 0 <= lo <= hi <= t
    && ((i == hi && lo + hi == t) || (i == lo - 1 && lo + hi == t + 1))
  }

  /** The taps in lo..hi are within two roundings of the ideal, or equal to it. */
  ghost predicate Near(eps: real, exact: bool, filter: seq<real>, ideal: seq<real>, lo: nat, hi: nat)
    requires lo <= hi <= |filter| == |ideal|
  {
    && (forall k :: lo <= k < hi ==> -2.0 * eps <= filter[k] - ideal[k] <= 2.0 * eps)
    && (exact ==> forall k :: lo <= k < hi ==> filter[k] == ideal[k])
  }

  lemma NearGrow(eps: real, exact: bool, s: seq<real>, t: seq<real>, ideal: seq<real>, lo: nat, hi: nat, i: nat)
    requires lo <= hi <= |s| == |t| == |ideal| && i < |s| && (i == hi || i == lo - 1)
    requires Near(eps, exact, s, ideal, lo, hi)
    requires forall k :: lo <= k < hi ==> t[k] == s[k]
    requires -2.0 * eps <= t[i] - ideal[i] <= 2.0 * eps && (exact ==> t[i] == ideal[i])
    ensures Near(eps, exact, t, ideal, if i == hi then lo else i, if i == hi then hi + 1 else hi)
  {
  }

  /** Scale tap i, store it rounded after taking off the carried error, and
      carry on what the rounding added. */
  method StoreTap(num: Numerics, temp: array<real>, scaler: real, filter: array<real>, i: nat, error: real)
    returns (error': real)
    requires num.Valid() && temp != filter
    requires i < temp.Length == filter.Length && -num.eps <= error <= num.eps
    modifies temp, filter
    ensures temp[..] == old(temp[..])[i := Scale(old(temp[i]), scaler)]
    ensures filter[..] == old(filter[..])[i := filter[i]]
    ensures filter[i] == num.round(temp[i] - error)
    ensures error' == error + filter[i] - temp[i] && -num.eps <= error' <= num.eps
  {
    temp[i] := Scale(temp[i], scaler);
    filter[i] := num.round(temp[i] - error);
    error' := error + filter[i] - temp[i];
  }

  /** Halfway through: the taps in lo..hi are scaled and stored, and the error
      carried is what their rounding has added to their sum. */
  ghost predicate Halfway(num: Numerics, temp: seq<real>, was: seq<real>, filter: seq<real>, ideal: seq<real>,
                          error: real, exact: bool, lo: nat, hi: nat)
    requires lo <= hi <= |temp| == |was| == |filter| == |ideal|
  {
    && (forall k :: 0 <= k < |temp| ==> temp[k] == if lo <= k < hi then ideal[k] else was[k])
    && error == SumRange(filter, lo, hi) - SumRange(ideal, lo, hi)
    && -num.eps <= error <= num.eps && (exact ==> error == 0.0)
    && Near(num.eps, exact, filter, ideal, lo, hi)
  }

  /** Place the next tap, at one end of those placed. */
  method PlaceTap(num: Numerics, temp: array<real>, scaler: real, filter: array<real>, i: nat, error: real,
                  ghost was: seq<real>, ghost ideal: seq<real>, ghost exact: bool, ghost lo: nat, ghost hi: nat)
    returns (error': real)
    requires num.Valid() && temp != filter && lo <= hi <= temp.Length == filter.Length == |was| == |ideal|
    requires ideal == Scaled(was, scaler)
    requires exact ==> forall k :: 0 <= k < |ideal| ==> num.round(ideal[k]) == ideal[k]
    requires i < |ideal| && (i == hi || i == lo - 1)
    requires Halfway(num, temp[..], was, filter[..], ideal, error, exact, lo, hi)
    modifies temp, filter
    ensures Halfway(num, temp[..], was, filter[..], ideal, error', exact,
                    if i == hi then lo else i, if i == hi then hi + 1 else hi)
  {
    ghost var before := filter[..];
    assert temp[i] == was[i] && ideal[i] == Scale(was[i], scaler);
    error' := StoreTap(num, temp, scaler, filter, i, error);
    NearGrow(num.eps, exact, before, filter[..], ideal, lo, hi, i);
    ghost var l, h := if i == hi then lo else i, if i == hi then hi + 1 else hi;
    SumGrow(before, filter[..], lo, hi, i, l, h);
    SumGrow(ideal, ideal, lo, hi, i, l, h);
  }

  function Middle(t: nat, ghost half: nat): (m: nat)
    requires t == 2 * half
    ensures m == half
  {
    t / 2
  }

  /** Scale the taps and round them from the middle outwards, alternating
      sides, carrying the accumulated rounding error into the next tap. */
  method Normalise(num: Numerics, temp: array<real>, scaler: real, filter: array<real>, ghost ideal: seq<real>,
                   ghost half: nat)
    requires num.Valid() && temp != filter
    requires temp.Length == filter.Length == |ideal| == 2 * half && half > 0
    requires ideal == Scaled(temp[..], scaler)
    modifies temp, filter
    ensures temp[..] == ideal
    ensures Diffused(num, filter[..], ideal)
  {
    var t, error := temp.Length, 0.0;
    var i := Middle(t, half);
    ghost var was, lo, hi := temp[..], half, half;
    ghost var exact := forall k :: 0 <= k < t ==> num.round(ideal[k]) == ideal[k];
    while i < t
      invariant ZigZag(t, i, lo, hi)
      invariant Halfway(num, temp[..], was, filter[..], ideal, error, exact, lo, hi)
      decreases t - hi + lo
    {
      error := PlaceTap(num, temp, scaler, filter, i, error, was, ideal, exact, lo, hi);
      if i == hi { hi := hi + 1; } else { lo := lo - 1; }
      i := t - i - (if i >= Middle(t, half) then 1 else 0);
    }
    AllPlaced(num, temp[..], was, filter[..], ideal, error, exact);
  }

  lemma AllPlaced(num: Numerics, temp: seq<real>, was: seq<real>, filter: seq<real>, ideal: seq<real>,
                  error: real, exact: bool)
    requires |temp| == |was| == |filter| == |ideal|
    requires Halfway(num, temp, was, filter, ideal, error, exact, 0, |temp|)
    requires exact <==> forall k :: 0 <= k < |ideal| ==> num.round(ideal[k]) == ideal[k]
    ensures temp == ideal && Diffused(num, filter, ideal)
  {
  }

  /** Adding one term, new or old, at either end of a range. */
  lemma SumGrow(s: seq<real>, t: seq<real>, lo: nat, hi: nat, i: nat, lo': nat, hi': nat)
    requires lo <= hi <= |s| == |t| && i < |s|
    requires (i == hi && lo' == lo && hi' == hi + 1) || (i == lo - 1 && lo' == i && hi' == hi)
    requires forall k :: lo <= k < hi ==> t[k] == s[k]
    ensures SumRange(t, lo', hi') == SumRange(s, lo, hi) + t[i]
  {
    SumShift(t, s, lo, hi, 0);
    if i != hi {
      SumPeelLow(t, i, hi);
    }
  }
}
