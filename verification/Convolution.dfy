/** Finite sums, the inner product at the core of the resampler, and the three
    loop shapes the C source can compile to. Samples and taps are exact reals. */
module Convolution {

  /** The sum of s[k] for lo <= k < hi. */
  ghost function SumRange(s: seq<real>, lo: nat, hi: nat): real
    requires lo <= hi <= |s|
    decreases hi
  {
    if lo == hi then 0.0 else SumRange(s, lo, hi - 1) + s[hi - 1]
  }

  ghost function Sum(s: seq<real>): real {
    SumRange(s, 0, |s|)
  }

  ghost function Products(a: seq<real>, b: seq<real>): (p: seq<real>)
    requires |a| == |b|
    ensures |p| == |a|
  {
    seq(|a|, k requires 0 <= k < |a| => a[k] * b[k])
  }

  /** The plain inner product: the reference form of every filter loop. */
  ghost function Dot(a: seq<real>, b: seq<real>): real
    requires |a| == |b|
  {
    Sum(Products(a, b))
  }

  /** A range can also be peeled at its low end. */
  lemma {:induction false} SumPeelLow(s: seq<real>, lo: nat, hi: nat)
    requires lo < hi <= |s|
    ensures SumRange(s, lo, hi) == s[lo] + SumRange(s, lo + 1, hi)
    decreases hi
  {
    if lo + 1 < hi {
      SumPeelLow(s, lo, hi - 1);
    }
  }

  lemma {:induction false} SumSplit(s: seq<real>, lo: nat, mid: nat, hi: nat)
    requires lo <= mid <= hi <= |s|
    ensures SumRange(s, lo, hi) == SumRange(s, lo, mid) + SumRange(s, mid, hi)
    decreases hi
  {
    if mid < hi {
      SumSplit(s, lo, mid, hi - 1);
    }
  }

  /** Equal terms, one sequence shifted by d. */
  lemma {:induction false} SumShift(s: seq<real>, t: seq<real>, lo: nat, hi: nat, d: nat)
    requires lo <= hi <= |t| && hi + d <= |s|
    requires forall k :: lo <= k < hi ==> s[k + d] == t[k]
    ensures SumRange(s, lo + d, hi + d) == SumRange(t, lo, hi)
    decreases hi
  {
    if lo < hi {
      SumShift(s, t, lo, hi - 1, d);
      assert s[(hi - 1) + d] == t[hi - 1];
    }
  }

  lemma {:induction false} SumZero(s: seq<real>, lo: nat, hi: nat)
    requires lo <= hi <= |s|
    requires forall k :: lo <= k < hi ==> s[k] == 0.0
    ensures SumRange(s, lo, hi) == 0.0
    decreases hi
  {
    if lo < hi {
      SumZero(s, lo, hi - 1);
    }
  }

  /** A sum with at most one non-zero term. */
  lemma SumSingle(s: seq<real>, m: nat)
    requires m < |s|
    requires forall k :: 0 <= k < |s| && k != m ==> s[k] == 0.0
    ensures Sum(s) == s[m]
  {
    SumSplit(s, 0, m, |s|);
    SumSplit(s, m, m + 1, |s|);
    SumZero(s, 0, m);
    SumZero(s, m + 1, |s|);
    assert SumRange(s, m, m) == 0.0;
  }

  /** A unit impulse at tap m picks out sample m. */
  lemma DotImpulse(a: seq<real>, b: seq<real>, m: nat)
    requires |a| == |b| && m < |a|
    requires forall k :: 0 <= k < |a| ==> a[k] == if k == m then 1.0 else 0.0
    ensures Dot(a, b) == b[m]
  {
    SumSingle(Products(a, b), m);
  }

  /** A[k] * B[k] for pointers A at the taps and B at source + start. */
  function ProductAt(taps: seq<real>, source: array<real>, start: nat, k: nat): (x: real)
    requires k < |taps| && start + |taps| <= source.Length
    reads source
    ensures x == Products(taps, source[start..start + |taps|])[k]
  {
    taps[k] * source[start + k]
  }

  /** One multiply-accumulate per pass, both pointers advancing. */
  method ApplyFilterPlain(taps: seq<real>, source: array<real>, start: nat) returns (sum: real)
    requires |taps| > 0 && start + |taps| <= source.Length
    ensures sum == Dot(taps, source[start..start + |taps|])
  {
    ghost var prods := Products(taps, source[start..start + |taps|]);
    sum := 0.0;
    var n, j := |taps|, 0;
    while n > 0
      invariant 0 <= n && n + j == |taps|
      invariant sum == SumRange(prods, 0, j)
    {
      sum := sum + ProductAt(taps, source, start, j);
      j := j + 1;
      n := n - 1;
    }
  }

  /** Growing both ends of the summed part by one term. */
  lemma AddTwo(s: seq<real>, lo: nat, hi: nat)
    requires lo + 1 <= hi - 1 && hi <= |s|
    ensures SumRange(s, 0, lo + 1) + SumRange(s, hi - 1, |s|)
         == SumRange(s, 0, lo) + SumRange(s, hi, |s|) + (s[lo] + s[hi - 1])
  {
    SumPeelLow(s, hi - 1, |s|);
  }

  function HalfOf(n: nat): (m: nat)
    requires n % 2 == 0
    ensures n == 2 * m
  {
    n / 2
  }

  function QuarterOf(n: nat): (m: nat)
    requires n % 4 == 0
    ensures n == 4 * m
  {
    n / 4
  }

  /** Outside-in: each pass adds the two outermost products still missing. */
  method ApplyFilterOutsideIn(taps: seq<real>, source: array<real>, start: nat) returns (sum: real)
    requires |taps| > 0 && |taps| % 2 == 0 && start + |taps| <= source.Length
    ensures sum == Dot(taps, source[start..start + |taps|])
  {
    ghost var prods := Products(taps, source[start..start + |taps|]);
    sum := OutsideIn(taps, source, start, HalfOf(|taps|), prods);
    SumSplit(prods, 0, HalfOf(|taps|), |taps|);
  }

  method OutsideIn(taps: seq<real>, source: array<real>, start: nat, ghost m: nat, ghost prods: seq<real>)
    returns (sum: real)
    requires |taps| == 2 * m && start + |taps| <= source.Length
    requires prods == Products(taps, source[start..start + |taps|])
    ensures sum == SumRange(prods, 0, m) + SumRange(prods, m, |taps|)
  {
    sum := 0.0;
    var i, p := |taps| - 1, 0;
    while i > 0
      invariant i == 2 * (m - p) - 1 && 0 <= p <= m
      invariant sum == SumRange(prods, 0, p) + SumRange(prods, |taps| - p, |taps|)
    {
      AddTwo(prods, p, |taps| - p);
      sum := sum + (ProductAt(taps, source, start, p) + ProductAt(taps, source, start, p + i));
      p := p + 1;
      i := i - 2;
    }
  }

  /** Growing both ends of the summed part by two terms. */
  lemma AddFour(s: seq<real>, lo: nat, hi: nat)
    requires lo + 2 <= hi - 2 && hi <= |s|
    ensures SumRange(s, 0, lo + 2) + SumRange(s, hi - 2, |s|)
         == SumRange(s, 0, lo) + SumRange(s, hi, |s|) + (s[lo] + s[hi - 1] + s[lo + 1] + s[hi - 2])
  {
    AddTwo(s, lo, hi);
    AddTwo(s, lo + 1, hi - 1);
  }

  /** Outside-in, unrolled twice. */
  method ApplyFilterUnrolled(taps: seq<real>, source: array<real>, start: nat) returns (sum: real)
    requires |taps| > 0 && |taps| % 4 == 0 && start + |taps| <= source.Length
    ensures sum == Dot(taps, source[start..start + |taps|])
  {
    ghost var m, prods := QuarterOf(|taps|), Products(taps, source[start..start + |taps|]);
    sum := Unrolled(taps, source, start, m, prods);
    SumSplit(prods, 0, 2 * m, |taps|);
  }

  method Unrolled(taps: seq<real>, source: array<real>, start: nat, ghost m: nat, ghost prods: seq<real>)
    returns (sum: real)
    requires |taps| == 4 * m && start + |taps| <= source.Length
    requires prods == Products(taps, source[start..start + |taps|])
    ensures sum == SumRange(prods, 0, 2 * m) + SumRange(prods, 2 * m, |taps|)
  {
    sum := 0.0;
    var i, p := |taps| - 1, 0;
    ghost var q := 0;
    while i > 0
      invariant i == 4 * (m - q) - 1 && p == 2 * q && 0 <= q <= m
      invariant sum == SumRange(prods, 0, p) + SumRange(prods, |taps| - p, |taps|)
    {
      AddFour(prods, p, |taps| - p);
      sum := sum + (ProductAt(taps, source, start, p) + ProductAt(taps, source, start, p + i)
                    + ProductAt(taps, source, start, p + 1) + ProductAt(taps, source, start, p + i - 1));
      p, q := p + 2, q + 1;
      i := i - 4;
    }
  }
}
