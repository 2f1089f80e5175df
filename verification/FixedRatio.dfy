/** Choosing the number of filters for a fixed-ratio conversion. */
module FixedRatio {
  import opened Bank

  ghost predicate Divides(d: int, x: int) {
    exists q: int :: d * q == x
  }

  /** Division with remainder keeps the common divisors. */
  lemma CommonDivisors(d: int, a: nat, b: nat)
    requires b > 0
    ensures Divides(d, a) && Divides(d, b) <==> Divides(d, b) && Divides(d, a % b)
  {
    var q, r := a / b, a % b;
    assert a == b * q + r;
    if Divides(d, b) {
      var k: int :| d * k == b;
      Associate(d, k, q);
      if Divides(d, a) {
        var m: int :| d * m == a;
        Distribute(d, m, k * q);
        assert d * (m - k * q) == r;
      }
      if Divides(d, r) {
        var m: int :| d * m == r;
        Distribute(d, m, -(k * q));
        assert d * (m + k * q) == a;
      }
    }
  }

  lemma Associate(d: int, k: int, q: int)
    ensures d * k * q == d * (k * q)
    ensures d * -(k * q) == -(d * (k * q))
  {
  }

  lemma Distribute(d: int, m: int, n: int)
    ensures d * (m - n) == d * m - d * n
  {
  }

  function GcdOf(a: nat, b: nat): nat
    decreases b
  {
    if b == 0 then a else GcdOf(b, a % b)
  }

  /** It is divided by exactly the common divisors. */
  lemma {:induction false} GcdDivisors(a: nat, b: nat, d: int)
    ensures Divides(d, GcdOf(a, b)) <==> Divides(d, a) && Divides(d, b)
    decreases b
  {
    if b == 0 {
      assert d * 0 == 0;
    } else {
      CommonDivisors(d, a, b);
      GcdDivisors(b, a % b, d);
    }
  }

  /** The greatest common divisor: its divisors are the common divisors. */
  method Gcd(a: nat, b: nat) returns (g: nat)
    ensures g == GcdOf(a, b)
    ensures forall d :: Divides(d, g) <==> Divides(d, a) && Divides(d, b)
  {
    var x, y := a, b;
    while y != 0
      invariant GcdOf(x, y) == GcdOf(a, b)
      decreases y
    {
      x := x % y;
      var t := x;
      x := y;
      y := t;
    }
    g := x;
    forall d ensures Divides(d, g) <==> Divides(d, a) && Divides(d, b) {
      GcdDivisors(a, b, d);
    }
  }

  /** The value of a C int converted to a 32-bit unsigned long. */
  function ToUnsignedLong(x: int): nat {
    x % 0x1_0000_0000
  }

  /** What the test n & (n - 1) == 0 decides for positive n. */
  predicate IsPowerOfTwo(n: nat) {
    n == 1 || (n > 1 && n % 2 == 0 && IsPowerOfTwo(n / 2))
  }

  function Pow2(k: nat): (p: nat)
    ensures p > 0
  {
    if k == 0 then 1 else 2 * Pow2(k - 1)
  }

  lemma {:induction false} PowersPass(k: nat)
    ensures IsPowerOfTwo(Pow2(k))
  {
    if k > 0 {
      PowersPass(k - 1);
    }
  }

  /** The test decides whether a positive number is a power of two. */
  lemma {:induction false} PowerOfTwo(n: nat)
    ensures IsPowerOfTwo(n) <==> exists k: nat :: n == Pow2(k)
  {
    forall k: nat | n == Pow2(k) ensures IsPowerOfTwo(n) {
      PowersPass(k);
    }
    if n == 1 {
      assert n == Pow2(0);
    } else if IsPowerOfTwo(n) {
      PowerOfTwo(n / 2);
      var k: nat :| n / 2 == Pow2(k);
      assert n == Pow2(k + 1);
    }
  }

  /** A negative int becomes the number that is as far below 2 to the 32. */
  lemma ConvertedInt(x: int)
    requires -2147483648 <= x < 2147483648
    ensures ToUnsignedLong(x) == if x >= 0 then x else 4294967296 + x
  {
  }

  datatype Plan = Plan(reduced: bool, numFilters: int, interpolate: bool, snap: bool)

  /** The number of filters at which every output of a source : destination
      conversion falls on a filter. */
  ghost predicate IsAlignedCount(source: nat, destin: nat, n: nat) {
    n > 0 && Divides(destin, source * n) && n <= destin
  }

  lemma ReducedCount(source: nat, destin: nat)
    requires source > 0 && destin > 0
    ensures var g := GcdOf(source, destin); g > 0 && IsAlignedCount(source, destin, destin / g)
  {
    var g := GcdOf(source, destin);
    assert g * 1 == g && Divides(g, g);
    GcdDivisors(source, destin, g);
    var u: int :| g * u == source;
    var v: int :| g * v == destin;
    if g == 0 {
      assert false;
    }
    Quotient(g, v, destin);
    assert destin * u == source * v by {
      Rearrange(g, u, v);
    }
  }

  lemma Quotient(g: nat, v: int, x: nat)
    requires g > 0 && g * v == x && x > 0
    ensures x / g == v && 0 < v <= x
  {
    var q := x / g;
    assert x == g * q + x % g;
    if v < q {
      Monotone(g, v, q);
    } else if q < v {
      Monotone(g, q, v);
    }
    if v <= 0 {
      Monotone(g, v, 1);
    } else {
      Monotone(v, 1, g + 1);
    }
  }

  lemma Monotone(g: int, a: int, b: int)
    requires g > 0 && a < b
    ensures g * a + g <= g * b
    decreases b - a
  {
    if a + 1 < b {
      Monotone(g, a, b - 1);
      assert g * b == g * (b - 1) + g;
    } else {
      assert g * b == g * a + g;
    }
  }

  lemma Rearrange(g: int, u: int, v: int)
    ensures (g * u) * v == (g * v) * u
  {
  }

  /** Reduce the filter count to the exact one whenever the limit allows. */
  method PlanFixedRatio(sourceRate: real, destinRate: real, maxFilters: int, interpolate: bool, noReduction: bool)
    returns (p: Plan)
    requires 0.0 < sourceRate < 4294967296.0 && 0.0 < destinRate < 4294967296.0
    ensures IsInteger(sourceRate) && IsInteger(destinRate) ==> GcdOf(sourceRate.Floor, destinRate.Floor) > 0
    ensures p.reduced <==>
              && IsInteger(sourceRate) && IsInteger(destinRate) && !noReduction
              && destinRate.Floor / GcdOf(sourceRate.Floor, destinRate.Floor) <= ToUnsignedLong(maxFilters)
    ensures !p.reduced ==> p == Plan(false, maxFilters, interpolate, false)
    ensures p.reduced ==>
              && p.numFilters > 0 && IsAlignedCount(sourceRate.Floor, destinRate.Floor, p.numFilters)
              && p.numFilters == destinRate.Floor / GcdOf(sourceRate.Floor, destinRate.Floor)
              && !p.interpolate
              && p.snap == !IsPowerOfTwo(p.numFilters)
  {
    p := Plan(false, maxFilters, interpolate, false);
    if IsInteger(sourceRate) && IsInteger(destinRate) {
      ReducedCount(sourceRate.Floor, destinRate.Floor);
    }
    if sourceRate == sourceRate.Floor as real && destinRate == destinRate.Floor as real && !noReduction {
      var g := Gcd(sourceRate.Floor, destinRate.Floor);
      var factor := destinRate.Floor / g;
      if factor <= ToUnsignedLong(maxFilters) {
        p := Plan(true, factor, false, !IsPowerOfTwo(factor));
      }
    }
  }

  /** The distance between outputs of a source : destination conversion. */
  function Step(source: nat, destin: nat): real
    requires destin > 0
  {
    source as real / destin as real
  }

  /** It is then a whole number of filters. */
  lemma StepIsWholeFilters(source: nat, destin: nat, n: nat)
    requires destin > 0 && IsAlignedCount(source, destin, n)
    ensures IsInteger(Step(source, destin) * n as real)
  {
    var m: int :| destin * m == source * n;
    assert source as real * n as real == (source * n) as real;
    assert destin as real * m as real == (destin * m) as real;
    CrossMultiply(source as real, destin as real, n as real, m as real);
    WholeReal(Step(source, destin) * n as real, m);
  }

  lemma WholeReal(x: real, m: int)
    requires x == m as real
    ensures IsInteger(x)
  {
  }

  lemma CrossMultiply(s: real, d: real, n: real, m: real)
    requires d > 0.0 && s * n == d * m
    ensures s / d * n == m
  {
    assert s / d * d == s;
    assert s / d * n * d == m * d;
  }

  /* ---------- The low-pass ---------- */

  /** The cutoff of the low-pass, relative to the destination's Nyquist
      frequency: as asked for, or chosen for the filter length. */
  function Cutoff(numTaps: int, source: real, destin: real, lowpassFreq: int, includeLowpass: bool): real
    requires source > 0.0 && destin > 0.0
  {
    if lowpassFreq == 0 && includeLowpass && destin < source then ChosenCutoff(numTaps, destin / source)
    else lowpassFreq as real / (destin / 2.0)
  }

  /** Without taps the quotient is infinite, and the lower bound is taken. */
  function ChosenCutoff(numTaps: int, ratio: real): real
    requires ratio > 0.0
  {
    var x := if numTaps == 0 then 0.8 else 1.0 - 7.5 / numTaps as real / ratio;
    Larger(Larger(x, 0.8), ratio)
  }

  function Larger(x: real, y: real): real {
    if x < y then y else x
  }

  /** The cutoff relative to the source's Nyquist frequency. */
  function SourceCutoff(numTaps: int, source: real, destin: real, lowpassFreq: int, includeLowpass: bool): real
    requires source > 0.0 && destin > 0.0
  {
    Cutoff(numTaps, source, destin, lowpassFreq, includeLowpass) * (destin / source)
  }

  /** A cutoff relative to the Nyquist frequency of a rate, as a frequency. */
  function Hertz(cutoff: real, rate: real): real {
    cutoff * (rate / 2.0)
  }

  /** A frequency that is asked for is the cutoff, and one that is chosen is
      below the Nyquist frequency of the destination, by at most a fifth. */
  lemma CutoffBelowNyquist(numTaps: int, source: real, destin: real, lowpassFreq: int, includeLowpass: bool)
    requires source > 0.0 && destin > 0.0 && numTaps > 0
    ensures var x := Hertz(SourceCutoff(numTaps, source, destin, lowpassFreq, includeLowpass), source);
            if lowpassFreq == 0 && includeLowpass && destin < source then Hertz(0.8, destin) <= x < Hertz(1.0, destin)
            else x == lowpassFreq as real
  {
    SourceToDestin(Cutoff(numTaps, source, destin, lowpassFreq, includeLowpass), source, destin);
    if lowpassFreq == 0 && includeLowpass && destin < source {
      Below(destin, source);
      ChosenBelowOne(numTaps, destin / source);
      HertzInOrder(ChosenCutoff(numTaps, destin / source), 0.8, destin);
      HertzInOrder(ChosenCutoff(numTaps, destin / source), 1.0, destin);
    } else {
      AskedFor(lowpassFreq as real, destin);
    }
  }

  /** The cutoff chosen leaves 7.5 filter widths, but no more than a fifth, and is not
      below what the ratio passes anyway. */
  lemma ChosenIsLargest(numTaps: int, ratio: real)
    requires numTaps > 0 && ratio > 0.0
    ensures var x, room := ChosenCutoff(numTaps, ratio), 7.5 / numTaps as real / ratio;
      && x >= 1.0 - room && x >= 0.8 && x >= ratio
      && (x == 1.0 - room || x == 0.8 || x == ratio)
  {
  }

  lemma SourceToDestin(x: real, source: real, destin: real)
    requires source > 0.0
    ensures Hertz(x * (destin / source), source) == Hertz(x, destin)
  {
    var q, half := destin / source, source / 2.0;
    assert q * source == destin;
    assert q * (half + half) == q * half + q * half;
    ThreeFactors(x, q, half);
    assert q * half == destin / 2.0;
  }

  lemma ThreeFactors(x: real, y: real, z: real)
    ensures x * y * z == x * (y * z)
  {
  }

  lemma AskedFor(freq: real, rate: real)
    requires rate > 0.0
    ensures Hertz(freq / (rate / 2.0), rate) == freq
  {
  }

  lemma Below(a: real, b: real)
    requires 0.0 < a < b
    ensures 0.0 < a / b < 1.0
  {
    assert a / b * b == a;
    InOrder(a / b, 1.0, b);
  }

  lemma InOrder(x: real, y: real, factor: real)
    requires factor > 0.0
    ensures x < y <==> x * factor < y * factor
  {
    var d := y - x;
    assert d * factor == y * factor - x * factor;
    assert d > 0.0 ==> d * factor > 0.0;
    assert d <= 0.0 ==> d * factor <= 0.0;
  }

  lemma HertzInOrder(x: real, y: real, rate: real)
    requires rate > 0.0
    ensures x < y <==> Hertz(x, rate) < Hertz(y, rate)
  {
    InOrder(x, y, rate / 2.0);
  }

  lemma ChosenBelowOne(numTaps: int, ratio: real)
    requires numTaps > 0 && 0.0 < ratio < 1.0
    ensures 0.8 <= ChosenCutoff(numTaps, ratio) < 1.0 && ratio <= ChosenCutoff(numTaps, ratio)
  {
    PositiveQuotient(7.5, numTaps as real);
    PositiveQuotient(7.5 / numTaps as real, ratio);
  }

  lemma PositiveQuotient(x: real, y: real)
    requires x > 0.0 && y > 0.0
    ensures x / y > 0.0
  {
  }
}
