/** What happens to decoded audio in place: wide samples are cut down to 16
    bits, the volume is applied, and mono is spread to both channels. */
module Pcm {
  import opened Bytes

  type Int16 = x: int | -0x8000 <= x < 0x8000

  /* ---------- One sample ---------- */

  function Pow256(n: nat): (p: nat)
    ensures p > 0
  {
    if n == 0 then 1 else 256 * Pow256(n - 1)
  }

  /** The value of little-endian bytes, without a sign. */
  function Unsigned(bs: seq<Byte>): (v: nat) {
    if bs == [] then 0 else Unsigned(bs[..|bs| - 1]) + bs[|bs| - 1] * Pow256(|bs| - 1)
  }

  /** The value in two's complement. */
  function Signed(bs: seq<Byte>): int {
    if bs != [] && bs[|bs| - 1] >= 128 then Unsigned(bs) - Pow256(|bs|) else Unsigned(bs)
  }

  lemma {:induction false} UnsignedBound(bs: seq<Byte>)
    ensures Unsigned(bs) < Pow256(|bs|)
  {
    if bs != [] {
      UnsignedBound(bs[..|bs| - 1]);
      TopDigit(Unsigned(bs[..|bs| - 1]), bs[|bs| - 1], Pow256(|bs| - 1));
    }
  }

  lemma TopDigit(low: nat, top: Byte, p: nat)
    requires low < p
    ensures low + top * p < 256 * p
  {
    assert top * p <= 255 * p;
  }

  lemma Powers()
    ensures Pow256(1) == 256 && Pow256(2) == 0x1_0000 && Pow256(3) == 0x100_0000 && Pow256(4) == 0x1_0000_0000
  {
    assert Pow256(2) == 256 * Pow256(1);
    assert Pow256(3) == 256 * Pow256(2);
    assert Pow256(4) == 256 * Pow256(3);
  }

  /** Of the numbers that the bytes may stand for, modulo 256 to their number, the one
      around zero. */
  lemma SignedIsResidue(bs: seq<Byte>)
    requires bs != []
    ensures Signed(bs) == Unsigned(bs) || Signed(bs) == Unsigned(bs) - Pow256(|bs|)
    ensures 0 <= 2 * Signed(bs) + Pow256(|bs|) && 2 * Signed(bs) < Pow256(|bs|)
  {
    var low, p := bs[..|bs| - 1], Pow256(|bs| - 1);
    UnsignedBound(low);
    TopHalf(Unsigned(low), bs[|bs| - 1], p);
  }

  lemma TopHalf(low: nat, top: Byte, p: nat)
    requires low < p
    ensures top < 128 ==> 2 * (low + top * p) < 256 * p
    ensures top >= 128 ==> 256 * p <= 2 * (low + top * p) < 2 * (256 * p)
  {
    if top < 128 {
      assert top * p <= 127 * p;
    } else {
      assert 128 * p <= top * p <= 255 * p;
    }
  }

  lemma OffsetIs(bps: nat, i: nat)
    requires bps == 3 || bps == 4
    ensures Offset(bps, i) == bps * i
  {
  }

  /** Bytes as a machine word, the sign filled in by hand below four bytes. */
  method SampleToS32(src: seq<Byte>) returns (v: int)
    requires 1 <= |src| <= 4
    ensures v == Signed(src)
  {
    var w := 0;
    var i := 0;
    assert src[..0] == [];
    while i < |src|
      invariant 0 <= i <= |src| && w == Unsigned(src[..i])
    {
      assert src[..i + 1][..i] == src[..i];
      w := w + src[i] * Pow256(i);
      i := i + 1;
    }
    assert src[..i] == src;
    UnsignedBound(src);
    SignBit(src);
    Powers();
    if |src| < 4 && w >= Pow256(|src|) / 2 {
      w := w + (Pow256(4) - Pow256(|src|));
    }
    v := if w >= 0x8000_0000 then w - 0x1_0000_0000 else w;
  }

  /** The sign is the top bit of the top byte. */
  lemma SignBit(bs: seq<Byte>)
    requires 1 <= |bs| <= 4
    ensures Unsigned(bs) >= Pow256(|bs|) / 2 <==> bs[|bs| - 1] >= 128
  {
    var low := bs[..|bs| - 1];
    UnsignedBound(low);
    Powers();
    assert Pow256(0) == 1;
  }

  /** A sample cut down to 16 bits: the quotient rounded down, which is what an
      arithmetic shift by 8 * bps - 16 gives. */
  function Shifted(bs: seq<Byte>): int
    requires |bs| == 3 || |bs| == 4
  {
    if |bs| == 3 then Signed(bs) / 256 else Signed(bs) / 0x1_0000
  }

  /** Cutting down to 16 bits is keeping the two highest bytes, so nothing
      wraps in the conversion to a 16-bit type. */
  lemma ShiftKeepsTop(bs: seq<Byte>)
    requires |bs| == 3 || |bs| == 4
    ensures Shifted(bs) == Signed(bs[|bs| - 2..])
    ensures -0x8000 <= Shifted(bs) < 0x8000
  {
    var top := bs[|bs| - 2..];
    Powers();
    UnsignedTwo(top);
    if |bs| == 3 {
      UnsignedThree(bs);
      Quotient(Signed(bs), bs[0], Signed(top), 256);
    } else {
      UnsignedFour(bs);
      Quotient(Signed(bs), bs[0] + (bs[1] as int) * 256, Signed(top), 0x1_0000);
    }
  }

  lemma Quotient(x: int, low: int, q: int, d: int)
    requires (d == 256 || d == 0x1_0000) && 0 <= low < d && x == low + q * d
    ensures x / d == q
  {
  }

  lemma UnsignedTwo(bs: seq<Byte>)
    requires |bs| == 2
    ensures Unsigned(bs) == bs[0] + (bs[1] as int) * 256
  {
    assert bs[..1][..0] == [];
    assert Unsigned(bs[..1]) == bs[0] * Pow256(0);
    Powers();
  }

  lemma UnsignedThree(bs: seq<Byte>)
    requires |bs| == 3
    ensures Unsigned(bs) == bs[0] + (bs[1] as int) * 256 + (bs[2] as int) * 0x1_0000
  {
    UnsignedTwo(bs[..2]);
    Powers();
  }

  lemma UnsignedFour(bs: seq<Byte>)
    requires |bs| == 4
    ensures Unsigned(bs) == bs[0] + (bs[1] as int) * 256 + (bs[2] as int) * 0x1_0000 + (bs[3] as int) * 0x100_0000
  {
    UnsignedThree(bs[..3]);
    Powers();
  }

  /** The bytes of a 16-bit value, lower one first. */
  function Bytes16(v: Int16): (bs: seq<Byte>)
    ensures |bs| == 2
  {
    var u := if v < 0 then v + 0x1_0000 else v;
    [u % 256, u / 256]
  }

  lemma Bytes16Signed(bs: seq<Byte>)
    requires |bs| == 2
    ensures -0x8000 <= Signed(bs) < 0x8000 && Bytes16(Signed(bs)) == bs
  {
    UnsignedTwo(bs);
    Powers();
  }

  /* ---------- A buffer of samples ---------- */

  /** Where sample i begins. */
  function Offset(bps: nat, i: nat): (at: nat)
    requires bps == 3 || bps == 4
    ensures 2 * i <= at
  {
    if bps == 3 then 3 * i else 4 * i
  }

  function SampleOf(b: seq<Byte>, bps: nat, i: nat): (s: seq<Byte>)
    requires (bps == 3 || bps == 4) && Offset(bps, i) + bps <= |b|
    ensures |s| == bps
  {
    b[Offset(bps, i)..Offset(bps, i) + bps]
  }

  /** Out of place: every sample cut down, one after the other. */
  function Narrowed(b: seq<Byte>, bps: nat, n: nat): (r: seq<Byte>)
    requires (bps == 3 || bps == 4) && Offset(bps, n) <= |b|
    ensures |r| == 2 * n
  {
    if n == 0 then []
    else
      var s := SampleOf(b, bps, n - 1);
      ShiftKeepsTop(s);
      Narrowed(b, bps, n - 1) + Bytes16(Shifted(s))
  }

  /** Cut the samples in the buffer down where they are: the write of sample i
      never reaches a sample still to be read. */
  method PcmToS16(buf: array<Byte>, bytes: nat, bps: nat) returns (size: nat)
    requires bytes <= buf.Length && bps <= 4
    modifies buf
    ensures bps <= 2 ==> size == bytes && buf[..] == old(buf[..])
    ensures bps > 2 ==> size == 2 * (bytes / bps) && Offset(bps, bytes / bps) <= bytes
    ensures bps > 2 ==> buf[..] == Narrowed(old(buf[..]), bps, bytes / bps) + old(buf[..])[2 * (bytes / bps)..]
  {
    if bps <= 2 {
      return bytes;
    }
    var n := bytes / bps;
    WholeSamples(bytes, bps);
    NarrowAll(buf, bps, n);
    size := 2 * n;
  }

  lemma WholeSamples(bytes: nat, bps: nat)
    requires bps == 3 || bps == 4
    ensures Offset(bps, bytes / bps) <= bytes < Offset(bps, bytes / bps) + bps
  {
  }

  /** Byte k of the buffer when the first i samples have been converted. */
  ghost function Partly(was: seq<Byte>, bps: nat, i: nat, k: nat): Byte
    requires (bps == 3 || bps == 4) && Offset(bps, i) <= |was| && k < |was|
  {
    if k < 2 * i then Narrowed(was, bps, i)[k] else was[k]
  }

  method NarrowAll(buf: array<Byte>, bps: nat, n: nat)
    requires (bps == 3 || bps == 4) && Offset(bps, n) <= buf.Length
    modifies buf
    ensures buf[..] == Narrowed(old(buf[..]), bps, n) + old(buf[..])[2 * n..]
  {
    ghost var was := buf[..];
    var i := 0;
    while i < n
      invariant 0 <= i <= n && Offset(bps, i) <= buf.Length
      invariant forall k :: 0 <= k < buf.Length ==> buf[k] == Partly(was, bps, i, k)
    {
      NarrowSample(buf, bps, i, was);
      i := i + 1;
    }
    AllNarrowed(was, buf[..], bps, n);
  }

  lemma AllNarrowed(was: seq<Byte>, b: seq<Byte>, bps: nat, n: nat)
    requires (bps == 3 || bps == 4) && Offset(bps, n) <= |was| == |b|
    requires forall k :: 0 <= k < |b| ==> b[k] == Partly(was, bps, n, k)
    ensures b == Narrowed(was, bps, n) + was[2 * n..]
  {
  }

  /** Convert sample i. */
  method NarrowSample(buf: array<Byte>, bps: nat, i: nat, ghost was: seq<Byte>)
    requires (bps == 3 || bps == 4) && Offset(bps, i + 1) <= buf.Length == |was|
    requires forall k :: 0 <= k < buf.Length ==> buf[k] == Partly(was, bps, i, k)
    modifies buf
    ensures forall k :: 0 <= k < buf.Length ==> buf[k] == Partly(was, bps, i + 1, k)
  {
    var at := Offset(bps, i);
    var s := buf[at..at + bps];
    assert s == SampleOf(was, bps, i);
    var v := SampleToS32(s);
    var x := if bps == 3 then v / 256 else v / 0x1_0000;
    ShiftKeepsTop(s);
    var bs := Bytes16(x);
    NarrowedNext(was, bps, i, bs);
    buf[2 * i], buf[2 * i + 1] := bs[0], bs[1];
  }

  lemma NarrowedNext(was: seq<Byte>, bps: nat, i: nat, bs: seq<Byte>)
    requires (bps == 3 || bps == 4) && Offset(bps, i + 1) <= |was|
    requires -0x8000 <= Shifted(SampleOf(was, bps, i)) < 0x8000 && bs == Bytes16(Shifted(SampleOf(was, bps, i)))
    ensures forall k :: 0 <= k < |was| ==>
      (Partly(was, bps, i + 1, k) ==
       if k == 2 * i then bs[0] else if k == 2 * i + 1 then bs[1] else Partly(was, bps, i, k))
  {
    var done := Narrowed(was, bps, i);
    assert Narrowed(was, bps, i + 1) == done + bs;
    forall k | 0 <= k < |was|
      ensures Partly(was, bps, i + 1, k) ==
              if k == 2 * i then bs[0] else if k == 2 * i + 1 then bs[1] else Partly(was, bps, i, k)
    {
      if k < 2 * i + 2 {
        assert Partly(was, bps, i + 1, k) == (done + bs)[k];
      }
    }
  }

  lemma CodeIsTop(s: seq<Byte>)
    requires |s| == 3 || |s| == 4
    ensures -0x8000 <= Shifted(s) < 0x8000 && Bytes16(Shifted(s)) == s[|s| - 2..]
  {
    ShiftKeepsTop(s);
    Bytes16Signed(s[|s| - 2..]);
  }

  /** The two highest bytes of sample i. */
  function TopPair(b: seq<Byte>, bps: nat, i: nat): (r: seq<Byte>)
    requires (bps == 3 || bps == 4) && Offset(bps, i) + bps <= |b|
    ensures |r| == 2
  {
    b[Offset(bps, i) + bps - 2..Offset(bps, i) + bps]
  }

  lemma NarrowedStep(b: seq<Byte>, bps: nat, i: nat)
    requires (bps == 3 || bps == 4) && Offset(bps, i) + bps <= |b|
    ensures Narrowed(b, bps, i + 1) == Narrowed(b, bps, i) + TopPair(b, bps, i)
  {
    CodeIsTop(SampleOf(b, bps, i));
    TopBytes(b, Offset(bps, i), bps);
  }

  function TopPairs(b: seq<Byte>, bps: nat, n: nat): (r: seq<Byte>)
    requires (bps == 3 || bps == 4) && Offset(bps, n) <= |b|
    ensures |r| == 2 * n
  {
    if n == 0 then [] else TopPairs(b, bps, n - 1) + TopPair(b, bps, n - 1)
  }

  lemma {:induction false} TopPairAt(b: seq<Byte>, bps: nat, n: nat, i: nat)
    requires (bps == 3 || bps == 4) && Offset(bps, n) <= |b| && i < n
    ensures TopPairs(b, bps, n)[2 * i..2 * i + 2] == TopPair(b, bps, i)
  {
    if i < n - 1 {
      TopPairAt(b, bps, n - 1, i);
      SliceOfPrefix(TopPairs(b, bps, n - 1), TopPair(b, bps, n - 1), 2 * i);
    } else {
      SliceOfTail(TopPairs(b, bps, i), TopPair(b, bps, i));
    }
  }

  lemma {:induction false} NarrowedIsTopPairs(b: seq<Byte>, bps: nat, n: nat)
    requires (bps == 3 || bps == 4) && Offset(bps, n) <= |b|
    ensures Narrowed(b, bps, n) == TopPairs(b, bps, n)
  {
    if n > 0 {
      NarrowedIsTopPairs(b, bps, n - 1);
      NarrowedStep(b, bps, n - 1);
    }
  }

  /** What is left of each sample are its two highest bytes. */
  lemma NarrowedKeepsTopBytes(b: seq<Byte>, bps: nat, n: nat, i: nat)
    requires (bps == 3 || bps == 4) && Offset(bps, n) <= |b| && i < n
    ensures Narrowed(b, bps, n)[2 * i..2 * i + 2] == TopPair(b, bps, i)
  {
    NarrowedIsTopPairs(b, bps, n);
    TopPairAt(b, bps, n, i);
  }

  lemma SliceOfTail(a: seq<Byte>, c: seq<Byte>)
    requires |c| == 2
    ensures (a + c)[|a|..|a| + 2] == c
  {
  }

  lemma TopBytes(b: seq<Byte>, at: nat, bps: nat)
    requires 2 <= bps && at + bps <= |b|
    ensures b[at..at + bps][bps - 2..] == b[at + bps - 2..at + bps]
  {
  }

  lemma SliceOfPrefix(a: seq<Byte>, c: seq<Byte>, k: nat)
    requires k + 2 <= |a|
    ensures (a + c)[k..k + 2] == a[k..k + 2]
  {
  }

  /* ---------- Volume ---------- */

  const UNITY := 0x8000

  /** A sample at a volume given in 1/32768ths, rounded down. */
  function Scaled(x: Int16, vol: int): (y: Int16)
    requires 0 <= vol < UNITY
  {
    ScaleBound(x, vol);
    x * vol / UNITY
  }

  /** Below unity nothing gets louder, so nothing wraps. */
  lemma ScaleBound(x: Int16, vol: int)
    requires 0 <= vol < UNITY
    ensures x >= 0 ==> 0 <= x * vol / UNITY <= x
    ensures x < 0 ==> x <= x * vol / UNITY <= 0
  {
    if x >= 0 {
      assert x * vol <= x * UNITY;
    } else {
      assert x * UNITY <= x * vol;
    }
  }

  /** It is the exact product, in 1/32768ths, rounded down. */
  lemma ScaledIsProduct(x: Int16, vol: int)
    requires 0 <= vol < 32768
    ensures 32768 * (Scaled(x, vol) as int) <= x * vol < 32768 * (Scaled(x, vol) as int + 1)
  {
  }

  method ApplyVolume(pcm: array<Int16>, samples: nat, q15: int)
    requires samples <= pcm.Length
    modifies pcm
    ensures forall i :: 0 <= i < pcm.Length ==>
      pcm[i] == if i < samples && q15 < UNITY then Scaled(old(pcm[i]), if q15 < 0 then 0 else q15) else old(pcm[i])
  {
    if q15 >= UNITY {
      return;
    }
    var vol := if q15 < 0 then 0 else q15;
    var n := 0;
    while n < samples
      invariant 0 <= n <= samples
      invariant forall i :: 0 <= i < pcm.Length ==> pcm[i] == if i < n then Scaled(old(pcm[i]), vol) else old(pcm[i])
    {
      pcm[n] := Scaled(pcm[n], vol);
      n := n + 1;
    }
  }

  /** Samples keep their order at any volume. */
  lemma VolumeKeepsOrder(x: Int16, y: Int16, vol: int)
    requires 0 <= vol < UNITY && x <= y
    ensures Scaled(x, vol) <= Scaled(y, vol)
  {
    ScalesInOrder(x, y, vol);
    RoundsDownInOrder(x * vol, y * vol);
  }

  lemma ScalesInOrder(a: int, b: int, c: int)
    requires a <= b && c >= 0
    ensures a * c <= b * c
  {
    var d := b - a;
    assert d * c >= 0 && b * c == a * c + d * c;
  }

  lemma RoundsDownInOrder(a: int, b: int)
    requires a <= b
    ensures a / UNITY <= b / UNITY
  {
  }

  /* ---------- Mono to stereo ---------- */

  function Doubled(s: seq<Int16>): (r: seq<Int16>)
    ensures |r| == 2 * |s|
  {
    if s == [] then [] else Doubled(s[..|s| - 1]) + [s[|s| - 1], s[|s| - 1]]
  }

  lemma {:induction false} DoubledAt(s: seq<Int16>, i: nat)
    requires i < |s|
    ensures Doubled(s)[2 * i] == s[i] && Doubled(s)[2 * i + 1] == s[i]
  {
    if i < |s| - 1 {
      DoubledAt(s[..|s| - 1], i);
    }
  }

  /** Spread the samples over both channels, from the last to the first. */
  method SpreadMono(p: array<Int16>, samples: nat)
    requires 2 * samples <= p.Length
    modifies p
    ensures p[..] == Doubled(old(p[..samples])) + old(p[2 * samples..])
  {
    ghost var was := p[..];
    var i := samples;
    while i > 0
      invariant 0 <= i <= samples
      invariant forall k :: 0 <= k < p.Length ==> p[k] == Spread(was, i, samples, k)
    {
      SpreadStep(was, i, samples);
      p[(i - 1) * 2] := p[i - 1];
      p[(i - 1) * 2 + 1] := p[i - 1];
      i := i - 1;
    }
    SpreadIsDoubled(was, p[..], samples);
  }

  /** The buffer when the samples from i on have been spread. */
  ghost function Spread(was: seq<Int16>, i: nat, samples: nat, k: nat): Int16
    requires i <= samples && 2 * samples <= |was| && k < |was|
  {
    if 2 * i <= k < 2 * samples then was[k / 2] else was[k]
  }

  /** One more sample spread changes its two places, and its own was untouched. */
  lemma SpreadStep(was: seq<Int16>, i: nat, samples: nat)
    requires 0 < i <= samples && 2 * samples <= |was|
    ensures Spread(was, i, samples, i - 1) == was[i - 1]
    ensures forall k :: 0 <= k < |was| ==>
      (Spread(was, i - 1, samples, k) ==
       if k == 2 * (i - 1) || k == 2 * (i - 1) + 1 then was[i - 1] else Spread(was, i, samples, k))
  {
    forall k | 0 <= k < |was|
      ensures Spread(was, i - 1, samples, k) ==
              if k == 2 * (i - 1) || k == 2 * (i - 1) + 1 then was[i - 1] else Spread(was, i, samples, k)
    {
      if 2 * (i - 1) <= k <= 2 * (i - 1) + 1 {
        assert k / 2 == i - 1;
      }
    }
  }

  lemma SpreadIsDoubled(was: seq<Int16>, p: seq<Int16>, samples: nat)
    requires 2 * samples <= |was| == |p|
    requires forall k :: 0 <= k < |p| ==> p[k] == Spread(was, 0, samples, k)
    ensures p == Doubled(was[..samples]) + was[2 * samples..]
  {
    var mono := was[..samples];
    forall k | 0 <= k < 2 * samples ensures p[k] == Doubled(mono)[k] {
      DoubledAt(mono, k / 2);
      assert k == 2 * (k / 2) || k == 2 * (k / 2) + 1;
    }
  }
}
