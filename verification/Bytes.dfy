/** Bytes, and strings of them in buffers of a fixed size. */
module Bytes {

  type Byte = x: int | 0 <= x < 256

  /** What fits before the terminator. */
  function Fit(s: seq<Byte>, cap: nat): (r: seq<Byte>)
    requires cap > 0
    ensures |r| < cap && r <= s
  {
    if |s| < cap then s else s[..cap - 1]
  }

  /** A buffer holds as much of s as fits, and a terminator. */
  ghost predicate IsString(b: seq<Byte>, s: seq<Byte>) {
    && |b| > 0
    && var r := Fit(s, |b|); b[..|r|] == r && b[|r|] == 0
  }

  /** What is read back up to the terminator is as much of the text as fits. */
  lemma StringReadsBack(b: seq<Byte>, s: seq<Byte>, i: nat)
    requires IsString(b, s)
    ensures var n := if |s| < |b| then |s| else |b| - 1;
      0 <= n < |b| && b[n] == 0 && (i < n ==> b[i] == s[i])
  {
    if i < |b| - 1 && i < |s| {
      assert b[..|Fit(s, |b|)|][i] == Fit(s, |b|)[i];
    }
  }

  lemma Regroup(a: seq<Byte>, b: seq<Byte>, c: seq<Byte>)
    ensures a + b + c == a + (b + c)
  {
  }
}
