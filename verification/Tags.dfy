/** Title, artist and album out of the head of a music file: what ID3v2 frames
    and FLAC comment blocks say, and that reading them undoes writing them. */
module Tags {
  import opened Bytes

  /* ---------- Text ---------- */

  const NUL: Byte := 0
  const TAB: Byte := 9
  const LF: Byte := 10
  const CR: Byte := 13
  const SPACE: Byte := 32
  const EQUALS: Byte := 61

  predicate HasBom(s: seq<Byte>) {
    |s| >= 3 && s[0] == 0xEF && s[1] == 0xBB && s[2] == 0xBF
  }

  function DropNuls(s: seq<Byte>): (r: seq<Byte>)
    ensures r <= s && (r != [] ==> r[|r| - 1] != NUL)
  {
    if s != [] && s[|s| - 1] == NUL then DropNuls(s[..|s| - 1]) else s
  }

  predicate IsBlank(b: Byte) {
    b == SPACE || b == TAB
  }

  function DropBlanks(s: seq<Byte>): (r: seq<Byte>)
    ensures |r| <= |s| && r == s[|s| - |r|..] && (r != [] ==> !IsBlank(r[0]))
  {
    if s != [] && IsBlank(s[0]) then DropBlanks(s[1..]) else s
  }

  predicate IsEndSpace(b: Byte) {
    b == SPACE || b == TAB || b == CR || b == LF
  }

  function DropEnd(s: seq<Byte>): (r: seq<Byte>)
    ensures r <= s && (r != [] ==> !IsEndSpace(r[|r| - 1]))
  {
    if s != [] && IsEndSpace(s[|s| - 1]) then DropEnd(s[..|s| - 1]) else s
  }

  /** A text without its byte order mark. */
  function Body(s: seq<Byte>): seq<Byte> {
    if HasBom(s) then s[3..] else s
  }

  /** A text without byte order mark, padding and surrounding space. */
  function Trim(s: seq<Byte>): seq<Byte> {
    DropEnd(DropBlanks(DropNuls(Body(s))))
  }

  /** A text that needs no trimming. */
  predicate IsTrimmed(s: seq<Byte>) {
    !HasBom(s) && (s != [] ==> !IsBlank(s[0]) && s[|s| - 1] != NUL && !IsEndSpace(s[|s| - 1]))
  }

  predicate AllNul(s: seq<Byte>) {
    forall i :: 0 <= i < |s| ==> s[i] == NUL
  }

  predicate AllBlank(s: seq<Byte>) {
    forall i :: 0 <= i < |s| ==> IsBlank(s[i])
  }

  predicate AllEndSpace(s: seq<Byte>) {
    forall i :: 0 <= i < |s| ==> IsEndSpace(s[i])
  }

  const BOM: seq<Byte> := [0xEF, 0xBB, 0xBF]

  /** A text in four parts: blanks, what is kept, space, NULs. Each is as long
      as it can be, where the NULs come first and the blanks second. */
  predicate InParts(text: seq<Byte>, blanks: seq<Byte>, kept: seq<Byte>, space: seq<Byte>, nuls: seq<Byte>) {
    && text == blanks + kept + space + nuls
    && AllBlank(blanks) && AllEndSpace(space) && AllNul(nuls)
    && (kept != [] ==> !IsBlank(kept[0]) && !IsEndSpace(kept[|kept| - 1]))
    && (kept != [] && space == [] ==> kept[|kept| - 1] != NUL)
  }

  /** What trimming keeps, without recursion. */
  lemma TrimIsKept(s: seq<Byte>, kept: seq<Byte>)
    ensures Trim(s) == kept <==> exists blanks, space, nuls :: InParts(Body(s), blanks, kept, space, nuls)
  {
    if Trim(s) == kept {
      var blanks, space, nuls := PartsOf(Body(s));
    }
    forall blanks, space, nuls | InParts(Body(s), blanks, kept, space, nuls) ensures Trim(s) == kept {
      KeptComesBack(Body(s), blanks, kept, space, nuls);
    }
  }

  lemma PartsOf(text: seq<Byte>) returns (blanks: seq<Byte>, space: seq<Byte>, nuls: seq<Byte>)
    ensures InParts(text, blanks, DropEnd(DropBlanks(DropNuls(text))), space, nuls)
  {
    var a := DropNuls(text);
    var b := DropBlanks(a);
    var c := DropEnd(b);
    OnlyNulsGo(text);
    OnlyBlanksGo(a);
    OnlySpaceGoes(b);
    CutIntoParts(text, a, b, c);
    nuls, blanks, space := text[|a|..], a[..|a| - |b|], b[|c|..];
  }

  lemma CutIntoParts(text: seq<Byte>, a: seq<Byte>, b: seq<Byte>, c: seq<Byte>)
    requires a <= text && AllNul(text[|a|..]) && (a != [] ==> a[|a| - 1] != NUL)
    requires |b| <= |a| && b == a[|a| - |b|..] && AllBlank(a[..|a| - |b|]) && (b != [] ==> !IsBlank(b[0]))
    requires c <= b && AllEndSpace(b[|c|..]) && (c != [] ==> !IsEndSpace(c[|c| - 1]))
    ensures InParts(text, a[..|a| - |b|], c, b[|c|..], text[|a|..])
  {
    var nuls, blanks, space := text[|a|..], a[..|a| - |b|], b[|c|..];
    Halves(text, |a|);
    Halves(a, |a| - |b|);
    Halves(b, |c|);
    FourParts(text, a, b, blanks, c, space, nuls);
    LastOfParts(a, blanks, c, space);
  }

  lemma Halves(s: seq<Byte>, n: nat)
    requires n <= |s|
    ensures s == s[..n] + s[n..]
  {
  }

  lemma FourParts(text: seq<Byte>, a: seq<Byte>, b: seq<Byte>, blanks: seq<Byte>, kept: seq<Byte>,
                  space: seq<Byte>, nuls: seq<Byte>)
    requires text == a + nuls && a == blanks + b && b == kept + space
    ensures text == blanks + kept + space + nuls && a == blanks + kept + space
  {
    assert a == blanks + kept + space;
  }

  lemma LastOfParts(a: seq<Byte>, blanks: seq<Byte>, kept: seq<Byte>, space: seq<Byte>)
    requires a == blanks + kept + space
    ensures space != [] ==> a != [] && a[|a| - 1] == space[|space| - 1]
    ensures space == [] && kept != [] ==> a != [] && a[|a| - 1] == kept[|kept| - 1]
    ensures space == [] && kept == [] && blanks != [] ==> a != [] && a[|a| - 1] == blanks[|blanks| - 1]
    ensures space == [] && kept == [] && blanks == [] ==> a == []
  {
  }

  lemma TailOfInit(s: seq<Byte>, n: nat)
    requires n < |s|
    ensures s[n..] == s[..|s| - 1][n..] + [s[|s| - 1]]
  {
  }

  lemma HeadOfTail(s: seq<Byte>, n: nat)
    requires 0 < n <= |s|
    ensures s[..n] == [s[0]] + s[1..][..n - 1]
  {
  }

  lemma {:induction false} OnlyNulsGo(s: seq<Byte>)
    ensures AllNul(s[|DropNuls(s)|..])
  {
    if s != [] && s[|s| - 1] == NUL {
      var t, n := s[..|s| - 1], |DropNuls(s)|;
      OnlyNulsGo(t);
      TailOfInit(s, n);
    }
  }

  lemma {:induction false} OnlyBlanksGo(s: seq<Byte>)
    ensures AllBlank(s[..|s| - |DropBlanks(s)|])
  {
    if s != [] && IsBlank(s[0]) {
      var t, n := s[1..], |DropBlanks(s)|;
      OnlyBlanksGo(t);
      HeadOfTail(s, |s| - n);
    }
  }

  lemma {:induction false} OnlySpaceGoes(s: seq<Byte>)
    ensures AllEndSpace(s[|DropEnd(s)|..])
  {
    if s != [] && IsEndSpace(s[|s| - 1]) {
      var t, n := s[..|s| - 1], |DropEnd(s)|;
      OnlySpaceGoes(t);
      TailOfInit(s, n);
    }
  }

  lemma KeptComesBack(text: seq<Byte>, blanks: seq<Byte>, kept: seq<Byte>, space: seq<Byte>, nuls: seq<Byte>)
    requires InParts(text, blanks, kept, space, nuls)
    ensures DropEnd(DropBlanks(DropNuls(text))) == kept
  {
    var most := blanks + kept + space;
    LastOfParts(most, blanks, kept, space);
    NulsGo(most, nuls);
    FrontGoes(most, blanks, kept, space);
  }

  lemma AllSpaceGoes(blanks: seq<Byte>, space: seq<Byte>)
    requires AllBlank(blanks) && AllEndSpace(space)
    ensures DropEnd(DropBlanks(blanks + space)) == []
  {
    var all := blanks + space;
    assert AllEndSpace(all);
    SpaceGoes([], DropBlanks(all));
    assert [] + DropBlanks(all) == DropBlanks(all);
  }

  lemma FrontGoes(most: seq<Byte>, blanks: seq<Byte>, kept: seq<Byte>, space: seq<Byte>)
    requires most == blanks + kept + space && AllBlank(blanks) && AllEndSpace(space)
    requires kept != [] ==> !IsBlank(kept[0]) && !IsEndSpace(kept[|kept| - 1])
    ensures DropEnd(DropBlanks(most)) == kept
  {
    if kept == [] {
      assert most == blanks + space;
      AllSpaceGoes(blanks, space);
    } else {
      assert most == blanks + (kept + space);
      BlanksGo(blanks, kept + space);
      SpaceGoes(kept, space);
    }
  }

  lemma {:induction false} NulsGo(s: seq<Byte>, nuls: seq<Byte>)
    requires AllNul(nuls) && (s != [] ==> s[|s| - 1] != NUL)
    ensures DropNuls(s + nuls) == s
  {
    var all := s + nuls;
    if nuls == [] {
      assert all == s;
    } else {
      assert all[|all| - 1] == nuls[|nuls| - 1];
      assert all[..|all| - 1] == s + nuls[..|nuls| - 1];
      NulsGo(s, nuls[..|nuls| - 1]);
    }
  }

  lemma {:induction false} BlanksGo(blanks: seq<Byte>, s: seq<Byte>)
    requires AllBlank(blanks) && s != [] && !IsBlank(s[0])
    ensures DropBlanks(blanks + s) == s
  {
    var all := blanks + s;
    if blanks == [] {
      assert all == s;
    } else {
      assert all[0] == blanks[0] && all[1..] == blanks[1..] + s;
      BlanksGo(blanks[1..], s);
    }
  }

  lemma {:induction false} SpaceGoes(s: seq<Byte>, space: seq<Byte>)
    requires AllEndSpace(space) && (s != [] ==> !IsEndSpace(s[|s| - 1]))
    ensures DropEnd(s + space) == s
  {
    var all := s + space;
    if space == [] {
      assert all == s;
    } else {
      assert all[|all| - 1] == space[|space| - 1];
      assert all[..|all| - 1] == s + space[..|space| - 1];
      SpaceGoes(s, space[..|space| - 1]);
    }
  }

  /** What is trimmed away is padding: a trimmed text between padding comes back,
      with and without a byte order mark. */
  lemma TrimUndoesPadding(blanks: seq<Byte>, s: seq<Byte>, space: seq<Byte>, nuls: seq<Byte>)
    requires IsTrimmed(s) && s != [] && AllBlank(blanks) && AllEndSpace(space) && AllNul(nuls)
    ensures Trim(blanks + s + space + nuls) == s && Trim(BOM + (blanks + s + space + nuls)) == s
  {
    var text := blanks + s + space + nuls;
    NoBom(blanks, s, space + nuls);
    assert text == blanks + s + (space + nuls);
    KeptComesBack(text, blanks, s, space, nuls);
    BomGoes(text);
  }

  lemma BomGoes(text: seq<Byte>)
    ensures HasBom(BOM + text) && (BOM + text)[3..] == text
  {
    var all := BOM + text;
    assert all[0] == BOM[0] && all[1] == BOM[1] && all[2] == BOM[2];
  }

  /** Whether a byte is one of a byte order mark. */
  predicate InBom(b: Byte) {
    b >= 0x80
  }

  lemma NoBom(blanks: seq<Byte>, s: seq<Byte>, rest: seq<Byte>)
    requires !HasBom(s) && s != [] && AllBlank(blanks) && forall i :: 0 <= i < |rest| ==> !InBom(rest[i])
    ensures !HasBom(blanks + s + rest)
  {
    var all := blanks + s + rest;
    if |blanks| > 0 {
      assert all[0] == blanks[0];
    } else {
      assert all == s + rest;
      BomIsFirst(s, rest);
    }
  }

  lemma BomIsFirst(s: seq<Byte>, rest: seq<Byte>)
    requires forall i :: 0 <= i < |rest| ==> !InBom(rest[i])
    ensures HasBom(s + rest) <==> HasBom(s)
  {
    var all := s + rest;
    if |all| >= 3 {
      assert all[0] == (if |s| > 0 then s[0] else rest[0]);
      assert all[1] == (if |s| > 1 then s[1] else rest[1 - |s|]);
      assert all[2] == (if |s| > 2 then s[2] else rest[2 - |s|]);
    }
  }

  /** A second byte order mark, right after the first or after blanks. */
  ghost predicate HasInnerBom(s: seq<Byte>) {
    exists i :: 0 <= i <= |Body(s)| && AllBlank(Body(s)[..i]) && HasBom(Body(s)[i..])
  }

  /** A NUL with space right after it, and nothing but NULs after that. */
  ghost predicate HasInnerNul(s: seq<Byte>) {
    exists i, j :: 0 <= i < i + 1 < j <= |Body(s)| && NulAt(Body(s), i, j)
  }

  predicate NulAt(text: seq<Byte>, i: nat, j: nat)
    requires i + 1 < j <= |text|
  {
    text[i] == NUL && AllEndSpace(text[i + 1..j]) && AllNul(text[j..])
  }

  /** What trimming leaves needs no more trimming, but for two kinds of text:
      NULs go before space and a byte order mark before blanks, once each. */
  lemma TrimsCompletely(s: seq<Byte>)
    ensures IsTrimmed(Trim(s)) <==> !HasInnerBom(s) && !HasInnerNul(s)
  {
    var text, kept := Body(s), Trim(s);
    var blanks, space, nuls := PartsOf(text);
    BomStays(s, text, blanks, kept, space, nuls);
    NulStays(s, text, blanks, kept, space, nuls);
    KeptIsTrimmed(text, blanks, kept, space, nuls);
  }

  lemma KeptIsTrimmed(text: seq<Byte>, blanks: seq<Byte>, kept: seq<Byte>, space: seq<Byte>, nuls: seq<Byte>)
    requires InParts(text, blanks, kept, space, nuls)
    ensures IsTrimmed(kept) <==> !HasBom(kept) && !(kept != [] && kept[|kept| - 1] == NUL)
  {
  }

  lemma BomStays(s: seq<Byte>, text: seq<Byte>, blanks: seq<Byte>, kept: seq<Byte>, space: seq<Byte>,
                 nuls: seq<Byte>)
    requires text == Body(s) && InParts(text, blanks, kept, space, nuls)
    ensures HasInnerBom(s) <==> HasBom(kept)
  {
    var n, rest := |blanks|, space + nuls;
    assert text == blanks + (kept + rest);
    assert text[..n] == blanks && text[n..] == kept + rest;
    BomIsFirst(kept, rest);
    forall i | 0 <= i <= |text| && AllBlank(text[..i]) && HasBom(text[i..]) ensures i == n {
      assert text[i] == text[i..][0];
    }
  }

  lemma NulStays(s: seq<Byte>, text: seq<Byte>, blanks: seq<Byte>, kept: seq<Byte>, space: seq<Byte>,
                 nuls: seq<Byte>)
    requires text == Body(s) && InParts(text, blanks, kept, space, nuls)
    ensures HasInnerNul(s) <==> kept != [] && kept[|kept| - 1] == NUL
  {
    if kept != [] && kept[|kept| - 1] == NUL {
      var i := |blanks| + |kept| - 1;
      var j := i + 1 + |space|;
      assert text[i] == NUL && text[i + 1..j] == space && text[j..] == nuls;
      assert NulAt(text, i, j);
    }
    forall i, j | 0 <= i < i + 1 < j <= |text| && NulAt(text, i, j)
      ensures kept != [] && kept[|kept| - 1] == NUL
    {
      NulIsLast(text, i, j);
      KeptComesBack(text, blanks, kept, space, nuls);
    }
  }

  lemma NulIsLast(text: seq<Byte>, i: nat, j: nat)
    requires i + 1 < j <= |text| && NulAt(text, i, j)
    ensures var kept := DropEnd(DropBlanks(DropNuls(text))); kept != [] && kept[|kept| - 1] == NUL
  {
    var a := text[..i + 1];
    var b := DropBlanks(a);
    OnlyBlanksGo(a);
    if b == [] {
      assert false;
    }
    CutAfterNul(text, i, j, |a| - |b|);
    NulIsKept(text, a[..|a| - |b|], b, text[i + 1..j], text[j..]);
  }

  lemma CutAfterNul(text: seq<Byte>, i: nat, j: nat, n: nat)
    requires n <= i < j <= |text|
    ensures text[..i + 1][n..][i - n] == text[i]
    ensures text == (text[..i + 1][..n] + text[..i + 1][n..]) + (text[i + 1..j] + text[j..])
  {
    Halves(text, i + 1);
    Halves(text[..i + 1], n);
    Halves(text[i + 1..], j - (i + 1));
    SliceOfRest(text, i + 1, j);
  }

  lemma SliceOfRest(text: seq<Byte>, i: nat, j: nat)
    requires i <= j <= |text|
    ensures text[i..][..j - i] == text[i..j] && text[i..][j - i..] == text[j..]
  {
  }

  lemma NulIsKept(text: seq<Byte>, blanks: seq<Byte>, kept: seq<Byte>, space: seq<Byte>, nuls: seq<Byte>)
    requires AllBlank(blanks) && AllEndSpace(space) && AllNul(nuls) && space != []
    requires kept != [] && !IsBlank(kept[0]) && kept[|kept| - 1] == NUL
    requires text == (blanks + kept) + (space + nuls)
    ensures DropEnd(DropBlanks(DropNuls(text))) == kept
  {
    assert text == blanks + kept + space + nuls;
    KeptComesBack(text, blanks, kept, space, nuls);
  }

  /** A NUL before space, after "abc" for example, is left at the end. */
  lemma NulBeforeSpaceStays(s: seq<Byte>)
    requires s != [] && !HasBom(s) && !IsBlank(s[0]) && s[|s| - 1] == NUL
    ensures Trim(s + [SPACE]) == s && !IsTrimmed(Trim(s + [SPACE]))
  {
    BomIsFirst(s, [SPACE]);
    assert s + [SPACE] == ([] + s) + ([SPACE] + []);
    NulIsKept(s + [SPACE], [], s, [SPACE], []);
  }

  /* ---------- Numbers ---------- */

  function At(s: seq<Byte>, i: nat): int
    requires i < |s|
  {
    s[i]
  }

  /** Four bytes with seven bits each. */
  function Syncsafe(s: seq<Byte>): (n: int)
    requires |s| >= 4
    ensures 0 <= n < 0x1000_0000
  {
    At(s, 0) % 128 * 0x20_0000 + At(s, 1) % 128 * 0x4000 + At(s, 2) % 128 * 0x80 + At(s, 3) % 128
  }

  function BigEndian(s: seq<Byte>): (n: int)
    requires |s| >= 4
    ensures 0 <= n < 0x1_0000_0000
  {
    At(s, 0) * 0x100_0000 + At(s, 1) * 0x1_0000 + At(s, 2) * 0x100 + At(s, 3)
  }

  function BigEndian24(s: seq<Byte>): (n: int)
    requires |s| >= 3
    ensures 0 <= n < 0x100_0000
  {
    At(s, 0) * 0x1_0000 + At(s, 1) * 0x100 + At(s, 2)
  }

  function LittleEndian(s: seq<Byte>): (n: int)
    requires |s| >= 4
    ensures 0 <= n < 0x1_0000_0000
  {
    At(s, 0) + At(s, 1) * 0x100 + At(s, 2) * 0x1_0000 + At(s, 3) * 0x100_0000
  }

  /** What one unit in byte i is worth. */
  lemma LittleEndianWeights(a: Byte, b: Byte, c: Byte, d: Byte)
    ensures LittleEndian([a, 0, 0, 0]) == a
    ensures LittleEndian([0, b, 0, 0]) == 256 * (b as int)
    ensures LittleEndian([0, 0, c, 0]) == 65536 * (c as int)
    ensures LittleEndian([0, 0, 0, d]) == 16777216 * (d as int)
    ensures LittleEndian([a, b, c, d]) ==
            LittleEndian([a, 0, 0, 0]) + LittleEndian([0, b, 0, 0])
            + LittleEndian([0, 0, c, 0]) + LittleEndian([0, 0, 0, d])
  {
    FourBytes(a, b, c, d);
    FourBytes(a, 0, 0, 0);
    FourBytes(0, b, 0, 0);
    FourBytes(0, 0, c, 0);
    FourBytes(0, 0, 0, d);
  }

  lemma FourBytes(a: Byte, b: Byte, c: Byte, d: Byte)
    ensures var s: seq<Byte> := [a, b, c, d]; At(s, 0) == a && At(s, 1) == b && At(s, 2) == c && At(s, 3) == d
  {
  }

  /** Big-endian is the same from the other end. */
  lemma BigEndianIsReversed(a: Byte, b: Byte, c: Byte, d: Byte)
    ensures BigEndian([a, b, c, d]) == LittleEndian([d, c, b, a])
    ensures BigEndian24([b, c, d]) == LittleEndian([d, c, b, 0])
  {
    FourBytes(a, b, c, d);
    FourBytes(d, c, b, a);
    FourBytes(d, c, b, 0);
    var s: seq<Byte> := [b, c, d];
    assert At(s, 0) == b && At(s, 1) == c && At(s, 2) == d;
  }

  /** Seven bits of each byte count, the first byte most. */
  lemma SyncsafeWeights(a: Byte, b: Byte, c: Byte, d: Byte)
    requires a < 128 && b < 128 && c < 128 && d < 128
    ensures Syncsafe([0, 0, 0, d]) == d && Syncsafe([0, 0, c, 0]) == 128 * (c as int)
    ensures Syncsafe([0, b, 0, 0]) == 16384 * (b as int) && Syncsafe([a, 0, 0, 0]) == 2097152 * (a as int)
    ensures Syncsafe([a, b, c, d]) ==
            Syncsafe([a, 0, 0, 0]) + Syncsafe([0, b, 0, 0]) + Syncsafe([0, 0, c, 0]) + Syncsafe([0, 0, 0, d])
  {
    SevenBits(a, b, c, d);
    SevenBits(a, 0, 0, 0);
    SevenBits(0, b, 0, 0);
    SevenBits(0, 0, c, 0);
    SevenBits(0, 0, 0, d);
  }

  /** The eighth bits do not. */
  lemma SyncsafeIgnoresTopBits(a: Byte, b: Byte, c: Byte, d: Byte)
    requires a < 128 && b < 128 && c < 128 && d < 128
    ensures Syncsafe([a + 128, b + 128, c + 128, d + 128]) == Syncsafe([a, b, c, d])
  {
    FourBytes(a, b, c, d);
    FourBytes(a + 128, b + 128, c + 128, d + 128);
    LowBits(a);
    LowBits(b);
    LowBits(c);
    LowBits(d);
  }

  lemma LowBits(x: int)
    ensures (x + 128) % 128 == x % 128
  {
  }

  function WriteSyncsafe(n: int): (s: seq<Byte>)
    requires 0 <= n < 0x1000_0000
    ensures |s| == 4 && Syncsafe(s) == n
  {
    Digits128(n);
    var a, b, c, d := n / 0x20_0000, n / 0x4000 % 128, n / 0x80 % 128, n % 128;
    SevenBits(a, b, c, d);
    [a, b, c, d]
  }

  lemma SevenBits(a: Byte, b: Byte, c: Byte, d: Byte)
    requires a < 128 && b < 128 && c < 128 && d < 128
    ensures Syncsafe([a, b, c, d]) == (a as int) * 0x20_0000 + (b as int) * 0x4000 + (c as int) * 0x80 + d
  {
    var s: seq<Byte> := [a, b, c, d];
    assert At(s, 0) == a && At(s, 1) == b && At(s, 2) == c && At(s, 3) == d;
  }

  lemma Digits128(n: int)
    requires 0 <= n < 0x1000_0000
    ensures n == n / 0x20_0000 * 0x20_0000 + n / 0x4000 % 128 * 0x4000 + n / 0x80 % 128 * 0x80 + n % 128
    ensures 0 <= n / 0x20_0000 < 128
  {
    var a, b := n / 0x80, n / 0x4000;
    assert b == a / 128 && n / 0x20_0000 == b / 128;
  }

  lemma Digits256(n: int)
    requires 0 <= n < 0x1_0000_0000
    ensures n == n / 0x100_0000 * 0x100_0000 + n / 0x1_0000 % 256 * 0x1_0000 + n / 0x100 % 256 * 0x100 + n % 256
    ensures 0 <= n / 0x100_0000 < 256
  {
    var a, b := n / 0x100, n / 0x1_0000;
    assert b == a / 256 && n / 0x100_0000 == b / 256;
  }

  function WriteBigEndian(n: int): (s: seq<Byte>)
    requires 0 <= n < 0x1_0000_0000
    ensures |s| == 4 && BigEndian(s) == n
  {
    Digits256(n);
    [n / 0x100_0000, n / 0x1_0000 % 256, n / 0x100 % 256, n % 256]
  }

  function WriteBigEndian24(n: int): (s: seq<Byte>)
    requires 0 <= n < 0x100_0000
    ensures |s| == 3 && BigEndian24(s) == n
  {
    Digits256(n);
    [n / 0x1_0000, n / 0x100 % 256, n % 256]
  }

  function WriteLittleEndian(n: int): (s: seq<Byte>)
    requires 0 <= n < 0x1_0000_0000
    ensures |s| == 4 && LittleEndian(s) == n
  {
    Digits256(n);
    [n % 256, n / 0x100 % 256, n / 0x1_0000 % 256, n / 0x100_0000]
  }

  /* ---------- Fields ---------- */

  datatype Field = Title | Artist | Album

  /** A field's text, if the file has one. */
  datatype Text = NoText | Text(bytes: seq<Byte>)

  /** A key and a text; the last entry of a field counts. */
  datatype Entry = Entry(field: Field, bytes: seq<Byte>) | Ignored

  function LastOf(es: seq<Entry>, f: Field): Text {
    if es == [] then NoText
    else
      var e := es[|es| - 1];
      if e.Entry? && e.field == f then Text(Trim(e.bytes)) else LastOf(es[..|es| - 1], f)
  }

  /** The three texts, and what an entry makes of them. */
  datatype Texts = Texts(title: Text, artist: Text, album: Text)
  {
    function Of(f: Field): Text {
      match f
      case Title => title
      case Artist => artist
      case Album => album
    }

    function After(e: Entry): Texts {
      match e
      case Ignored => this
      case Entry(Title, bytes) => this.(title := Text(Trim(bytes)))
      case Entry(Artist, bytes) => this.(artist := Text(Trim(bytes)))
      case Entry(Album, bytes) => this.(album := Text(Trim(bytes)))
    }
  }

  const BLANK := Texts(NoText, NoText, NoText)

  /** What the entries make of the texts, one after the other. */
  function AfterAll(t: Texts, es: seq<Entry>): Texts
    decreases |es|
  {
    if es == [] then t else AfterAll(t.After(es[0]), es[1..])
  }

  lemma {:induction false} AfterAllSnoc(t: Texts, es: seq<Entry>, e: Entry)
    ensures AfterAll(t, es + [e]) == AfterAll(t, es).After(e)
    decreases |es|
  {
    var all := es + [e];
    if es == [] {
      assert all[0] == e && all[1..] == [];
    } else {
      assert all[0] == es[0] && all[1..] == es[1..] + [e];
      AfterAllSnoc(t.After(es[0]), es[1..], e);
    }
  }

  /** Overwriting field by field leaves the last entry of each. */
  lemma {:induction false} OverwritingKeepsLast(es: seq<Entry>, f: Field)
    ensures AfterAll(BLANK, es).Of(f) == LastOf(es, f)
  {
    if es != [] {
      var init, e := es[..|es| - 1], es[|es| - 1];
      OverwritingKeepsLast(init, f);
      AfterAllLast(es);
      AfterOf(AfterAll(BLANK, init), e, f);
    }
  }

  lemma AfterAllLast(es: seq<Entry>)
    requires es != []
    ensures AfterAll(BLANK, es) == AfterAll(BLANK, es[..|es| - 1]).After(es[|es| - 1])
  {
    var init, e := es[..|es| - 1], es[|es| - 1];
    assert es == init + [e];
    AfterAllSnoc(BLANK, init, e);
  }

  lemma AfterOf(t: Texts, e: Entry, f: Field)
    ensures t.After(e).Of(f) == if e.Entry? && e.field == f then Text(Trim(e.bytes)) else t.Of(f)
  {
  }

  /** The last entry of a field, without recursion. */
  lemma {:induction false} LastOfIsLast(es: seq<Entry>, f: Field, k: nat)
    requires k < |es| && es[k].Entry? && es[k].field == f
    requires forall j :: k < j < |es| ==> !(es[j].Entry? && es[j].field == f)
    ensures LastOf(es, f) == Text(Trim(es[k].bytes))
  {
    if k < |es| - 1 {
      LastOfIsLast(es[..|es| - 1], f, k);
    }
  }

  /** There is no text exactly if there is no entry. */
  lemma {:induction false} LastOfNone(es: seq<Entry>, f: Field)
    ensures LastOf(es, f) == NoText <==> forall j :: 0 <= j < |es| ==> !(es[j].Entry? && es[j].field == f)
  {
    if es != [] {
      LastOfNone(es[..|es| - 1], f);
    }
  }

  /* ---------- ID3v2 ---------- */

  datatype Frame = Frame(id: seq<Byte>, body: seq<Byte>)

  const TIT2: seq<Byte> := [0x54, 0x49, 0x54, 0x32]
  const TPE1: seq<Byte> := [0x54, 0x50, 0x45, 0x31]
  const TALB: seq<Byte> := [0x54, 0x41, 0x4C, 0x42]
  const ID3: seq<Byte> := [0x49, 0x44, 0x33]
  const UTF8_TEXT: Byte := 3

  function FrameSize(version: Byte, s: seq<Byte>): (n: int)
    requires |s| >= 4
    ensures n >= 0
  {
    if version >= 4 then Syncsafe(s) else BigEndian(s)
  }

  /** The frames from a point of the tag on, up to padding or nonsense. */
  function FramesOf(version: Byte, s: seq<Byte>): seq<Frame>
    decreases |s|
  {
    if |s| < 10 || s[0] == 0 then []
    else
      var n := FrameSize(version, s[4..8]);
      if n == 0 || n > |s| - 10 then []
      else [Frame(s[..4], s[10..10 + n])] + FramesOf(version, s[10 + n..])
  }

  function FieldOfId(id: seq<Byte>): (e: Entry)
    ensures e.Entry? ==> e.bytes == []
  {
    if id == TIT2 then Entry(Title, [])
    else if id == TPE1 then Entry(Artist, [])
    else if id == TALB then Entry(Album, [])
    else Ignored
  }

  /** Only text in UTF-8 is taken. */
  function FrameEntry(f: Frame): Entry {
    if |f.body| >= 2 && f.body[0] == UTF8_TEXT && FieldOfId(f.id).Entry?
    then Entry(FieldOfId(f.id).field, f.body[1..])
    else Ignored
  }

  function FrameEntries(fs: seq<Frame>): (es: seq<Entry>)
    ensures |es| == |fs|
  {
    seq(|fs|, i requires 0 <= i < |fs| => FrameEntry(fs[i]))
  }

  /** Title, artist and album are in the frames of these names, after a byte that says
      that the text is UTF-8; nothing else is taken. */
  lemma FrameIsEntry(id: seq<Byte>, encoding: Byte, text: seq<Byte>)
    requires text != []
    ensures FrameEntry(Frame(id, [encoding] + text)) ==
            if encoding != 3 then Ignored
            else if id == [84, 73, 84, 50] then Entry(Title, text)
            else if id == [84, 80, 69, 49] then Entry(Artist, text)
            else if id == [84, 65, 76, 66] then Entry(Album, text)
            else Ignored
  {
    assert ([encoding] + text)[1..] == text;
  }

  lemma EmptyFrameIsIgnored(f: Frame)
    requires |f.body| < 2
    ensures FrameEntry(f) == Ignored
  {
  }

  predicate StartsWith(s: seq<Byte>, p: seq<Byte>) {
    |s| >= |p| && s[..|p|] == p
  }

  /** Whether the extended header bit is set. */
  predicate IsExtended(flags: Byte) {
    flags / 64 % 2 == 1
  }

  /** The entries of an ID3v2 tag at the start of the window. */
  function Id3Entries(w: seq<Byte>): seq<Entry> {
    if |w| < 10 || !StartsWith(w, ID3) || IsExtended(w[5]) then []
    else
      var end := 10 + Syncsafe(w[6..10]);
      FrameEntries(FramesOf(w[3], w[10..if end > |w| then |w| else end]))
  }

  predicate ValidFrame(version: Byte, f: Frame) {
    && |f.id| == 4 && f.id[0] != 0
    && 0 < |f.body| < if version >= 4 then 0x1000_0000 else 0x1_0000_0000
  }

  predicate ValidFrames(version: Byte, fs: seq<Frame>) {
    forall i :: 0 <= i < |fs| ==> ValidFrame(version, fs[i])
  }

  function WriteSize(version: Byte, n: int): (s: seq<Byte>)
    requires 0 <= n < if version >= 4 then 0x1000_0000 else 0x1_0000_0000
    ensures |s| == 4 && FrameSize(version, s) == n
  {
    if version >= 4 then WriteSyncsafe(n) else WriteBigEndian(n)
  }

  function WriteFrame(version: Byte, f: Frame): (s: seq<Byte>)
    requires ValidFrame(version, f)
    ensures |s| == 10 + |f.body|
  {
    f.id + WriteSize(version, |f.body|) + [0, 0] + f.body
  }

  function WriteFrames(version: Byte, fs: seq<Frame>): seq<Byte>
    requires ValidFrames(version, fs)
  {
    if fs == [] then [] else WriteFrame(version, fs[0]) + WriteFrames(version, fs[1..])
  }

  predicate IsPadding(p: seq<Byte>) {
    p != [] ==> p[0] == 0
  }

  /** The frames that are whole in the first n bytes. */
  function WholeFrames(fs: seq<Frame>, n: int): (r: seq<Frame>)
    ensures r <= fs
  {
    if fs == [] || 10 + |fs[0].body| > n then []
    else [fs[0]] + WholeFrames(fs[1..], n - 10 - |fs[0].body|)
  }

  lemma OneMoreWhole(fs: seq<Frame>, n: int, all: seq<Frame>, rest: seq<Frame>)
    requires fs != []
    requires n < 10 + |fs[0].body| ==> all == []
    requires n >= 10 + |fs[0].body| ==> all == [fs[0]] + rest && rest == WholeFrames(fs[1..], n - 10 - |fs[0].body|)
    ensures all == WholeFrames(fs, n)
  {
  }

  /** With room for all of them, all frames are whole. */
  lemma {:induction false} AllFramesWhole(version: Byte, fs: seq<Frame>, n: int)
    requires ValidFrames(version, fs) && |WriteFrames(version, fs)| <= n
    ensures WholeFrames(fs, n) == fs
  {
    if fs != [] {
      AllFramesWhole(version, fs[1..], n - 10 - |fs[0].body|);
    }
  }

  /** One frame of a tag that is cut off, and what is left of the tag. */
  lemma FramesUnrolled(version: Byte, f: Frame, others: seq<Byte>, s: seq<Byte>, lost: seq<Byte>)
    returns (t: seq<Byte>)
    requires ValidFrame(version, f) && s + lost == WriteFrame(version, f) + others
    ensures |s| < 10 + |f.body| ==> FramesOf(version, s) == []
    ensures |s| >= 10 + |f.body| ==>
              |t| == |s| - 10 - |f.body| && t + lost == others && FramesOf(version, s) == [f] + FramesOf(version, t)
  {
    var first := WriteFrame(version, f);
    t := [];
    if |s| < |first| {
      CutInFront(first, others, s, lost);
      CutFrame(version, f, |s|);
    } else {
      t := PeelFront(first, others, s, lost);
      FrameComesBack(version, f, t);
    }
  }

  lemma FramesPeeled(version: Byte, fs: seq<Frame>, padding: seq<Byte>, s: seq<Byte>, lost: seq<Byte>)
    returns (t: seq<Byte>)
    requires ValidFrames(version, fs) && fs != [] && s + lost == WriteFrames(version, fs) + padding
    ensures |s| < 10 + |fs[0].body| ==> FramesOf(version, s) == []
    ensures |s| >= 10 + |fs[0].body| ==>
              && |t| == |s| - 10 - |fs[0].body| && t + lost == WriteFrames(version, fs[1..]) + padding
              && FramesOf(version, s) == [fs[0]] + FramesOf(version, t)
  {
    var first, others := WriteFrame(version, fs[0]), WriteFrames(version, fs[1..]);
    Regroup(first, others, padding);
    t := FramesUnrolled(version, fs[0], others + padding, s, lost);
  }

  /** Of a tag that is cut off anywhere, the frames that are whole come back. */
  lemma {:induction false} FramesComeBack(version: Byte, fs: seq<Frame>, padding: seq<Byte>, s: seq<Byte>,
                                          lost: seq<Byte>)
    requires ValidFrames(version, fs) && IsPadding(padding) && s + lost == WriteFrames(version, fs) + padding
    ensures FramesOf(version, s) == WholeFrames(fs, |s|)
  {
    if fs == [] {
      PaddingHasNoFrame(version, padding, s, lost);
    } else {
      var t := FramesPeeled(version, fs, padding, s, lost);
      if |s| >= 10 + |fs[0].body| {
        FramesComeBack(version, fs[1..], padding, t, lost);
      }
      OneMoreWhole(fs, |s|, FramesOf(version, s), FramesOf(version, t));
    }
  }

  lemma PaddingHasNoFrame(version: Byte, padding: seq<Byte>, s: seq<Byte>, lost: seq<Byte>)
    requires IsPadding(padding) && s + lost == [] + padding
    ensures FramesOf(version, s) == []
  {
    if s != [] {
      assert s[0] == (s + lost)[0] == padding[0];
    }
  }

  /** What is cut off a text in two parts, before or behind the seam. */
  lemma CutInFront(a: seq<Byte>, b: seq<Byte>, s: seq<Byte>, lost: seq<Byte>)
    requires s + lost == a + b && |s| <= |a|
    ensures s == a[..|s|]
  {
    assert (s + lost)[..|s|] == (a + b)[..|s|];
  }

  lemma PeelFront(a: seq<Byte>, b: seq<Byte>, s: seq<Byte>, lost: seq<Byte>) returns (t: seq<Byte>)
    requires s + lost == a + b && |s| >= |a|
    ensures s == a + t && t + lost == b
  {
    t := s[|a|..];
    assert (s + lost)[..|a|] == (a + b)[..|a|];
    assert (s + lost)[|a|..] == (a + b)[|a|..];
  }

  /** A frame that is not whole is not read. */
  lemma CutFrame(version: Byte, f: Frame, n: nat)
    requires ValidFrame(version, f) && n < |WriteFrame(version, f)|
    ensures FramesOf(version, WriteFrame(version, f)[..n]) == []
  {
    var all := WriteFrame(version, f);
    if n >= 10 {
      FrameLayout(f.id, WriteSize(version, |f.body|), f.body);
      SliceOfInit(all, n, 4, 8);
      assert all[..n][0] == f.id[0];
    }
  }

  lemma SliceOfInit(s: seq<Byte>, n: nat, i: nat, j: nat)
    requires i <= j <= n <= |s|
    ensures s[..n][i..j] == s[i..j]
  {
  }

  lemma FrameLayout(id: seq<Byte>, size: seq<Byte>, body: seq<Byte>)
    requires |id| == 4 && |size| == 4
    ensures var s := id + size + [0, 0] + body; s[0] == id[0] && s[4..8] == size
  {
  }

  lemma FrameComesBack(version: Byte, f: Frame, rest: seq<Byte>)
    requires ValidFrame(version, f)
    ensures FramesOf(version, WriteFrame(version, f) + rest) == [f] + FramesOf(version, rest)
  {
    var s, n := WriteFrame(version, f) + rest, |f.body|;
    assert s[0] == f.id[0];
    assert s[..4] == f.id;
    assert s[4..8] == WriteSize(version, n);
    assert s[10..10 + n] == f.body;
    assert s[10 + n..] == rest;
  }

  function Id3Head(version: Byte, revision: Byte, flags: Byte, size: nat): (s: seq<Byte>)
    requires size < 0x1000_0000
    ensures |s| == 10
  {
    ID3 + [version, revision, flags] + WriteSyncsafe(size)
  }

  /** A tag: header, frames, padding. */
  function WriteId3(version: Byte, revision: Byte, flags: Byte, fs: seq<Frame>, padding: seq<Byte>): seq<Byte>
    requires ValidFrames(version, fs) && |WriteFrames(version, fs) + padding| < 0x1000_0000
  {
    Id3Head(version, revision, flags, |WriteFrames(version, fs) + padding|) + (WriteFrames(version, fs) + padding)
  }

  /** Reading an ID3v2 tag without an extended header undoes writing it,
      whatever follows it in the window. */
  lemma Id3RoundTrip(version: Byte, revision: Byte, flags: Byte, fs: seq<Frame>, padding: seq<Byte>, rest: seq<Byte>)
    requires ValidFrames(version, fs) && IsPadding(padding) && !IsExtended(flags)
    requires |WriteFrames(version, fs) + padding| < 0x1000_0000
    ensures Id3Entries(WriteId3(version, revision, flags, fs, padding) + rest) == FrameEntries(fs)
  {
    var w := WriteId3(version, revision, flags, fs, padding) + rest;
    NothingLost(w);
    Id3CutRoundTrip(version, revision, flags, fs, padding, rest, w, []);
    AllFramesWhole(version, fs, |w| - 10);
  }

  lemma NothingLost(w: seq<Byte>)
    ensures w + [] == w
  {
  }

  /** And of a tag that the window cuts off, it undoes the writing of the frames
      that are whole. */
  lemma Id3CutRoundTrip(version: Byte, revision: Byte, flags: Byte, fs: seq<Frame>, padding: seq<Byte>,
                        rest: seq<Byte>, w: seq<Byte>, lost: seq<Byte>)
    requires ValidFrames(version, fs) && IsPadding(padding) && !IsExtended(flags)
    requires |WriteFrames(version, fs) + padding| < 0x1000_0000 && |w| >= 10
    requires w + lost == WriteId3(version, revision, flags, fs, padding) + rest
    ensures Id3Entries(w) == FrameEntries(WholeFrames(fs, |w| - 10))
  {
    var body := WriteFrames(version, fs) + padding;
    var head := Id3Head(version, revision, flags, |body|);
    Regroup(head, body, rest);
    var t := PeelFront(head, body + rest, w, lost);
    var part, more, gone := PartOf(body, rest, t, lost);
    Id3Header(version, revision, flags, |body|, part, more);
    FramesComeBack(version, fs, padding, part, gone);
    RoomForAll(version, fs, |part|, |t|, |body|);
  }

  /** What a cut leaves of the first of two parts, and what follows or is gone. */
  lemma PartOf(a: seq<Byte>, b: seq<Byte>, s: seq<Byte>, lost: seq<Byte>)
    returns (part: seq<Byte>, more: seq<Byte>, gone: seq<Byte>)
    requires s + lost == a + b
    ensures s == part + more && part + gone == a && |part| == if |s| > |a| then |a| else |s|
  {
    if |s| > |a| {
      more := PeelFront(a, b, s, lost);
      part, gone := a, [];
    } else {
      CutInFront(a, b, s, lost);
      part, more, gone := s, [], a[|s|..];
    }
  }

  lemma RoomForAll(version: Byte, fs: seq<Frame>, m: nat, n: nat, size: nat)
    requires ValidFrames(version, fs) && |WriteFrames(version, fs)| <= size && m == if n > size then size else n
    ensures WholeFrames(fs, m) == WholeFrames(fs, n)
  {
    if m < n {
      AllFramesWhole(version, fs, m);
      AllFramesWhole(version, fs, n);
    }
  }

  lemma Id3Header(version: Byte, revision: Byte, flags: Byte, size: nat, part: seq<Byte>, more: seq<Byte>)
    requires size < 0x1000_0000 && !IsExtended(flags) && (|part| == size || (|part| < size && more == []))
    ensures Id3Entries(Id3Head(version, revision, flags, size) + (part + more)) == FrameEntries(FramesOf(version, part))
  {
    var w := Id3Head(version, revision, flags, size) + (part + more);
    assert StartsWith(w, ID3) && w[3] == version && w[5] == flags;
    assert w[6..10] == WriteSyncsafe(size);
    assert w[10..10 + |part|] == part;
  }

  /* ---------- FLAC ---------- */

  const FLAC: seq<Byte> := [0x66, 0x4C, 0x61, 0x43]
  const VORBIS_COMMENT := 4

  /** The body of the first comment block, if the window has it whole. */
  function CommentBlock(s: seq<Byte>): Text
    decreases |s|
  {
    if |s| < 4 then NoText
    else
      var last, kind, n, rest := s[0] >= 128, s[0] % 128, BigEndian24(s[1..4]), s[4..];
      if kind == VORBIS_COMMENT then (if n > |rest| then NoText else Text(rest[..n]))
      else if last || n > |rest| then NoText
      else CommentBlock(rest[n..])
  }

  function CommentList(s: seq<Byte>, count: nat): seq<seq<Byte>>
    decreases |s|
  {
    if count == 0 || |s| < 4 then []
    else
      var n := LittleEndian(s[..4]);
      if n > |s| - 4 then [] else [s[4..4 + n]] + CommentList(s[4 + n..], count - 1)
  }

  /** The comments of a block: after the vendor string, as many as are counted. */
  function CommentsOf(body: seq<Byte>): seq<seq<Byte>> {
    if |body| < 4 then []
    else
      var n := LittleEndian(body[..4]);
      if n > |body| - 4 || |body| - 4 - n < 4 then []
      else CommentList(body[8 + n..], LittleEndian(body[4 + n..8 + n]))
  }

  function Upper(b: Byte): Byte {
    if 97 <= b <= 122 then b - 32 else b
  }

  function UpperAll(s: seq<Byte>): (r: seq<Byte>)
    ensures |r| == |s|
  {
    seq<Byte>(|s|, i requires 0 <= i < |s| => Upper(s[i]))
  }

  const TITLE: seq<Byte> := [84, 73, 84, 76, 69]
  const ARTIST: seq<Byte> := [65, 82, 84, 73, 83, 84]
  const ALBUM: seq<Byte> := [65, 76, 66, 85, 77]

  /** The place of the first equals sign, or the length. */
  function KeyLength(s: seq<Byte>): (n: nat)
    ensures n <= |s| && (forall i :: 0 <= i < n ==> s[i] != EQUALS) && (n < |s| ==> s[n] == EQUALS)
  {
    if s == [] || s[0] == EQUALS then 0 else 1 + KeyLength(s[1..])
  }

  function FieldOfKey(key: seq<Byte>): (e: Entry)
    ensures e.Entry? ==> e.bytes == []
  {
    var k := UpperAll(key);
    if k == TITLE then Entry(Title, [])
    else if k == ARTIST then Entry(Artist, [])
    else if k == ALBUM then Entry(Album, [])
    else Ignored
  }

  /** A capital letter, or the small one of it. */
  predicate IsLetter(b: Byte, capital: Byte) {
    b == capital || b as int == capital as int + 32
  }

  /** A key is a name if it is that letter by letter, in capitals or not. */
  predicate Spells(key: seq<Byte>, name: seq<Byte>) {
    |key| == |name| && forall i :: 0 <= i < |key| ==> IsLetter(key[i], name[i])
  }

  lemma UpperSpells(key: seq<Byte>, name: seq<Byte>)
    requires forall i :: 0 <= i < |name| ==> 65 <= name[i] <= 90
    ensures UpperAll(key) == name <==> Spells(key, name)
  {
    if Spells(key, name) {
      forall i | 0 <= i < |key| ensures UpperAll(key)[i] == name[i] {
        assert IsLetter(key[i], name[i]);
      }
      assert UpperAll(key) == name;
    }
    if UpperAll(key) == name {
      forall i | 0 <= i < |key| ensures IsLetter(key[i], name[i]) {
        assert Upper(key[i]) == name[i];
      }
    }
  }

  /** The three keys, without regard to case. */
  lemma KeyIsField(key: seq<Byte>)
    ensures FieldOfKey(key) ==
            if Spells(key, [84, 73, 84, 76, 69]) then Entry(Title, [])
            else if Spells(key, [65, 82, 84, 73, 83, 84]) then Entry(Artist, [])
            else if Spells(key, [65, 76, 66, 85, 77]) then Entry(Album, [])
            else Ignored
  {
    UpperSpells(key, TITLE);
    UpperSpells(key, ARTIST);
    UpperSpells(key, ALBUM);
  }

  function CommentEntry(s: seq<Byte>): Entry {
    var n := KeyLength(s);
    if n < |s| && FieldOfKey(s[..n]).Entry? then Entry(FieldOfKey(s[..n]).field, s[n + 1..]) else Ignored
  }

  function CommentEntries(cs: seq<seq<Byte>>): (es: seq<Entry>)
    ensures |es| == |cs|
  {
    seq(|cs|, i requires 0 <= i < |cs| => CommentEntry(cs[i]))
  }

  /** The entries of a FLAC file. */
  function FlacEntries(w: seq<Byte>): seq<Entry> {
    if !StartsWith(w, FLAC) then []
    else
      match CommentBlock(w[4..])
      case NoText => []
      case Text(body) => CommentEntries(CommentsOf(body))
  }

  /** The entries of a file by the head of it. */
  function EntriesOf(w: seq<Byte>): seq<Entry> {
    if StartsWith(w, FLAC) then FlacEntries(w) else Id3Entries(w)
  }

  datatype Block = Block(kind: Byte, body: seq<Byte>)

  predicate ValidBlock(b: Block) {
    b.kind < 128 && |b.body| < 0x100_0000
  }

  predicate ValidBlocks(bs: seq<Block>) {
    forall i :: 0 <= i < |bs| ==> ValidBlock(bs[i])
  }

  function WriteBlock(b: Block, last: bool): (s: seq<Byte>)
    requires ValidBlock(b)
    ensures |s| == 4 + |b.body|
  {
    [if last then b.kind + 128 else b.kind] + WriteBigEndian24(|b.body|) + b.body
  }

  /** A chain of metadata blocks, the last one marked. */
  function WriteChain(bs: seq<Block>): seq<Byte>
    requires ValidBlocks(bs)
  {
    if bs == [] then [] else WriteBlock(bs[0], |bs| == 1) + WriteChain(bs[1..])
  }

  lemma BlockLayout(b: Block, last: bool, rest: seq<Byte>)
    requires ValidBlock(b)
    ensures var s, n := WriteBlock(b, last) + rest, |b.body|;
      && |s| >= 4 && (s[0] >= 128 <==> last) && s[0] % 128 == b.kind && BigEndian24(s[1..4]) == n
      && s[4..][..n] == b.body && s[4..][n..] == rest
  {
    var s := WriteBlock(b, last) + rest;
    assert s[1..4] == WriteBigEndian24(|b.body|);
    assert s[4..] == b.body + rest;
  }

  lemma BlockComesBack(b: Block, last: bool, rest: seq<Byte>)
    requires ValidBlock(b)
    ensures CommentBlock(WriteBlock(b, last) + rest)
            == if b.kind == VORBIS_COMMENT then Text(b.body) else if last then NoText else CommentBlock(rest)
  {
    BlockLayout(b, last, rest);
  }

  /** A block that is not whole leads nowhere. */
  lemma CutBlock(b: Block, last: bool, n: nat)
    requires ValidBlock(b) && n < |WriteBlock(b, last)|
    ensures CommentBlock(WriteBlock(b, last)[..n]) == NoText
  {
    var s := WriteBlock(b, last)[..n];
    if n >= 4 {
      BlockLayout(b, last, []);
      assert WriteBlock(b, last) + [] == WriteBlock(b, last);
      assert s[1..4] == WriteBlock(b, last)[1..4];
    }
  }

  /** One block of a chain that is cut off, and what is left of the chain. */
  lemma ChainUnrolled(b: Block, last: bool, others: seq<Byte>, s: seq<Byte>, lost: seq<Byte>)
    returns (t: seq<Byte>)
    requires ValidBlock(b) && s + lost == WriteBlock(b, last) + others
    ensures |s| < 4 + |b.body| ==> CommentBlock(s) == NoText
    ensures |s| >= 4 + |b.body| ==>
              && |t| == |s| - 4 - |b.body| && t + lost == others
              && CommentBlock(s) ==
                 if b.kind == VORBIS_COMMENT then Text(b.body) else if last then NoText else CommentBlock(t)
  {
    var first := WriteBlock(b, last);
    t := [];
    if |s| < |first| {
      CutInFront(first, others, s, lost);
      CutBlock(b, last, |s|);
    } else {
      t := PeelFront(first, others, s, lost);
      BlockComesBack(b, last, t);
    }
  }

  /** Where block k of a chain ends. */
  function BlockEnd(bs: seq<Block>, k: nat): nat
    requires k < |bs|
  {
    4 + |bs[0].body| + if k == 0 then 0 else BlockEnd(bs[1..], k - 1)
  }

  lemma {:induction false} BlockEndsInChain(bs: seq<Block>, k: nat)
    requires ValidBlocks(bs) && k < |bs|
    ensures BlockEnd(bs, k) <= |WriteChain(bs)|
  {
    if k > 0 {
      BlockEndsInChain(bs[1..], k - 1);
    }
  }

  /** The comment block is found behind any other blocks, exactly if it is whole
      in what there is of the chain. */
  lemma {:induction false} ChainComesBack(bs: seq<Block>, k: nat, rest: seq<Byte>, s: seq<Byte>, lost: seq<Byte>)
    requires ValidBlocks(bs) && IsFirstComment(bs, k) && s + lost == WriteChain(bs) + rest
    ensures CommentBlock(s) == if BlockEnd(bs, k) <= |s| then Text(bs[k].body) else NoText
    decreases k
  {
    var first, others := WriteBlock(bs[0], |bs| == 1), WriteChain(bs[1..]);
    Regroup(first, others, rest);
    var t := ChainUnrolled(bs[0], |bs| == 1, others + rest, s, lost);
    if k > 0 {
      LaterBlock(bs, k);
      if |s| >= 4 + |bs[0].body| {
        ChainComesBack(bs[1..], k - 1, rest, t, lost);
      }
    }
  }

  /** The first comment block of a chain. */
  predicate IsFirstComment(bs: seq<Block>, k: nat) {
    k < |bs| && bs[k].kind == VORBIS_COMMENT && forall i :: 0 <= i < k ==> bs[i].kind != VORBIS_COMMENT
  }

  lemma LaterBlock(bs: seq<Block>, k: nat)
    requires ValidBlocks(bs) && IsFirstComment(bs, k) && k > 0
    ensures ValidBlocks(bs[1..]) && IsFirstComment(bs[1..], k - 1) && bs[1..][k - 1] == bs[k]
    ensures bs[0].kind != VORBIS_COMMENT && |bs| > 1
  {
  }

  predicate ValidComments(cs: seq<seq<Byte>>) {
    |cs| < 0x1_0000_0000 && forall i :: 0 <= i < |cs| ==> |cs[i]| < 0x1_0000_0000
  }

  function WriteList(cs: seq<seq<Byte>>): seq<Byte>
    requires forall i :: 0 <= i < |cs| ==> |cs[i]| < 0x1_0000_0000
  {
    if cs == [] then [] else WriteLittleEndian(|cs[0]|) + cs[0] + WriteList(cs[1..])
  }

  function WriteComments(vendor: seq<Byte>, cs: seq<seq<Byte>>): seq<Byte>
    requires ValidComments(cs) && |vendor| < 0x1_0000_0000
  {
    WriteLittleEndian(|vendor|) + vendor + WriteLittleEndian(|cs|) + WriteList(cs)
  }

  lemma {:induction false} ListComesBack(cs: seq<seq<Byte>>)
    requires ValidComments(cs)
    ensures CommentList(WriteList(cs), |cs|) == cs
  {
    if cs != [] {
      ListComesBack(cs[1..]);
      CommentComesBack(cs[0], WriteList(cs[1..]), |cs|);
    }
  }

  lemma CommentComesBack(c: seq<Byte>, rest: seq<Byte>, count: nat)
    requires |c| < 0x1_0000_0000 && count > 0
    ensures CommentList(WriteLittleEndian(|c|) + c + rest, count) == [c] + CommentList(rest, count - 1)
  {
    ListLayout(WriteLittleEndian(|c|), c, rest);
  }

  lemma ListLayout(size: seq<Byte>, c: seq<Byte>, rest: seq<Byte>)
    requires |size| == 4
    ensures var s := size + c + rest; s[..4] == size && s[4..4 + |c|] == c && s[4 + |c|..] == rest
  {
  }

  lemma CommentsComeBack(vendor: seq<Byte>, cs: seq<seq<Byte>>)
    requires ValidComments(cs) && |vendor| < 0x1_0000_0000
    ensures CommentsOf(WriteComments(vendor, cs)) == cs
  {
    var s, n := WriteComments(vendor, cs), |vendor|;
    assert s[..4] == WriteLittleEndian(n);
    assert s[4 + n..8 + n] == WriteLittleEndian(|cs|);
    assert s[8 + n..] == WriteList(cs);
    ListComesBack(cs);
  }

  /** The comments that are whole in the first n bytes of a list. */
  function WholeComments(cs: seq<seq<Byte>>, n: int): seq<seq<Byte>> {
    if cs == [] || 4 + |cs[0]| > n then [] else [cs[0]] + WholeComments(cs[1..], n - 4 - |cs[0]|)
  }

  /** A comment that is not whole is not read. */
  lemma CutComment(c: seq<Byte>, rest: seq<Byte>, count: nat, s: seq<Byte>, lost: seq<Byte>)
    requires |c| < 0x1_0000_0000 && s + lost == (WriteLittleEndian(|c|) + c) + rest && |s| < 4 + |c|
    ensures CommentList(s, count) == []
  {
    if |s| >= 4 && count > 0 {
      SameHead(s, lost, WriteLittleEndian(|c|), c + rest);
      assert (WriteLittleEndian(|c|) + c) + rest == WriteLittleEndian(|c|) + (c + rest);
    }
  }

  lemma SameHead(s: seq<Byte>, lost: seq<Byte>, a: seq<Byte>, b: seq<Byte>)
    requires |s| >= |a| && s + lost == a + b
    ensures s[..|a|] == a
  {
    var t := PeelFront(a, b, s, lost);
  }

  lemma ListPeeled(cs: seq<seq<Byte>>, s: seq<Byte>, lost: seq<Byte>) returns (t: seq<Byte>)
    requires ValidComments(cs) && cs != [] && s + lost == WriteList(cs)
    ensures |s| < 4 + |cs[0]| ==> CommentList(s, |cs|) == []
    ensures |s| >= 4 + |cs[0]| ==>
              && |t| == |s| - 4 - |cs[0]| && t + lost == WriteList(cs[1..])
              && CommentList(s, |cs|) == [cs[0]] + CommentList(t, |cs| - 1)
  {
    var first := WriteLittleEndian(|cs[0]|) + cs[0];
    t := [];
    if |s| < |first| {
      CutComment(cs[0], WriteList(cs[1..]), |cs|, s, lost);
    } else {
      t := PeelFront(first, WriteList(cs[1..]), s, lost);
      CommentComesBack(cs[0], t, |cs|);
    }
  }

  /** Of a list that is cut off anywhere, the comments that are whole come back. */
  lemma {:induction false} CutListComesBack(cs: seq<seq<Byte>>, s: seq<Byte>, lost: seq<Byte>)
    requires ValidComments(cs) && s + lost == WriteList(cs)
    ensures CommentList(s, |cs|) == WholeComments(cs, |s|)
  {
    if cs != [] {
      var t := ListPeeled(cs, s, lost);
      if |s| >= 4 + |cs[0]| {
        CutListComesBack(cs[1..], t, lost);
      }
    }
  }

  /** Of a body that ends early, nothing is read if the vendor string and the count are
      not whole, and else the comments that are. */
  lemma CutCommentsComeBack(vendor: seq<Byte>, cs: seq<seq<Byte>>, s: seq<Byte>, lost: seq<Byte>)
    requires ValidComments(cs) && |vendor| < 0x1_0000_0000 && s + lost == WriteComments(vendor, cs)
    ensures CommentsOf(s) == if |s| < 8 + |vendor| then [] else WholeComments(cs, |s| - 8 - |vendor|)
  {
    var size, count, list := WriteLittleEndian(|vendor|), WriteLittleEndian(|cs|), WriteList(cs);
    if |s| >= 8 + |vendor| {
      var t := PeelFront(size + vendor + count, list, s, lost);
      CommentsBehindHead(size, vendor, count, t);
      CutListComesBack(cs, t, lost);
    } else {
      CutHead(size, vendor, count, list, s, lost);
    }
  }

  lemma CutHead(size: seq<Byte>, vendor: seq<Byte>, count: seq<Byte>, list: seq<Byte>, s: seq<Byte>, lost: seq<Byte>)
    requires |size| == 4 && |count| == 4 && LittleEndian(size) == |vendor|
    requires s + lost == size + vendor + count + list && |s| < 8 + |vendor|
    ensures CommentsOf(s) == []
  {
    if |s| >= 4 {
      Regroup(size, vendor, count);
      Regroup(size, vendor + count, list);
      SameHead(s, lost, size, vendor + count + list);
    }
  }

  lemma CommentsBehindHead(size: seq<Byte>, vendor: seq<Byte>, count: seq<Byte>, t: seq<Byte>)
    requires |size| == 4 && |count| == 4 && LittleEndian(size) == |vendor|
    ensures CommentsOf(size + vendor + count + t) == CommentList(t, LittleEndian(count))
  {
    var s, n := size + vendor + count + t, |vendor|;
    assert s[..4] == size && s[4 + n..8 + n] == count && s[8 + n..] == t;
  }

  /** Reading the comments of a FLAC file undoes writing them, wherever the
      comment block is in the chain and whatever follows in the window. */
  lemma FlacRoundTrip(bs: seq<Block>, k: nat, vendor: seq<Byte>, cs: seq<seq<Byte>>, rest: seq<Byte>)
    requires ValidComments(cs) && |vendor| < 0x1_0000_0000
    requires k < |bs| && bs[k] == Block(VORBIS_COMMENT, WriteComments(vendor, cs))
    requires ValidBlocks(bs) && forall i :: 0 <= i < k ==> bs[i].kind != VORBIS_COMMENT
    ensures EntriesOf(FLAC + WriteChain(bs) + rest) == CommentEntries(cs)
  {
    var w := FLAC + WriteChain(bs) + rest;
    NothingLost(w);
    FlacCutRoundTrip(bs, k, vendor, cs, rest, w, []);
    BlockEndsInChain(bs, k);
  }

  /** And of a file that the window cuts off, exactly if it leaves the comment
      block whole; else there are no entries. */
  lemma FlacCutRoundTrip(bs: seq<Block>, k: nat, vendor: seq<Byte>, cs: seq<seq<Byte>>, rest: seq<Byte>,
                         w: seq<Byte>, lost: seq<Byte>)
    requires ValidComments(cs) && |vendor| < 0x1_0000_0000
    requires k < |bs| && bs[k] == Block(VORBIS_COMMENT, WriteComments(vendor, cs))
    requires ValidBlocks(bs) && forall i :: 0 <= i < k ==> bs[i].kind != VORBIS_COMMENT
    requires |w| >= 4 && w + lost == FLAC + WriteChain(bs) + rest
    ensures EntriesOf(w) == if 4 + BlockEnd(bs, k) <= |w| then CommentEntries(cs) else []
  {
    var chain := WriteChain(bs);
    Regroup(FLAC, chain, rest);
    var t := PeelFront(FLAC, chain + rest, w, lost);
    ChainComesBack(bs, k, rest, t, lost);
    FlacEntriesOf(t);
    CommentsComeBack(vendor, cs);
  }

  lemma FlacEntriesOf(t: seq<Byte>)
    ensures EntriesOf(FLAC + t) ==
            match CommentBlock(t)
            case NoText => []
            case Text(body) => CommentEntries(CommentsOf(body))
  {
    var w := FLAC + t;
    assert StartsWith(w, FLAC) && w[4..] == t;
  }

  /** A comment written as key, equals sign and value is read as that. */
  lemma CommentOfKey(key: seq<Byte>, value: seq<Byte>)
    requires forall i :: 0 <= i < |key| ==> key[i] != EQUALS
    ensures CommentEntry(key + [EQUALS] + value) ==
            if FieldOfKey(key).Entry? then Entry(FieldOfKey(key).field, value) else Ignored
  {
    var s := key + [EQUALS] + value;
    var n := KeyLength(s);
    assert s[|key|] == EQUALS;
    assert forall i :: 0 <= i < |key| ==> s[i] == key[i];
    assert n == |key|;
    assert s[..n] == key && s[n + 1..] == value;
  }

  /* ---------- Bytes by their numbers ---------- */

  /** Space and tab go from the front; with line feed and carriage return, from the end. */
  lemma SpacesAre(b: Byte)
    ensures IsBlank(b) <==> b == 9 || b == 32
    ensures IsEndSpace(b) <==> b == 9 || b == 10 || b == 13 || b == 32
  {
  }

  /** A byte order mark, a space, a tab, "Hi", a space, the end of a line and a NUL. */
  lemma TrimsHi()
    ensures Trim([239, 187, 191] + ([32, 9] + [72, 105] + [32, 13, 10] + [0])) == [72, 105]
  {
    TrimUndoesPadding([32, 9], [72, 105], [32, 13, 10], [0]);
  }

  /** The extended header is bit 6 of the flags, and with it no frame is read. */
  lemma ExtendedIsSkipped(high: int, bit: int, low: int, w: seq<Byte>)
    requires 0 <= high < 2 && 0 <= bit < 2 && 0 <= low < 64
    ensures IsExtended(high * 128 + bit * 64 + low) <==> bit == 1
    ensures |w| >= 10 && IsExtended(w[5]) ==> Id3Entries(w) == []
  {
  }

  /** A comment is split at the first of its '='. */
  lemma SplitsAtEquals()
    ensures CommentEntry(TITLE_HI) == Entry(Title, [72, 105])
    ensures CommentEntry(TITLE_HI + [61]) == Entry(Title, [72, 105, 61])
  {
    var key: seq<Byte> := [84, 73, 84, 76, 69];
    UpperSpells(key, TITLE);
    assert TITLE_HI == key + [EQUALS] + [72, 105];
    assert TITLE_HI + [61] == key + [EQUALS] + [72, 105, 61];
    CommentOfKey(key, [72, 105]);
    CommentOfKey(key, [72, 105, 61]);
  }

  /* ---------- Two files, byte by byte ---------- */

  /** Frame sizes are in bytes of seven bits from version 4 on. */
  lemma SizeByVersion()
    ensures FrameSize(3, [0, 0, 1, 0]) == 256 && FrameSize(4, [0, 0, 1, 0]) == 128
  {
    FourBytes(0, 0, 1, 0);
  }

  /** A tag with the title "Hi". */
  lemma TitleTag()
    ensures ValidFrames(4, [Frame(TIT2, [3, 72, 105])])
    ensures WriteFrames(4, [Frame(TIT2, [3, 72, 105])]) + [] == TITLE_FRAME
    ensures WriteId3(4, 0, 0, [Frame(TIT2, [3, 72, 105])], []) == [73, 68, 51, 4, 0, 0, 0, 0, 0, 13] + TITLE_FRAME
  {
    var f := Frame(TIT2, [3, 72, 105]);
    SmallSizes();
    assert [f][1..] == [];
    assert WriteFrame(4, f) == TITLE_FRAME;
    assert WriteFrames(4, [f]) == WriteFrame(4, f) + [] == TITLE_FRAME;
  }

  const TITLE_FRAME: seq<Byte> := [84, 73, 84, 50, 0, 0, 0, 3, 0, 0, 3, 72, 105]

  lemma SmallSizes()
    ensures WriteSyncsafe(3) == [0, 0, 0, 3] && WriteSyncsafe(13) == [0, 0, 0, 13]
    ensures WriteBigEndian24(20) == [0, 0, 20]
    ensures WriteLittleEndian(0) == [0, 0, 0, 0] && WriteLittleEndian(1) == [1, 0, 0, 0]
    ensures WriteLittleEndian(8) == [8, 0, 0, 0]
  {
  }

  /** A FLAC file with the comment "TITLE=Hi". */
  lemma TitleComment()
    ensures ValidComments([TITLE_HI]) && ValidBlocks([Block(4, WriteComments([], [TITLE_HI]))])
    ensures FLAC + WriteChain([Block(4, WriteComments([], [TITLE_HI]))])
            == [102, 76, 97, 67, 132, 0, 0, 20] + [0, 0, 0, 0, 1, 0, 0, 0, 8, 0, 0, 0] + TITLE_HI
  {
    SmallSizes();
    assert [TITLE_HI][1..] == [];
    assert WriteList([TITLE_HI]) == [8, 0, 0, 0] + TITLE_HI + [];
    var body := WriteComments([], [TITLE_HI]);
    assert body == [0, 0, 0, 0, 1, 0, 0, 0, 8, 0, 0, 0] + TITLE_HI;
    var bs := [Block(4, body)];
    assert bs[1..] == [];
    assert WriteChain(bs) == WriteBlock(bs[0], true) + [];
  }

  const TITLE_HI: seq<Byte> := [84, 73, 84, 76, 69, 61, 72, 105]

  /** Both titles are read. */
  lemma TitlesAreRead()
    ensures Id3Entries([73, 68, 51, 4, 0, 0, 0, 0, 0, 13] + TITLE_FRAME) == [Entry(Title, [72, 105])]
    ensures EntriesOf([102, 76, 97, 67, 132, 0, 0, 20] + [0, 0, 0, 0, 1, 0, 0, 0, 8, 0, 0, 0] + TITLE_HI)
            == [Entry(Title, [72, 105])]
  {
    TitleTag();
    var f := Frame(TIT2, [3, 72, 105]);
    Id3RoundTrip(4, 0, 0, [f], [], []);
    NothingLost(WriteId3(4, 0, 0, [f], []));
    assert f.body == [3] + [72, 105];
    FrameIsEntry([84, 73, 84, 50], 3, [72, 105]);
    assert FrameEntries([f]) == [Entry(Title, [72, 105])];
    FlacTitleIsRead();
  }

  lemma FlacTitleIsRead()
    ensures EntriesOf([102, 76, 97, 67, 132, 0, 0, 20] + [0, 0, 0, 0, 1, 0, 0, 0, 8, 0, 0, 0] + TITLE_HI)
            == [Entry(Title, [72, 105])]
  {
    TitleComment();
    var bs := [Block(4, WriteComments([], [TITLE_HI]))];
    FlacRoundTrip(bs, 0, [], [TITLE_HI], []);
    NothingLost(FLAC + WriteChain(bs));
    SplitsAtEquals();
    assert CommentEntries([TITLE_HI]) == [Entry(Title, [72, 105])];
  }
}
