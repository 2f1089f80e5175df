/** Paths on the card: the check every path goes through, the conversion to
    the card's encoding, and what the two keep of the path's structure. */
module SdPath {
  import opened Bytes
  import opened Gbk
  import opened GbkConverter

  const PATH_MAX := 256
  const SLASH: Byte := 0x2F
  const DOT: Byte := 0x2E
  const BACKSLASH: Byte := 0x5C
  const MOUNT_POINT: seq<Byte> := [0x2F, 0x73, 0x64, 0x63, 0x61, 0x72, 0x64]
  const DOT_DOT: seq<Byte> := [DOT, DOT]

  /** The parts between the slashes, empty ones included. */
  function Split(s: seq<Byte>): (segs: seq<seq<Byte>>)
    ensures |segs| > 0
  {
    if s == [] then [[]]
    else
      var segs := Split(s[1..]);
      if s[0] == SLASH then [[]] + segs else [[s[0]] + segs[0]] + segs[1..]
  }

  ghost predicate NoSlash(s: seq<Byte>) {
    forall i :: 0 <= i < |s| ==> s[i] != SLASH
  }

  /** Something without a slash goes to the first part. */
  lemma {:induction false} SplitPrefix(a: seq<Byte>, s: seq<Byte>)
    requires NoSlash(a)
    ensures Split(a + s) == [a + Split(s)[0]] + Split(s)[1..]
  {
    if a == [] {
      assert a + s == s && a + Split(s)[0] == Split(s)[0];
    } else {
      SplitPrefix(a[1..], s);
      assert (a + s)[1..] == a[1..] + s;
      assert [a[0]] + (a[1..] + Split(s)[0]) == a + Split(s)[0];
    }
  }

  /** Parts with slashes between them. */
  function Joined(segs: seq<seq<Byte>>): seq<Byte>
    requires segs != []
  {
    if |segs| == 1 then segs[0] else segs[0] + [SLASH] + Joined(segs[1..])
  }

  /** Joining the parts gives the string back, and none has a slash. */
  lemma {:induction false} SplitIsCut(s: seq<Byte>)
    ensures Joined(Split(s)) == s
    ensures forall i :: 0 <= i < |Split(s)| ==> NoSlash(Split(s)[i])
  {
    if s != [] {
      SplitIsCut(s[1..]);
      var rest := Split(s[1..]);
      if s[0] == SLASH {
        assert ([[]] + rest)[1..] == rest;
        assert s == [] + [SLASH] + s[1..];
      } else {
        JoinedFirst(s[0], rest);
        assert s == [s[0]] + s[1..];
      }
    }
  }

  lemma JoinedFirst(b: Byte, segs: seq<seq<Byte>>)
    requires segs != []
    ensures Joined([[b] + segs[0]] + segs[1..]) == [b] + Joined(segs)
  {
    var more := [[b] + segs[0]] + segs[1..];
    assert more[1..] == segs[1..];
    if |segs| > 1 {
      assert [b] + segs[0] + [SLASH] + Joined(segs[1..]) == [b] + (segs[0] + [SLASH] + Joined(segs[1..]));
    }
  }

  lemma ConsPrefix(s: seq<Byte>, seg: seq<Byte>)
    requires s != [] && seg <= s[1..]
    ensures [s[0]] + seg <= s
  {
    assert s[1..][..|seg|] == seg;
  }

  /** The first part is what comes before the first slash, if there is one. */
  lemma {:induction false} FirstSegment(s: seq<Byte>)
    ensures NoSlash(Split(s)[0]) && Split(s)[0] <= s
    ensures |Split(s)[0]| < |s| ==> s[|Split(s)[0]|] == SLASH
  {
    if s != [] && s[0] != SLASH {
      FirstSegment(s[1..]);
      var seg := Split(s[1..])[0];
      assert Split(s)[0] == [s[0]] + seg;
      ConsPrefix(s, seg);
    }
  }

  /* ---------- Overlong encodings ---------- */

  /** How often a byte value is written in more bytes than it needs. */
  function OverlongCount(s: seq<Byte>, b: Byte): nat {
    if s == [] then 0
    else (if HeadSize(s) > 1 && DecodeHead(s).Code? && DecodeHead(s).cp == b then 1 else 0)
         + OverlongCount(s[HeadSize(s)..], b)
  }

  function CountOf(s: seq<Byte>, b: Byte): nat {
    if s == [] then 0 else (if s[0] == b then 1 else 0) + CountOf(s[1..], b)
  }

  lemma {:induction false} CountOfConcat(s: seq<Byte>, t: seq<Byte>, b: Byte)
    ensures CountOf(s + t, b) == CountOf(s, b) + CountOf(t, b)
  {
    if s == [] {
      assert s + t == t;
    } else {
      CountOfConcat(s[1..], t, b);
      assert (s + t)[1..] == s[1..] + t;
    }
  }

  lemma {:induction false} SplitCount(s: seq<Byte>)
    ensures |Split(s)| == 1 + CountOf(s, SLASH)
  {
    if s != [] {
      SplitCount(s[1..]);
    }
  }

  /** A head of more than one byte has no byte below 0x80, and neither part of
      a two-byte GBK code is below 0x40. */
  lemma HeadBytes(tab: Table, s: seq<Byte>, b: Byte)
    requires ValidTable(tab) && s != [] && b < 0x40 && b != QUESTION
    ensures CountOf(s[..HeadSize(s)], b) == if s[0] == b then 1 else 0
    ensures CountOf(HeadCode(tab, s), b) == if DecodeHead(s).Code? && DecodeHead(s).cp == b then 1 else 0
    ensures s[0] < 0x80 ==> HeadSize(s) == 1 && DecodeHead(s) == Code(s[0], 1)
  {
    var n := HeadSize(s);
    var h := s[..n];
    assert forall i :: 1 <= i < n ==> h[i] == At(s, i);
    assert n > 1 ==> h[1] >= 0x80;
    assert n > 2 ==> h[2] >= 0x80;
    CountSmall(h, b);
    CountSmall(HeadCode(tab, s), b);
  }

  lemma CountSmall(s: seq<Byte>, b: Byte)
    requires 1 <= |s| <= 3
    ensures CountOf(s, b) == (if s[0] == b then 1 else 0) + (if |s| > 1 && s[1] == b then 1 else 0)
                             + (if |s| > 2 && s[2] == b then 1 else 0)
  {
    if |s| > 1 {
      assert s[1..][0] == s[1];
      if |s| > 2 {
        assert s[1..][1..][0] == s[2] && s[1..][1..][1..] == [];
      }
    }
  }

  /** The conversion adds exactly the bytes that were written overlong. */
  lemma {:induction false} CountAfterConversion(tab: Table, s: seq<Byte>, b: Byte)
    requires ValidTable(tab) && b < 0x40 && b != QUESTION
    ensures CountOf(ToGbk(tab, s), b) == CountOf(s, b) + OverlongCount(s, b)
  {
    if s != [] {
      var n := HeadSize(s);
      CountAfterConversion(tab, s[n..], b);
      HeadBytes(tab, s, b);
      CountOfConcat(HeadCode(tab, s), ToGbk(tab, s[n..]), b);
      CountOfConcat(s[..n], s[n..], b);
      assert s == s[..n] + s[n..];
    }
  }

  /* ---------- Structure ---------- */

  function ToGbkAll(tab: Table, segs: seq<seq<Byte>>): (r: seq<seq<Byte>>)
    requires ValidTable(tab)
    ensures |r| == |segs| && forall i :: 0 <= i < |r| ==> r[i] == ToGbk(tab, segs[i])
  {
    if segs == [] then [] else [ToGbk(tab, segs[0])] + ToGbkAll(tab, segs[1..])
  }

  lemma HeadHasNoSlash(s: seq<Byte>)
    requires s != [] && s[0] != SLASH
    ensures NoSlash(s[..HeadSize(s)])
  {
    var h := s[..HeadSize(s)];
    assert forall i :: 1 <= i < |h| ==> h[i] == At(s, i);
  }

  /** Cutting at a slash does not change what the decoder takes off the front. */
  lemma SplitHead(s: seq<Byte>)
    requires s != [] && s[0] != SLASH
    ensures var n := HeadSize(s); var segs := Split(s); var rest := Split(s[n..]);
      && segs[0] != [] && DecodeHead(segs[0]) == DecodeHead(s)
      && segs[0][n..] == rest[0] && segs[1..] == rest[1..]
  {
    var n := HeadSize(s);
    var h, t := s[..n], s[n..];
    HeadHasNoSlash(s);
    assert s == h + t;
    SplitPrefix(h, t);
    FirstSegment(s);
    var seg := Split(s)[0];
    assert seg == h + Split(t)[0];
    assert seg[0] == s[0];
    assert At(seg, 1) == At(s, 1) || (At(seg, 1) == 0 && At(s, 1) == SLASH);
    assert At(seg, 2) == At(s, 2) || At(seg, 1) == 0 || (At(seg, 2) == 0 && At(s, 2) == SLASH);
  }

  lemma {:induction false} SplitCommutesIf(tab: Table, s: seq<Byte>)
    requires ValidTable(tab) && OverlongCount(s, SLASH) == 0
    ensures Split(ToGbk(tab, s)) == ToGbkAll(tab, Split(s))
  {
    if s != [] {
      var n := HeadSize(s);
      SplitCommutesIf(tab, s[n..]);
      var code, tail := HeadCode(tab, s), ToGbk(tab, s[n..]);
      HeadBytes(tab, s, SLASH);
      if s[0] == SLASH {
        assert code == [SLASH] && (code + tail)[1..] == tail;
      } else {
        SplitHead(s);
        CountIsZero(code);
        SplitPrefix(code, tail);
      }
    }
  }

  lemma CountIsZero(s: seq<Byte>)
    requires 1 <= |s| <= 2 && CountOf(s, SLASH) == 0
    ensures NoSlash(s)
  {
    CountSmall(s, SLASH);
  }

  /** Converting a path converts its parts one by one, exactly when no slash
      is written overlong. */
  lemma SplitCommutes(tab: Table, s: seq<Byte>)
    requires ValidTable(tab)
    ensures Split(ToGbk(tab, s)) == ToGbkAll(tab, Split(s)) <==> OverlongCount(s, SLASH) == 0
  {
    if OverlongCount(s, SLASH) == 0 {
      SplitCommutesIf(tab, s);
    } else {
      SplitCount(s);
      SplitCount(ToGbk(tab, s));
      CountAfterConversion(tab, s, SLASH);
    }
  }

  /** A part of a string has no more overlong bytes than the string. */
  lemma {:induction false} SplitOverlong(s: seq<Byte>, b: Byte, i: nat)
    requires i < |Split(s)|
    ensures OverlongCount(Split(s)[i], b) <= OverlongCount(s, b)
  {
    if s != [] {
      var n := HeadSize(s);
      var rest := Split(s[n..]);
      if s[0] == SLASH {
        if i > 0 {
          SplitOverlong(s[n..], b, i - 1);
        }
      } else {
        SplitHead(s);
        if i > 0 {
          assert Split(s)[i] == Split(s)[1..][i - 1] == rest[1..][i - 1];
        }
        SplitOverlong(s[n..], b, i);
      }
    }
  }

  /** A dot comes out only where one went in. */
  lemma DotHead(tab: Table, s: seq<Byte>)
    requires ValidTable(tab) && s != [] && OverlongCount(s, DOT) == 0
    ensures HeadCode(tab, s)[0] == DOT <==> s[0] == DOT
    ensures s[0] == DOT ==> HeadSize(s) == 1 && HeadCode(tab, s) == [DOT]
    ensures OverlongCount(s[HeadSize(s)..], DOT) == 0
  {
  }

  lemma DotDotSegment(tab: Table, s: seq<Byte>)
    requires ValidTable(tab) && OverlongCount(s, DOT) == 0
    ensures ToGbk(tab, s) == DOT_DOT <==> s == DOT_DOT
  {
    if s != [] {
      DotHead(tab, s);
      var t := s[HeadSize(s)..];
      assert ToGbk(tab, s)[0] == HeadCode(tab, s)[0];
      if s[0] == DOT {
        assert s == [DOT] + t && ToGbk(tab, s) == [DOT] + ToGbk(tab, t);
        assert ToGbk(tab, s)[1..] == ToGbk(tab, t);
        DotSegment(tab, t);
      }
    }
  }

  lemma DotSegment(tab: Table, s: seq<Byte>)
    requires ValidTable(tab) && OverlongCount(s, DOT) == 0
    ensures ToGbk(tab, s) == [DOT] <==> s == [DOT]
  {
    if s != [] {
      DotHead(tab, s);
      var t := s[HeadSize(s)..];
      assert ToGbk(tab, s)[0] == HeadCode(tab, s)[0];
      if s[0] == DOT {
        assert s == [DOT] + t && ToGbk(tab, s) == [DOT] + ToGbk(tab, t);
        assert ToGbk(tab, s)[1..] == ToGbk(tab, t);
        assert t != [] ==> |ToGbk(tab, t)| > 0;
      }
    }
  }

  /* ---------- Well-formed UTF-8 ---------- */

  /** The length of the well-formed sequence at the front, 0 if there is none
      (RFC 3629, section 4). */
  function SequenceSize(s: seq<Byte>): (n: nat)
    requires s != []
    ensures n <= |s| && n <= 4
  {
    var a, b := s[0], At(s, 1);
    var tail2, tail3 := IsContinuation(At(s, 2)), IsContinuation(At(s, 3));
    if a < 0x80 then 1
    else if 0xC2 <= a < 0xE0 && IsContinuation(b) then 2
    else if 0xE0 <= a < 0xF0 && IsContinuation(b) && (a == 0xE0 ==> b >= 0xA0) && (a == 0xED ==> b < 0xA0) && tail2
    then 3
    else if 0xF0 <= a < 0xF5 && IsContinuation(b) && (a == 0xF0 ==> b >= 0x90) && (a == 0xF4 ==> b < 0x90)
            && tail2 && tail3
    then 4
    else 0
  }

  predicate WellFormed(s: seq<Byte>) {
    s == [] || (SequenceSize(s) > 0 && WellFormed(s[SequenceSize(s)..]))
  }

  /** A code point that may be encoded: not a surrogate, and at most 0x10FFFF. */
  predicate IsScalar(cp: int) {
    0 <= cp < 0xD800 || 0xE000 <= cp <= 0x10FFFF
  }

  /** UTF-8 of any code point, in one to four bytes. */
  function Encoded(cp: int): (bs: seq<Byte>)
    requires IsScalar(cp)
    ensures 1 <= |bs| <= 4
  {
    if cp <= 0xFFFF then Utf8(cp)
    else [0xF0 + cp / 262144, 0x80 + cp / 4096 % 64, 0x80 + cp / 64 % 64, 0x80 + cp % 64]
  }

  /** Every encoding is well-formed. */
  lemma EncodingIsSequence(cp: int, rest: seq<Byte>)
    requires IsScalar(cp)
    ensures SequenceSize(Encoded(cp) + rest) == |Encoded(cp)|
  {
    var bs := Encoded(cp);
    var s := bs + rest;
    assert s[0] == bs[0] && At(s, 1) == (if |bs| > 1 then bs[1] else At(s, 1));
    if |bs| == 3 {
      assert At(s, 2) == bs[2];
      ThreeBytes(cp);
    } else if |bs| == 4 {
      assert At(s, 2) == bs[2] && At(s, 3) == bs[3];
      FourBytes(cp);
    }
  }

  lemma ThreeBytes(cp: int)
    requires 0x800 <= cp <= 0xFFFF
    ensures cp / 4096 == 0 ==> cp / 64 % 64 >= 32
    ensures cp / 4096 == 13 && cp < 0xD800 ==> cp / 64 % 64 < 32
    ensures cp / 4096 < 16 && (cp >= 0xE000 ==> cp / 4096 >= 14)
  {
  }

  lemma FourBytes(cp: int)
    requires 0x1_0000 <= cp <= 0x10_FFFF
    ensures cp / 262144 == 0 ==> cp / 4096 % 64 >= 16
    ensures cp / 262144 == 4 ==> cp / 4096 % 64 < 16
    ensures cp / 262144 < 5
  {
  }

  lemma TwoAreEncoding(a: int, b: int)
    requires 2 <= a < 32 && 0 <= b < 64
    ensures IsScalar(a * 64 + b) && Encoded(a * 64 + b) == [0xC0 + a, 0x80 + b]
  {
    Digits(a, b);
  }

  lemma ThreeAreEncoding(a: int, b: int, c: int)
    requires 0 <= a < 16 && 0 <= b < 64 && 0 <= c < 64 && (a == 0 ==> b >= 32) && (a == 13 ==> b < 32)
    ensures var cp := (a * 64 + b) * 64 + c; IsScalar(cp) && Encoded(cp) == [0xE0 + a, 0x80 + b, 0x80 + c]
  {
    var cp := (a * 64 + b) * 64 + c;
    Digits(a * 64 + b, c);
    Digits(a, b);
    assert cp / 4096 == cp / 64 / 64;
  }

  lemma FourAreEncoding(a: int, b: int, c: int, d: int)
    requires 0 <= a < 5 && 0 <= b < 64 && 0 <= c < 64 && 0 <= d < 64 && (a == 0 ==> b >= 16) && (a == 4 ==> b < 16)
    ensures var cp := ((a * 64 + b) * 64 + c) * 64 + d;
      IsScalar(cp) && Encoded(cp) == [0xF0 + a, 0x80 + b, 0x80 + c, 0x80 + d]
  {
    var cp := ((a * 64 + b) * 64 + c) * 64 + d;
    Digits((a * 64 + b) * 64 + c, d);
    Digits(a * 64 + b, c);
    Digits(a, b);
    assert cp / 4096 == cp / 64 / 64 && cp / 262144 == cp / 64 / 64 / 64;
  }

  /** And every well-formed sequence is the encoding of a code point. */
  lemma SequenceIsEncoding(s: seq<Byte>) returns (cp: int)
    requires s != [] && SequenceSize(s) > 0
    ensures IsScalar(cp) && s[..SequenceSize(s)] == Encoded(cp)
  {
    var n := SequenceSize(s);
    var b: int, c: int, d: int := At(s, 1) - 0x80, At(s, 2) - 0x80, At(s, 3) - 0x80;
    var a: int := s[0];
    if n == 1 {
      cp := a;
    } else if n == 2 {
      cp := (a - 0xC0) * 64 + b;
      TwoAreEncoding(a - 0xC0, b);
    } else if n == 3 {
      cp := ((a - 0xE0) * 64 + b) * 64 + c;
      ThreeAreEncoding(a - 0xE0, b, c);
    } else {
      cp := (((a - 0xF0) * 64 + b) * 64 + c) * 64 + d;
      FourAreEncoding(a - 0xF0, b, c, d);
    }
  }

  lemma Digits(high: int, low: int)
    requires 0 <= low < 64
    ensures (high * 64 + low) / 64 == high && (high * 64 + low) % 64 == low
  {
  }

  lemma SkipBad(s: seq<Byte>, b: Byte)
    requires s != [] && (IsContinuation(s[0]) || s[0] >= 0xF0)
    ensures OverlongCount(s, b) == OverlongCount(s[1..], b)
  {
  }

  lemma SkipFour(s: seq<Byte>, b: Byte)
    requires s != [] && SequenceSize(s) == 4
    ensures OverlongCount(s, b) == OverlongCount(s[4..], b)
  {
    SkipBad(s, b);
    SkipBad(s[1..], b);
    assert s[1..][1..] == s[2..];
    SkipBad(s[2..], b);
    assert s[2..][1..] == s[3..];
    SkipBad(s[3..], b);
    assert s[3..][1..] == s[4..];
  }

  /** Well-formed UTF-8 writes no ASCII character overlong. */
  lemma {:induction false} WellFormedIsNotOverlong(s: seq<Byte>, b: Byte)
    requires WellFormed(s) && b < 0x80
    ensures OverlongCount(s, b) == 0
  {
    if s != [] {
      var n := SequenceSize(s);
      WellFormedIsNotOverlong(s[n..], b);
      if n == 4 {
        SkipFour(s, b);
      }
    }
  }

  /** For a well-formed path the conversion works part by part, makes no ".."
      and no NUL, and the result is no longer. */
  lemma WellFormedPath(tab: Table, s: seq<Byte>)
    requires ValidTable(tab) && WellFormed(s) && IsText(s)
    ensures Split(ToGbk(tab, s)) == ToGbkAll(tab, Split(s))
    ensures forall i :: 0 <= i < |Split(s)| ==> (Split(ToGbk(tab, s))[i] == DOT_DOT <==> Split(s)[i] == DOT_DOT)
    ensures IsText(ToGbk(tab, s)) && |ToGbk(tab, s)| <= |s|
  {
    WellFormedIsNotOverlong(s, SLASH);
    WellFormedIsNotOverlong(s, DOT);
    WellFormedIsNotOverlong(s, 0);
    SplitCommutes(tab, s);
    var segs := Split(s);
    forall i | 0 <= i < |segs| ensures ToGbk(tab, segs[i]) == DOT_DOT <==> segs[i] == DOT_DOT {
      SplitOverlong(s, DOT, i);
      DotDotSegment(tab, segs[i]);
    }
    CountAfterConversion(tab, s, 0);
    TextHasNoNul(s);
    TextHasNoNul(ToGbk(tab, s));
    GbkIsNoLonger(tab, s);
  }

  lemma {:induction false} TextHasNoNul(s: seq<Byte>)
    ensures IsText(s) <==> CountOf(s, 0) == 0
  {
    if s != [] {
      TextHasNoNul(s[1..]);
      assert forall i :: 1 <= i < |s| ==> s[i] == s[1..][i - 1];
    }
  }

  /* ---------- The check and the full path ---------- */

  /** What the path check lets through: an absolute path of printable
      characters without a backslash and without a ".." part. */
  ghost predicate Accepted(path: seq<Byte>) {
    && 0 < |path| < PATH_MAX && path[0] == SLASH
    && (forall i :: 0 <= i < |path| ==> path[i] >= 0x20 && path[i] != BACKSLASH)
    && DOT_DOT !in Split(path)
  }

  /** How long an accepted path may be. */
  lemma LongestPath(name: seq<Byte>)
    requires NoSlash(name) && forall i :: 0 <= i < |name| ==> name[i] == 0x61
    ensures Accepted([SLASH] + name) <==> |name| <= 254
  {
    OneName(name);
    assert |name| == 2 ==> name[0] != DOT;
  }

  /** Which bytes it may have. */
  lemma AcceptedByte(b: Byte)
    requires b != SLASH
    ensures Accepted([SLASH] + [b]) <==> b >= 32 && b != 92
  {
    OneName([b]);
  }

  lemma OneName(name: seq<Byte>)
    requires NoSlash(name)
    ensures var path := [SLASH] + name;
      Split(path) == [[], name] && path[0] == SLASH && forall i :: 1 <= i < |path| ==> path[i] == name[i - 1]
  {
    OnePart(name);
    SplitSlash(name);
  }

  /** strchr: the next slash, or the end. */
  method NextSlash(s: seq<Byte>, from: nat) returns (end: nat)
    requires from <= |s|
    ensures from <= end <= |s| && NoSlash(s[from..end]) && (end < |s| ==> s[end] == SLASH)
  {
    end := from;
    while end < |s| && s[end] != SLASH
      invariant from <= end <= |s| && NoSlash(s[from..end])
    {
      assert s[from..end + 1] == s[from..end] + [s[end]];
      end := end + 1;
    }
  }

  lemma SegmentAt(s: seq<Byte>, from: nat, end: nat)
    requires from <= end <= |s| && NoSlash(s[from..end]) && (end < |s| ==> s[end] == SLASH)
    ensures DOT_DOT in Split(s[from..]) <==> s[from..end] == DOT_DOT || DOT_DOT in Split(s[end..])
  {
    var seg, rest := s[from..end], s[end..];
    assert s[from..] == seg + rest;
    SplitPrefix(seg, rest);
    assert Split(rest)[0] == [];
    assert seg + [] == seg;
    assert Split(rest) == [Split(rest)[0]] + Split(rest)[1..];
  }

  lemma IsDotDot(s: seq<Byte>)
    ensures s == DOT_DOT <==> |s| == 2 && s[0] == DOT && s[1] == DOT
  {
  }

  lemma AfterSlash(s: seq<Byte>)
    requires s != [] && s[0] == SLASH
    ensures DOT_DOT in Split(s) <==> DOT_DOT in Split(s[1..])
  {
    var rest := Split(s[1..]);
    assert Split(s) == [[]] + rest && Split(s)[1..] == rest;
    assert [] != DOT_DOT;
  }

  method PathCheck(input: Input) returns (ok: bool)
    requires IsText(input.Bytes())
    ensures ok <==> Accepted(input.Bytes())
  {
    var path := input.Bytes();
    if input.NoInput? || At(path, 0) != SLASH {
      return false;
    }
    if |path| >= PATH_MAX {
      return false;
    }
    var p := 0;
    while p < |path|
      invariant 0 <= p <= |path|
      invariant forall i :: 0 <= i < p ==> path[i] >= 0x20 && path[i] != BACKSLASH
    {
      if path[p] < 0x20 || path[p] == BACKSLASH {
        return false;
      }
      p := p + 1;
    }
    ok := NoDotDot(path);
  }

  /** Walk over the parts. */
  method NoDotDot(path: seq<Byte>) returns (ok: bool)
    ensures ok <==> DOT_DOT !in Split(path)
  {
    var seg := 0;
    assert path[0..] == path;
    while seg < |path|
      invariant 0 <= seg <= |path|
      invariant DOT_DOT in Split(path) <==> DOT_DOT in Split(path[seg..])
    {
      if path[seg] == SLASH {
        AfterSlash(path[seg..]);
        assert path[seg..][1..] == path[seg + 1..];
        seg := seg + 1;
      } else {
        var end := NextSlash(path, seg);
        SegmentAt(path, seg, end);
        IsDotDot(path[seg..end]);
        if end - seg == 2 && path[seg] == DOT && path[seg + 1] == DOT {
          return false;
        }
        seg := end;
      }
    }
    assert path[seg..] == [];
    return true;
  }

  datatype Outcome = Ok | InvalidArg | InvalidSize

  /** What C makes of a string with a NUL inside. */
  function CString(s: seq<Byte>): (r: seq<Byte>)
    ensures IsText(r) && r <= s && (|r| < |s| ==> s[|r|] == 0)
  {
    if s == [] || s[0] == 0 then [] else [s[0]] + CString(s[1..])
  }

  lemma CStringOfText(s: seq<Byte>)
    requires IsText(s)
    ensures CString(s) == s
  {
  }

  /** snprintf of a string: as much as fits, and a terminator. */
  method Format(s: seq<Byte>, out: array<Byte>, outLen: nat)
    requires 0 < outLen <= out.Length
    modifies out
    ensures IsString(out[..outLen], s) && out[outLen..] == old(out[outLen..])
  {
    var i := 0;
    while i < |s| && i + 1 < outLen
      invariant 0 <= i <= |s| && i < outLen && out[..i] == s[..i] && out[outLen..] == old(out[outLen..])
    {
      out[i] := s[i];
      i := i + 1;
    }
    out[i] := 0;
    assert out[..outLen][..i] == out[..i];
  }

  lemma {:induction false} CStringEnds(s: seq<Byte>, n: nat)
    requires n <= |s| && IsText(s[..n]) && (n < |s| ==> s[n] == 0)
    ensures CString(s) == s[..n]
  {
    if n > 0 {
      assert s[1..][..n - 1] == s[..n][1..];
      assert s[0] == s[..n][0];
      CStringEnds(s[1..], n - 1);
    }
  }

  /** Read a string up to its terminator. */
  method ReadString(b: array<Byte>, ghost s: seq<Byte>) returns (r: seq<Byte>)
    requires |s| < b.Length && IsString(b[..], s)
    ensures r == CString(s)
  {
    assert b[..][..|s|] == s;
    assert b[|s|] == 0;
    var n := 0;
    while b[n] != 0
      invariant n <= |s| && forall i :: 0 <= i < n ==> b[i] != 0
      decreases |s| - n
    {
      n := n + 1;
    }
    assert forall i :: 0 <= i < |s| ==> s[i] == b[i];
    CStringEnds(s, n);
    r := b[..n];
    assert r == s[..n];
  }

  /** The path the file system gets. */
  ghost function FullPathOf(tab: Table, path: seq<Byte>): seq<Byte>
    requires ValidTable(tab)
  {
    if path == [SLASH] then MOUNT_POINT else MOUNT_POINT + CString(ToGbk(tab, path))
  }

  method FullPath(tab: Table, input: Input, out: array?<Byte>, outLen: nat) returns (r: Outcome)
    requires ValidTable(tab) && IsText(input.Bytes()) && (out != null ==> outLen <= out.Length)
    modifies if out == null then {} else {out}
    ensures r == (if out == null || outLen == 0 || !Accepted(input.Bytes()) then InvalidArg
                  else if |FullPathOf(tab, input.Bytes())| >= outLen then InvalidSize else Ok)
    ensures r == Ok ==> IsString(out[..outLen], FullPathOf(tab, input.Bytes()))
    ensures out != null ==> out[outLen..] == old(out[outLen..])
    ensures r == InvalidArg && out != null ==> out[..] == old(out[..])
  {
    if out == null || outLen == 0 {
      return InvalidArg;
    }
    var ok := PathCheck(input);
    if !ok {
      return InvalidArg;
    }
    var path := input.Bytes();
    if path == [SLASH] {
      if outLen < |MOUNT_POINT| + 1 {
        return InvalidSize;
      }
      Format(MOUNT_POINT, out, outLen);
      return Ok;
    }
    var gbk := new Byte[PATH_MAX];
    Utf8ToGbk(tab, input, gbk, PATH_MAX);
    GbkIsNoLonger(tab, path);
    assert gbk[..PATH_MAX] == gbk[..];
    var converted := ReadString(gbk, ToGbk(tab, path));
    Format(MOUNT_POINT + converted, out, outLen);
    if |MOUNT_POINT + converted| >= outLen {
      return InvalidSize;
    }
    return Ok;
  }

  /** The root is the mount point itself, without a slash after it, and everything else
      is below it. */
  lemma RootIsMountPoint(tab: Table, name: seq<Byte>)
    requires ValidTable(tab) && name != []
    ensures FullPathOf(tab, [SLASH]) == MOUNT_POINT
    ensures |MOUNT_POINT| == |"/sdcard"| && forall i :: 0 <= i < |MOUNT_POINT| ==> MOUNT_POINT[i] == "/sdcard"[i] as int
    ensures FullPathOf(tab, [SLASH] + name) == MOUNT_POINT + CString(ToGbk(tab, [SLASH] + name))
  {
    var path := [SLASH] + name;
    assert |path| > 1;
    assert forall i :: 0 <= i < 7 ==> MOUNT_POINT[i] == "/sdcard"[i] as int;
  }

  /** The parts of a joined path: none before the slash, the name of the
      mount point, and the parts after the second slash. */
  lemma SplitJoined(name: seq<Byte>, rest: seq<Byte>)
    requires NoSlash(name) && rest != [] && rest[0] == SLASH
    ensures Split([SLASH] + name + rest) == [[], name] + Split(rest)[1..]
  {
    SplitPrefix(name, rest);
    EmptyFirst(rest);
    assert name + [] == name;
    var tail := Split(rest)[1..];
    assert Split(name + rest) == [name] + tail;
    assert [SLASH] + name + rest == [SLASH] + (name + rest);
    SplitSlash(name + rest);
    PartsJoined(name, tail);
  }

  lemma PartsJoined(name: seq<Byte>, tail: seq<seq<Byte>>)
    ensures [[]] + ([name] + tail) == [[], name] + tail
  {
  }

  lemma EmptyFirst(rest: seq<Byte>)
    requires rest != [] && rest[0] == SLASH
    ensures Split(rest)[0] == []
  {
  }

  lemma SplitSlash(s: seq<Byte>)
    ensures Split([SLASH] + s) == [[]] + Split(s)
  {
    assert ([SLASH] + s)[1..] == s;
  }

  lemma ConvertedStart(tab: Table, path: seq<Byte>)
    requires ValidTable(tab) && path != [] && path[0] == SLASH
    ensures ToGbk(tab, path) != [] && ToGbk(tab, path)[0] == SLASH
  {
    assert HeadCode(tab, path) == [SLASH];
  }

  /* ---------- Exactly when a full path has a ".." part ---------- */

  /** What the converter decodes: code points, and -1 for each bad byte. */
  function Points(s: seq<Byte>): seq<int> {
    if s == [] then []
    else [if DecodeHead(s).Code? then DecodeHead(s).cp else -1] + Points(s[HeadSize(s)..])
  }

  /** The parts between the slashes of a decoded string. */
  function PointParts(ps: seq<int>): (parts: seq<seq<int>>)
    ensures |parts| > 0
  {
    if ps == [] then [[]]
    else
      var parts := PointParts(ps[1..]);
      if ps[0] == 0x2F then [[]] + parts else [[ps[0]] + parts[0]] + parts[1..]
  }

  const TWO_DOTS: seq<int> := [0x2E, 0x2E]

  function BeforeNul(ps: seq<int>): seq<int> {
    if ps == [] || ps[0] == 0 then [] else [ps[0]] + BeforeNul(ps[1..])
  }

  /** A scan for a part of two dots: k dots so far, or 3 for anything else. */
  function Next(k: nat, p: int): nat {
    if p == 0x2E && k < 2 then k + 1 else 3
  }

  predicate Scan(ps: seq<int>, k: nat) {
    if ps == [] || ps[0] == 0 then k == 2
    else if ps[0] == 0x2F then k == 2 || Scan(ps[1..], 0)
    else Scan(ps[1..], Next(k, ps[0]))
  }

  /** How far into two dots the scan is after the start of a part. */
  function Progress(pre: seq<int>): nat {
    if pre == [] then 0 else if pre == [0x2E] then 1 else if pre == TWO_DOTS then 2 else 3
  }

  lemma ProgressNext(pre: seq<int>, p: int)
    ensures Progress(pre + [p]) == Next(Progress(pre), p)
  {
    var more := pre + [p];
    assert more[|pre|] == p && more[..|pre|] == pre;
    assert |pre| == 1 ==> more == [pre[0], p];
  }

  ghost predicate Unslashed(pre: seq<int>) {
    forall i :: 0 <= i < |pre| ==> pre[i] != 0x2F
  }

  lemma {:induction false} PartsPrefix(pre: seq<int>, ps: seq<int>)
    requires Unslashed(pre)
    ensures PointParts(pre + ps) == [pre + PointParts(ps)[0]] + PointParts(ps)[1..]
  {
    if pre == [] {
      assert pre + ps == ps && pre + PointParts(ps)[0] == PointParts(ps)[0];
    } else {
      PartsPrefix(pre[1..], ps);
      assert (pre + ps)[1..] == pre[1..] + ps;
      assert [pre[0]] + (pre[1..] + PointParts(ps)[0]) == pre + PointParts(ps)[0];
    }
  }

  lemma PartsSlash(pre: seq<int>, ps: seq<int>)
    requires Unslashed(pre) && ps != [] && ps[0] == 0x2F
    ensures TWO_DOTS in PointParts(pre + ps) <==> pre == TWO_DOTS || TWO_DOTS in PointParts(ps[1..])
  {
    PartsPrefix(pre, ps);
    assert PointParts(ps)[0] == [] && PointParts(ps)[1..] == PointParts(ps[1..]);
    assert pre + [] == pre;
    AmongFirst(pre, PointParts(ps[1..]));
  }

  lemma AmongFirst(x: seq<int>, rest: seq<seq<int>>)
    ensures TWO_DOTS in [x] + rest <==> x == TWO_DOTS || TWO_DOTS in rest
  {
  }

  /** The scan finds a part of two dots, up to a NUL. */
  lemma {:induction false} ScanFindsParts(pre: seq<int>, ps: seq<int>)
    requires Unslashed(pre)
    ensures Scan(ps, Progress(pre)) <==> TWO_DOTS in PointParts(pre + BeforeNul(ps))
    decreases |ps|
  {
    var text := BeforeNul(ps);
    if text == [] {
      PartsPrefix(pre, []);
      assert pre + [] == pre && PointParts(pre) == [pre];
    } else if ps[0] == 0x2F {
      ScanFindsParts([], ps[1..]);
      assert text[1..] == BeforeNul(ps[1..]) && [] + text[1..] == text[1..];
      PartsSlash(pre, text);
    } else {
      ScanFindsParts(pre + [ps[0]], ps[1..]);
      ProgressNext(pre, ps[0]);
      assert pre + [ps[0]] + BeforeNul(ps[1..]) == pre + text;
    }
  }

  /** Converting neither makes nor hides dots, slashes and NULs. */
  lemma ScanHead(tab: Table, s: seq<Byte>, rest: seq<int>, k: nat)
    requires ValidTable(tab) && s != []
    ensures Scan(HeadCode(tab, s) + rest, k) == Scan([if DecodeHead(s).Code? then DecodeHead(s).cp else -1] + rest, k)
  {
    var code := HeadCode(tab, s);
    var p := if DecodeHead(s).Code? then DecodeHead(s).cp else -1;
    var all: seq<int> := code + rest;
    assert ([p] + rest)[1..] == rest;
    assert code[0] == p || (code[0] >= 0x3F && !(0 <= p < 0x80));
    if |code| == 1 {
      assert all[1..] == rest;
    } else {
      assert code[1] >= 0x40 && all[1] == code[1];
      assert all[1..][1..] == rest;
    }
  }

  lemma {:induction false} ScanSurvives(tab: Table, s: seq<Byte>, k: nat)
    requires ValidTable(tab)
    ensures Scan(ToGbk(tab, s), k) == Scan(Points(s), k)
    decreases |s|
  {
    if s != [] {
      var rest := s[HeadSize(s)..];
      ScanHead(tab, s, ToGbk(tab, rest), k);
      ScanTail(tab, s, rest, k);
    }
  }

  lemma ScanTail(tab: Table, s: seq<Byte>, rest: seq<Byte>, k: nat)
    requires ValidTable(tab) && s != [] && rest == s[HeadSize(s)..]
    ensures var p := [if DecodeHead(s).Code? then DecodeHead(s).cp else -1];
      Scan(p + ToGbk(tab, rest), k) == Scan(p + Points(rest), k)
    decreases |s|, 0
  {
    var p := if DecodeHead(s).Code? then DecodeHead(s).cp else -1;
    assert ([p] + ToGbk(tab, rest))[1..] == ToGbk(tab, rest) && ([p] + Points(rest))[1..] == Points(rest);
    ScanSurvives(tab, rest, 0);
    ScanSurvives(tab, rest, Next(k, p));
  }

  lemma {:induction false} PartsOfBytes(s: seq<Byte>)
    ensures |PointParts(s)| == |Split(s)| && forall i :: 0 <= i < |Split(s)| ==> PointParts(s)[i] == Split(s)[i]
  {
    if s != [] {
      PartsOfBytes(s[1..]);
    }
  }

  lemma DotDotOfBytes(s: seq<Byte>)
    ensures DOT_DOT in Split(s) <==> TWO_DOTS in PointParts(s)
  {
    PartsOfBytes(s);
    var a, b := Split(s), PointParts(s);
    if DOT_DOT in a {
      var i :| 0 <= i < |a| && a[i] == DOT_DOT;
      assert b[i] == TWO_DOTS;
    }
    if TWO_DOTS in b {
      var i :| 0 <= i < |b| && b[i] == TWO_DOTS;
      assert a[i] == DOT_DOT;
    }
  }

  lemma {:induction false} CStringIsBeforeNul(s: seq<Byte>)
    ensures BeforeNul(s) == CString(s)
  {
    if s != [] && s[0] != 0 {
      CStringIsBeforeNul(s[1..]);
    }
  }

  /** A joined path has a ".." part exactly if what is joined on has. */
  lemma DotDotOfJoined(rest: seq<Byte>)
    requires rest != [] && rest[0] == SLASH
    ensures DOT_DOT in Split(MOUNT_POINT + rest) <==> DOT_DOT in Split(rest)
  {
    var name := MOUNT_POINT[1..];
    SplitJoined(name, rest);
    assert MOUNT_POINT + rest == [SLASH] + name + rest;
    EmptyFirst(rest);
    var tail := Split(rest)[1..];
    assert Split(rest) == [[]] + tail;
    assert [] != DOT_DOT && name != DOT_DOT;
  }

  /** What the converted path says, the decoded path says. */
  lemma DotDotOfConverted(tab: Table, path: seq<Byte>)
    requires ValidTable(tab)
    ensures DOT_DOT in Split(CString(ToGbk(tab, path))) <==> TWO_DOTS in PointParts(BeforeNul(Points(path)))
  {
    var gbk := ToGbk(tab, path);
    DotDotOfBytes(CString(gbk));
    CStringIsBeforeNul(gbk);
    ScanFindsParts([], gbk);
    ScanFindsParts([], Points(path));
    ScanSurvives(tab, path, 0);
    assert [] + BeforeNul(gbk) == BeforeNul(gbk);
    assert [] + BeforeNul(Points(path)) == BeforeNul(Points(path));
  }

  lemma RootHasNoDotDot()
    ensures DOT_DOT !in Split(MOUNT_POINT)
    ensures TWO_DOTS !in PointParts(BeforeNul(Points([SLASH])))
  {
    var name := MOUNT_POINT[1..];
    SplitPrefix(name, []);
    assert name + [] == name && [SLASH] + name == MOUNT_POINT;
    SplitSlash(name);
    assert Split(name) == [name] && Split(MOUNT_POINT) == [[]] + [name];
    assert [] != DOT_DOT && name != DOT_DOT;
    assert Points([SLASH]) == [0x2F];
    assert BeforeNul([0x2F]) == [0x2F];
    assert PointParts([0x2F]) == [[], []];
  }

  /** For every accepted path: its full path has a ".." part exactly if the
      decoded path, up to its first NUL, has one. The check looks at the bytes,
      so it meets its purpose exactly when these two agree. */
  lemma FullPathHasDotDotIfDecodedHas(tab: Table, path: seq<Byte>)
    requires ValidTable(tab) && Accepted(path)
    ensures DOT_DOT in Split(FullPathOf(tab, path)) <==> TWO_DOTS in PointParts(BeforeNul(Points(path)))
  {
    if path == [SLASH] {
      RootHasNoDotDot();
    } else {
      ConvertedStart(tab, path);
      DotDotOfConverted(tab, path);
      DotDotOfJoined(CString(ToGbk(tab, path)));
    }
  }

  /** Nothing that is accepted and well-formed converts to a path with a ".." part. */
  lemma ConvertedHasNoDotDot(tab: Table, path: seq<Byte>)
    requires ValidTable(tab) && Accepted(path) && WellFormed(path)
    ensures DOT_DOT !in Split(ToGbk(tab, path))
  {
    WellFormedPath(tab, path);
    var parts := Split(ToGbk(tab, path));
    forall i | 0 <= i < |parts| ensures parts[i] != DOT_DOT {
      assert Split(path)[i] in Split(path);
    }
  }

  /** So an accepted, well-formed path stays below the mount point: its full path
      has the parts of the mount point and then the converted parts. */
  lemma FullPathStaysBelowMountPoint(tab: Table, path: seq<Byte>)
    requires ValidTable(tab) && Accepted(path) && WellFormed(path) && path != [SLASH]
    ensures DOT_DOT !in Split(FullPathOf(tab, path))
    ensures TWO_DOTS !in PointParts(BeforeNul(Points(path)))
    ensures Split(FullPathOf(tab, path)) == [[], MOUNT_POINT[1..]] + ToGbkAll(tab, Split(path))[1..]
    ensures |FullPathOf(tab, path)| <= |MOUNT_POINT| + |path|
  {
    var gbk := ToGbk(tab, path);
    WellFormedPath(tab, path);
    ConvertedStart(tab, path);
    CStringOfText(gbk);
    ConvertedHasNoDotDot(tab, path);
    DotDotOfJoined(gbk);
    FullPathHasDotDotIfDecodedHas(tab, path);
    JoinedParts(gbk);
  }

  lemma JoinedParts(rest: seq<Byte>)
    requires rest != [] && rest[0] == SLASH
    ensures Split(MOUNT_POINT + rest) == [[], MOUNT_POINT[1..]] + Split(rest)[1..]
  {
    SplitJoined(MOUNT_POINT[1..], rest);
    assert MOUNT_POINT + rest == [SLASH] + MOUNT_POINT[1..] + rest;
  }

  /* ---------- A path that the check does not mean to accept ---------- */

  /** Two dots in two bytes each. */
  const OVERLONG: seq<Byte> := [0x2F, 0xC0, 0xAE, 0xC0, 0xAE, 0x2F, 0x78]

  lemma OverlongPoints()
    ensures Points(OVERLONG) == [0x2F, 0x2E, 0x2E, 0x2F, 0x78]
  {
    var a, b, c, d := OVERLONG[1..], OVERLONG[3..], OVERLONG[5..], OVERLONG[6..];
    var empty: seq<Byte> := [];
    PointsStep(OVERLONG, a, 0x2F, 1);
    PointsStep(a, b, 0x2E, 2);
    PointsStep(b, c, 0x2E, 2);
    PointsStep(c, d, 0x2F, 1);
    PointsStep(d, empty, 0x78, 1);
  }

  lemma PointsStep(s: seq<Byte>, rest: seq<Byte>, cp: int, n: nat)
    requires s != [] && DecodeHead(s) == Code(cp, n) && rest == s[n..]
    ensures Points(s) == [cp] + Points(rest)
  {
  }

  lemma OverlongIsAccepted()
    ensures Accepted(OVERLONG) && !WellFormed(OVERLONG)
  {
    var name: seq<Byte> := [0xC0, 0xAE, 0xC0, 0xAE];
    assert OVERLONG == [SLASH] + (name + [SLASH, 0x78]);
    SplitSlash(name + [SLASH, 0x78]);
    SplitPrefix(name, [SLASH, 0x78]);
    assert [SLASH, 0x78] == [SLASH] + [0x78];
    SplitSlash([0x78]);
    var x: seq<Byte> := [0x78];
    assert x[1..] == [] && x + [] == x;
    assert Split(x) == [[0x78]];
    assert name + [] == name && name != DOT_DOT && [0x78] != DOT_DOT && [] != DOT_DOT;
    assert Split(OVERLONG) == [[], name, [0x78]];
    assert SequenceSize(OVERLONG) == 1 && SequenceSize(OVERLONG[1..]) == 0;
  }

  lemma ScansDots()
    ensures Scan([0x2F, 0x2E, 0x2E, 0x2F, 0x78], 0)
  {
    var ps := [0x2F, 0x2E, 0x2E, 0x2F, 0x78];
    var a, b, c := ps[1..], ps[2..], ps[3..];
    assert a[1..] == b && b[1..] == c;
    assert Scan(c, 2);
    assert Scan(b, 1);
    assert Scan(a, 0);
  }

  /** The check is not enough for every path: this one is accepted, and its full
      path has a ".." part. */
  lemma OverlongPathHasDotDot(tab: Table)
    requires ValidTable(tab)
    ensures Accepted(OVERLONG) && !WellFormed(OVERLONG) && DOT_DOT in Split(FullPathOf(tab, OVERLONG))
  {
    OverlongIsAccepted();
    OverlongPoints();
    ScansDots();
    ScanFindsParts([], Points(OVERLONG));
    assert [] + BeforeNul(Points(OVERLONG)) == BeforeNul(Points(OVERLONG));
    FullPathHasDotDotIfDecodedHas(tab, OVERLONG);
  }

  /* ---------- Exactly which characters a full path has ---------- */

  /** The bytes of a decoded point, '?' for a bad one. */
  function CodeOf(tab: Table, p: int): (bs: seq<Byte>)
    requires ValidTable(tab) && -1 <= p <= 0xFFFF
    ensures 1 <= |bs| <= 2
  {
    if p < 0 then [QUESTION] else GbkCode(tab, p)
  }

  predicate ArePoints(ps: seq<int>) {
    forall i :: 0 <= i < |ps| ==> -1 <= ps[i] <= 0xFFFF
  }

  /** A point that is converted to a code with the byte. */
  ghost predicate Carries(tab: Table, ps: seq<int>, b: Byte)
    requires ValidTable(tab) && ArePoints(ps)
  {
    exists i :: 0 <= i < |ps| && b in CodeOf(tab, ps[i])
  }

  /** What the converter decodes before a NUL. */
  function Decoded(s: seq<Byte>): (ps: seq<int>)
    ensures ArePoints(ps)
  {
    PointsArePoints(s);
    BeforeNulArePoints(Points(s));
    BeforeNul(Points(s))
  }

  lemma {:induction false} PointsArePoints(s: seq<Byte>)
    ensures ArePoints(Points(s))
  {
    if s != [] {
      PointsArePoints(s[HeadSize(s)..]);
    }
  }

  lemma {:induction false} BeforeNulArePoints(ps: seq<int>)
    requires ArePoints(ps)
    ensures ArePoints(BeforeNul(ps))
  {
    if ps != [] && ps[0] != 0 {
      BeforeNulArePoints(ps[1..]);
    }
  }

  /** Each code point gives its code, and nothing but NUL gives a NUL. */
  lemma HeadIsCode(tab: Table, s: seq<Byte>)
    requires ValidTable(tab) && s != []
    ensures var p := if DecodeHead(s).Code? then DecodeHead(s).cp else -1;
      && HeadCode(tab, s) == CodeOf(tab, p)
      && (p == 0 ==> HeadCode(tab, s) == [0]) && (p != 0 ==> IsText(HeadCode(tab, s)))
  {
  }

  lemma CStringOfCode(code: seq<Byte>, rest: seq<Byte>)
    requires 1 <= |code| <= 2 && IsText(code)
    ensures CString(code + rest) == code + CString(rest)
  {
    var all := code + rest;
    assert all[0] == code[0] && all[1..] == code[1..] + rest;
    if |code| == 2 {
      assert all[1..][0] == code[1] && all[1..][1..] == rest;
    } else {
      assert all[1..] == rest;
    }
  }

  lemma CarriesRest(tab: Table, p: int, ps: seq<int>, b: Byte)
    requires ValidTable(tab) && -1 <= p <= 0xFFFF && ArePoints(ps) && Carries(tab, ps, b)
    ensures Carries(tab, [p] + ps, b)
  {
    var all := [p] + ps;
    var i :| 0 <= i < |ps| && b in CodeOf(tab, ps[i]);
    assert all[i + 1] == ps[i];
  }

  lemma CarriesFirst(tab: Table, p: int, ps: seq<int>, b: Byte)
    requires ValidTable(tab) && -1 <= p <= 0xFFFF && ArePoints(ps)
    ensures Carries(tab, [p] + ps, b) <==> b in CodeOf(tab, p) || Carries(tab, ps, b)
  {
    var all := [p] + ps;
    if b in CodeOf(tab, p) {
      assert all[0] == p;
    } else if Carries(tab, ps, b) {
      CarriesRest(tab, p, ps, b);
    }
  }

  /** A converted string has a byte exactly if a decoded point carries it. */
  lemma {:induction false} ConvertedHasIfCarried(tab: Table, s: seq<Byte>, b: Byte)
    requires ValidTable(tab)
    ensures b in CString(ToGbk(tab, s)) <==> Carries(tab, Decoded(s), b)
  {
    if s != [] {
      var p := if DecodeHead(s).Code? then DecodeHead(s).cp else -1;
      var rest := s[HeadSize(s)..];
      HeadIsCode(tab, s);
      if p == 0 {
        assert Decoded(s) == [];
      } else {
        ConvertedHasIfCarried(tab, rest, b);
        CStringOfCode(HeadCode(tab, s), ToGbk(tab, rest));
        DecodedStep(s);
        CarriesFirst(tab, p, Decoded(rest), b);
      }
    }
  }

  lemma DecodedStep(s: seq<Byte>)
    requires s != []
    ensures var p := if DecodeHead(s).Code? then DecodeHead(s).cp else -1;
      p != 0 ==> Decoded(s) == [p] + Decoded(s[HeadSize(s)..])
  {
    var rest := Points(s[HeadSize(s)..]);
    assert Points(s)[1..] == rest;
  }

  /** A code point of two bytes, the second a backslash. */
  predicate EndsInBackslash(tab: Table, p: int)
    requires ValidTable(tab)
  {
    0x80 <= p <= 0xFFFF && |GbkCode(tab, p)| == 2 && GbkCode(tab, p)[1] == BACKSLASH
  }

  lemma CodeBytes(tab: Table, p: int, b: Byte)
    requires ValidTable(tab) && -1 <= p <= 0xFFFF
    ensures b < 0x20 ==> (b in CodeOf(tab, p) <==> p == b)
    ensures BACKSLASH in CodeOf(tab, p) <==> p == 0x5C || EndsInBackslash(tab, p)
  {
  }

  lemma MountPointIsPlain(s: seq<Byte>, b: Byte)
    requires b < 0x20 || b == BACKSLASH
    ensures b in MOUNT_POINT + s <==> b in s
  {
    assert b !in MOUNT_POINT;
  }

  lemma RootIsPlain(tab: Table)
    requires ValidTable(tab)
    ensures CString(ToGbk(tab, [SLASH])) == [SLASH]
  {
    var root, empty: seq<Byte> := [SLASH], [];
    assert HeadCode(tab, root) == [SLASH] && root[HeadSize(root)..] == empty;
    assert ToGbk(tab, root) == [SLASH] + ToGbk(tab, empty) == [SLASH];
    CStringOfText(root);
  }

  /** Bytes that the mount point does not have are those of the decoded path. */
  lemma FullPathHasIfCarried(tab: Table, path: seq<Byte>, b: Byte)
    requires ValidTable(tab) && (b < 0x20 || b == BACKSLASH)
    ensures b in FullPathOf(tab, path) <==> Carries(tab, Decoded(path), b)
  {
    var text := CString(ToGbk(tab, path));
    ConvertedHasIfCarried(tab, path, b);
    MountPointIsPlain(text, b);
    MountPointIsPlain([], b);
    if path == [SLASH] {
      RootIsPlain(tab);
      assert MOUNT_POINT + [] == MOUNT_POINT;
    }
  }

  lemma ControlIsCarried(tab: Table, ps: seq<int>, b: Byte)
    requires ValidTable(tab) && ArePoints(ps) && b < 0x20
    ensures Carries(tab, ps, b) <==> b as int in ps
  {
    forall i | 0 <= i < |ps| ensures b in CodeOf(tab, ps[i]) <==> ps[i] == b {
      CodeBytes(tab, ps[i], b);
    }
  }

  /** A decoded backslash, or a character whose code ends in one. */
  ghost predicate HasBackslash(tab: Table, ps: seq<int>)
    requires ValidTable(tab)
  {
    0x5C in ps || exists i :: 0 <= i < |ps| && EndsInBackslash(tab, ps[i])
  }

  lemma BackslashIsCarried(tab: Table, ps: seq<int>)
    requires ValidTable(tab) && ArePoints(ps)
    ensures Carries(tab, ps, BACKSLASH) <==> HasBackslash(tab, ps)
  {
    forall i | 0 <= i < |ps| ensures BACKSLASH in CodeOf(tab, ps[i]) <==> ps[i] == 0x5C || EndsInBackslash(tab, ps[i]) {
      CodeBytes(tab, ps[i], BACKSLASH);
    }
    if 0x5C in ps {
      var i :| 0 <= i < |ps| && ps[i] == 0x5C;
      assert BACKSLASH in CodeOf(tab, ps[i]);
    }
    if Carries(tab, ps, BACKSLASH) {
      var i :| 0 <= i < |ps| && BACKSLASH in CodeOf(tab, ps[i]);
      assert ps[i] == 0x5C || EndsInBackslash(tab, ps[i]);
    }
  }

  /** For every path: its full path has a control character exactly if the path
      has it when decoded, and a backslash exactly if the decoded path has one or
      has a character whose code ends in that byte. */
  lemma FullPathCharacters(tab: Table, path: seq<Byte>, b: Byte)
    requires ValidTable(tab)
    ensures b < 0x20 ==> (b in FullPathOf(tab, path) <==> b as int in Decoded(path))
    ensures BACKSLASH in FullPathOf(tab, path) <==> HasBackslash(tab, Decoded(path))
  {
    FullPathHasIfCarried(tab, path, BACKSLASH);
    BackslashIsCarried(tab, Decoded(path));
    if b < 0x20 {
      FullPathHasIfCarried(tab, path, b);
      ControlIsCarried(tab, Decoded(path), b);
    }
  }

  /** What decodes to an ASCII character is that byte, or an overlong form. */
  lemma {:induction false} DecodedIsWritten(s: seq<Byte>, b: Byte)
    requires b < 0x80 && OverlongCount(s, b) == 0 && b !in s
    ensures b as int !in Decoded(s)
  {
    if s != [] {
      var rest := s[HeadSize(s)..];
      DecodedStep(s);
      DecodedIsWritten(rest, b);
    }
  }

  /** In an accepted, well-formed path only the second kind of backslash is left. */
  lemma WellFormedPathCharacters(tab: Table, path: seq<Byte>, b: Byte)
    requires ValidTable(tab) && Accepted(path) && WellFormed(path)
    ensures b < 0x20 ==> b !in FullPathOf(tab, path)
    ensures BACKSLASH in FullPathOf(tab, path) <==>
            exists i :: 0 <= i < |Decoded(path)| && EndsInBackslash(tab, Decoded(path)[i])
  {
    FullPathCharacters(tab, path, b);
    WellFormedIsNotOverlong(path, BACKSLASH);
    DecodedIsWritten(path, BACKSLASH);
    if b < 0x20 {
      WellFormedIsNotOverlong(path, b);
      DecodedIsWritten(path, b);
    }
  }

  lemma Utf8IsWellFormed(cp: int)
    requires 0x80 <= cp <= 0xFFFF && !(0xD800 <= cp < 0xE000)
    ensures WellFormed(Utf8(cp)) && (forall i :: 0 <= i < |Utf8(cp)| ==> Utf8(cp)[i] >= 0x80)
  {
    var s := Utf8(cp);
    assert SequenceSize(s) == |s|;
    assert s[|s|..] == [];
  }

  /** Such paths there are: the name of a single character whose code ends in a
      backslash is accepted and well-formed. */
  lemma BackslashFromTrail(tab: Table, cp: int)
    requires ValidTable(tab) && EndsInBackslash(tab, cp) && !(0xD800 <= cp < 0xE000)
    ensures var path := [SLASH] + Utf8(cp); Accepted(path) && WellFormed(path) && BACKSLASH in FullPathOf(tab, path)
  {
    Utf8IsWellFormed(cp);
    NameIsAccepted(Utf8(cp));
    NameIsDecoded(cp);
    FullPathCharacters(tab, [SLASH] + Utf8(cp), 0);
  }

  lemma NameIsAccepted(name: seq<Byte>)
    requires 1 <= |name| <= 3 && forall i :: 0 <= i < |name| ==> name[i] >= 0x80
    ensures Accepted([SLASH] + name) && WellFormed([SLASH] + name) == WellFormed(name)
  {
    var path := [SLASH] + name;
    assert path[0] == SLASH && path[1..] == name;
    OnePart(name);
    SplitSlash(name);
    assert Split(path) == [[], name];
    assert name[0] != DOT && [] != DOT_DOT;
  }

  lemma NameIsDecoded(cp: int)
    requires 0x80 <= cp <= 0xFFFF
    ensures |Decoded([SLASH] + Utf8(cp))| > 1 && Decoded([SLASH] + Utf8(cp))[1] == cp
  {
    var name := Utf8(cp);
    var path := [SLASH] + name;
    assert path[0] == SLASH && path[1..] == name && name + [] == name;
    DecodeUtf8(cp, []);
    DecodedStep(name);
    DecodedStep(path);
  }

  lemma OnePart(name: seq<Byte>)
    requires NoSlash(name)
    ensures Split(name) == [name]
  {
    SplitPrefix(name, []);
    assert name + [] == name;
  }
}
