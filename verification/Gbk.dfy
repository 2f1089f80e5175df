/** File names between GBK, the encoding of the card, and UTF-8. A string is
    the sequence of its bytes without the terminating NUL. */
module Gbk {
  import opened Bytes

  const LEAD_MIN := 0x81
  const LEAD_COUNT := 126
  const TRAIL_COUNT := 190
  const QUESTION: Byte := 0x3F

  /** The code table: 0 where GBK defines nothing. */
  type Table = seq<seq<int>>

  ghost predicate ValidTable(tab: Table) {
    && |tab| == LEAD_COUNT
    && (forall l :: 0 <= l < LEAD_COUNT ==> |tab[l]| == TRAIL_COUNT)
    && (forall l, c :: 0 <= l < LEAD_COUNT && 0 <= c < TRAIL_COUNT ==> tab[l][c] == 0 || 0x80 <= tab[l][c] <= 0xFFFF)
  }

  /** No code point has two codes. */
  ghost predicate Injective(tab: Table)
    requires ValidTable(tab)
  {
    forall l, c, l', c' ::
      (&& 0 <= l < LEAD_COUNT && 0 <= c < TRAIL_COUNT && 0 <= l' < LEAD_COUNT && 0 <= c' < TRAIL_COUNT
       && tab[l][c] == tab[l'][c'] != 0) ==> l == l' && c == c'
  }

  /** A string as C reads it: the byte after the last is NUL. */
  function At(s: seq<Byte>, i: nat): Byte {
    if i < |s| then s[i] else 0
  }

  ghost predicate IsText(s: seq<Byte>) {
    forall i :: 0 <= i < |s| ==> s[i] != 0
  }

  /* ---------- GBK to UTF-8 ---------- */

  function Lookup(tab: Table, lead: Byte, trail: Byte): (uni: int)
    requires ValidTable(tab)
    ensures uni == 0 || 0x80 <= uni <= 0xFFFF
  {
    if lead < LEAD_MIN || lead > 0xFE then 0
    else if trail < 0x40 || trail == 0x7F then 0
    else
      var idx := if trail < 0x7F then trail - 0x40 else trail - 0x41;
      if idx >= TRAIL_COUNT then 0 else tab[lead - LEAD_MIN][idx]
  }

  /** UTF-8 of a code point of the basic plane. */
  function Utf8(cp: int): (bs: seq<Byte>)
    requires 0 <= cp <= 0xFFFF
    ensures 1 <= |bs| <= 3
  {
    if cp < 0x80 then [cp]
    else if cp < 0x800 then [0xC0 + cp / 64, 0x80 + cp % 64]
    else [0xE0 + cp / 4096, 0x80 + cp / 64 % 64, 0x80 + cp % 64]
  }

  /** The bytes that make up the first character of a GBK string. */
  function FirstSize(s: seq<Byte>): (n: nat)
    requires s != []
    ensures 1 <= n <= |s| && n <= 2
  {
    if s[0] >= LEAD_MIN && |s| > 1 then 2 else 1
  }

  /** The code point of the first character; '?' for what it cannot be. */
  function FirstCode(tab: Table, s: seq<Byte>): (cp: int)
    requires ValidTable(tab) && s != []
    ensures 0 <= cp <= 0xFFFF
  {
    if s[0] < 0x80 then s[0]
    else if FirstSize(s) == 2 && Lookup(tab, s[0], s[1]) != 0 then Lookup(tab, s[0], s[1])
    else QUESTION
  }

  /** The code points a GBK string stands for. */
  function Codes(tab: Table, s: seq<Byte>): (cs: seq<int>)
    requires ValidTable(tab)
    ensures forall i :: 0 <= i < |cs| ==> 0 <= cs[i] <= 0xFFFF
  {
    if s == [] then [] else [FirstCode(tab, s)] + Codes(tab, s[FirstSize(s)..])
  }

  function EncodeAll(cs: seq<int>): seq<Byte>
    requires forall i :: 0 <= i < |cs| ==> 0 <= cs[i] <= 0xFFFF
  {
    if cs == [] then [] else Utf8(cs[0]) + EncodeAll(cs[1..])
  }

  /** The conversion with room for everything. */
  function ToUtf8(tab: Table, s: seq<Byte>): seq<Byte>
    requires ValidTable(tab)
  {
    EncodeAll(Codes(tab, s))
  }

  /* ---------- UTF-8 to GBK ---------- */

  /** What the decoder takes off the front: a code point, or one bad byte. */
  datatype Head = Code(cp: int, size: nat) | Bad
  {
    function Size(): nat {
      if Bad? then 1 else size
    }
  }

  predicate IsContinuation(b: Byte) {
    0x80 <= b < 0xC0
  }

  function DecodeHead(s: seq<Byte>): (h: Head)
    requires s != []
    ensures 1 <= h.Size() <= |s| && h.Size() <= 3
    ensures h.Code? ==> 0 <= h.cp <= 0xFFFF
  {
    var b := s[0];
    if b < 0x80 then Code(b, 1)
    else if 0xC0 <= b < 0xE0 then
      if IsContinuation(At(s, 1)) then Code((b - 0xC0) * 64 + (At(s, 1) - 0x80), 2) else Bad
    else if 0xE0 <= b < 0xF0 then
      if IsContinuation(At(s, 1)) && IsContinuation(At(s, 2))
      then Code((b - 0xE0) * 4096 + (At(s, 1) - 0x80) * 64 + (At(s, 2) - 0x80), 3)
      else Bad
    else Bad
  }

  datatype Cell = None | Some(row: nat, col: nat)

  /** The first cell that holds a code point, scanning row by row from (l, c). */
  function Find(tab: Table, cp: int, l: nat, c: nat): (cell: Cell)
    requires ValidTable(tab) && l <= LEAD_COUNT && c <= TRAIL_COUNT
    ensures cell.Some? ==> cell.row < LEAD_COUNT && cell.col < TRAIL_COUNT && tab[cell.row][cell.col] == cp
    decreases LEAD_COUNT - l, TRAIL_COUNT - c
  {
    if l == LEAD_COUNT then None
    else if c == TRAIL_COUNT then Find(tab, cp, l + 1, 0)
    else if tab[l][c] == cp then Some(l, c)
    else Find(tab, cp, l, c + 1)
  }

  function LeadOf(row: nat): Byte
    requires row < LEAD_COUNT
  {
    LEAD_MIN + row
  }

  function TrailOf(col: nat): Byte
    requires col < TRAIL_COUNT
  {
    if col < 0x3F then col + 0x40 else col + 0x41
  }

  /** GBK of a code point; '?' if it has none. */
  function GbkCode(tab: Table, cp: int): (bs: seq<Byte>)
    requires ValidTable(tab) && 0 <= cp <= 0xFFFF
    ensures 1 <= |bs| <= 2 && (cp < 0x80 ==> |bs| == 1)
  {
    if cp < 0x80 then [cp]
    else
      match Find(tab, cp, 0, 0)
      case Some(row, col) => [LeadOf(row), TrailOf(col)]
      case None => [QUESTION]
  }

  function HeadToGbk(tab: Table, h: Head): (bs: seq<Byte>)
    requires ValidTable(tab) && (h.Code? ==> 0 <= h.cp <= 0xFFFF)
  {
    if h.Bad? then [QUESTION] else GbkCode(tab, h.cp)
  }

  function HeadSize(s: seq<Byte>): (n: nat)
    requires s != []
    ensures 1 <= n <= |s| && n <= 3
  {
    DecodeHead(s).Size()
  }

  /** GBK of what the decoder takes off the front. */
  function HeadCode(tab: Table, s: seq<Byte>): (bs: seq<Byte>)
    requires ValidTable(tab) && s != []
    ensures 1 <= |bs| <= HeadSize(s)
  {
    HeadToGbk(tab, DecodeHead(s))
  }

  /** The conversion with room for everything. */
  function ToGbk(tab: Table, s: seq<Byte>): seq<Byte>
    requires ValidTable(tab)
  {
    if s == [] then [] else HeadCode(tab, s) + ToGbk(tab, s[HeadSize(s)..])
  }

  function GbkAll(tab: Table, cs: seq<int>): seq<Byte>
    requires ValidTable(tab) && forall i :: 0 <= i < |cs| ==> 0 <= cs[i] <= 0xFFFF
  {
    if cs == [] then [] else GbkCode(tab, cs[0]) + GbkAll(tab, cs[1..])
  }

  lemma ToUtf8Step(tab: Table, s: seq<Byte>)
    requires ValidTable(tab) && s != []
    ensures ToUtf8(tab, s) == Utf8(FirstCode(tab, s)) + ToUtf8(tab, s[FirstSize(s)..])
  {
    var cs := Codes(tab, s);
    assert cs[0] == FirstCode(tab, s) && cs[1..] == Codes(tab, s[FirstSize(s)..]);
  }

  /* ---------- Laws ---------- */

  /** The inverse of the index arithmetic of a lookup. */
  lemma LookupCell(tab: Table, row: nat, col: nat)
    requires ValidTable(tab) && row < LEAD_COUNT && col < TRAIL_COUNT
    ensures Lookup(tab, LeadOf(row), TrailOf(col)) == tab[row][col]
  {
  }

  /** The rows are the lead bytes 0x81 to 0xFE in order, the columns the trail bytes
      0x40 to 0xFE in order, without 0x7F. */
  lemma CellsAreInOrder(row: nat, row': nat, col: nat, col': nat)
    requires row < LEAD_COUNT && row' < LEAD_COUNT && col < TRAIL_COUNT && col' < TRAIL_COUNT
    ensures 0x81 <= LeadOf(row) <= 0xFE && (row < row' ==> LeadOf(row) < LeadOf(row'))
    ensures 0x40 <= TrailOf(col) <= 0xFE && TrailOf(col) != 0x7F && (col < col' ==> TrailOf(col) < TrailOf(col'))
  {
  }

  lemma EveryCodeHasCell(lead: Byte, trail: Byte)
    requires 0x81 <= lead <= 0xFE && 0x40 <= trail <= 0xFE && trail != 0x7F
    ensures exists row, col :: 0 <= row < LEAD_COUNT && 0 <= col < TRAIL_COUNT
                               && LeadOf(row) == lead && TrailOf(col) == trail
  {
    var row: nat, col: nat := lead - 0x81, if trail < 0x7F then trail - 0x40 else trail - 0x41;
    assert LeadOf(row) == lead && TrailOf(col) == trail;
  }

  /** Other pairs of bytes are no codes. */
  lemma OthersAreNoCodes(tab: Table, lead: Byte, trail: Byte)
    requires ValidTable(tab)
    requires !(0x81 <= lead <= 0xFE) || !(0x40 <= trail <= 0xFE) || trail == 0x7F
    ensures Lookup(tab, lead, trail) == 0
  {
  }

  /** A code point is in the table. */
  ghost predicate InTable(tab: Table, cp: int)
    requires ValidTable(tab)
  {
    exists l, c :: 0 <= l < LEAD_COUNT && 0 <= c < TRAIL_COUNT && tab[l][c] == cp
  }

  lemma {:induction false} FindIsComplete(tab: Table, cp: int, l: nat, c: nat, row: nat, col: nat)
    requires ValidTable(tab) && l <= LEAD_COUNT && c <= TRAIL_COUNT
    requires row < LEAD_COUNT && col < TRAIL_COUNT && tab[row][col] == cp
    requires row > l || (row == l && col >= c)
    ensures Find(tab, cp, l, c).Some?
    decreases LEAD_COUNT - l, TRAIL_COUNT - c
  {
    if c == TRAIL_COUNT {
      FindIsComplete(tab, cp, l + 1, 0, row, col);
    } else if tab[l][c] != cp {
      FindIsComplete(tab, cp, l, c + 1, row, col);
    }
  }

  /** What has no code becomes '?', in both directions. */
  lemma UnknownIsQuestion(tab: Table, cp: int, s: seq<Byte>)
    requires ValidTable(tab) && 0x80 <= cp <= 0xFFFF && !InTable(tab, cp) && s != [] && s[0] >= 0x80
    ensures GbkCode(tab, cp) == [63]
    ensures |s| == 1 || Lookup(tab, s[0], s[1]) == 0 ==> FirstCode(tab, s) == 63
    ensures DecodeHead([s[0]]) == Bad && HeadToGbk(tab, Bad) == [63]
  {
  }

  /** Code points that survive: plain ASCII, and those with a code. */
  ghost predicate Survives(tab: Table, cp: int)
    requires ValidTable(tab)
  {
    0 < cp < 0x80 || (0x80 <= cp <= 0xFFFF && InTable(tab, cp))
  }

  lemma {:induction false} CodesSurvive(tab: Table, s: seq<Byte>)
    requires ValidTable(tab) && IsText(s)
    ensures forall i :: 0 <= i < |Codes(tab, s)| ==> Survives(tab, Codes(tab, s)[i])
  {
    if s != [] {
      CodesSurvive(tab, s[FirstSize(s)..]);
      if s[0] >= 0x80 && FirstCode(tab, s) != QUESTION {
        assert tab[s[0] - LEAD_MIN][if s[1] < 0x7F then s[1] - 0x40 else s[1] - 0x41] == FirstCode(tab, s);
        assert InTable(tab, FirstCode(tab, s));
      }
    }
  }

  /** Decoding takes exactly one encoded code point off the front. */
  lemma DecodeUtf8(cp: int, rest: seq<Byte>)
    requires 0 <= cp <= 0xFFFF
    ensures DecodeHead(Utf8(cp) + rest) == Code(cp, |Utf8(cp)|)
    ensures (Utf8(cp) + rest)[|Utf8(cp)|..] == rest
  {
    var s := Utf8(cp) + rest;
    if 0x80 <= cp < 0x800 {
      assert At(s, 1) == 0x80 + cp % 64;
    } else if 0x800 <= cp {
      assert At(s, 1) == 0x80 + cp / 64 % 64 && At(s, 2) == 0x80 + cp % 64;
      ThreeDigits(cp);
    }
  }

  /** One encoding comes before another, byte by byte. */
  predicate Before(s: seq<Byte>, t: seq<Byte>)
    requires s != [] && t != []
  {
    || s[0] < t[0]
    || (s[0] == t[0] && |s| > 1 && |t| > 1 && s[1] < t[1])
    || (s[0] == t[0] && |s| > 2 && |t| > 2 && s[1] == t[1] && s[2] < t[2])
  }

  /** Encodings are in the order of their code points. */
  lemma Utf8InOrder(a: int, b: int)
    requires 0 <= a < b <= 0xFFFF
    ensures Before(Utf8(a), Utf8(b))
  {
    if b < 0x800 {
      if 0x80 <= a {
        TwoDigits(a, b);
      }
    } else if a < 0x800 {
      assert b / 4096 >= 0;
    } else {
      ThreeInOrder(a, b);
    }
  }

  lemma TwoDigits(a: int, b: int)
    requires 0 <= a < b
    ensures a / 64 < b / 64 || (a / 64 == b / 64 && a % 64 < b % 64)
  {
  }

  lemma ThreeInOrder(a: int, b: int)
    requires 0 <= a < b
    ensures a / 4096 < b / 4096
            || (a / 4096 == b / 4096 && a / 64 % 64 < b / 64 % 64)
            || (a / 4096 == b / 4096 && a / 64 % 64 == b / 64 % 64 && a % 64 < b % 64)
  {
    assert a / 64 / 64 == a / 4096 && b / 64 / 64 == b / 4096;
    TwoDigits(a, b);
    if a / 64 < b / 64 {
      TwoDigits(a / 64, b / 64);
    }
  }

  /** What a bit is worth in an encoding, overlong ones included: from the last byte
      on, 1, 64 and 4096. */
  lemma DecodeWeights(x: Byte, y: Byte, z: Byte)
    requires x < 32 && y < 64 && z < 64
    ensures DecodeHead([0xC0 + x, 0x80 + y]) == Code(64 * (x as int) + y, 2)
    ensures x < 16 ==> DecodeHead([0xE0 + x, 0x80 + y, 0x80 + z]) == Code(4096 * (x as int) + 64 * (y as int) + z, 3)
  {
    var two: seq<Byte> := [0xC0 + x, 0x80 + y];
    assert At(two, 1) == 0x80 + y;
    if x < 16 {
      var three: seq<Byte> := [0xE0 + x, 0x80 + y, 0x80 + z];
      assert At(three, 1) == 0x80 + y && At(three, 2) == 0x80 + z;
    }
  }

  lemma ThreeDigits(cp: int)
    requires 0 <= cp <= 0xFFFF
    ensures cp == cp / 4096 * 4096 + cp / 64 % 64 * 64 + cp % 64
  {
    assert cp / 4096 == cp / 64 / 64;
  }

  lemma {:induction false} GbkOfEncoded(tab: Table, cs: seq<int>)
    requires ValidTable(tab) && forall i :: 0 <= i < |cs| ==> 0 <= cs[i] <= 0xFFFF
    ensures ToGbk(tab, EncodeAll(cs)) == GbkAll(tab, cs)
  {
    if cs != [] {
      DecodeUtf8(cs[0], EncodeAll(cs[1..]));
      GbkOfEncoded(tab, cs[1..]);
    }
  }

  /** A code point that survives comes back from its GBK code. */
  lemma CodesOfCode(tab: Table, cp: int, rest: seq<Byte>)
    requires ValidTable(tab) && Survives(tab, cp)
    ensures Codes(tab, GbkCode(tab, cp) + rest) == [cp] + Codes(tab, rest)
  {
    var s := GbkCode(tab, cp) + rest;
    if cp < 0x80 {
      assert s[1..] == rest;
    } else {
      var row, col :| 0 <= row < LEAD_COUNT && 0 <= col < TRAIL_COUNT && tab[row][col] == cp;
      FindIsComplete(tab, cp, 0, 0, row, col);
      var cell := Find(tab, cp, 0, 0);
      LookupCell(tab, cell.row, cell.col);
      assert s[0] == LeadOf(cell.row) && s[1] == TrailOf(cell.col) && s[2..] == rest;
    }
  }

  lemma {:induction false} CodesOfGbkAll(tab: Table, cs: seq<int>)
    requires ValidTable(tab) && forall i :: 0 <= i < |cs| ==> 0 <= cs[i] <= 0xFFFF
    requires forall i :: 0 <= i < |cs| ==> Survives(tab, cs[i])
    ensures Codes(tab, GbkAll(tab, cs)) == cs
  {
    if cs != [] {
      CodesOfCode(tab, cs[0], GbkAll(tab, cs[1..]));
      CodesOfGbkAll(tab, cs[1..]);
    }
  }

  /** Once converted to UTF-8, a name survives the way to GBK and back, for
      every string of bytes and every table. */
  lemma NormalForm(tab: Table, s: seq<Byte>)
    requires ValidTable(tab) && IsText(s)
    ensures ToUtf8(tab, ToGbk(tab, ToUtf8(tab, s))) == ToUtf8(tab, s)
  {
    CodesSurvive(tab, s);
    GbkOfEncoded(tab, Codes(tab, s));
    CodesOfGbkAll(tab, Codes(tab, s));
  }

  /** Only ASCII and two-byte codes that the table defines. */
  predicate AllDefined(tab: Table, s: seq<Byte>)
    requires ValidTable(tab)
  {
    s == [] ||
    (if s[0] < 0x80 then AllDefined(tab, s[1..])
     else |s| > 1 && Lookup(tab, s[0], s[1]) != 0 && AllDefined(tab, s[2..]))
  }

  lemma {:induction false} GbkOfCodes(tab: Table, s: seq<Byte>)
    requires ValidTable(tab) && Injective(tab) && AllDefined(tab, s)
    ensures GbkAll(tab, Codes(tab, s)) == s
  {
    if s != [] {
      var n := FirstSize(s);
      FirstComesBack(tab, s);
      GbkOfCodes(tab, s[n..]);
      OneMoreCode(tab, FirstCode(tab, s), Codes(tab, s[n..]), s, n);
    }
  }

  lemma OneMoreCode(tab: Table, cp: int, cs: seq<int>, s: seq<Byte>, n: nat)
    requires ValidTable(tab) && 0 <= cp <= 0xFFFF && (forall i :: 0 <= i < |cs| ==> 0 <= cs[i] <= 0xFFFF) && n <= |s|
    requires GbkCode(tab, cp) == s[..n] && GbkAll(tab, cs) == s[n..]
    ensures GbkAll(tab, [cp] + cs) == s
  {
    GbkOfFirst(tab, cp, cs);
    assert s == s[..n] + s[n..];
  }

  lemma FirstComesBack(tab: Table, s: seq<Byte>)
    requires ValidTable(tab) && Injective(tab) && s != [] && AllDefined(tab, s)
    ensures GbkCode(tab, FirstCode(tab, s)) == s[..FirstSize(s)] && AllDefined(tab, s[FirstSize(s)..])
  {
    if s[0] >= 0x80 {
      GbkCodeOfLookup(tab, s[0], s[1]);
    }
  }

  lemma GbkOfFirst(tab: Table, cp: int, cs: seq<int>)
    requires ValidTable(tab) && 0 <= cp <= 0xFFFF && forall i :: 0 <= i < |cs| ==> 0 <= cs[i] <= 0xFFFF
    ensures GbkAll(tab, [cp] + cs) == GbkCode(tab, cp) + GbkAll(tab, cs)
  {
    assert ([cp] + cs)[1..] == cs;
  }

  lemma GbkCodeOfLookup(tab: Table, lead: Byte, trail: Byte)
    requires ValidTable(tab) && Injective(tab) && Lookup(tab, lead, trail) != 0
    ensures GbkCode(tab, Lookup(tab, lead, trail)) == [lead, trail]
  {
    var uni, row := Lookup(tab, lead, trail), lead - LEAD_MIN;
    var col := if trail < 0x7F then trail - 0x40 else trail - 0x41;
    assert tab[row][col] == uni;
    FindIsComplete(tab, uni, 0, 0, row, col);
    var cell := Find(tab, uni, 0, 0);
    assert cell.row == row && cell.col == col;
  }

  /** When no code point has two codes, a name of defined codes comes back
      from UTF-8 byte for byte. */
  lemma RoundTrip(tab: Table, s: seq<Byte>)
    requires ValidTable(tab) && Injective(tab) && AllDefined(tab, s)
    ensures ToGbk(tab, ToUtf8(tab, s)) == s
  {
    GbkOfEncoded(tab, Codes(tab, s));
    GbkOfCodes(tab, s);
  }

  /** Converting to GBK never makes a string longer. */
  lemma {:induction false} GbkIsNoLonger(tab: Table, s: seq<Byte>)
    requires ValidTable(tab)
    ensures |ToGbk(tab, s)| <= |s|
  {
    if s != [] {
      GbkIsNoLonger(tab, s[HeadSize(s)..]);
    }
  }
}
