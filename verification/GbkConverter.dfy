/** The converters as the source writes them: byte cursors, and an output
    buffer that drops what does not fit. */
module GbkConverter {
  import opened Bytes
  import opened Gbk

  /** An output buffer of cap bytes, the terminator included. */
  class Out {
    const buf: array<Byte>
    const cap: nat
    var len: nat
    /** Everything that was offered, kept or not. */
    ghost var offered: seq<Byte>

    ghost predicate Valid()
      reads this, buf
    {
      && 0 < cap <= buf.Length && len < cap
      && buf[..len] == Fit(offered, cap)
    }

    constructor (buf: array<Byte>, cap: nat)
      requires 0 < cap <= buf.Length
      ensures Valid() && this.buf == buf && this.cap == cap && offered == []
    {
      this.buf, this.cap, len, offered := buf, cap, 0, [];
    }

    method Char(c: Byte)
      requires Valid()
      modifies this, buf
      ensures Valid() && offered == old(offered) + [c]
      ensures buf[cap..] == old(buf[cap..])
    {
      if len + 1 < cap {
        buf[len] := c;
        len := len + 1;
      }
      offered := offered + [c];
    }

    method Utf8Char(cp: int)
      requires Valid() && 0 <= cp <= 0xFFFF
      modifies this, buf
      ensures Valid() && offered == old(offered) + Utf8(cp)
      ensures buf[cap..] == old(buf[cap..])
    {
      if cp < 0x80 {
        Char(cp);
      } else if cp < 0x800 {
        Char(0xC0 + cp / 64);
        Char(0x80 + cp % 64);
      } else {
        Char(0xE0 + cp / 4096);
        Char(0x80 + cp / 64 % 64);
        Char(0x80 + cp % 64);
      }
    }

    /** Close the string. */
    method Terminate()
      requires Valid()
      modifies buf
      ensures IsString(buf[..cap], offered)
      ensures buf[cap..] == old(buf[cap..])
    {
      buf[len] := 0;
      assert buf[..cap][..len] == buf[..len];
    }
  }

  /** A missing input converts like an empty one. */
  datatype Input = NoInput | Text(bytes: seq<Byte>)
  {
    function Bytes(): seq<Byte> {
      if NoInput? then [] else bytes
    }
  }

  /** Convert the character at p. */
  method FirstToUtf8(tab: Table, s: seq<Byte>, p: nat, o: Out) returns (q: nat)
    requires ValidTable(tab) && IsText(s) && p < |s| && o.Valid()
    modifies o, o.buf
    ensures o.Valid() && o.buf[o.cap..] == old(o.buf[o.cap..])
    ensures p < q <= |s| && q == p + FirstSize(s[p..]) && o.offered == old(o.offered) + Utf8(FirstCode(tab, s[p..]))
  {
    var c := s[p];
    if c < 0x80 {
      o.Char(c);
      return p + 1;
    }
    if c >= LEAD_MIN && At(s, p + 1) != 0 {
      var uni := Lookup(tab, c, s[p + 1]);
      if uni != 0 {
        o.Utf8Char(uni);
      } else {
        o.Char(QUESTION);
      }
      return p + 2;
    }
    o.Char(QUESTION);
    return p + 1;
  }

  lemma Utf8Progress(tab: Table, s: seq<Byte>, p: nat, q: nat, before: seq<Byte>, after: seq<Byte>)
    requires ValidTable(tab) && p < |s| && q == p + FirstSize(s[p..])
    requires after == before + Utf8(FirstCode(tab, s[p..]))
    ensures after + ToUtf8(tab, s[q..]) == before + ToUtf8(tab, s[p..])
  {
    var t := s[p..];
    ToUtf8Step(tab, t);
    assert t[FirstSize(t)..] == s[q..];
    Regroup(before, Utf8(FirstCode(tab, t)), ToUtf8(tab, s[q..]));
  }

  method AllToUtf8(tab: Table, s: seq<Byte>, o: Out)
    requires ValidTable(tab) && IsText(s) && o.Valid()
    modifies o, o.buf
    ensures o.Valid() && o.buf[o.cap..] == old(o.buf[o.cap..])
    ensures o.offered == old(o.offered) + ToUtf8(tab, s)
  {
    var p := 0;
    ghost var full := o.offered + ToUtf8(tab, s);
    assert s[0..] == s;
    while At(s, p) != 0
      invariant o.Valid() && p <= |s|
      invariant o.buf[o.cap..] == old(o.buf[o.cap..])
      invariant o.offered + ToUtf8(tab, s[p..]) == full
      decreases |s| - p
    {
      ghost var before, from := o.offered, p;
      p := FirstToUtf8(tab, s, p, o);
      Utf8Progress(tab, s, from, p, before, o.offered);
    }
    assert s[p..] == [];
  }

  method GbkToUtf8(tab: Table, input: Input, out: array<Byte>, outLen: nat)
    requires ValidTable(tab) && IsText(input.Bytes()) && outLen <= out.Length
    modifies out
    ensures outLen > 0 ==> IsString(out[..outLen], ToUtf8(tab, input.Bytes()))
    ensures out[outLen..] == old(out[outLen..])
  {
    if outLen > 0 {
      var o := new Out(out, outLen);
      if input.Text? {
        AllToUtf8(tab, input.bytes, o);
      }
      o.Terminate();
    }
  }

  /** Scan the table row by row. */
  method ReverseLookup(tab: Table, cp: int) returns (found: bool, lead: Byte, trail: Byte)
    requires ValidTable(tab)
    ensures match Find(tab, cp, 0, 0)
            case None => !found
            case Some(row, col) => found && lead == LeadOf(row) && trail == TrailOf(col)
  {
    var l := 0;
    while l < LEAD_COUNT
      invariant 0 <= l <= LEAD_COUNT && Find(tab, cp, 0, 0) == Find(tab, cp, l, 0)
    {
      var t := 0;
      while t < TRAIL_COUNT
        invariant 0 <= t <= TRAIL_COUNT && Find(tab, cp, 0, 0) == Find(tab, cp, l, t)
      {
        if tab[l][t] == cp {
          return true, LEAD_MIN + l, if t < 0x3F then t + 0x40 else t + 0x41;
        }
        t := t + 1;
      }
      l := l + 1;
    }
    return false, 0, 0;
  }

  /** The decoder's continuation loop: gather the following bytes into cp. */
  method DecodeStep(s: seq<Byte>, p: nat) returns (h: Head)
    requires p < |s|
    ensures h == DecodeHead(s[p..])
  {
    var c := s[p];
    var cp: int, extra: nat;
    if c < 0x80 {
      cp, extra := c, 0;
    } else if 0xC0 <= c < 0xE0 {
      cp, extra := c - 0xC0, 1;
    } else if 0xE0 <= c < 0xF0 {
      cp, extra := c - 0xE0, 2;
    } else {
      return Bad;
    }
    var i := 1;
    while i <= extra
      invariant 1 <= i <= extra + 1 && extra <= 2
      invariant forall j :: 1 <= j < i ==> IsContinuation(At(s[p..], j))
      invariant c < 0x80 ==> extra == 0 && cp == c
      invariant 0xC0 <= c < 0xE0 ==> extra == 1 && cp == Gathered(c - 0xC0, s, p, i)
      invariant 0xE0 <= c < 0xF0 ==> extra == 2 && cp == Gathered(c - 0xE0, s, p, i)
      invariant c < 0x80 || 0xC0 <= c < 0xF0
    {
      assert At(s, p + i) == At(s[p..], i);
      if !IsContinuation(At(s, p + i)) {
        return Bad;
      }
      cp := cp * 64 + (At(s, p + i) - 0x80);
      i := i + 1;
    }
    return Code(cp, 1 + extra);
  }

  /** The code point gathered from the first i bytes of a sequence. */
  ghost function Gathered(start: int, s: seq<Byte>, p: nat, i: nat): int
    requires i >= 1
  {
    if i == 1 then start else Gathered(start, s, p, i - 1) * 64 + (At(s, p + i - 1) - 0x80)
  }

  /** Put out the GBK code of what was decoded. */
  method HeadToOut(tab: Table, h: Head, o: Out)
    requires ValidTable(tab) && (h.Code? ==> 0 <= h.cp <= 0xFFFF) && o.Valid()
    modifies o, o.buf
    ensures o.Valid() && o.buf[o.cap..] == old(o.buf[o.cap..])
    ensures o.offered == old(o.offered) + HeadToGbk(tab, h)
  {
    if h.Bad? {
      o.Char(QUESTION);
    } else if h.cp < 0x80 {
      o.Char(h.cp);
    } else {
      var found, lead, trail := ReverseLookup(tab, h.cp);
      if found {
        o.Char(lead);
        o.Char(trail);
      } else {
        o.Char(QUESTION);
      }
    }
  }

  /** Convert the sequence at p. */
  method FirstToGbk(tab: Table, s: seq<Byte>, p: nat, o: Out) returns (q: nat)
    requires ValidTable(tab) && p < |s| && o.Valid()
    modifies o, o.buf
    ensures o.Valid() && o.buf[o.cap..] == old(o.buf[o.cap..])
    ensures p < q <= |s| && q == p + HeadSize(s[p..]) && o.offered == old(o.offered) + HeadCode(tab, s[p..])
  {
    var h := DecodeStep(s, p);
    HeadToOut(tab, h, o);
    q := p + h.Size();
  }

  lemma GbkProgress(tab: Table, s: seq<Byte>, p: nat, q: nat, before: seq<Byte>, after: seq<Byte>)
    requires ValidTable(tab) && p < |s| && q == p + HeadSize(s[p..])
    requires after == before + HeadCode(tab, s[p..])
    ensures after + ToGbk(tab, s[q..]) == before + ToGbk(tab, s[p..])
  {
    var t := s[p..];
    assert t[HeadSize(t)..] == s[q..];
    Regroup(before, HeadCode(tab, t), ToGbk(tab, s[q..]));
  }

  method AllToGbk(tab: Table, s: seq<Byte>, o: Out)
    requires ValidTable(tab) && IsText(s) && o.Valid()
    modifies o, o.buf
    ensures o.Valid() && o.buf[o.cap..] == old(o.buf[o.cap..])
    ensures o.offered == old(o.offered) + ToGbk(tab, s)
  {
    var p := 0;
    ghost var full := o.offered + ToGbk(tab, s);
    assert s[0..] == s;
    while At(s, p) != 0
      invariant o.Valid() && p <= |s|
      invariant o.buf[o.cap..] == old(o.buf[o.cap..])
      invariant o.offered + ToGbk(tab, s[p..]) == full
      decreases |s| - p
    {
      ghost var before, from := o.offered, p;
      p := FirstToGbk(tab, s, p, o);
      GbkProgress(tab, s, from, p, before, o.offered);
    }
    assert s[p..] == [];
  }

  method Utf8ToGbk(tab: Table, input: Input, out: array<Byte>, outLen: nat)
    requires ValidTable(tab) && IsText(input.Bytes()) && outLen <= out.Length
    modifies out
    ensures outLen > 0 ==> IsString(out[..outLen], ToGbk(tab, input.Bytes()))
    ensures out[outLen..] == old(out[outLen..])
  {
    if outLen > 0 {
      var o := new Out(out, outLen);
      if input.Text? {
        AllToGbk(tab, input.bytes, o);
      }
      o.Terminate();
    }
  }
}
