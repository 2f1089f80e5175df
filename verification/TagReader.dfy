/** The tag parsers as the source writes them: cursors over the head of the
    file, and three buffers that every matching entry overwrites. No index
    leaves the bytes that were read. */
module TagReader {
  import opened Bytes
  import opened Tags

  const PROBE := 16384

  /** A file as opening and reading it turns out. */
  datatype File = Missing | Opened(bytes: seq<Byte>)

  /** Copy a text without its padding, as much of it as fits. */
  method CopyTrim(dst: array<Byte>, src: seq<Byte>)
    modifies dst
    ensures dst.Length > 0 ==> IsString(dst[..], Trim(src))
  {
    if dst.Length == 0 {
      return;
    }
    var s := if HasBom(src) then src[3..] else src;
    ghost var full := Trim(src);
    while s != [] && s[|s| - 1] == NUL
      invariant DropEnd(DropBlanks(DropNuls(s))) == full
    {
      s := s[..|s| - 1];
    }
    while s != [] && IsBlank(s[0])
      invariant DropEnd(DropBlanks(s)) == full
    {
      s := s[1..];
    }
    while s != [] && IsEndSpace(s[|s| - 1])
      invariant DropEnd(s) == full
    {
      s := s[..|s| - 1];
    }
    var n := if |s| >= dst.Length then dst.Length - 1 else |s|;
    PutString(dst, s, n);
  }

  method PutString(dst: array<Byte>, s: seq<Byte>, n: nat)
    requires dst.Length > 0 && n == if |s| >= dst.Length then dst.Length - 1 else |s|
    modifies dst
    ensures IsString(dst[..], s)
  {
    var i := 0;
    while i < n
      invariant 0 <= i <= n && dst[..i] == s[..i]
    {
      dst[i] := s[i];
      i := i + 1;
    }
    dst[n] := 0;
    assert dst[..][..n] == dst[..n] == Fit(s, dst.Length);
  }

  /** What the rest of the tag will make of the texts. */
  ghost function FramesTodo(w: seq<Byte>, pos: nat, end: nat, t: Texts): Texts
    requires 10 <= pos <= end <= |w|
  {
    AfterAll(t, FrameEntries(FramesOf(w[3], w[pos..end])))
  }

  lemma NoFrameTodo(w: seq<Byte>, pos: nat, end: nat, t: Texts)
    requires 10 <= pos <= end <= |w| && (end < pos + 10 || FramesOf(w[3], w[pos..end]) == [])
    ensures FramesTodo(w, pos, end, t) == t
  {
    assert FramesOf(w[3], w[pos..end]) == [];
  }

  lemma FrameTodo(w: seq<Byte>, pos: nat, next: nat, end: nat, f: Frame, t: Texts)
    requires 10 <= pos <= next <= end <= |w|
    requires FramesOf(w[3], w[pos..end]) == [f] + FramesOf(w[3], w[next..end])
    ensures FramesTodo(w, pos, end, t) == FramesTodo(w, next, end, t.After(FrameEntry(f)))
  {
    var rest := FrameEntries(FramesOf(w[3], w[next..end]));
    var all := FrameEntries(FramesOf(w[3], w[pos..end]));
    assert all == [FrameEntry(f)] + rest;
    assert all[1..] == rest;
  }

  ghost function CommentsTodo(s: seq<Byte>, p: nat, left: nat, t: Texts): Texts
    requires p <= |s|
  {
    AfterAll(t, CommentEntries(CommentList(s[p..], left)))
  }

  lemma NoCommentTodo(s: seq<Byte>, p: nat, left: nat, t: Texts)
    requires p <= |s| && (left == 0 || |s| - p < 4 || CommentsTodo(s, p, left, t) == t)
    ensures CommentsTodo(s, p, left, t) == t
  {
    if left == 0 || |s| - p < 4 {
      assert CommentList(s[p..], left) == [];
    }
  }

  lemma CommentTodo(s: seq<Byte>, p: nat, next: nat, left: nat, c: seq<Byte>, t: Texts)
    requires p <= next <= |s| && left > 0
    requires CommentList(s[p..], left) == [c] + CommentList(s[next..], left - 1)
    ensures CommentsTodo(s, p, left, t) == CommentsTodo(s, next, left - 1, t.After(CommentEntry(c)))
  {
    var rest := CommentEntries(CommentList(s[next..], left - 1));
    var all := CommentEntries(CommentList(s[p..], left));
    assert all == [CommentEntry(c)] + rest;
    assert all[1..] == rest;
  }

  /** A buffer shows a text, as much of it as fits, or nothing. */
  ghost predicate Shows(buf: seq<Byte>, t: Text) {
    buf != [] ==> IsString(buf, if t.NoText? then [] else t.bytes)
  }

  /** As C reads it: the text up to the room for it, or nothing. */
  lemma ShownText(buf: seq<Byte>, t: Text, i: nat)
    requires buf != [] && Shows(buf, t)
    ensures t == NoText ==> buf[0] == 0
    ensures t.Text? ==>
      var n := if |t.bytes| < |buf| then |t.bytes| else |buf| - 1;
      n < |buf| && buf[n] == 0 && (i < n ==> buf[i] == t.bytes[i])
  {
    StringReadsBack(buf, if t.NoText? then [] else t.bytes, i);
  }

  class Fields {
    const title: array<Byte>
    const artist: array<Byte>
    const album: array<Byte>
    /** What the buffers show. */
    ghost var texts: Texts

    ghost predicate Distinct() {
      title != artist && title != album && artist != album
    }

    ghost predicate Valid()
      reads this, title, artist, album
    {
      Distinct() && Shows(title[..], texts.title) && Shows(artist[..], texts.artist) && Shows(album[..], texts.album)
    }

    constructor (title: array<Byte>, artist: array<Byte>, album: array<Byte>)
      requires title != artist && title != album && artist != album
      ensures this.title == title && this.artist == artist && this.album == album && Distinct()
    {
      this.title, this.artist, this.album, texts := title, artist, album, BLANK;
    }

    /** Empty all three. */
    method Clear()
      requires Distinct()
      modifies this, title, artist, album
      ensures Valid() && texts == BLANK
    {
      texts := BLANK;
      if title.Length > 0 {
        title[0] := 0;
      }
      if artist.Length > 0 {
        artist[0] := 0;
      }
      if album.Length > 0 {
        album[0] := 0;
      }
    }

    /** An entry overwrites the buffer of its field. */
    method Store(e: Entry)
      requires Valid()
      modifies this, title, artist, album
      ensures Valid() && texts == old(texts).After(e)
    {
      if e.Entry? {
        match e.field
        case Title => CopyTrim(title, e.bytes);
        case Artist => CopyTrim(artist, e.bytes);
        case Album => CopyTrim(album, e.bytes);
      }
      texts := texts.After(e);
    }

    /** Walk the frames of an ID3v2 tag. */
    method ParseId3(w: seq<Byte>)
      requires Valid()
      modifies this, title, artist, album
      ensures Valid() && texts == AfterAll(old(texts), Id3Entries(w))
    {
      if |w| < 10 || !StartsWith(w, ID3) {
        return;
      }
      if IsExtended(w[5]) {
        return;
      }
      var end := 10 + Syncsafe(w[6..10]);
      if end > |w| {
        end := |w|;
      }
      assert Id3Entries(w) == FrameEntries(FramesOf(w[3], w[10..end]));
      ParseFrames(w, end);
    }

    method ParseFrames(w: seq<Byte>, end: nat)
      requires Valid() && 10 <= end <= |w|
      modifies this, title, artist, album
      ensures Valid() && texts == FramesTodo(w, 10, end, old(texts))
    {
      var pos: nat := 10;
      ghost var full := FramesTodo(w, 10, end, texts);
      while pos + 10 <= end
        invariant 10 <= pos <= end && Valid()
        invariant FramesTodo(w, pos, end, texts) == full
        decreases end - pos
      {
        var more, f := ReadFrame(w, pos, end);
        if !more {
          break;
        }
        var next := pos + 10 + |f.body|;
        FrameTodo(w, pos, next, end, f, texts);
        Store(FrameEntry(f));
        pos := next;
      }
      NoFrameTodo(w, pos, end, texts);
    }

    /** Walk the comments of a FLAC file. */
    method ParseComments(body: seq<Byte>)
      requires Valid()
      modifies this, title, artist, album
      ensures Valid() && texts == AfterAll(old(texts), CommentEntries(CommentsOf(body)))
    {
      if |body| < 4 {
        return;
      }
      var n := LittleEndian(body[..4]);
      if n > |body| - 4 {
        return;
      }
      if |body| - 4 - n < 4 {
        return;
      }
      ParseList(body, 8 + n, LittleEndian(body[4 + n..8 + n]));
    }

    method ParseList(s: seq<Byte>, start: nat, count: nat)
      requires Valid() && start <= |s|
      modifies this, title, artist, album
      ensures Valid() && texts == CommentsTodo(s, start, count, old(texts))
    {
      var p: nat, left: nat := start, count;
      ghost var full := CommentsTodo(s, start, count, texts);
      while left > 0 && |s| - p >= 4
        invariant p <= |s| && Valid()
        invariant CommentsTodo(s, p, left, texts) == full
      {
        var more, e, next := TakeComment(s, p, left, texts);
        if !more {
          break;
        }
        Store(e);
        p, left := next, left - 1;
      }
      NoCommentTodo(s, p, left, texts);
    }

    /** Walk the chain of metadata blocks to the comments. */
    method ParseVorbis(w: seq<Byte>)
      requires Valid()
      modifies this, title, artist, album
      ensures Valid() && texts == AfterAll(old(texts), FlacEntries(w))
    {
      if !StartsWith(w, FLAC) {
        return;
      }
      var t := FindComments(w);
      if t.Text? {
        ParseComments(t.bytes);
      }
    }

    /** Read the tags of a file: each field shows the last entry for it, as much
        as fits, or nothing. */
    method ReadTags(file: File)
      requires Distinct()
      modifies this, title, artist, album
      ensures Valid()
      ensures texts == if file.Missing? then BLANK else Shown(file.bytes)
      ensures var es := if file.Missing? then [] else EntriesOf(Window(file.bytes));
        && Shows(title[..], LastOf(es, Title)) && Shows(artist[..], LastOf(es, Artist))
        && Shows(album[..], LastOf(es, Album))
    {
      Clear();
      if file.Missing? {
        return;
      }
      LastIsShown(EntriesOf(Window(file.bytes)));
      var w := if |file.bytes| > PROBE then file.bytes[..PROBE] else file.bytes;
      if |w| >= 4 && StartsWith(w, FLAC) {
        ParseVorbis(w);
      } else {
        ParseId3(w);
      }
    }
  }

  /** The head of the file. */
  function Window(bytes: seq<Byte>): seq<Byte> {
    if |bytes| > PROBE then bytes[..PROBE] else bytes
  }

  lemma LastIsShown(es: seq<Entry>)
    ensures var t := AfterAll(BLANK, es);
      t.title == LastOf(es, Title) && t.artist == LastOf(es, Artist) && t.album == LastOf(es, Album)
  {
    OverwritingKeepsLast(es, Title);
    OverwritingKeepsLast(es, Artist);
    OverwritingKeepsLast(es, Album);
  }

  /** What reading the tags of a file shows. */
  function Shown(bytes: seq<Byte>): Texts {
    AfterAll(BLANK, EntriesOf(Window(bytes)))
  }

  /** The tag of a file, written and read: each field shows its last frame among
      those that are whole in the head that is read, all of them if the tag fits,
      whatever the rest of the file is. */
  lemma Id3IsShown(version: Byte, revision: Byte, flags: Byte, fs: seq<Frame>, padding: seq<Byte>,
                   audio: seq<Byte>, f: Field)
    requires ValidFrames(version, fs) && IsPadding(padding) && !IsExtended(flags)
    requires |WriteFrames(version, fs) + padding| < 0x1000_0000
    ensures Shown(WriteId3(version, revision, flags, fs, padding) + audio).Of(f)
            == LastOf(FrameEntries(WholeFrames(fs, PROBE - 10)), f)
    ensures |WriteFrames(version, fs)| <= PROBE - 10 ==> WholeFrames(fs, PROBE - 10) == fs
  {
    var bytes := WriteId3(version, revision, flags, fs, padding) + audio;
    var w, lost := CutAt(bytes);
    Id3CutRoundTrip(version, revision, flags, fs, padding, audio, w, lost);
    StartsAsId3(bytes, w, lost);
    WholeInWindow(version, fs, |w| - 10);
    OverwritingKeepsLast(FrameEntries(WholeFrames(fs, |w| - 10)), f);
  }

  lemma CutAt(bytes: seq<Byte>) returns (w: seq<Byte>, lost: seq<Byte>)
    ensures w == Window(bytes) && w + lost == bytes && |w| == if |bytes| > PROBE then PROBE else |bytes|
  {
    w := Window(bytes);
    lost := bytes[|w|..];
  }

  lemma StartsAsId3(bytes: seq<Byte>, w: seq<Byte>, lost: seq<Byte>)
    requires w + lost == bytes && w != [] && bytes[0] == ID3[0]
    ensures !StartsWith(w, FLAC)
  {
    assert w[0] == bytes[0] && FLAC[0] != ID3[0];
  }

  lemma WholeInWindow(version: Byte, fs: seq<Frame>, n: nat)
    requires ValidFrames(version, fs) && (n == PROBE - 10 || |WriteFrames(version, fs)| <= n < PROBE - 10)
    ensures WholeFrames(fs, n) == WholeFrames(fs, PROBE - 10)
    ensures |WriteFrames(version, fs)| <= PROBE - 10 ==> WholeFrames(fs, PROBE - 10) == fs
  {
    if |WriteFrames(version, fs)| <= n {
      AllFramesWhole(version, fs, n);
    }
    if |WriteFrames(version, fs)| <= PROBE - 10 {
      AllFramesWhole(version, fs, PROBE - 10);
    }
  }

  /** The same for the comments of a FLAC file: they are shown exactly if the
      block they are in is whole in the head, wherever it is. */
  lemma FlacIsShown(bs: seq<Block>, k: nat, vendor: seq<Byte>, cs: seq<seq<Byte>>, audio: seq<Byte>, f: Field)
    requires ValidComments(cs) && |vendor| < 0x1_0000_0000
    requires k < |bs| && bs[k] == Block(VORBIS_COMMENT, WriteComments(vendor, cs))
    requires ValidBlocks(bs) && forall i :: 0 <= i < k ==> bs[i].kind != VORBIS_COMMENT
    ensures Shown(FLAC + WriteChain(bs) + audio).Of(f)
            == if 4 + BlockEnd(bs, k) <= PROBE then LastOf(CommentEntries(cs), f) else NoText
  {
    var w, lost := CutAt(FLAC + WriteChain(bs) + audio);
    BlockEndsInChain(bs, k);
    FlacCutRoundTrip(bs, k, vendor, cs, audio, w, lost);
    OverwritingKeepsLast(CommentEntries(cs), f);
  }

  /** Split at the equals sign, and compare the key without regard to case. */
  method ParseComment(c: seq<Byte>) returns (e: Entry)
    ensures e == CommentEntry(c)
  {
    var k := 0;
    while k < |c| && c[k] != EQUALS
      invariant 0 <= k <= |c| && forall i :: 0 <= i < k ==> c[i] != EQUALS
    {
      k := k + 1;
    }
    assert k == KeyLength(c);
    if k == |c| {
      return Ignored;
    }
    var key := UpperAll(c[..k]);
    var value := c[k + 1..];
    if k == 5 && key == TITLE {
      e := Entry(Title, value);
    } else if k == 6 && key == ARTIST {
      e := Entry(Artist, value);
    } else if k == 5 && key == ALBUM {
      e := Entry(Album, value);
    } else {
      e := Ignored;
    }
  }

  lemma SliceOfSlice(w: seq<Byte>, a: nat, b: nat, i: nat, j: nat)
    requires i <= j <= b - a && b <= |w|
    ensures w[a..b][i..j] == w[a + i..a + j]
  {
    var x, y := w[a..b][i..j], w[a + i..a + j];
    forall k | 0 <= k < j - i ensures x[k] == y[k] {
      assert x[k] == w[a..b][i + k] == w[a + (i + k)];
    }
  }

  lemma SliceOfTail(w: seq<Byte>, a: nat, i: nat, j: nat)
    requires i <= j && a + j <= |w|
    ensures w[a..][i..j] == w[a + i..a + j] && w[a..][j..] == w[a + j..]
  {
    assert w[a..] == w[a..|w|];
    SliceOfSlice(w, a, |w|, i, j);
  }

  /** The frame at pos, if there is one. */
  method ReadFrame(w: seq<Byte>, pos: nat, end: nat) returns (more: bool, f: Frame)
    requires 10 <= pos && pos + 10 <= end <= |w|
    ensures more ==> |f.body| > 0 && pos + 10 + |f.body| <= end
    ensures more ==> FramesOf(w[3], w[pos..end]) == [f] + FramesOf(w[3], w[pos + 10 + |f.body|..end])
    ensures !more ==> FramesOf(w[3], w[pos..end]) == []
  {
    f := Frame([], []);
    var s := w[pos..end];
    if s[0] == 0 {
      return false, f;
    }
    var n := FrameSize(w[3], s[4..8]);
    if n == 0 || n > |s| - 10 {
      return false, f;
    }
    f := Frame(s[..4], s[10..10 + n]);
    TailOfSlice(w, pos, end, 10 + n);
    more := true;
  }

  lemma TailOfSlice(w: seq<Byte>, a: nat, b: nat, i: nat)
    requires i <= b - a && b <= |w|
    ensures w[a..b][i..] == w[a + i..b]
  {
  }

  /** The comment at p, if it is there whole. */
  method ReadComment(s: seq<Byte>, p: nat, left: nat) returns (more: bool, c: seq<Byte>)
    requires p + 4 <= |s| && left > 0
    ensures more ==> p + 4 + |c| <= |s| && CommentList(s[p..], left) == [c] + CommentList(s[p + 4 + |c|..], left - 1)
    ensures !more ==> CommentList(s[p..], left) == []
  {
    c := [];
    var t := s[p..];
    var n := LittleEndian(t[..4]);
    if n > |t| - 4 {
      return false, c;
    }
    c := t[4..4 + n];
    assert t[4 + n..] == s[p + 4 + n..];
    more := true;
  }

  /** The comment at p as an entry, and where the next one is. */
  method TakeComment(s: seq<Byte>, p: nat, left: nat, ghost t: Texts) returns (more: bool, e: Entry, next: nat)
    requires p + 4 <= |s| && left > 0
    ensures more ==> next <= |s| && CommentsTodo(s, p, left, t) == CommentsTodo(s, next, left - 1, t.After(e))
    ensures !more ==> CommentsTodo(s, p, left, t) == t
  {
    var c;
    more, c := ReadComment(s, p, left);
    if !more {
      return more, Ignored, p;
    }
    e := ParseComment(c);
    next := p + 4 + |c|;
    CommentTodo(s, p, next, left, c, t);
  }

  /** Where a metadata block leads. */
  datatype Lead = Found(body: seq<Byte>) | End | Skip(next: nat)

  method ReadBlock(w: seq<Byte>, pos: nat) returns (r: Lead)
    requires pos + 4 <= |w|
    ensures match r
            case Found(body) => CommentBlock(w[pos..]) == Text(body)
            case End => CommentBlock(w[pos..]) == NoText
            case Skip(next) => pos < next <= |w| && CommentBlock(w[pos..]) == CommentBlock(w[next..])
  {
    var last, kind := w[pos] >= 128, w[pos] % 128;
    SliceOfTail(w, pos, 1, 4);
    var n := BigEndian24(w[pos + 1..pos + 4]);
    if pos + 4 + n <= |w| {
      SliceOfTail(w, pos + 4, 0, n);
    }
    assert w[pos..][4..] == w[pos + 4..];
    if kind == VORBIS_COMMENT {
      if pos + 4 + n > |w| {
        return End;
      }
      return Found(w[pos + 4..pos + 4 + n]);
    }
    if last || pos + 4 + n > |w| {
      return End;
    }
    return Skip(pos + 4 + n);
  }

  method FindComments(w: seq<Byte>) returns (t: Text)
    requires |w| >= 4
    ensures t == CommentBlock(w[4..])
  {
    var pos := 4;
    while pos + 4 <= |w|
      invariant 4 <= pos <= |w|
      invariant CommentBlock(w[pos..]) == CommentBlock(w[4..])
    {
      var r := ReadBlock(w, pos);
      match r {
        case Found(body) => return Text(body);
        case End => return NoText;
        case Skip(next) => pos := next;
      }
    }
    return NoText;
  }
}
