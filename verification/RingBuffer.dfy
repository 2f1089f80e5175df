/** The ring's operations as the code writes them, on an array, with nobody
    else at work: what one call does to the bytes in the ring. */
module RingBuffer {
  import opened Bytes
  import opened SharedRing

  /** memcpy into the buffer. */
  method CopyIn(buf: array<Byte>, at: nat, data: seq<Byte>)
    requires at + |data| <= buf.Length
    modifies buf
    ensures forall i :: 0 <= i < buf.Length ==> buf[i] == if at <= i < at + |data| then data[i - at] else old(buf[i])
  {
    var n := 0;
    while n < |data|
      invariant 0 <= n <= |data|
      invariant forall i :: 0 <= i < buf.Length ==> buf[i] == if at <= i < at + n then data[i - at] else old(buf[i])
    {
      buf[at + n] := data[n];
      n := n + 1;
    }
  }

  /** The two copies of a write: up to the end of the buffer, and the rest
      from its start. */
  method CopyAround(buf: array<Byte>, head: nat, data: seq<Byte>)
    requires head < buf.Length && |data| < buf.Length
    modifies buf
    ensures Written(old(buf[..]), buf[..], head, data)
  {
    var first := buf.Length - head;
    if first > |data| {
      first := |data|;
    }
    CopyIn(buf, head, data[..first]);
    if |data| > first {
      CopyIn(buf, 0, data[first..]);
    }
  }

  class RingBuffer {
    const buf: array<Byte>
    var head: nat
    var tail: nat
    /** The bytes in the ring, oldest first. */
    ghost var contents: seq<Byte>

    ghost predicate Valid()
      reads this, buf
    {
      && head < buf.Length && tail < buf.Length
      && Holds(buf[..], head, tail, contents)
    }

    constructor (size: nat)
      requires size > 0
      ensures Valid() && fresh(buf) && buf.Length == size && contents == []
    {
      buf := new Byte[size];
      head, tail, contents := 0, 0, [];
    }

    method RingUsed() returns (n: nat)
      requires Valid()
      ensures n == |contents|
    {
      if head >= tail {
        return head - tail;
      }
      return buf.Length - tail + head;
    }

    method RingFree() returns (n: nat)
      requires Valid()
      ensures n == buf.Length - 1 - |contents|
    {
      var used := RingUsed();
      n := buf.Length - used - 1;
    }

    /** Write as much as there is room for. */
    method Write(data: seq<Byte>) returns (n: nat)
      requires Valid()
      modifies this, buf
      ensures Valid() && n == Min(|data|, buf.Length - 1 - |old(contents)|)
      ensures contents == old(contents) + data[..n]
    {
      var space := RingFree();
      n := if |data| > space then space else |data|;
      if n == 0 {
        assert contents == contents + data[..n];
        return;
      }
      ghost var before := buf[..];
      CopyAround(buf, head, data[..n]);
      WriteHolds(before, buf[..], head, tail, contents, data[..n]);
      contents := contents + data[..n];
      head := (head + n) % buf.Length;
    }

    /** Take up to len bytes out. */
    method Read(len: nat) returns (out: seq<Byte>)
      requires Valid()
      modifies this
      ensures Valid() && |out| == Min(len, |old(contents)|)
      ensures old(contents) == out + contents
    {
      var used := RingUsed();
      var n := if len > used then used else len;
      if n == 0 {
        return [];
      }
      var first := buf.Length - tail;
      if first > n {
        first := n;
      }
      out := buf[tail..tail + first];
      if n > first {
        out := out + buf[..n - first];
      }
      ReadHolds(buf[..], head, tail, contents, n);
      TakenBytes(buf[..], head, tail, contents, n, out);
      contents := contents[n..];
      tail := (tail + n) % buf.Length;
    }

    /** Forget everything. */
    method Reset()
      requires buf.Length > 0
      modifies this
      ensures Valid() && contents == []
    {
      head := 0;
      tail := 0;
      contents := [];
    }
  }

  /** The bytes from tail on, around the end of the buffer, up to head. */
  ghost predicate Holds(b: seq<Byte>, head: nat, tail: nat, c: seq<Byte>)
    requires head < |b| && tail < |b|
  {
    && |c| == Used(head, tail, |b|)
    && (forall k :: 0 <= k < |c| ==> c[k] == b[Wrap(tail, k, |b|)])
  }

  /** One index around the ring. */
  lemma Around(head: nat, n: nat, size: nat)
    requires head < size && n < size
    ensures (head + n) % size == Wrap(head, n, size)
  {
    if n < size - head {
      Residue(head + n, 0, head + n, size);
    } else {
      Residue(head + n, 1, head + n - size, size);
    }
  }

  /** The buffer after both parts of a write. */
  ghost predicate Written(before: seq<Byte>, after: seq<Byte>, head: nat, data: seq<Byte>)
    requires head < |before| && |data| < |before|
  {
    && |after| == |before|
    && (forall k :: 0 <= k < |data| ==> data[k] == after[Wrap(head, k, |after|)])
    && (forall i :: 0 <= i < |before| && !(head <= i < head + |data|) && !(i < head + |data| - |before|) ==>
          after[i] == before[i])
  }

  lemma WriteHolds(before: seq<Byte>, after: seq<Byte>, head: nat, tail: nat, c: seq<Byte>, data: seq<Byte>)
    requires head < |before| && tail < |before| && |c| + |data| < |before|
    requires Holds(before, head, tail, c) && Written(before, after, head, data)
    ensures (head + |data|) % |after| < |after| && Holds(after, (head + |data|) % |after|, tail, c + data)
  {
    Around(head, |data|, |after|);
    var all := c + data;
    forall k | 0 <= k < |all| ensures all[k] == after[Wrap(tail, k, |after|)] {
      if k >= |c| {
        assert all[k] == data[k - |c|];
      } else {
        assert before[Wrap(tail, k, |before|)] == c[k];
      }
    }
  }

  lemma ReadHolds(b: seq<Byte>, head: nat, tail: nat, c: seq<Byte>, n: nat)
    requires head < |b| && tail < |b| && n <= |c| && Holds(b, head, tail, c)
    ensures (tail + n) % |b| < |b| && Holds(b, head, (tail + n) % |b|, c[n..])
  {
    Around(tail, n, |b|);
  }

  lemma TakenBytes(b: seq<Byte>, head: nat, tail: nat, c: seq<Byte>, n: nat, out: seq<Byte>)
    requires head < |b| && tail < |b| && n <= |c| && Holds(b, head, tail, c)
    requires out == if n <= |b| - tail then b[tail..tail + n] else b[tail..] + b[..n - (|b| - tail)]
    ensures out == c[..n]
  {
  }
}
