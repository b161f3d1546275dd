/**
 fs/pipe.c: a page used as a ring. Readers and writers take turns chunk by chunk, a chunk being what
 one passes between two looks at the fill level.
 */
module PipeRing {

  const PAGE_SIZE: nat := 4096

  type Byte = b: int | 0 <= b < 256

  /** PIPE_SIZE: the difference of head and tail, masked. */
  function Size(head: nat, tail: nat): (n: nat)
    ensures n < PAGE_SIZE
  {
    (head - tail) % PAGE_SIZE
  }

  /** Byte i of the ring. */
  function At(page: seq<Byte>, i: nat): Byte
    requires |page| == PAGE_SIZE
  {
    page[i % PAGE_SIZE]
  }

  /** The bytes in the pipe, oldest first. */
  ghost function Contents(page: seq<Byte>, head: nat, tail: nat): (q: seq<Byte>)
    requires |page| == PAGE_SIZE
    ensures |q| == Size(head, tail) && forall k: nat | k < |q| :: q[k] == At(page, tail + k)
  {
    seq<Byte>(Size(head, tail), (k: nat) => At(page, tail + k))
  }

  function Min(a: nat, b: nat): nat {
    if a < b then a else b
  }

  /** Moving the tail on takes bytes from the front. */
  lemma TailMoves(page: seq<Byte>, head: nat, tail: nat, n: nat)
    requires |page| == PAGE_SIZE && head < PAGE_SIZE && tail < PAGE_SIZE
    requires n <= Size(head, tail) && tail + n <= PAGE_SIZE
    ensures Contents(page, head, tail) == page[tail..tail + n] + Contents(page, head, (tail + n) % PAGE_SIZE)
  {
    var t := (tail + n) % PAGE_SIZE;
    SizeAfter(head, tail, n);
    var c, d := Contents(page, head, tail), page[tail..tail + n] + Contents(page, head, t);
    assert |d| == |c|;
    forall k: nat | k < |c| ensures d[k] == c[k] {
      if k >= n {
        Wraps(tail, n, k - n);
      }
    }
  }

  lemma SizeAfter(head: nat, tail: nat, n: nat)
    requires head < PAGE_SIZE && tail < PAGE_SIZE && n <= Size(head, tail) && tail + n <= PAGE_SIZE
    ensures Size(head, (tail + n) % PAGE_SIZE) == Size(head, tail) - n
  {}

  lemma Wraps(t: nat, n: nat, k: nat)
    ensures ((t + n) % PAGE_SIZE + k) % PAGE_SIZE == (t + (n + k)) % PAGE_SIZE
  {}

  /** Storing in front of the head and moving it on adds bytes at the end. */
  lemma HeadMoves(page: seq<Byte>, page2: seq<Byte>, head: nat, tail: nat, data: seq<Byte>)
    requires |page| == |page2| == PAGE_SIZE && head < PAGE_SIZE && tail < PAGE_SIZE
    requires |data| + Size(head, tail) < PAGE_SIZE && head + |data| <= PAGE_SIZE
    requires page2 == page[..head] + data + page[head + |data|..]
    ensures Contents(page2, (head + |data|) % PAGE_SIZE, tail) == Contents(page, head, tail) + data
  {
    var h, s := (head + |data|) % PAGE_SIZE, Size(head, tail);
    assert Size(h, tail) == s + |data|;
    var c, d := Contents(page2, h, tail), Contents(page, head, tail) + data;
    assert |d| == |c|;
    forall k: nat | k < |c| ensures c[k] == d[k] {
      Cell(head, tail, |data|, k);
    }
  }

  /** Where byte k of the ring lies: before the head or at it. */
  lemma Cell(head: nat, tail: nat, n: nat, k: nat)
    requires head < PAGE_SIZE && tail < PAGE_SIZE && n + Size(head, tail) < PAGE_SIZE && head + n <= PAGE_SIZE
    requires k < Size(head, tail) + n
    ensures k < Size(head, tail) ==> !(head <= (tail + k) % PAGE_SIZE < head + n)
    ensures k >= Size(head, tail) ==> (tail + k) % PAGE_SIZE == head + (k - Size(head, tail))
  {}

  class Pipe {
    const page: array<Byte>
    var head: nat
    var tail: nat

    ghost predicate Valid()
      reads this
    {
      page.Length == PAGE_SIZE && head < PAGE_SIZE && tail < PAGE_SIZE
    }

    ghost function Queue(): (q: seq<Byte>)
      requires Valid()
      reads this, page
      ensures |q| < PAGE_SIZE
    {
      Contents(page[..], head, tail)
    }

    /** get_pipe_inode */
    constructor (p: array<Byte>)
      requires p.Length == PAGE_SIZE
      ensures Valid() && page == p && Queue() == []
    {
      page, head, tail := p, 0, 0;
    }

    /** One round of read_pipe's loop; nothing if the pipe is empty and the reader has to sleep. */
    method ReadChunk(count: nat) returns (out: seq<Byte>)
      requires Valid()
      modifies this
      ensures Valid() && old(Queue()) == out + Queue()
      ensures |out| == Min(Min(PAGE_SIZE - old(tail), count), |old(Queue())|)
    {
      var size := Size(head, tail);
      if size == 0 { return []; }
      var chars := PAGE_SIZE - tail;
      if chars > count { chars := count; }
      if chars > size { chars := size; }
      size := tail;
      TailMoves(page[..], head, tail, chars);
      tail := tail + chars;
      tail := tail % PAGE_SIZE;
      out := [];
      while |out| < chars
        invariant |out| <= chars && out == page[..][size..size + |out|]
      {
        out := out + [page[size + |out|]];
      }
    }

    /** One round of write_pipe's loop; nothing if the pipe is full and the writer has to sleep. */
    method WriteChunk(buf: seq<Byte>) returns (n: nat)
      requires Valid()
      modifies this, page
      ensures Valid() && n <= |buf| && Queue() == old(Queue()) + buf[..n]
      ensures n == Min(Min(PAGE_SIZE - old(head), |buf|), PAGE_SIZE - 1 - |old(Queue())|)
    {
      var size := PAGE_SIZE - 1 - Size(head, tail);
      if size == 0 { return 0; }
      n := PAGE_SIZE - head;
      if n > |buf| { n := |buf|; }
      if n > size { n := size; }
      ghost var p, h := page[..], head;
      size := head;
      head := head + n;
      head := head % PAGE_SIZE;
      var i := 0;
      while i < n
        modifies page
        invariant 0 <= i <= n
        invariant forall k: nat | k < PAGE_SIZE :: page[k] == if h <= k < h + i then buf[k - h] else p[k]
      {
        page[size + i] := buf[i];
        i := i + 1;
      }
      HeadMoves(p, page[..], h, tail, buf[..n]);
    }

    /** A writer of `data` and a reader of `count` bytes, in whatever order the scheduler lets them do
        their chunks: what was read and what is in the pipe is what was in it and what was written,
        in order. */
    method Transfer(data: seq<Byte>, count: nat, turns: seq<bool>) returns (got: seq<Byte>, sent: nat)
      requires Valid()
      modifies this, page
      ensures Valid() && sent <= |data| && |got| <= count
      ensures got + Queue() == old(Queue()) + data[..sent]
    {
      hide Contents, Size;
      got, sent := [], 0;
      ghost var q := Queue();
      for i := 0 to |turns|
        invariant Valid() && sent <= |data| && |got| <= count
        invariant got + Queue() == q + data[..sent]
      {
        ghost var before := Queue();
        if turns[i] {
          var n := WriteChunk(data[sent..]);
          Appended(got, before, Queue(), q, data, sent, n);
          sent := sent + n;
        } else {
          var out := ReadChunk(count - |got|);
          Taken(got, out, before, Queue(), q + data[..sent]);
          got := got + out;
        }
      }
    }

    /** Neither can go on: each is through with its bytes, or the pipe is full for the writer, or it is
        empty for the reader. */
    ghost predicate Through(data: seq<Byte>, count: nat, got: seq<Byte>, sent: nat)
      requires Valid()
      reads this, page
    {
      && (sent == |data| || |Queue()| == PAGE_SIZE - 1)
      && (|got| == count || |Queue()| == 0)
    }

    /** A turn of the writer and a turn of the reader get on, unless both are through. */
    method Round(data: seq<Byte>, count: nat, got: seq<Byte>, sent: nat) returns (got2: seq<Byte>, sent2: nat)
      requires Valid() && sent <= |data| && |got| <= count
      modifies this, page
      ensures Valid() && sent <= sent2 <= |data| && |got| <= |got2| <= count
      ensures got2 + Queue() == got + old(Queue()) + data[sent..sent2]
      ensures sent + |got| < sent2 + |got2| || Through(data, count, got2, sent2)
    {
      hide Contents, Size;
      ghost var before := Queue();
      var n := WriteChunk(data[sent..]);
      sent2 := sent + n;
      ghost var q := Queue();
      var out := ReadChunk(count - |got|);
      got2 := got + out;
      Taken(got, out, q, Queue(), got + q);
      assert data[sent..][..n] == data[sent..sent2];
      assert got + (before + data[sent..sent2]) == got + before + data[sent..sent2];
    }

    /** Taking turns they get through: everything is written and the reader has what it wants or all
        there is, or the reader has what it wants and the rest fills the pipe. */
    method Alternate(data: seq<Byte>, count: nat) returns (got: seq<Byte>, sent: nat)
      requires Valid()
      modifies this, page
      ensures Valid() && sent <= |data| && |got| <= count && got + Queue() == old(Queue()) + data[..sent]
      ensures Through(data, count, got, sent)
    {
      hide Contents, Size, Through;
      got, sent := [], 0;
      ghost var q := Queue();
      var done := false;
      while !done
        invariant Valid() && sent <= |data| && |got| <= count && got + Queue() == q + data[..sent]
        invariant done ==> Through(data, count, got, sent)
        decreases |data| + count - sent - |got|, if done then 0 else 1
      {
        var was := sent + |got|;
        ghost var old_sent, before := sent, got + Queue();
        got, sent := Round(data, count, got, sent);
        assert data[..sent] == data[..old_sent] + data[old_sent..sent];
        assert q + data[..sent] == before + data[old_sent..sent];
        done := sent + |got| == was;
      }
    }
  }

  lemma Appended(got: seq<Byte>, before: seq<Byte>, now: seq<Byte>, q: seq<Byte>, data: seq<Byte>, sent: nat, n: nat)
    requires sent + n <= |data| && got + before == q + data[..sent] && now == before + data[sent..][..n]
    ensures got + now == q + data[..sent + n]
  {
    assert data[..sent + n] == data[..sent] + data[sent..][..n];
    assert got + now == (got + before) + data[sent..][..n];
  }

  lemma Taken(got: seq<Byte>, out: seq<Byte>, before: seq<Byte>, now: seq<Byte>, all: seq<Byte>)
    requires got + before == all && before == out + now
    ensures (got + out) + now == all
  {
    assert (got + out) + now == got + (out + now);
  }
}
