/**
 Ring buffers and pipes (device/ioqueue.c, shell/pipe.c): 2048 places, of which one stays empty.
 */
module IoQueue {

  /** next_pos */
  function NextPos(pos: nat): (r: nat)
    requires pos < 2048
    ensures r < 2048
  {
    if pos + 1 == 2048 then 0 else pos + 1
  }

  /** The number of filled places from `tail` up to `head`, going round. */
  function Distance(tail: nat, head: nat): (n: nat)
    requires tail < 2048 && head < 2048
    ensures n <= 2047
  {
    if tail <= head then head - tail else 2048 - (tail - head)
  }

  /** The bytes from `tail` up to `head`. */
  ghost function Bytes(buf: seq<int>, tail: nat, head: nat): (s: seq<int>)
    requires |buf| == 2048 && tail < 2048 && head < 2048
    ensures |s| == Distance(tail, head)
  {
    if tail <= head then buf[tail..head] else buf[tail..] + buf[..head]
  }

  /** Taking the oldest byte. */
  lemma BytesTake(buf: seq<int>, tail: nat, head: nat)
    requires |buf| == 2048 && tail < 2048 && head < 2048 && tail != head
    ensures Bytes(buf, tail, head) == [buf[tail]] + Bytes(buf, NextPos(tail), head)
  {
  }

  /** Adding a byte. */
  lemma BytesAdd(buf: seq<int>, tail: nat, head: nat, b: int)
    requires |buf| == 2048 && tail < 2048 && head < 2048 && NextPos(head) != tail
    ensures Bytes(buf[head := b], tail, NextPos(head)) == Bytes(buf, tail, head) + [b]
  {
  }

  /** struct ioqueue, without its lock and waiters. */
  class Ring {
    const buf: array<int>
    var head: nat
    var tail: nat
    ghost var put: seq<int>
    ghost var got: seq<int>

    ghost predicate Valid()
      reads this, buf
    {
      && buf.Length == 2048 && head < 2048 && tail < 2048
      && put == got + Contents()
    }

    /** The bytes that are in the queue, oldest first. */
    ghost function Contents(): (s: seq<int>)
      requires buf.Length == 2048 && head < 2048 && tail < 2048
      reads this, buf
    {
      Bytes(buf[..], tail, head)
    }

    /** ioqueue_init */
    constructor ()
      ensures Valid() && Contents() == [] && put == [] && got == [] && fresh(buf)
    {
      buf := new int[2048];
      head, tail := 0, 0;
      put, got := [], [];
    }

    /** ioq_full */
    method Full() returns (r: bool)
      requires Valid()
      ensures r <==> |Contents()| == 2047
    {
      r := NextPos(head) == tail;
    }

    /** ioq_empty */
    method Empty() returns (r: bool)
      requires Valid()
      ensures r <==> Contents() == []
    {
      r := head == tail;
    }

    /** ioq_length */
    method Length() returns (n: nat)
      requires Valid()
      ensures n == |Contents()| <= 2047
    {
      if head >= tail {
        n := head - tail;
      } else {
        n := 2048 - (tail - head);
      }
    }

    /** ioq_getchar past its waiting loop. */
    method Get() returns (b: int)
      requires Valid() && Contents() != []
      modifies this
      ensures Valid() && old(Contents()) == [b] + Contents()
      ensures put == old(put) && got == old(got) + [b] && head == old(head)
    {
      BytesTake(buf[..], tail, head);
      b := buf[tail];
      tail := NextPos(tail);
      got := got + [b];
    }

    /** ioq_putchar past its waiting loop. */
    method Put(b: int)
      requires Valid() && |Contents()| < 2047
      modifies this, buf
      ensures Valid() && Contents() == old(Contents()) + [b]
      ensures put == old(put) + [b] && got == old(got)
    {
      BytesAdd(buf[..], tail, head, b);
      ghost var before := buf[..];
      buf[head] := b;
      assert buf[..] == before[head := b];
      head := NextPos(head);
      put := put + [b];
    }

    /** One round of pipe_read: the next byte joins those taken before. */
    method TakeOne(ghost all: seq<int>, bytes: seq<int>) returns (bytes1: seq<int>)
      requires Valid() && Contents() != [] && bytes + Contents() == all
      modifies this
      ensures Valid() && put == old(put) && |bytes1| == |bytes| + 1 && bytes1 + Contents() == all
      ensures exists b :: bytes1 == bytes + [b] && got == old(got) + [b]
    {
      ghost var before := Contents();
      var b := Get();
      Regroup(bytes, b, Contents());
      assert bytes + before == bytes + ([b] + Contents());
      bytes1 := bytes + [b];
    }

    /** pipe_read: it takes what is there, up to `count` bytes, and never waits. */
    method PipeRead(count: nat) returns (bytes: seq<int>)
      requires Valid()
      modifies this
      ensures Valid() && put == old(put) && got == old(got) + bytes
      ensures bytes + Contents() == old(Contents())
      ensures |bytes| == if |old(Contents())| > count then count else |old(Contents())|
    {
      var len := Length();
      var size := if len > count then count else len;
      bytes := [];
      ghost var all := Contents();
      while |bytes| < size
        invariant |bytes| <= size <= |all| && Valid() && put == old(put) && got == old(got) + bytes
        invariant bytes + Contents() == all
        decreases size - |bytes|
      {
        assert |bytes| + |Contents()| == |all|;
        bytes := TakeOne(all, bytes);
      }
    }

    /** pipe_write: it counts on one place more than there is, and so comes to wait exactly when `bytes`
        has more bytes than there are free places. */
    method PipeWrite(bytes: seq<int>) returns (n: nat, waits: bool)
      requires Valid()
      modifies this, buf
      ensures Valid() && n <= |bytes| && got == old(got) && put == old(put) + bytes[..n]
      ensures Contents() == old(Contents()) + bytes[..n]
      ensures waits <==> |bytes| > 2047 - |old(Contents())|
      ensures n == if waits then 2047 - |old(Contents())| else |bytes|
    {
      var len := Length();
      var left := 2048 - len;
      var size := if left > |bytes| then |bytes| else left;
      n := 0;
      while n < size
        invariant n <= size && Valid() && got == old(got) && put == old(put) + bytes[..n]
        invariant Contents() == old(Contents()) + bytes[..n]
      {
        var full := Full();
        if full {
          waits := true;
          return;
        }
        Put(bytes[n]);
        assert bytes[..n + 1] == bytes[..n] + [bytes[n]];
        n := n + 1;
      }
      waits := false;
    }
  }

  lemma Regroup(a: seq<int>, b: int, c: seq<int>)
    ensures a + ([b] + c) == (a + [b]) + c
  {
  }

  // ----- any number of producers and consumers

  /** What a producer or a consumer does once it is past its waiting loop. */
  datatype Move = PutByte(b: int) | GetByte

  /** All bytes put so far and all bytes taken. */
  datatype Log = Log(put: seq<int>, got: seq<int>)

  /** A byte goes in if there is a place, and the oldest one comes out if there is one. */
  function Next(l: Log, m: Move): (l1: Log) {
    match m
    case PutByte(b) => if |l.put| < |l.got| + 2047 then l.(put := l.put + [b]) else l
    case GetByte => if |l.got| < |l.put| then l.(got := l.got + [l.put[|l.got|]]) else l
  }

  function After(l: Log, moves: seq<Move>): (l1: Log) {
    if moves == [] then l else Next(After(l, moves[..|moves| - 1]), moves[|moves| - 1])
  }

  /** Whoever they are and in whatever order they come: bytes leave in the order they came in, none is lost
      or doubled, and at most 2047 are on the way. */
  lemma {:induction false} FirstInFirstOut(l: Log, moves: seq<Move>)
    requires l.got <= l.put && |l.put| <= |l.got| + 2047
    ensures var l1 := After(l, moves); l1.got <= l1.put && |l1.put| <= |l1.got| + 2047 && l.put <= l1.put
                                       && l.got <= l1.got
  {
    if moves != [] {
      FirstInFirstOut(l, moves[..|moves| - 1]);
    }
  }

  /** The ring does what the log says. */
  method Run(ring: Ring, moves: seq<Move>)
    requires ring.Valid()
    modifies ring, ring.buf
    ensures ring.Valid() && Log(ring.put, ring.got) == After(old(Log(ring.put, ring.got)), moves)
  {
    ghost var l := Log(ring.put, ring.got);
    var i := 0;
    while i < |moves|
      invariant 0 <= i <= |moves| && ring.Valid() && Log(ring.put, ring.got) == After(l, moves[..i])
    {
      assert moves[..i + 1][..i] == moves[..i];
      match moves[i] {
        case PutByte(b) =>
          var full := ring.Full();
          if !full {
            ring.Put(b);
          }
        case GetByte =>
          var empty := ring.Empty();
          if !empty {
            ghost var inside := ring.Contents();
            var b := ring.Get();
            assert inside[0] == b;
          }
      }
      i := i + 1;
    }
    assert moves[..i] == moves;
  }
}
