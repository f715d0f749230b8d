/** pipewrite, piperead and pipeclose of kernel/pipe.c.  A call of pipewrite or piperead here is one critical
    section: from taking the lock, or waking up with it, to sleeping or returning. */
module Pipe {
  import opened Basics
  import opened PipeModel

  class Pipe {
    const data: array<Byte>
    var nread: nat
    var nwrite: nat
    var readopen: bool
    var writeopen: bool
    ghost var put: seq<Byte>   // every byte written to the ring, in order
    ghost var got: seq<Byte>   // every byte read from the ring, in order

    ghost predicate Valid()
      reads this, data
    {
      && data.Length == PIPESIZE
      && |got| <= |put| <= |got| + PIPESIZE
      && nread == Wrap(|got|) && nwrite == Wrap(|put|)
      && RingHolds(data[..], put, |got|, PIPESIZE)
      && got == put[..|got|]
    }

    ghost function Size(): int
      reads this
    {
      |put| - |got|
    }

    ghost function Look(): (v: View)
      requires Valid()
      reads this, data
    {
      View(|put| - |got|, readopen, writeopen)
    }

    constructor ()
      ensures Valid() && put == [] && got == [] && readopen && writeopen && fresh(data)
    {
      data := new Byte[PIPESIZE];
      nread, nwrite := 0, 0;
      readopen, writeopen := true, true;
      put, got := [], [];
    }

    /** Stores a byte in the slot that the write counter names, and counts it. */
    method Put(ch: Byte)
      requires Valid() && Size() < PIPESIZE
      modifies this`nwrite, this`put, data
      ensures Valid() && put == old(put) + [ch]
    {
      Counters(|got|, |put|);
      RingPush(data[..], put, |got|, ch, PIPESIZE);
      ghost var was := data[..];
      data[nwrite % PIPESIZE] := ch;
      assert data[..] == was[Slot(|put|) := ch];
      ResiduePlus(|put|, 1, WRAP);
      nwrite := (nwrite + 1) % WRAP;
      put := put + [ch];
    }

    /** Fetches the byte in the slot that the read counter names, the oldest one, and counts it. */
    method Get() returns (ch: Byte)
      requires Valid() && 0 < Size()
      modifies this`nread, this`got
      ensures Valid() && ch == put[|old(got)|] && got == old(got) + [ch]
    {
      Counters(|got|, |put|);
      ch := data[nread % PIPESIZE];
      assert ch == data[..][Slot(|got|)];
      ResiduePlus(|got|, 1, WRAP);
      nread := (nread + 1) % WRAP;
      got := got + [ch];
    }

    /** The writer has i of n bytes in; src is the part of the user's buffer that copyin can read.  j is how far
        it gets. */
    method PipeWrite(src: seq<Byte>, n: nat, i: nat, killed: bool) returns (r: Ending, j: nat)
      requires Valid() && i <= |src| <= n
      modifies this`nwrite, this`put, data
      ensures Valid() && j == i + PutCount(old(Look()), |src| - i) && i <= j <= |src|
      ensures put == old(put) + src[i..j]
      ensures r == WriteEnds(old(Look()), killed, n - i, |src| - i)
    {
      j := i;
      while j < n
        invariant i <= j <= |src| && Valid() && put == old(put) + src[i..j]
      {
        Counters(|got|, |put|);
        if nwrite == (nread + PIPESIZE) % WRAP {
          return if !readopen || killed then Fails else Sleeps, j;
        }
        if j == |src| { break; }
        assert src[i..j + 1] == src[i..j] + [src[j]];
        Put(src[j]);
        j := j + 1;
      }
      r := Returns;
    }

    /** Takes out up to n bytes, of which copyout can store room; the byte that copyout refuses is lost. */
    method Drain(n: nat, room: nat) returns (bytes: seq<Byte>, ghost taken: seq<Byte>)
      requires Valid()
      modifies this`nread, this`got
      ensures Valid() && got == old(got) + taken
      ensures |taken| == Min(Min(n, old(Size())), room + 1) && bytes == taken[..Min(|taken|, room)]
    {
      bytes, taken := [], [];
      var j := 0;
      while j < n
        invariant 0 <= j <= n && j <= room && Valid()
        invariant |bytes| == j && taken == bytes && got == old(got) + taken
      {
        Counters(|got|, |put|);
        if nread == nwrite { return; }
        var ch := Get();
        taken := taken + [ch];
        if j == room { return; }
        bytes := bytes + [ch];
        j := j + 1;
      }
    }

    /** The reader wants n bytes; copyout can store room of them. */
    method PipeRead(n: nat, room: nat, killed: bool) returns (r: Ending, bytes: seq<Byte>, ghost taken: seq<Byte>)
      requires Valid()
      modifies this`nread, this`got
      ensures Valid() && got == old(got) + taken
      ensures r == ReadEnds(old(Look()), killed)
      ensures |taken| == TakeCount(old(Look()), killed, n, room) && bytes == taken[..Min(|taken|, room)]
    {
      Counters(|got|, |put|);
      if nread == nwrite && writeopen {
        return if killed then Fails else Sleeps, [], [];
      }
      bytes, taken := Drain(n, room);
      r := Returns;
    }

    /** freed: both ends are closed, and the caller of kfree is this one. */
    method PipeClose(writable: bool) returns (freed: bool)
      requires Valid()
      modifies this`readopen, this`writeopen
      ensures Valid() && Look() == Closed(old(Look()), writable)
      ensures freed <==> !readopen && !writeopen
    {
      if writable { writeopen := false; } else { readopen := false; }
      freed := !readopen && !writeopen;
    }
  }
}
