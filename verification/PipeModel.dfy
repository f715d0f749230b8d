/** What a pipe of kernel/pipe.c is as a value: every byte ever put in, how many were taken out, and a ring
    with two 32-bit counters that must agree with that. */
module PipeModel {
  import opened Basics

  const PIPESIZE := 512
  const WRAP := 0x1_0000_0000 // uint counters

  type Byte = x: int | 0 <= x < 256

  /** Ring slot of byte n, and a uint counter after n increments. */
  function Slot(n: nat): nat { Residue(n, PIPESIZE) }

  function Wrap(n: nat): nat { Residue(n, WRAP) }

  /** The code's tests for empty and full, made on the wrapped counters, mean what they say. */
  lemma Counters(taken: nat, total: nat)
    requires taken <= total <= taken + PIPESIZE
    ensures Wrap(taken) == Wrap(total) <==> taken == total
    ensures (Wrap(taken) + PIPESIZE) % WRAP == Wrap(total) <==> total == taken + PIPESIZE
    ensures Wrap(total) % PIPESIZE == Slot(total) < PIPESIZE && Wrap(taken) % PIPESIZE == Slot(taken) < PIPESIZE
  {
    ResidueApart(taken, total, WRAP);
    ResidueApart(total, taken + PIPESIZE, WRAP);
    ResiduePlus(taken, PIPESIZE, WRAP);
    ResidueResidue(taken, WRAP, PIPESIZE);
    ResidueResidue(total, WRAP, PIPESIZE);
  }

  function Min(a: int, b: int): int { if a < b then a else b }

  /** What the rest of the kernel can tell about a pipe. */
  datatype View = View(size: nat, readopen: bool, writeopen: bool)

  /** After pipeclose of one end. */
  function Closed(v: View, writable: bool): View {
    if writable then v.(writeopen := false) else v.(readopen := false)
  }

  function Space(v: View): int { PIPESIZE - v.size }

  /** How a critical section of pipewrite or piperead ends. */
  datatype Ending = Sleeps | Fails | Returns

  /** How many bytes a writer gets in that has some readable ones in its buffer. */
  function PutCount(v: View, readable: nat): int { Min(readable, Space(v)) }

  /** pipewrite, with want bytes still to write of which copyin can read the first readable: it gives up, one
      way or the other, when the pipe is full before it is done. */
  function WriteEnds(v: View, killed: bool, want: nat, readable: nat): Ending {
    if Space(v) < want && Space(v) <= readable then if !v.readopen || killed then Fails else Sleeps
    else Returns
  }

  function ReadEnds(v: View, killed: bool): Ending {
    if v.size == 0 && v.writeopen then if killed then Fails else Sleeps else Returns
  }

  /** How many bytes piperead takes out that wants some and can store room of them. */
  function TakeCount(v: View, killed: bool, want: nat, room: nat): nat {
    if ReadEnds(v, killed) == Returns then Min(Min(want, v.size), room + 1) else 0
  }
}
