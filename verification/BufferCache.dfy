/** The identities, reference counts and list of the buffer cache in kernel/bio.c: what happens under
    bcache.lock. */
module BufferCache {
  import opened BufferRing

  datatype Buf = Buf(valid: bool, dev: nat, blockno: nat, refcnt: nat)

  predicate Holds(b: Buf, dev: nat, blockno: nat) { b.dev == dev && b.blockno == blockno }

  /** The first buffer in the list that holds the block, by place in the list. */
  predicate FirstHolder(bufs: seq<Buf>, order: seq<nat>, dev: nat, blockno: nat, j: nat)
    requires |bufs| == NBUF && Buffers(order)
  {
    && j < |order| && Holds(bufs[order[j]], dev, blockno)
    && (forall i :: 0 <= i < j ==> !Holds(bufs[order[i]], dev, blockno))
  }

  predicate NoHolder(bufs: seq<Buf>, dev: nat, blockno: nat) {
    forall b :: 0 <= b < |bufs| ==> !Holds(bufs[b], dev, blockno)
  }

  /** The least recently used buffer that nobody refers to. */
  predicate LastUnused(bufs: seq<Buf>, order: seq<nat>, j: nat)
    requires |bufs| == NBUF && Buffers(order)
  {
    && j < |order| && bufs[order[j]].refcnt == 0
    && (forall i :: j < i < |order| ==> bufs[order[i]].refcnt > 0)
  }

  function AddRef(bufs: seq<Buf>, b: nat): seq<Buf>
    requires b < |bufs|
  {
    bufs[b := bufs[b].(refcnt := bufs[b].refcnt + 1)]
  }

  function DropRef(bufs: seq<Buf>, b: nat): seq<Buf>
    requires b < |bufs| && bufs[b].refcnt > 0
  {
    bufs[b := bufs[b].(refcnt := bufs[b].refcnt - 1)]
  }

  class Cache {
    var bufs: seq<Buf>
    var next: seq<nat>
    var prev: seq<nat>
    ghost var order: seq<nat>

    ghost predicate Valid()
      reads this
    {
      |bufs| == NBUF && AllBuffers(order) && Ring(next, prev, order)
    }

    /** binit */
    constructor ()
      ensures Valid()
      ensures forall b :: 0 <= b < NBUF ==> bufs[b] == Buf(false, 0, 0, 0)
    {
      bufs := seq(NBUF, _ => Buf(false, 0, 0, 0));
      next := seq(NBUF + 1, _ => HEAD);
      prev := seq(NBUF + 1, _ => HEAD);
      order := [];
      new;
      var b := 0;
      while b < NBUF
        invariant 0 <= b <= NBUF && |bufs| == NBUF && Ring(next, prev, order)
        invariant |order| == b && (forall x: nat :: x in order <==> x < b)
        invariant forall i :: 0 <= i < NBUF ==> bufs[i] == Buf(false, 0, 0, 0)
      {
        PushFront(next, prev, order, b);
        LinkFront(b);
        order := [b] + order;
        b := b + 1;
      }
    }

    /** Put b between the head and what was first. */
    method LinkFront(b: nat)
      requires |next| == NBUF + 1 && |prev| == NBUF + 1 && b < NBUF && next[HEAD] <= HEAD
      modifies this`next, this`prev
      ensures next == old(next)[b := old(next)[HEAD]][HEAD := b]
      ensures prev == old(prev)[b := HEAD][old(next)[HEAD] := b]
    {
      next := next[b := next[HEAD]];
      prev := prev[b := HEAD];
      prev := prev[next[HEAD] := b];
      next := next[HEAD := b];
    }

    /** The first loop of bget. */
    method FindHolder(dev: nat, blockno: nat) returns (found: bool, b: nat, ghost j: nat)
      requires Valid()
      ensures found ==> FirstHolder(bufs, order, dev, blockno, j) && b == order[j]
      ensures !found ==> NoHolder(bufs, dev, blockno)
    {
      b, j := next[HEAD], 0;
      assert next[Circle(order, 0)] == Circle(order, 1);
      while b != HEAD
        invariant 0 <= j <= |order| && b == Circle(order, j + 1)
        invariant forall i :: 0 <= i < j ==> !Holds(bufs[order[i]], dev, blockno)
        decreases |order| - j
      {
        if bufs[b].dev == dev && bufs[b].blockno == blockno { return true, b, j; }
        assert next[Circle(order, j + 1)] == Circle(order, j + 2);
        b, j := next[b], j + 1;
      }
      found := false;
      forall x: nat | x < NBUF ensures !Holds(bufs[x], dev, blockno) {
        assert x in order;
      }
    }

    /** The second loop of bget. */
    method FindUnused() returns (found: bool, b: nat, ghost j: nat)
      requires Valid()
      ensures found ==> LastUnused(bufs, order, j) && b == order[j]
      ensures !found ==> forall x :: 0 <= x < NBUF ==> bufs[x].refcnt > 0
    {
      ghost var k := |order|;
      b, j := prev[HEAD], 0;
      assert prev[Circle(order, |order| + 1)] == Circle(order, |order|);
      while b != HEAD
        invariant 0 <= k <= |order| && b == Circle(order, k)
        invariant forall i :: k <= i < |order| ==> bufs[order[i]].refcnt > 0
        decreases k
      {
        if bufs[b].refcnt == 0 { return true, b, k - 1; }
        assert prev[Circle(order, (k - 1) + 1)] == Circle(order, k - 1);
        b, k := prev[b], k - 1;
      }
      found := false;
      forall x: nat | x < NBUF ensures bufs[x].refcnt > 0 {
        assert x in order;
      }
    }

    /** bget under bcache.lock: a buffer that holds the block gets one more reference; failing that, the least
        recently used buffer without references takes the block's identity; failing that, it panics. */
    method Bget(dev: nat, blockno: nat) returns (panicked: bool, b: nat, ghost j: nat)
      requires Valid()
      modifies this`bufs
      ensures Valid()
      ensures panicked <==> NoHolder(old(bufs), dev, blockno) && forall x :: 0 <= x < NBUF ==> old(bufs)[x].refcnt > 0
      ensures panicked ==> bufs == old(bufs)
      ensures !panicked ==> j < NBUF && b == order[j]
      ensures !panicked && !NoHolder(old(bufs), dev, blockno) ==>
        FirstHolder(old(bufs), order, dev, blockno, j) && bufs == AddRef(old(bufs), b)
      ensures !panicked && NoHolder(old(bufs), dev, blockno) ==>
        LastUnused(old(bufs), order, j) && bufs == old(bufs)[b := Buf(false, dev, blockno, 1)]
    {
      var found;
      found, b, j := FindHolder(dev, blockno);
      if found {
        bufs := bufs[b := bufs[b].(refcnt := bufs[b].refcnt + 1)];
        return false, b, j;
      }
      found, b, j := FindUnused();
      if found {
        bufs := bufs[b := Buf(false, dev, blockno, 1)];
        return false, b, j;
      }
      return true, 0, 0;
    }

    /** brelse under bcache.lock: the last reference gone, the buffer moves to the front of the list. */
    method Brelse(b: nat, ghost j: nat)
      requires Valid() && j < NBUF && order[j] == b && bufs[b].refcnt > 0
      modifies this
      ensures Valid()
      ensures bufs == DropRef(old(bufs), b)
      ensures order == if bufs[b].refcnt == 0 then [b] + Without(old(order), j) else old(order)
    {
      bufs := bufs[b := bufs[b].(refcnt := bufs[b].refcnt - 1)];
      if bufs[b].refcnt == 0 {
        Unlink(next, prev, order, j);
        MoveToFront(order, j);
        prev := prev[next[b] := prev[b]];
        next := next[prev[b] := next[b]];
        PushFront(next, prev, Without(order, j), b);
        LinkFront(b);
        order := [b] + Without(order, j);
      }
    }

    method Bpin(b: nat)
      requires Valid() && b < NBUF
      modifies this`bufs
      ensures Valid() && bufs == AddRef(old(bufs), b)
    {
      bufs := bufs[b := bufs[b].(refcnt := bufs[b].refcnt + 1)];
    }

    method Bunpin(b: nat)
      requires Valid() && b < NBUF && bufs[b].refcnt > 0
      modifies this`bufs
      ensures Valid() && bufs == DropRef(old(bufs), b)
    {
      bufs := bufs[b := bufs[b].(refcnt := bufs[b].refcnt - 1)];
    }
  }
}
