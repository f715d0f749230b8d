/** The doubly linked list of kernel/bio.c, as the two arrays of links its buffers hold.  Index NBUF is the
    list head; order lists the buffers from most to least recently used. */
module BufferRing {
  const NBUF := 30
  const HEAD := NBUF

  /** Element j of the circle: the head, then the buffers in order, then the head again. */
  function Circle(order: seq<nat>, j: nat): nat {
    if 0 < j <= |order| then order[j - 1] else HEAD
  }

  predicate Buffers(order: seq<nat>) {
    && (forall i :: 0 <= i < |order| ==> order[i] < NBUF)
    && (forall i, j :: 0 <= i < j < |order| ==> order[i] != order[j])
  }

  predicate Ring(next: seq<nat>, prev: seq<nat>, order: seq<nat>) {
    && |next| == NBUF + 1 && |prev| == NBUF + 1 && Buffers(order)
    && (forall j: nat :: j <= |order| ==> next[Circle(order, j)] == Circle(order, j + 1))
    && (forall j: nat :: j <= |order| ==> prev[Circle(order, j + 1)] == Circle(order, j))
  }

  /** Two different places in the circle are different unless both are the head. */
  lemma CircleApart(order: seq<nat>, i: nat, j: nat)
    requires Buffers(order) && i < j <= |order| + 1 && !(i == 0 && j == |order| + 1)
    ensures Circle(order, i) != Circle(order, j) && Circle(order, i) <= HEAD && Circle(order, j) <= HEAD
  {
  }

  function Without(order: seq<nat>, j: nat): seq<nat>
    requires j < |order|
  {
    order[..j] + order[j + 1..]
  }

  lemma CircleWithout(order: seq<nat>, j: nat, i: nat)
    requires j < |order| && i <= |order|
    ensures Circle(Without(order, j), i) == Circle(order, if i <= j then i else i + 1)
  {
  }

  /** Unlinking the buffer at place j. */
  lemma Unlink(next: seq<nat>, prev: seq<nat>, order: seq<nat>, j: nat)
    requires Ring(next, prev, order) && j < |order|
    ensures order[j] < |prev| && prev[order[j]] < |next| && next[order[j]] < |prev|
    ensures Ring(next[prev[order[j]] := next[order[j]]], prev[next[order[j]] := prev[order[j]]], Without(order, j))
  {
    var b := order[j];
    assert Circle(order, j + 1) == b;
    var before, after := Circle(order, j), Circle(order, j + 2);
    assert prev[b] == before && next[b] == after by { assert next[Circle(order, j + 1)] == Circle(order, j + 2); }
    var next', prev', o := next[before := after], prev[after := before], Without(order, j);
    forall i: nat | i <= |o|
      ensures next'[Circle(o, i)] == Circle(o, i + 1) && prev'[Circle(o, i + 1)] == Circle(o, i)
    {
      UnlinkAt(next, prev, order, j, i);
    }
  }

  lemma UnlinkAt(next: seq<nat>, prev: seq<nat>, order: seq<nat>, j: nat, i: nat)
    requires Ring(next, prev, order) && j < |order| && i < |order|
    ensures Circle(order, j) <= HEAD && Circle(order, j + 2) <= HEAD
    ensures var o := Without(order, j); var before, after := Circle(order, j), Circle(order, j + 2);
      next[before := after][Circle(o, i)] == Circle(o, i + 1) && prev[after := before][Circle(o, i + 1)] == Circle(o, i)
  {
    CircleWithout(order, j, i);
    CircleWithout(order, j, i + 1);
    var k := if i <= j then i else i + 1;
    assert next[Circle(order, k)] == Circle(order, k + 1) && prev[Circle(order, k + 1)] == Circle(order, k);
    if i < j {
      CircleApart(order, i, j);
      if j + 2 <= |order| { CircleApart(order, i + 1, j + 2); }
    } else if i > j {
      CircleApart(order, j, i + 1);
      CircleApart(order, j + 2, i + 2);
    }
  }

  lemma CircleFront(order: seq<nat>, b: nat, i: nat)
    ensures Circle([b] + order, i + 1) == if i == 0 then b else Circle(order, i)
  {
  }

  /** Linking buffer b in behind the head. */
  lemma PushFront(next: seq<nat>, prev: seq<nat>, order: seq<nat>, b: nat)
    requires Ring(next, prev, order) && b < NBUF && b !in order
    ensures next[HEAD] <= HEAD
    ensures Ring(next[b := next[HEAD]][HEAD := b], prev[b := HEAD][next[HEAD] := b], [b] + order)
  {
    var first := Circle(order, 1);
    assert Circle(order, 0) == HEAD && next[HEAD] == first;
    var next', prev', o := next[b := first][HEAD := b], prev[b := HEAD][first := b], [b] + order;
    forall i: nat | i <= |o|
      ensures next'[Circle(o, i)] == Circle(o, i + 1) && prev'[Circle(o, i + 1)] == Circle(o, i)
    {
      PushAt(next, prev, order, b, i);
    }
    assert Buffers(o);
  }

  lemma NotInCircle(order: seq<nat>, b: nat, i: nat)
    requires b < NBUF && b !in order
    ensures Circle(order, i) != b
  {
  }

  lemma PushAt(next: seq<nat>, prev: seq<nat>, order: seq<nat>, b: nat, i: nat)
    requires Ring(next, prev, order) && b < NBUF && b !in order && i <= |order| + 1
    ensures Circle(order, 1) <= HEAD
    ensures var o := [b] + order; var first := Circle(order, 1);
      && next[b := first][HEAD := b][Circle(o, i)] == Circle(o, i + 1)
      && prev[b := HEAD][first := b][Circle(o, i + 1)] == Circle(o, i)
  {
    NotInCircle(order, b, 1);
    if i == 0 {
      CircleFront(order, b, 0);
    } else {
      var k := i - 1;
      CircleFront(order, b, k);
      CircleFront(order, b, i);
      NotInCircle(order, b, k);
      NotInCircle(order, b, i);
      assert next[Circle(order, k)] == Circle(order, k + 1) && prev[Circle(order, k + 1)] == Circle(order, k);
      if k > 0 {
        CircleApart(order, 0, k);
        CircleApart(order, 1, k + 1);
      }
    }
  }

  /** The list holds every buffer exactly once. */
  predicate AllBuffers(order: seq<nat>) {
    |order| == NBUF && Buffers(order) && forall b: nat :: b < NBUF ==> b in order
  }

  lemma WithoutHas(order: seq<nat>, j: nat, b: nat)
    requires Buffers(order) && j < |order|
    ensures b in Without(order, j) <==> b in order && b != order[j]
  {
    var o := Without(order, j);
    if b in order && b != order[j] {
      var i :| 0 <= i < |order| && order[i] == b;
      assert o[if i < j then i else i - 1] == b;
    }
    if b in o {
      var i :| 0 <= i < |o| && o[i] == b;
      assert order[if i < j then i else i + 1] == b;
    }
  }

  lemma WithoutBuffers(order: seq<nat>, j: nat)
    requires Buffers(order) && j < |order|
    ensures Buffers(Without(order, j))
  {
    var o := Without(order, j);
    assert forall i :: 0 <= i < |o| ==> o[i] == order[if i < j then i else i + 1];
  }

  /** Moving one to the front loses none. */
  lemma MoveToFront(order: seq<nat>, j: nat)
    requires AllBuffers(order) && j < NBUF
    ensures AllBuffers([order[j]] + Without(order, j)) && order[j] !in Without(order, j)
  {
    WithoutBuffers(order, j);
    forall b: nat ensures b in Without(order, j) <==> b in order && b != order[j] { WithoutHas(order, j, b); }
    var o := [order[j]] + Without(order, j);
    assert forall i :: 0 < i < |o| ==> o[i] == Without(order, j)[i - 1];
  }
}
