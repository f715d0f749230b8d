/** The critical sections of virtio_disk_rw and virtio_disk_intr as methods, each proved against the step of
    the queue protocol that it is. */
module Virtio {
  import opened Basics
  import opened VirtioQueue
  import opened VirtioRuns

  /** now is before with the descriptors in idx taken. */
  ghost predicate Grabbed(before: seq<bool>, now: seq<bool>, idx: seq<nat>) {
    && |now| == |before| && (forall i, j :: 0 <= i < j < |idx| ==> idx[i] != idx[j])
    && (forall j :: 0 <= j < |idx| ==> idx[j] < |before| && before[idx[j]])
    && (forall k: nat :: k < |before| ==> (now[k] <==> before[k] && k !in idx))
    && CountFree(now) == CountFree(before) - |idx|
  }

  lemma Grab(before: seq<bool>, now: seq<bool>, idx: seq<nat>, d: nat)
    requires Grabbed(before, now, idx) && d < |now| && now[d]
    ensures Grabbed(before, now[d := false], idx + [d])
  {
    CountUpdate(now, d, false, true);
  }

  lemma GiveBack(before: seq<bool>, now: seq<bool>, idx: seq<nat>)
    requires Grabbed(before, now, idx) && idx != []
    ensures idx[0] < |now| && !now[idx[0]] && Grabbed(before, now[idx[0] := true], idx[1..])
  {
    CountUpdate(now, idx[0], true, true);
    assert idx == [idx[0]] + idx[1..];
  }

  lemma GrabThree(before: seq<bool>, now: seq<bool>, idx: seq<nat>)
    requires Grabbed(before, now, idx) && |idx| == 3
    ensures now == before[idx[0] := false][idx[1] := false][idx[2] := false]
  {
    assert idx == [idx[0], idx[1], idx[2]];
  }

  class Driver {
    var q: Queue

    method AllocDesc() returns (i: int)
      requires Shape(q)
      modifies this`q
      ensures i == -1 || 0 <= i < NUM
      ensures i == -1 ==> q == old(q) && forall k :: 0 <= k < NUM ==> !q.free[k]
      ensures i >= 0 ==> old(q).free[i] && q == old(q).(free := old(q).free[i := false])
      ensures i >= 0 ==> forall k :: 0 <= k < i ==> !old(q).free[k]
    {
      i := 0;
      while i < NUM
        invariant 0 <= i <= NUM && q == old(q)
        invariant forall k :: 0 <= k < i ==> !q.free[k]
      {
        if q.free[i] {
          q := q.(free := q.free[i := false]);
          return;
        }
        i := i + 1;
      }
      i := -1;
    }

    method FreeDesc(i: nat) returns (panicked: bool)
      requires Shape(q)
      modifies this`q
      ensures panicked <==> i >= NUM || old(q).free[i]
      ensures panicked ==> q == old(q)
      ensures !panicked ==>
        q == old(q).(free := old(q).free[i := true], desc := old(q).desc[i := old(q).desc[i].(addr := Nowhere)])
    {
      if i >= NUM || q.free[i] { return true; }
      q := q.(desc := q.desc[i := q.desc[i].(addr := Nowhere)]);
      q := q.(free := q.free[i := true]);
      panicked := false;
    }

    /** Frees the three descriptors of a request, and no panic of free_desc is reached. */
    method FreeChain(head: nat, ghost r: Req) returns (panicked: bool)
      requires Shape(q) && ChainOk(q.desc, head, r) && !q.free[r.d0] && !q.free[r.d1] && !q.free[r.d2]
      modifies this`q
      ensures !panicked && Shape(q)
      ensures q.free == Given(old(q).free, r)
      ensures forall k: nat :: k < NUM && !InChain(r, k) ==> q.desc[k] == old(q).desc[k]
      ensures q == old(q).(free := q.free, desc := q.desc)
    {
      var i := head;
      ghost var n := 0;
      while true
        invariant 0 <= n < 3 && Shape(q)
        invariant q == old(q).(free := q.free, desc := q.desc)
        invariant n == 0 ==> i == r.d0 && q == old(q)
        invariant n == 1 ==> i == r.d1 && q.free == old(q).free[r.d0 := true]
        invariant n == 2 ==> i == r.d2 && q.free == old(q).free[r.d0 := true][r.d1 := true]
        invariant forall k: nat :: k < NUM && !InChain(r, k) ==> q.desc[k] == old(q).desc[k]
        invariant n <= 1 ==> q.desc[r.d1] == old(q).desc[r.d1]
        invariant q.desc[r.d2] == old(q).desc[r.d2]
        decreases 3 - n
      {
        panicked := FreeDesc(i);
        if panicked || !q.desc[i].hasNext { break; }
        i := q.desc[i].next;
        n := n + 1;
      }
    }

    /** Takes three descriptors, or none: what it took before running out it gives back. */
    method Alloc3Desc() returns (ok: bool, idx: seq<nat>)
      requires Shape(q)
      modifies this`q
      ensures Shape(q) && q == old(q).(free := q.free, desc := q.desc)
      ensures ok <==> CountFree(old(q).free) >= 3
      ensures ok ==> |idx| == 3 && (forall i, j :: 0 <= i < j < |idx| ==> idx[i] != idx[j]) && q.desc == old(q).desc
      ensures ok ==> forall j :: 0 <= j < 3 ==> idx[j] < NUM && old(q).free[idx[j]]
      ensures ok ==> q.free == old(q).free[idx[0] := false][idx[1] := false][idx[2] := false]
      ensures !ok ==> q.free == old(q).free
      ensures !ok ==> forall k :: 0 <= k < NUM && !q.free[k] ==> q.desc[k] == old(q).desc[k]
    {
      idx := [];
      while |idx| < 3
        invariant |idx| <= 3 && Shape(q) && q == old(q).(free := q.free) && Grabbed(old(q).free, q.free, idx)
      {
        label Try:
        var d := AllocDesc();
        if d < 0 {
          CountUniform(q.free, true);
          var j := 0;
          while j < |idx|
            invariant 0 <= j <= |idx| && Shape(q) && q == old(q).(free := q.free, desc := q.desc)
            invariant Grabbed(old(q).free, q.free, idx[j..])
            invariant forall k: nat :: k < NUM && !old(q).free[k] ==> q.desc[k] == old(q).desc[k]
          {
            GiveBack(old(q).free, q.free, idx[j..]);
            assert idx[j..][0] == idx[j] && idx[j..][1..] == idx[j + 1..];
            var _ := FreeDesc(idx[j]);
            j := j + 1;
          }
          assert idx[j..] == [];
          return false, [];
        }
        Grab(old(q).free, old@Try(q).free, idx, d);
        idx := idx + [d];
      }
      ok := true;
      GrabThree(old(q).free, q.free, idx);
    }

    /** Formats the three descriptors, records the buffer and tells the device. */
    method Publish(d0: nat, d1: nat, d2: nat, b: nat, write: bool, sector: nat)
      requires Shape(q) && d0 < NUM && d1 < NUM && d2 < NUM && b < |q.busy|
      modifies this`q
      ensures q == old(q).(desc := Formatted(old(q).desc, Req(d0, d1, d2, b, write, sector, Posted)),
                           info := old(q).info[d0 := Info(b, 0)], busy := old(q).busy[b := true],
                           avail := old(q).avail[old(q).availIdx % NUM := d0],
                           availIdx := (old(q).availIdx + 1) % IDX_WRAP)
    {
      var w := q;
      w := w.(desc := w.desc[d0 := Desc(Header(write, sector), d1, true, false)]);
      w := w.(desc := w.desc[d1 := Desc(Data(b), d2, true, !write)]);
      w := w.(info := w.info[d0 := w.info[d0].(status := 0)]);
      w := w.(desc := w.desc[d2 := Desc(Status(d0), 0, false, true)]);
      w := w.(busy := w.busy[b := true]);
      w := w.(info := w.info[d0 := w.info[d0].(b := b)]);
      w := w.(avail := w.avail[w.availIdx % NUM := d0]);
      w := w.(availIdx := (w.availIdx + 1) % IDX_WRAP);
      assert w.info == q.info[d0 := Info(b, 0)];
      q := w;
    }

    /** One attempt of virtio_disk_rw to hand its request to the device, between two points where it may sleep.
        It succeeds exactly when there are three descriptors to be had. */
    method Submit(b: nat, write: bool, sector: nat) returns (ok: bool, r: Req)
      requires Shape(q) && b < |q.busy|
      modifies this`q
      ensures ok <==> CountFree(old(q).free) >= 3
      ensures ok ==>
        r == Req(r.d0, r.d1, r.d2, b, write, sector, Posted) && FreeTriple(old(q), r) && q == PostQ(old(q), r)
      ensures !ok ==> Retried(old(q), q)
    {
      var idx;
      ok, idx := Alloc3Desc();
      r := Req(0, 0, 0, b, write, sector, Posted);
      if ok {
        r := Req(idx[0], idx[1], idx[2], b, write, sector, Posted);
        Publish(idx[0], idx[1], idx[2], b, write, sector);
      }
    }

    /** The test of virtio_disk_intr's loop after n rounds, and the status of the completion it is to handle. */
    method LookUsed(ghost q0: Queue, ghost n: nat) returns (more: bool, bad: bool)
      requires Pending(q0, Left(q0)) && n <= Left(q0) && q == AckAll(q0, n)
      ensures more <==> n < Left(q0)
      ensures more ==> (bad <==> q0.info[UsedEntry(q0, n)].status != 0)
    {
      AckRound(q0, n);
      more := q.usedIdx % NUM != q.usedId % NUM;
      bad := more && q.info[q.used[q.usedIdx]].status != 0;
    }

    /** The rest of a round: the buffer is released and used_idx moves on. */
    method AckUsed(ghost q0: Queue, ghost n: nat)
      requires Pending(q0, Left(q0)) && n < Left(q0) && q == AckAll(q0, n)
      modifies this`q
      ensures q == AckAll(q0, n + 1)
    {
      AckRound(q0, n);
      var b := q.info[q.used[q.usedIdx]].b;
      q := q.(busy := q.busy[b := false], usedIdx := (q.usedIdx + 1) % NUM);
    }

    /** virtio_disk_intr handles every completion the device's index shows, in order, up to the first one
        reported as failed, at which it panics. */
    method Intr() returns (panicked: bool, n: nat)
      requires Pending(q, Left(q))
      modifies this`q
      ensures n <= Left(old(q)) && q == AckAll(old(q), n) && GoodUpTo(old(q), n)
      ensures !panicked ==> n == Left(old(q))
      ensures panicked ==> n < Left(old(q)) && old(q).info[UsedEntry(old(q), n)].status != 0
    {
      n := 0;
      while true
        invariant n <= Left(old(q)) && q == AckAll(old(q), n) && GoodUpTo(old(q), n)
        decreases Left(old(q)) - n
      {
        var more, bad := LookUsed(old(q), n);
        if !more { return false, n; }
        if bad { return true, n; }
        AckUsed(old(q), n);
        n := n + 1;
      }
    }

    /** virtio_disk_rw once its buffer is released: the request is forgotten and no panic of free_desc reached. */
    method Finish(head: nat, ghost r: Req) returns (panicked: bool)
      requires Shape(q) && ChainOk(q.desc, head, r) && !q.free[r.d0] && !q.free[r.d1] && !q.free[r.d2]
      modifies this`q
      ensures !panicked && Shape(q) && Finished(old(q), r, q)
    {
      q := q.(info := q.info[head := q.info[head].(b := NONE)]);
      panicked := FreeChain(head, r);
    }
  }
}
