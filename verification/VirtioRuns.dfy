/** Runs of the queue protocol: driver and device take turns in any order. */
module VirtioRuns {
  import opened Basics
  import opened VirtioQueue

  /** Three different free descriptors for a buffer that exists. */
  predicate FreeTriple(q: Queue, r: Req)
    requires Shape(q)
  {
    && r.d0 < NUM && r.d1 < NUM && r.d2 < NUM && r.d0 != r.d1 && r.d0 != r.d2 && r.d1 != r.d2
    && q.free[r.d0] && q.free[r.d1] && q.free[r.d2] && r.b < |q.busy|
  }

  /** alloc3_desc gave up: only descriptors nobody uses can have changed. */
  predicate Retried(q: Queue, q': Queue)
    requires Shape(q)
  {
    && Shape(q') && q' == q.(desc := q'.desc)
    && (forall k :: 0 <= k < NUM && !q.free[k] ==> q'.desc[k] == q.desc[k])
  }

  datatype Event =
    | Post(r: Req)                       // virtio_disk_rw hands its request over
    | Retry(to: Queue)                   // virtio_disk_rw finds too few descriptors and sleeps
    | Fetch(h: nat)                      // the device takes the next head from avail
    | Complete(h: nat, status: int)      // the device is done with some request it has fetched
    | Ack(h: nat)                        // one round of virtio_disk_intr
    | Finish(h: nat, to: Queue)          // virtio_disk_rw sees its buffer released and frees the chain

  /** What the driver and the device look at before they take a step; the caller of virtio_disk_rw holds the
      buffer's sleep lock, so the buffer is in no other request. */
  ghost predicate Enabled(q: Queue, f: Flight, ev: Event)
    requires Shape(q)
  {
    match ev
    case Post(r) => FreeTriple(q, r) && r.phase == Posted && (forall h :: h in f.reqs ==> f.reqs[h].b != r.b)
    case Retry(to) => CountFree(q.free) < 3 && Retried(q, to)
    case Fetch(h) => q.devIdx != q.availIdx && h == q.avail[q.devIdx % NUM]
    case Complete(h, _) => h in f.reqs && f.reqs[h].phase == Fetched
    case Ack(h) => q.usedIdx % NUM != q.usedId % NUM && h == q.used[q.usedIdx] && h < NUM && q.info[h].status == 0
    case Finish(h, to) =>
      && h in f.reqs && f.reqs[h].b < |q.busy| && !q.busy[f.reqs[h].b] && Shape(to)
      && (ChainOk(q.desc, h, f.reqs[h]) ==> Finished(q, f.reqs[h], to))
  }

  /** The step meets no bad pointer and no panic, and is about the request that the books say it is about. */
  ghost predicate Safe(q: Queue, f: Flight, ev: Event)
    requires Shape(q)
  {
    match ev
    case Post(r) => |f.owner| == NUM && r.d0 !in f.reqs && FreeTriple(q, r)
    case Retry(_) => |f.reqs| == 2
    case Fetch(h) => f.taken < |f.posted| && h == f.posted[f.taken] && h in f.reqs && f.reqs[h].phase == Posted
    case Complete(h, _) => h < NUM && h in f.reqs
    case Ack(h) =>
      && f.seen < |f.done| && h == f.done[f.seen] && h < NUM && h in f.reqs && f.reqs[h].phase == Done
      && q.info[h].b == f.reqs[h].b && f.reqs[h].b < |q.busy| && q.busy[f.reqs[h].b]
    case Finish(h, to) =>
      && |f.owner| == NUM && h in f.reqs && f.reqs[h].phase == Acked && ChainOk(q.desc, h, f.reqs[h])
      && !q.free[h] && !q.free[f.reqs[h].d1] && !q.free[f.reqs[h].d2]
  }

  function NextQ(q: Queue, f: Flight, ev: Event): Queue
    requires Shape(q) && Safe(q, f, ev)
  {
    match ev
    case Post(r) => PostQ(q, r)
    case Retry(to) => to
    case Fetch(_) => FetchQ(q)
    case Complete(h, status) => DoneQ(q, h, status)
    case Ack(h) => AckQ(q, f.reqs[h].b)
    case Finish(_, to) => to
  }

  ghost function NextF(q: Queue, f: Flight, ev: Event): Flight
    requires Shape(q) && Safe(q, f, ev)
  {
    match ev
    case Post(r) => PostF(f, r)
    case Retry(_) => f
    case Fetch(h) => FetchF(f, h)
    case Complete(h, _) => DoneF(f, h)
    case Ack(h) => AckF(f, h)
    case Finish(h, _) => FinishF(f, h)
  }

  lemma AckSafe(q: Queue, f: Flight, h: nat)
    requires Inv(q, f) && Enabled(q, f, Ack(h))
    ensures Safe(q, f, Ack(h))
  {
    SeesCompletions(q, f);
    assert BufferOk(q.info, q.busy, h, f.reqs[h]);
  }

  lemma FinishSafe(q: Queue, f: Flight, h: nat, to: Queue)
    requires Inv(q, f) && Enabled(q, f, Finish(h, to))
    ensures Safe(q, f, Finish(h, to)) && Finished(q, f.reqs[h], to)
  {
    var r := f.reqs[h];
    assert BufferOk(q.info, q.busy, h, r) && ChainOk(q.desc, h, r);
    assert f.owner[h] == h && f.owner[r.d1] == h && f.owner[r.d2] == h;
  }

  lemma EnabledSafe(q: Queue, f: Flight, ev: Event)
    requires Inv(q, f) && Enabled(q, f, ev)
    ensures Safe(q, f, ev)
  {
    match ev
    case Post(r) =>
      assert f.owner[r.d0] == NONE;
    case Retry(_) => AtMostTwo(q, f);
    case Fetch(h) => SeesAvail(q, f);
    case Complete(h, _) => assert ChainOk(q.desc, h, f.reqs[h]);
    case Ack(h) => AckSafe(q, f, h);
    case Finish(h, to) => FinishSafe(q, f, h, to);
  }

  /** The contents of a free descriptor do not matter. */
  lemma RetryKeeps(q: Queue, f: Flight, q': Queue)
    requires Inv(q, f) && Retried(q, q')
    ensures Inv(q', f)
  {
    forall h | h in f.reqs ensures ChainOk(q'.desc, h, f.reqs[h]) {
      assert ChainOk(q.desc, h, f.reqs[h]);
    }
  }

  lemma StepKeeps(q: Queue, f: Flight, ev: Event)
    requires Inv(q, f) && Enabled(q, f, ev)
    ensures Safe(q, f, ev)
    ensures Inv(NextQ(q, f, ev), NextF(q, f, ev))
  {
    EnabledSafe(q, f, ev);
    match ev
    case Post(r) => PostKeeps(q, f, r);
    case Retry(to) => RetryKeeps(q, f, to);
    case Fetch(h) => FetchKeeps(q, f, h);
    case Complete(h, status) => DoneKeeps(q, f, h, status);
    case Ack(h) => AckKeeps(q, f, h, f.reqs[h].b);
    case Finish(h, to) =>
      FinishSafe(q, f, h, to);
      FinishKeeps(q, f, h, to, FinishF(f, h));
  }

  // ---------------------------------------------------------------------
  // Whole runs

  datatype History = Start(q: Queue) | Then(before: History, ev: Event)

  /** Every descriptor free, both rings empty, no request. */
  ghost predicate Boot(q: Queue, f: Flight) {
    && Shape(q) && (forall i :: 0 <= i < NUM ==> q.free[i])
    && q.availIdx == 0 && q.devIdx == 0 && q.usedId == 0 && q.usedIdx == 0
    && f == Flight(map[], seq(NUM, _ => NONE), [], 0, [], 0)
  }

  ghost predicate Leads(h: History, q: Queue, f: Flight) {
    match h
    case Start(q0) => q == q0 && Boot(q0, f)
    case Then(before, ev) =>
      exists p, g :: Leads(before, p, g) && Shape(p) && Enabled(p, g, ev) && Safe(p, g, ev)
                     && q == NextQ(p, g, ev) && f == NextF(p, g, ev)
  }

  lemma BootOk(q: Queue, f: Flight)
    requires Boot(q, f)
    ensures Inv(q, f)
  {
    CountUniform(q.free, true);
  }

  lemma {:induction false} RunKeeps(h: History, q: Queue, f: Flight)
    requires Leads(h, q, f)
    ensures Inv(q, f)
  {
    match h
    case Start(_) => BootOk(q, f);
    case Then(before, ev) =>
      var p, g :| Leads(before, p, g) && Shape(p) && Enabled(p, g, ev) && Safe(p, g, ev)
                  && q == NextQ(p, g, ev) && f == NextF(p, g, ev);
      RunKeeps(before, p, g);
      StepKeeps(p, g, ev);
  }

  /** In every run each step that can be taken is safe: the device finds what was posted, a completion
      releases the buffer that its request was submitted with, free_desc does not panic, and virtio_disk_rw
      sleeps for descriptors only while two requests are in flight. */
  lemma RunSafe(h: History, q: Queue, f: Flight, ev: Event)
    requires Leads(h, q, f) && Shape(q) && Enabled(q, f, ev)
    ensures Safe(q, f, ev)
  {
    RunKeeps(h, q, f);
    EnabledSafe(q, f, ev);
  }

  /** In every run a descriptor is free, or belongs to exactly one request; three to a request, so at most two
      requests are in flight. */
  lemma RunPartition(h: History, q: Queue, f: Flight)
    requires Leads(h, q, f)
    ensures Shape(q) && CountFree(q.free) + 3 * |f.reqs| == NUM && |f.reqs| <= 2
    ensures forall i: nat :: i < NUM ==> (q.free[i] <==> !exists k :: k in f.reqs && InChain(f.reqs[k], i))
    ensures forall j: nat, k: nat, i: nat ::
              j in f.reqs && k in f.reqs && InChain(f.reqs[j], i) && InChain(f.reqs[k], i) ==> j == k
  {
    RunKeeps(h, q, f);
    AtMostTwo(q, f);
    forall i: nat | i < NUM ensures q.free[i] <==> !exists k :: k in f.reqs && InChain(f.reqs[k], i) {
      DescriptorOwned(q, f, i);
    }
    forall j: nat, k: nat, i: nat | j in f.reqs && k in f.reqs && InChain(f.reqs[j], i) && InChain(f.reqs[k], i)
      ensures j == k
    {
      OneOwner(q, f, j, k, i);
    }
  }

  lemma DescriptorOwned(q: Queue, f: Flight, i: nat)
    requires Shape(q) && OwnersOk(q, f) && i < NUM
    ensures q.free[i] <==> !exists k :: k in f.reqs && InChain(f.reqs[k], i)
  {
    if !q.free[i] {
      assert f.owner[i] as nat in f.reqs && InChain(f.reqs[f.owner[i] as nat], i);
    }
    if k :| k in f.reqs && InChain(f.reqs[k], i) {
      assert f.owner[i] == k;
    }
  }

  // ---------------------------------------------------------------------
  // The loop of virtio_disk_intr

  /** How many completions the two indices say are waiting. */
  function Left(q: Queue): nat { (q.usedId % NUM + NUM - q.usedIdx % NUM) % NUM }

  function UsedEntry(q: Queue, k: nat): nat
    requires Shape(q)
  {
    q.used[(q.usedIdx + k) % NUM]
  }

  /** The next n entries of the used ring name requests with a buffer. */
  predicate Pending(q: Queue, n: nat) {
    && Shape(q)
    && (forall k: nat :: k < n ==> UsedEntry(q, k) < NUM && 0 <= q.info[UsedEntry(q, k)].b < |q.busy|)
  }

  /** The first n of them came with a good status. */
  predicate GoodUpTo(q: Queue, n: nat)
    requires Pending(q, n)
  {
    forall k: nat :: k < n ==> q.info[UsedEntry(q, k)].status == 0
  }

  function AckAll(q: Queue, n: nat): (r: Queue)
    requires Pending(q, n)
    ensures r == q.(busy := r.busy, usedIdx := (q.usedIdx + n) % NUM) && |r.busy| == |q.busy|
  {
    if n == 0 then q
    else
      var p := AckAll(q, n - 1);
      NextIdx(q.usedIdx, n - 1);
      AckQ(p, q.info[UsedEntry(q, n - 1)].b)
  }

  lemma NextIdx(usedIdx: nat, n: nat)
    ensures ((usedIdx + n) % NUM + 1) % NUM == (usedIdx + n + 1) % NUM
  {
  }

  lemma StillLeft(usedIdx: nat, usedId: nat, n: nat)
    requires usedIdx < NUM && n <= (usedId % NUM + NUM - usedIdx % NUM) % NUM
    ensures ((usedIdx + n) % NUM) % NUM != usedId % NUM <==> n < (usedId % NUM + NUM - usedIdx % NUM) % NUM
    ensures ((usedIdx + n) % NUM + 1) % NUM == (usedIdx + n + 1) % NUM
  {
  }

  /** After n rounds the loop's test and the entry it looks at. */
  lemma AckRound(q: Queue, n: nat)
    requires n <= Left(q) && Pending(q, Left(q))
    ensures var p := AckAll(q, n);
      && (p.usedIdx % NUM != p.usedId % NUM <==> n < Left(q))
      && (n < Left(q) ==>
            var id := p.used[p.usedIdx];
            && id == UsedEntry(q, n) && id < NUM && 0 <= p.info[id].b < |p.busy|
            && AckAll(q, n + 1) == AckQ(p, p.info[id].b))
  {
    StillLeft(q.usedIdx, q.usedId, n);
  }

  lemma ModGap(a: nat, b: nat)
    requires a <= b <= a + 2
    ensures (b % NUM + NUM - a % NUM) % NUM == b - a
  {
  }

  lemma SlotsLeft(seen: nat, total: nat)
    requires seen <= total <= seen + 2
    ensures (Wrap(total) % NUM + NUM - Slot(seen) % NUM) % NUM == total - seen
  {
    Wraps(seen, total);
    ResidueIsMod(seen, NUM);
    ResidueIsMod(total, NUM);
    ModGap(seen, total);
  }

  lemma UnseenEntry(q: Queue, f: Flight, k: nat)
    requires Shape(q) && UsedOk(q, f) && BuffersOk(q.info, q.busy, f.reqs) && f.seen + k < |f.done|
    ensures UsedEntry(q, k) == f.done[f.seen + k] && UsedEntry(q, k) < NUM
    ensures 0 <= q.info[UsedEntry(q, k)].b < |q.busy|
  {
    ResiduePlus(f.seen, k, NUM);
    var h := f.done[f.seen + k];
    assert h in f.reqs && BufferOk(q.info, q.busy, h, f.reqs[h]);
  }

  lemma IndicesLeft(q: Queue, seen: nat, total: nat)
    requires seen <= total <= seen + 2 && q.usedId == Wrap(total) && q.usedIdx == Slot(seen)
    ensures Left(q) == total - seen
  {
    SlotsLeft(seen, total);
  }

  lemma LeftCount(q: Queue, f: Flight)
    requires Inv(q, f)
    ensures f.seen <= |f.done| && Left(q) == |f.done| - f.seen
  {
    AtMostTwo(q, f);
    IndicesLeft(q, f.seen, |f.done|);
  }

  /** In every run the entries that the two indices delimit are the completions not yet seen, and each names a
      request with a buffer. */
  lemma LeftIsUnseen(q: Queue, f: Flight)
    requires Inv(q, f)
    ensures f.seen <= |f.done| && Left(q) == |f.done| - f.seen && Pending(q, Left(q))
    ensures forall k: nat :: k < Left(q) ==> UsedEntry(q, k) == f.done[f.seen + k]
  {
    LeftCount(q, f);
    forall k: nat | k < Left(q)
      ensures UsedEntry(q, k) == f.done[f.seen + k] && UsedEntry(q, k) < NUM
      ensures 0 <= q.info[UsedEntry(q, k)].b < |q.busy|
    {
      UnseenEntry(q, f, k);
    }
  }

  lemma OneAck(q: Queue, f: Flight, id: nat, b: nat)
    requires Inv(q, f) && f.seen < |f.done| && id == f.done[f.seen] && id < NUM && b == q.info[id].b
    ensures id in f.reqs && b < |q.busy| && Inv(AckQ(q, b), AckF(f, id))
  {
    assert id in f.reqs && BufferOk(q.info, q.busy, id, f.reqs[id]);
    AckKeeps(q, f, id, b);
  }

  lemma AckMore(q: Queue, n: nat)
    requires Pending(q, n + 1)
    ensures AckAll(q, n + 1) == AckQ(AckAll(q, n), q.info[UsedEntry(q, n)].b)
  {
  }

  /** One more round after n. */
  lemma IntrRound(q: Queue, f: Flight, n: nat, g: Flight) returns (f': Flight)
    requires Inv(q, f) && f.seen + n < |f.done| && Pending(q, n + 1)
    requires Inv(AckAll(q, n), g) && g.done == f.done && g.seen == f.seen + n
    ensures Inv(AckAll(q, n + 1), f') && f'.done == f.done && f'.seen == f.seen + n + 1
  {
    UnseenEntry(q, f, n);
    AckMore(q, n);
    var p, id := AckAll(q, n), UsedEntry(q, n);
    OneAck(p, g, id, p.info[id].b);
    f' := AckF(g, id);
  }

  lemma IntrRounds(q: Queue, f: Flight, n: nat) returns (f': Flight)
    requires Inv(q, f) && f.seen + n <= |f.done| && Pending(q, n)
    ensures Inv(AckAll(q, n), f') && f'.done == f.done && f'.seen == f.seen + n
  {
    f' := f;
    for k := 0 to n
      invariant Inv(AckAll(q, k), f') && f'.done == f.done && f'.seen == f.seen + k
    {
      f' := IntrRound(q, f, k, f');
    }
  }

  /** After n rounds of virtio_disk_intr the books are in order with n more completions seen; after all of
      them none is left. */
  lemma IntrKeeps(q: Queue, f: Flight, n: nat) returns (f': Flight)
    requires Inv(q, f) && n <= Left(q) && Pending(q, Left(q))
    ensures Inv(AckAll(q, n), f') && f'.done == f.done && f'.seen == f.seen + n
    ensures n == Left(q) ==> f'.seen == |f'.done|
  {
    LeftCount(q, f);
    f' := IntrRounds(q, f, n);
  }
}
