/** The driver of kernel/virtio_disk.c and the device it shares its queue with: the split virtqueue of
    section 2.6 of VIRTIO Version 1.1, with three descriptors to a request.  A step of either is a function on
    the queue, and keeps the books that say which request owns what. */
module VirtioQueue {
  import opened Basics

  const NUM := 8
  const IDX_WRAP := 0x1_0000 // the ring indices are 16 bits wide
  const NONE := -1

  /** What an address in a descriptor points at. */
  datatype Addr = Nowhere | Header(write: bool, sector: nat) | Data(b: nat) | Status(head: nat)
  datatype Desc = Desc(addr: Addr, next: nat, hasNext: bool, deviceWrites: bool)
  datatype Info = Info(b: int, status: int)

  /** disk.desc, disk.avail, disk.used, disk.free, disk.used_idx and disk.info, the disk flag of
      each buffer, and how far the device has looked in avail. */
  datatype Queue = Queue(free: seq<bool>, desc: seq<Desc>, avail: seq<nat>, availIdx: nat,
                         used: seq<nat>, usedId: nat, usedIdx: nat, info: seq<Info>, busy: seq<bool>,
                         devIdx: nat)

  datatype Phase = Posted | Fetched | Done | Acked

  /** A request: its three descriptors, what it asks for and how far it is. */
  datatype Req = Req(d0: nat, d1: nat, d2: nat, b: nat, write: bool, sector: nat, phase: Phase)

  /** Who owns what: requests by first descriptor and the owner of each descriptor; every head ever posted and
      how many of them the device has fetched; every head ever completed and how many of them the driver has seen. */
  datatype Flight =
    Flight(reqs: map<nat, Req>, owner: seq<int>, posted: seq<nat>, taken: nat, done: seq<nat>, seen: nat)

  /** The slot of entry n of a ring, and a 16-bit index after n increments. */
  function Slot(n: nat): nat { Residue(n, NUM) }

  function Wrap(n: nat): nat { Residue(n, IDX_WRAP) }

  function CountFree(free: seq<bool>): nat { Count(free, true) }

  predicate Shape(q: Queue) {
    && |q.free| == NUM && |q.desc| == NUM && |q.avail| == NUM && |q.used| == NUM && |q.info| == NUM
    && q.availIdx < IDX_WRAP && q.usedId < IDX_WRAP && q.usedIdx < NUM && q.devIdx < IDX_WRAP
  }

  predicate InChain(r: Req, i: nat) { i == r.d0 || i == r.d1 || i == r.d2 }

  /** The three descriptors spell the request out. */
  predicate ChainOk(desc: seq<Desc>, h: nat, r: Req)
    requires |desc| == NUM
  {
    && r.d0 == h && h < NUM && r.d1 < NUM && r.d2 < NUM
    && h != r.d1 && h != r.d2 && r.d1 != r.d2
    && desc[h] == Desc(Header(r.write, r.sector), r.d1, true, false)
    && desc[r.d1] == Desc(Data(r.b), r.d2, true, !r.write)
    && desc[r.d2].addr == Status(h) && !desc[r.d2].hasNext && desc[r.d2].deviceWrites
  }

  predicate FlagsOk(free: seq<bool>, owner: seq<int>) {
    && |free| == NUM && |owner| == NUM
    && (forall i :: 0 <= i < NUM ==> (free[i] <==> owner[i] == NONE))
  }

  predicate OwnedOk(owner: seq<int>, reqs: map<nat, Req>) {
    forall i: nat :: i < |owner| && owner[i] != NONE ==>
      owner[i] >= 0 && owner[i] in reqs && InChain(reqs[owner[i] as nat], i)
  }

  predicate ChainsOk(desc: seq<Desc>, owner: seq<int>, reqs: map<nat, Req>)
    requires |desc| == NUM && |owner| == NUM
  {
    forall h :: h in reqs ==>
      ChainOk(desc, h, reqs[h]) && owner[h] == h && owner[reqs[h].d1] == h && owner[reqs[h].d2] == h
  }

  /** Free flags and chains share the descriptors out between them. */
  predicate OwnersOk(q: Queue, f: Flight)
    requires Shape(q)
  {
    && FlagsOk(q.free, f.owner) && OwnedOk(f.owner, f.reqs) && ChainsOk(q.desc, f.owner, f.reqs)
    && CountFree(q.free) + 3 * |f.reqs| == NUM
  }

  /** A request's buffer is marked busy until the driver has seen the completion. */
  predicate BufferOk(info: seq<Info>, busy: seq<bool>, h: nat, r: Req) {
    h < |info| && r.b < |busy| && info[h].b == r.b && busy[r.b] == (r.phase != Acked)
  }

  predicate BuffersOk(info: seq<Info>, busy: seq<bool>, reqs: map<nat, Req>) {
    && (forall h :: h in reqs ==> BufferOk(info, busy, h, reqs[h]))
    && (forall h, k :: h in reqs && k in reqs && reqs[h].b == reqs[k].b ==> h == k)
  }

  predicate Among(list: seq<nat>, from: nat, h: nat) {
    exists i :: from <= i < |list| && list[i] == h
  }

  /** From entry from on, list is the heads in the given phase, each once. */
  predicate Lists(list: seq<nat>, from: nat, reqs: map<nat, Req>, phase: Phase) {
    && from <= |list|
    && (forall i, j :: from <= i < j < |list| ==> list[i] != list[j])
    && (forall i :: from <= i < |list| ==> list[i] in reqs && reqs[list[i]].phase == phase)
    && (forall h :: h in reqs && reqs[h].phase == phase ==> Among(list, from, h))
  }

  predicate AvailOk(q: Queue, f: Flight)
    requires Shape(q)
  {
    && q.availIdx == Wrap(|f.posted|) && q.devIdx == Wrap(f.taken)
    && RingHolds(q.avail, f.posted, f.taken, NUM)
    && Lists(f.posted, f.taken, f.reqs, Posted)
  }

  predicate UsedOk(q: Queue, f: Flight)
    requires Shape(q)
  {
    && q.usedId == Wrap(|f.done|) && q.usedIdx == Slot(f.seen)
    && RingHolds(q.used, f.done, f.seen, NUM)
    && Lists(f.done, f.seen, f.reqs, Done)
  }

  predicate Inv(q: Queue, f: Flight) {
    Shape(q) && OwnersOk(q, f) && BuffersOk(q.info, q.busy, f.reqs) && AvailOk(q, f) && UsedOk(q, f)
  }

  // ---------------------------------------------------------------------
  // Consequences

  function Elems(s: seq<nat>): set<nat> { set x | x in s }

  lemma {:induction false} DistinctCard(s: seq<nat>)
    requires forall i, j :: 0 <= i < j < |s| ==> s[i] != s[j]
    ensures |Elems(s)| == |s|
  {
    if s == [] {
      assert Elems(s) == {};
    } else {
      var n := |s| - 1;
      DistinctCard(s[..n]);
      assert Elems(s) == Elems(s[..n]) + {s[n]};
    }
  }

  lemma ListShort(list: seq<nat>, from: nat, reqs: map<nat, Req>, phase: Phase)
    requires Lists(list, from, reqs, phase)
    ensures |list| - from <= |reqs|
  {
    var s := list[from..];
    DistinctCard(s);
    assert Elems(s) <= reqs.Keys;
    SubsetCard(Elems(s), reqs.Keys);
  }

  /** At most two requests are in flight, so neither ring can be lapped. */
  lemma AtMostTwo(q: Queue, f: Flight)
    requires Inv(q, f)
    ensures |f.reqs| <= 2 && f.taken <= |f.posted| <= f.taken + 2 && f.seen <= |f.done| <= f.seen + 2
  {
    ListShort(f.posted, f.taken, f.reqs, Posted);
    ListShort(f.done, f.seen, f.reqs, Done);
  }

  lemma Wraps(a: nat, b: nat)
    requires a <= b < a + NUM
    ensures Wrap(b) % NUM == Slot(b)
    ensures Slot(a) == Slot(b) <==> a == b
    ensures Wrap(a) == Wrap(b) <==> a == b
  {
    ResidueApart(a, b, NUM);
    ResidueApart(a, b, IDX_WRAP);
    ResidueResidue(b, IDX_WRAP, NUM);
  }

  lemma UsedIndex(q: Queue, f: Flight)
    requires Shape(q) && UsedOk(q, f) && |f.done| <= f.seen + 2
    ensures q.usedIdx % NUM != q.usedId % NUM <==> f.seen < |f.done|
    ensures f.seen < |f.done| ==> q.used[q.usedIdx] == f.done[f.seen]
  {
    Wraps(f.seen, |f.done|);
  }

  /** The driver's comparison of used_idx with the device's index sees a completion exactly when there is one,
      however often the 16-bit index has wrapped. */
  lemma SeesCompletions(q: Queue, f: Flight)
    requires Inv(q, f)
    ensures f.seen <= |f.done|
    ensures q.usedIdx % NUM != q.usedId % NUM <==> f.seen < |f.done|
    ensures f.seen < |f.done| ==> q.used[q.usedIdx] == f.done[f.seen] && f.done[f.seen] in f.reqs
  {
    AtMostTwo(q, f);
    UsedIndex(q, f);
  }

  datatype Order = Order(write: bool, sector: nat, b: nat, statusOf: nat)

  /** What a device that follows the chain from descriptor h finds, if it is a well-formed block request. */
  function DeviceReads(q: Queue, h: nat): (o: seq<Order>)
    requires Shape(q) && h < NUM
  {
    var d0 := q.desc[h];
    if !(d0.addr.Header? && d0.hasNext && !d0.deviceWrites && d0.next < NUM) then []
    else
      var d1 := q.desc[d0.next];
      if !(d1.addr.Data? && d1.hasNext && d1.deviceWrites == !d0.addr.write && d1.next < NUM) then []
      else
        var d2 := q.desc[d1.next];
        if !(d2.addr.Status? && !d2.hasNext && d2.deviceWrites) then []
        else [Order(d0.addr.write, d0.addr.sector, d1.addr.b, d2.addr.head)]
  }

  lemma OneOwner(q: Queue, f: Flight, h: nat, k: nat, i: nat)
    requires Shape(q) && OwnersOk(q, f) && h in f.reqs && k in f.reqs
    requires InChain(f.reqs[h], i) && InChain(f.reqs[k], i)
    ensures h == k
  {
    assert f.owner[i] == h && f.owner[i] == k;
  }

  /** From submission until its descriptors are freed a request reads as it was submitted. */
  lemma RequestIntact(q: Queue, f: Flight, h: nat)
    requires Shape(q) && OwnersOk(q, f) && h in f.reqs
    ensures h < NUM && DeviceReads(q, h) == [Order(f.reqs[h].write, f.reqs[h].sector, f.reqs[h].b, h)]
  {
    assert ChainOk(q.desc, h, f.reqs[h]);
  }

  // ---------------------------------------------------------------------
  // Lists and rings

  lemma ListsAdd(list: seq<nat>, from: nat, reqs: map<nat, Req>, p: Phase, h: nat, r: Req)
    requires Lists(list, from, reqs, p) && (h in reqs ==> reqs[h].phase != p) && r.phase == p
    ensures Lists(list + [h], from, reqs[h := r], p)
  {
    var list' := list + [h];
    assert list'[|list|] == h && Among(list', from, h);
    forall k | k in reqs && k != h && reqs[k].phase == p ensures Among(list', from, k) {
      var i :| from <= i < |list| && list[i] == k;
      assert list'[i] == k;
    }
  }

  lemma ListsPop(list: seq<nat>, from: nat, reqs: map<nat, Req>, p: Phase, h: nat, r: Req)
    requires Lists(list, from, reqs, p) && from < |list| && h == list[from] && r.phase != p
    ensures Lists(list, from + 1, reqs[h := r], p)
  {
    forall k | k in reqs && k != h && reqs[k].phase == p ensures Among(list, from + 1, k) {
      var i :| from <= i < |list| && list[i] == k;
    }
  }

  lemma ListsKeep(list: seq<nat>, from: nat, reqs: map<nat, Req>, p: Phase, h: nat, r: Req)
    requires Lists(list, from, reqs, p) && (h in reqs ==> reqs[h].phase != p) && r.phase != p
    ensures Lists(list, from, reqs[h := r], p)
  {
  }

  lemma ListsDrop(list: seq<nat>, from: nat, reqs: map<nat, Req>, p: Phase, h: nat)
    requires Lists(list, from, reqs, p) && h in reqs && reqs[h].phase != p
    ensures Lists(list, from, reqs - {h}, p)
  {
  }

  // ---------------------------------------------------------------------
  // Submission

  function Taken(free: seq<bool>, r: Req): seq<bool>
    requires r.d0 < |free| && r.d1 < |free| && r.d2 < |free|
  {
    free[r.d0 := false][r.d1 := false][r.d2 := false]
  }

  function Formatted(desc: seq<Desc>, r: Req): seq<Desc>
    requires r.d0 < |desc| && r.d1 < |desc| && r.d2 < |desc|
  {
    desc[r.d0 := Desc(Header(r.write, r.sector), r.d1, true, false)]
        [r.d1 := Desc(Data(r.b), r.d2, true, !r.write)]
        [r.d2 := Desc(Status(r.d0), 0, false, true)]
  }

  /** The queue once virtio_disk_rw has taken three descriptors, formatted them and bumped avail's index. */
  function PostQ(q: Queue, r: Req): Queue
    requires Shape(q) && r.d0 < NUM && r.d1 < NUM && r.d2 < NUM && r.b < |q.busy|
  {
    Queue(Taken(q.free, r), Formatted(q.desc, r), q.avail[q.availIdx % NUM := r.d0], (q.availIdx + 1) % IDX_WRAP,
          q.used, q.usedId, q.usedIdx, q.info[r.d0 := Info(r.b, 0)], q.busy[r.b := true], q.devIdx)
  }

  ghost function PostF(f: Flight, r: Req): Flight
    requires |f.owner| == NUM && r.d0 < NUM && r.d1 < NUM && r.d2 < NUM
  {
    f.(reqs := f.reqs[r.d0 := r],
       owner := f.owner[r.d0 := r.d0][r.d1 := r.d0][r.d2 := r.d0],
       posted := f.posted + [r.d0])
  }

  predicate Fresh(q: Queue, f: Flight, r: Req)
    requires Shape(q)
  {
    && r.d0 < NUM && r.d1 < NUM && r.d2 < NUM && r.d0 != r.d1 && r.d0 != r.d2 && r.d1 != r.d2
    && q.free[r.d0] && q.free[r.d1] && q.free[r.d2]
    && r.b < |q.busy| && r.phase == Posted
    && (forall h :: h in f.reqs ==> f.reqs[h].b != r.b)
  }

  lemma PostFlags(free: seq<bool>, owner: seq<int>, r: Req)
    requires FlagsOk(free, owner) && r.d0 < NUM && r.d1 < NUM && r.d2 < NUM
    ensures FlagsOk(Taken(free, r), owner[r.d0 := r.d0][r.d1 := r.d0][r.d2 := r.d0])
  {
  }

  lemma PostCount(free: seq<bool>, r: Req)
    requires r.d0 < |free| && r.d1 < |free| && r.d2 < |free| && r.d0 != r.d1 && r.d0 != r.d2 && r.d1 != r.d2
    requires free[r.d0] && free[r.d1] && free[r.d2]
    ensures CountFree(Taken(free, r)) == CountFree(free) - 3
  {
    CountUpdate(free, r.d0, false, true);
    CountUpdate(free[r.d0 := false], r.d1, false, true);
    CountUpdate(free[r.d0 := false][r.d1 := false], r.d2, false, true);
  }

  lemma PostOwned(owner: seq<int>, reqs: map<nat, Req>, r: Req)
    requires OwnedOk(owner, reqs) && |owner| == NUM && r.d0 < NUM && r.d1 < NUM && r.d2 < NUM
    requires owner[r.d0] == NONE && owner[r.d1] == NONE && owner[r.d2] == NONE && r.d0 !in reqs
    ensures OwnedOk(owner[r.d0 := r.d0][r.d1 := r.d0][r.d2 := r.d0], reqs[r.d0 := r])
  {
  }

  lemma FormattedOk(desc: seq<Desc>, r: Req)
    requires |desc| == NUM && r.d0 < NUM && r.d1 < NUM && r.d2 < NUM && r.d0 != r.d1 && r.d0 != r.d2 && r.d1 != r.d2
    ensures ChainOk(Formatted(desc, r), r.d0, r)
    ensures forall i: nat :: i < NUM && !InChain(r, i) ==> Formatted(desc, r)[i] == desc[i]
  {
  }

  lemma PostChains(desc: seq<Desc>, owner: seq<int>, reqs: map<nat, Req>, r: Req)
    requires |desc| == NUM && |owner| == NUM && ChainsOk(desc, owner, reqs)
    requires r.d0 < NUM && r.d1 < NUM && r.d2 < NUM && r.d0 != r.d1 && r.d0 != r.d2 && r.d1 != r.d2
    requires owner[r.d0] == NONE && owner[r.d1] == NONE && owner[r.d2] == NONE
    ensures ChainsOk(Formatted(desc, r), owner[r.d0 := r.d0][r.d1 := r.d0][r.d2 := r.d0], reqs[r.d0 := r])
  {
    FormattedOk(desc, r);
    var desc' := Formatted(desc, r);
    var owner' := owner[r.d0 := r.d0][r.d1 := r.d0][r.d2 := r.d0];
    forall h | h in reqs && h != r.d0
      ensures ChainOk(desc', h, reqs[h]) && owner'[h] == h && owner'[reqs[h].d1] == h && owner'[reqs[h].d2] == h
    {
      var k := reqs[h];
      assert ChainOk(desc, h, k) && owner[h] == h && owner[k.d1] == h && owner[k.d2] == h;
      assert !InChain(r, h) && !InChain(r, k.d1) && !InChain(r, k.d2);
    }
  }

  lemma PostOwners(q: Queue, f: Flight, r: Req)
    requires Shape(q) && OwnersOk(q, f) && Fresh(q, f, r)
    ensures r.d0 !in f.reqs
    ensures OwnersOk(PostQ(q, r), PostF(f, r))
  {
    assert f.owner[r.d0] == NONE && f.owner[r.d1] == NONE && f.owner[r.d2] == NONE;
    assert r.d0 !in f.reqs;
    PostFlags(q.free, f.owner, r);
    PostCount(q.free, r);
    PostOwned(f.owner, f.reqs, r);
    PostChains(q.desc, f.owner, f.reqs, r);
    assert |f.reqs[r.d0 := r]| == |f.reqs| + 1;
  }

  lemma PostBuffers(info: seq<Info>, busy: seq<bool>, reqs: map<nat, Req>, r: Req)
    requires BuffersOk(info, busy, reqs) && r.d0 < |info| && r.b < |busy| && r.phase == Posted && r.d0 !in reqs
    requires forall h :: h in reqs ==> reqs[h].b != r.b
    ensures BuffersOk(info[r.d0 := Info(r.b, 0)], busy[r.b := true], reqs[r.d0 := r])
  {
  }

  lemma PostAvail(q: Queue, f: Flight, r: Req)
    requires Shape(q) && AvailOk(q, f) && |f.posted| <= f.taken + 2 && |f.owner| == NUM && r.d0 !in f.reqs
    requires r.d0 < NUM && r.d1 < NUM && r.d2 < NUM && r.b < |q.busy| && r.phase == Posted
    ensures AvailOk(PostQ(q, r), PostF(f, r))
  {
    ListsAdd(f.posted, f.taken, f.reqs, Posted, r.d0, r);
    Wraps(f.taken, |f.posted|);
    RingPush(q.avail, f.posted, f.taken, r.d0, NUM);
    ResiduePlus(|f.posted|, 1, IDX_WRAP);
  }

  lemma PostUsed(q: Queue, f: Flight, r: Req)
    requires Shape(q) && UsedOk(q, f) && |f.owner| == NUM && r.d0 !in f.reqs
    requires r.d0 < NUM && r.d1 < NUM && r.d2 < NUM && r.b < |q.busy| && r.phase == Posted
    ensures UsedOk(PostQ(q, r), PostF(f, r))
  {
    ListsKeep(f.done, f.seen, f.reqs, Done, r.d0, r);
  }

  lemma PostBusy(q: Queue, f: Flight, r: Req)
    requires Shape(q) && BuffersOk(q.info, q.busy, f.reqs) && |f.owner| == NUM && r.d0 !in f.reqs
    requires r.d0 < NUM && r.d1 < NUM && r.d2 < NUM && r.b < |q.busy| && r.phase == Posted
    requires forall h :: h in f.reqs ==> f.reqs[h].b != r.b
    ensures Shape(PostQ(q, r)) && BuffersOk(PostQ(q, r).info, PostQ(q, r).busy, PostF(f, r).reqs)
  {
    PostBuffers(q.info, q.busy, f.reqs, r);
  }

  lemma PostRest(q: Queue, f: Flight, r: Req)
    requires Shape(q) && OwnersOk(q, f) && AvailOk(q, f) && UsedOk(q, f) && |f.posted| <= f.taken + 2 && Fresh(q, f, r)
    ensures r.d0 !in f.reqs
    ensures OwnersOk(PostQ(q, r), PostF(f, r)) && AvailOk(PostQ(q, r), PostF(f, r)) && UsedOk(PostQ(q, r), PostF(f, r))
  {
    PostOwners(q, f, r);
    PostAvail(q, f, r);
    PostUsed(q, f, r);
  }

  lemma PostKeeps(q: Queue, f: Flight, r: Req)
    requires Inv(q, f) && Fresh(q, f, r)
    ensures Inv(PostQ(q, r), PostF(f, r)) && r.d0 !in f.reqs
  {
    AtMostTwo(q, f);
    PostRest(q, f, r);
    PostBusy(q, f, r);
  }

  // ---------------------------------------------------------------------
  // The device and the interrupt: a request moves to its next phase

  ghost function Phased(reqs: map<nat, Req>, h: nat, p: Phase): map<nat, Req>
    requires h in reqs
  {
    reqs[h := reqs[h].(phase := p)]
  }

  lemma PhasedSize(reqs: map<nat, Req>, h: nat, p: Phase)
    requires h in reqs
    ensures |Phased(reqs, h, p)| == |reqs|
  {
    assert Phased(reqs, h, p).Keys == reqs.Keys;
  }

  lemma PhasedChains(desc: seq<Desc>, owner: seq<int>, reqs: map<nat, Req>, h: nat, p: Phase)
    requires |desc| == NUM && |owner| == NUM && OwnedOk(owner, reqs) && ChainsOk(desc, owner, reqs) && h in reqs
    ensures OwnedOk(owner, Phased(reqs, h, p)) && ChainsOk(desc, owner, Phased(reqs, h, p))
  {
    forall k | k in reqs ensures ChainOk(desc, k, Phased(reqs, h, p)[k]) { assert ChainOk(desc, k, reqs[k]); }
  }

  lemma PhasedOwners(q: Queue, f: Flight, h: nat, p: Phase, q': Queue, f': Flight)
    requires Shape(q) && OwnersOk(q, f) && h in f.reqs
    requires Shape(q') && q'.free == q.free && q'.desc == q.desc
    requires f'.owner == f.owner && f'.reqs == Phased(f.reqs, h, p)
    ensures OwnersOk(q', f')
  {
    PhasedSize(f.reqs, h, p);
    PhasedChains(q.desc, f.owner, f.reqs, h, p);
  }

  lemma PhasedBuffers(info: seq<Info>, busy: seq<bool>, reqs: map<nat, Req>, h: nat, p: Phase)
    requires BuffersOk(info, busy, reqs) && h in reqs && reqs[h].phase != Acked && p != Acked
    ensures BuffersOk(info, busy, Phased(reqs, h, p))
  {
  }

  /** The device fetches the next head from the avail ring. */
  function FetchQ(q: Queue): Queue {
    q.(devIdx := (q.devIdx + 1) % IDX_WRAP)
  }

  ghost function FetchF(f: Flight, h: nat): Flight
    requires h in f.reqs
  {
    f.(taken := f.taken + 1, reqs := Phased(f.reqs, h, Fetched))
  }

  lemma AvailIndex(q: Queue, f: Flight)
    requires Shape(q) && AvailOk(q, f) && |f.posted| <= f.taken + 2
    ensures q.devIdx != q.availIdx <==> f.taken < |f.posted|
    ensures f.taken < |f.posted| ==> q.avail[q.devIdx % NUM] == f.posted[f.taken] && f.posted[f.taken] in f.reqs
  {
    Wraps(f.taken, |f.posted|);
    Wraps(f.taken, f.taken);
  }

  /** A device that finds avail's index moved finds, in the slot it looks at, the oldest head not yet fetched. */
  lemma SeesAvail(q: Queue, f: Flight)
    requires Inv(q, f)
    ensures f.taken <= |f.posted|
    ensures q.devIdx != q.availIdx <==> f.taken < |f.posted|
    ensures f.taken < |f.posted| ==> q.avail[q.devIdx % NUM] == f.posted[f.taken] && f.posted[f.taken] in f.reqs
  {
    AtMostTwo(q, f);
    AvailIndex(q, f);
  }

  lemma FetchRings(q: Queue, f: Flight, h: nat)
    requires Shape(q) && AvailOk(q, f) && UsedOk(q, f) && f.taken < |f.posted| && h == f.posted[f.taken] && h in f.reqs
    ensures AvailOk(FetchQ(q), FetchF(f, h)) && UsedOk(FetchQ(q), FetchF(f, h))
  {
    assert f.reqs[h].phase == Posted;
    ListsPop(f.posted, f.taken, f.reqs, Posted, h, f.reqs[h].(phase := Fetched));
    ListsKeep(f.done, f.seen, f.reqs, Done, h, f.reqs[h].(phase := Fetched));
    ResiduePlus(f.taken, 1, IDX_WRAP);
  }

  lemma FetchKeeps(q: Queue, f: Flight, h: nat)
    requires Inv(q, f) && f.taken < |f.posted| && h == f.posted[f.taken] && h in f.reqs
    ensures Inv(FetchQ(q), FetchF(f, h))
  {
    FetchRings(q, f, h);
    PhasedOwners(q, f, h, Fetched, FetchQ(q), FetchF(f, h));
    assert f.reqs[h].phase == Posted;
    PhasedBuffers(q.info, q.busy, f.reqs, h, Fetched);
  }

  /** The device writes the status byte and puts the head on the used ring. */
  function DoneQ(q: Queue, h: nat, status: int): Queue
    requires Shape(q) && h < NUM
  {
    q.(used := q.used[q.usedId % NUM := h], usedId := (q.usedId + 1) % IDX_WRAP,
       info := q.info[h := q.info[h].(status := status)])
  }

  ghost function DoneF(f: Flight, h: nat): Flight
    requires h in f.reqs
  {
    f.(done := f.done + [h], reqs := Phased(f.reqs, h, Done))
  }

  lemma DoneAvail(q: Queue, f: Flight, h: nat, status: int)
    requires Shape(q) && AvailOk(q, f) && h in f.reqs && f.reqs[h].phase == Fetched && h < NUM
    ensures AvailOk(DoneQ(q, h, status), DoneF(f, h))
  {
    ListsKeep(f.posted, f.taken, f.reqs, Posted, h, f.reqs[h].(phase := Done));
  }

  lemma DoneUsed(q: Queue, f: Flight, h: nat, status: int)
    requires Shape(q) && UsedOk(q, f) && |f.done| <= f.seen + 2
    requires h in f.reqs && f.reqs[h].phase == Fetched && h < NUM
    ensures UsedOk(DoneQ(q, h, status), DoneF(f, h))
  {
    ListsAdd(f.done, f.seen, f.reqs, Done, h, f.reqs[h].(phase := Done));
    Wraps(f.seen, |f.done|);
    RingPush(q.used, f.done, f.seen, h, NUM);
    ResiduePlus(|f.done|, 1, IDX_WRAP);
  }

  lemma DoneBuffers(q: Queue, f: Flight, h: nat, status: int)
    requires Shape(q) && BuffersOk(q.info, q.busy, f.reqs) && h in f.reqs && f.reqs[h].phase == Fetched && h < NUM
    ensures BuffersOk(DoneQ(q, h, status).info, DoneQ(q, h, status).busy, DoneF(f, h).reqs)
  {
  }

  lemma DoneOwners(q: Queue, f: Flight, h: nat, status: int)
    requires Shape(q) && OwnersOk(q, f) && h in f.reqs && h < NUM
    ensures Shape(DoneQ(q, h, status)) && OwnersOk(DoneQ(q, h, status), DoneF(f, h))
  {
    PhasedOwners(q, f, h, Done, DoneQ(q, h, status), DoneF(f, h));
  }

  lemma DoneKeeps(q: Queue, f: Flight, h: nat, status: int)
    requires Inv(q, f) && h in f.reqs && f.reqs[h].phase == Fetched && h < NUM
    ensures Inv(DoneQ(q, h, status), DoneF(f, h))
  {
    AtMostTwo(q, f);
    DoneAvail(q, f, h, status);
    DoneUsed(q, f, h, status);
    DoneOwners(q, f, h, status);
    DoneBuffers(q, f, h, status);
  }

  /** One round of virtio_disk_intr's loop: the buffer of completion id is no longer the device's. */
  function AckQ(q: Queue, b: nat): Queue
    requires b < |q.busy|
  {
    q.(busy := q.busy[b := false], usedIdx := (q.usedIdx + 1) % NUM)
  }

  ghost function AckF(f: Flight, h: nat): Flight
    requires h in f.reqs
  {
    f.(seen := f.seen + 1, reqs := Phased(f.reqs, h, Acked))
  }

  lemma AckAvail(q: Queue, f: Flight, h: nat, b: nat)
    requires Shape(q) && AvailOk(q, f) && h in f.reqs && f.reqs[h].phase == Done && b < |q.busy|
    ensures AvailOk(AckQ(q, b), AckF(f, h))
  {
    ListsKeep(f.posted, f.taken, f.reqs, Posted, h, f.reqs[h].(phase := Acked));
  }

  lemma AckUsed(q: Queue, f: Flight, h: nat, b: nat)
    requires Shape(q) && UsedOk(q, f) && f.seen < |f.done| && h == f.done[f.seen] && h in f.reqs
    requires f.reqs[h].phase == Done && b < |q.busy|
    ensures UsedOk(AckQ(q, b), AckF(f, h))
  {
    ListsPop(f.done, f.seen, f.reqs, Done, h, f.reqs[h].(phase := Acked));
    ResiduePlus(f.seen, 1, NUM);
  }

  lemma AckRings(q: Queue, f: Flight, h: nat, b: nat)
    requires Shape(q) && AvailOk(q, f) && UsedOk(q, f) && f.seen < |f.done| && h == f.done[f.seen] && h in f.reqs
    requires b < |q.busy|
    ensures AvailOk(AckQ(q, b), AckF(f, h)) && UsedOk(AckQ(q, b), AckF(f, h))
  {
    assert f.reqs[h].phase == Done;
    AckAvail(q, f, h, b);
    AckUsed(q, f, h, b);
  }

  lemma AckBuffers(info: seq<Info>, busy: seq<bool>, reqs: map<nat, Req>, h: nat)
    requires BuffersOk(info, busy, reqs) && h in reqs && reqs[h].b < |busy|
    ensures BuffersOk(info, busy[reqs[h].b := false], Phased(reqs, h, Acked))
  {
  }

  lemma AckKeeps(q: Queue, f: Flight, h: nat, b: nat)
    requires Inv(q, f) && f.seen < |f.done| && h == f.done[f.seen] && h in f.reqs && b == f.reqs[h].b && b < |q.busy|
    ensures Inv(AckQ(q, b), AckF(f, h))
  {
    AckRings(q, f, h, b);
    PhasedOwners(q, f, h, Acked, AckQ(q, b), AckF(f, h));
    AckBuffers(q.info, q.busy, f.reqs, h);
  }

  // ---------------------------------------------------------------------
  // The end of a request

  function Given(free: seq<bool>, r: Req): seq<bool>
    requires r.d0 < |free| && r.d1 < |free| && r.d2 < |free|
  {
    free[r.d0 := true][r.d1 := true][r.d2 := true]
  }

  ghost function FinishF(f: Flight, h: nat): Flight
    requires |f.owner| == NUM && h in f.reqs && h < NUM && f.reqs[h].d1 < NUM && f.reqs[h].d2 < NUM
  {
    var r := f.reqs[h];
    f.(reqs := f.reqs - {h}, owner := f.owner[h := NONE][r.d1 := NONE][r.d2 := NONE])
  }

  /** All that virtio_disk_rw does after its request is done: the chain is freed and the buffer forgotten. */
  predicate Finished(q: Queue, r: Req, q': Queue)
    requires Shape(q) && r.d0 < NUM && r.d1 < NUM && r.d2 < NUM
  {
    && |q'.desc| == NUM && |q'.info| == NUM
    && q'.free == Given(q.free, r)
    && (forall i: nat :: i < NUM && !InChain(r, i) ==> q'.desc[i] == q.desc[i])
    && q'.info == q.info[r.d0 := q.info[r.d0].(b := NONE)]
    && q' == q.(free := q'.free, desc := q'.desc, info := q'.info)
  }

  lemma FinishFlags(free: seq<bool>, owner: seq<int>, r: Req)
    requires FlagsOk(free, owner) && r.d0 < NUM && r.d1 < NUM && r.d2 < NUM
    ensures FlagsOk(Given(free, r), owner[r.d0 := NONE][r.d1 := NONE][r.d2 := NONE])
  {
  }

  lemma FinishCount(free: seq<bool>, r: Req)
    requires r.d0 < |free| && r.d1 < |free| && r.d2 < |free| && r.d0 != r.d1 && r.d0 != r.d2 && r.d1 != r.d2
    requires !free[r.d0] && !free[r.d1] && !free[r.d2]
    ensures CountFree(Given(free, r)) == CountFree(free) + 3
  {
    CountUpdate(free, r.d0, true, true);
    CountUpdate(free[r.d0 := true], r.d1, true, true);
    CountUpdate(free[r.d0 := true][r.d1 := true], r.d2, true, true);
  }

  lemma FinishOwned(owner: seq<int>, reqs: map<nat, Req>, h: nat)
    requires OwnedOk(owner, reqs) && |owner| == NUM && h in reqs && reqs[h].d0 == h
    requires h < NUM && reqs[h].d1 < NUM && reqs[h].d2 < NUM
    ensures OwnedOk(owner[h := NONE][reqs[h].d1 := NONE][reqs[h].d2 := NONE], reqs - {h})
  {
  }

  lemma FinishChains(desc: seq<Desc>, desc': seq<Desc>, owner: seq<int>, reqs: map<nat, Req>, h: nat)
    requires |desc| == NUM && |desc'| == NUM && |owner| == NUM && ChainsOk(desc, owner, reqs)
    requires h in reqs && h < NUM && reqs[h].d1 < NUM && reqs[h].d2 < NUM
    requires forall i: nat :: i < NUM && !InChain(reqs[h], i) ==> desc'[i] == desc[i]
    ensures ChainsOk(desc', owner[h := NONE][reqs[h].d1 := NONE][reqs[h].d2 := NONE], reqs - {h})
  {
    var r := reqs[h];
    var owner' := owner[h := NONE][r.d1 := NONE][r.d2 := NONE];
    assert r.d0 == h && owner[r.d1] == h && owner[r.d2] == h && owner[h] == h;
    forall k | k in reqs && k != h
      ensures ChainOk(desc', k, reqs[k]) && owner'[k] == k && owner'[reqs[k].d1] == k && owner'[reqs[k].d2] == k
    {
      assert ChainOk(desc, k, reqs[k]) && owner[k] == k && owner[reqs[k].d1] == k && owner[reqs[k].d2] == k;
      assert !InChain(r, k) && !InChain(r, reqs[k].d1) && !InChain(r, reqs[k].d2);
    }
  }

  lemma FinishOwners(q: Queue, f: Flight, h: nat, q': Queue)
    requires Shape(q) && Shape(q') && OwnersOk(q, f) && h in f.reqs
    requires h < NUM && f.reqs[h].d0 == h && f.reqs[h].d1 < NUM && f.reqs[h].d2 < NUM
    requires Finished(q, f.reqs[h], q')
    ensures OwnersOk(q', FinishF(f, h))
  {
    var r := f.reqs[h];
    assert ChainOk(q.desc, h, r) && f.owner[h] == h && f.owner[r.d1] == h && f.owner[r.d2] == h;
    FinishFlags(q.free, f.owner, r);
    FinishCount(q.free, r);
    FinishOwned(f.owner, f.reqs, h);
    FinishChains(q.desc, q'.desc, f.owner, f.reqs, h);
    assert |f.reqs - {h}| == |f.reqs| - 1 by { assert (f.reqs - {h}).Keys == f.reqs.Keys - {h}; }
  }

  lemma FinishBuffers(info: seq<Info>, busy: seq<bool>, reqs: map<nat, Req>, h: nat)
    requires BuffersOk(info, busy, reqs) && h in reqs && h < |info|
    ensures BuffersOk(info[h := info[h].(b := NONE)], busy, reqs - {h})
  {
  }

  lemma FinishRings(q: Queue, f: Flight, h: nat, q': Queue, f': Flight)
    requires Shape(q) && Shape(q') && AvailOk(q, f) && UsedOk(q, f) && h in f.reqs && f.reqs[h].phase == Acked
    requires q' == q.(free := q'.free, desc := q'.desc, info := q'.info)
    requires f' == f.(reqs := f.reqs - {h}, owner := f'.owner)
    ensures AvailOk(q', f') && UsedOk(q', f')
  {
    ListsDrop(f.posted, f.taken, f.reqs, Posted, h);
    ListsDrop(f.done, f.seen, f.reqs, Done, h);
  }

  lemma FinishKeeps(q: Queue, f: Flight, h: nat, q': Queue, f': Flight)
    requires Inv(q, f) && Shape(q') && h in f.reqs && f.reqs[h].phase == Acked
    requires h < NUM && f.reqs[h].d0 == h && f.reqs[h].d1 < NUM && f.reqs[h].d2 < NUM
    requires Finished(q, f.reqs[h], q') && f' == FinishF(f, h)
    ensures Inv(q', f')
  {
    assert OwnersOk(q', f') by { FinishOwners(q, f, h, q'); }
    assert BuffersOk(q'.info, q'.busy, f'.reqs) by { FinishBuffers(q.info, q.busy, f.reqs, h); }
    FinishRings(q, f, h, q', f');
  }
}
