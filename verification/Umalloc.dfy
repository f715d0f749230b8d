/** The Kernighan and Ritchie allocator of user/umalloc.c.

    Addresses count in header-sized units.  A header at address a is the pair ptr[a], size[a]; the block it
    heads occupies the units a .. a + size[a] - 1.  The static header base lies below everything sbrk
    returns.  The list in address order, the set of live headers and the units obtained are ghosts. */
module Umalloc {

  const NULL := 0
  const UNIT := 16       // sizeof(Header)
  const MIN_CORE := 4096

  type Sizes = map<int, nat>
  type Links = map<int, int>

  /** Unit u lies in the block headed by a. */
  predicate Holds(size: Sizes, a: int, u: int) {
    a in size && a <= u < a + size[a]
  }

  predicate Apart(size: Sizes, a: int, b: int) {
    a in size && b in size && (a + size[a] <= b || b + size[b] <= a)
  }

  // ---------------------------------------------------------------------
  // The free list

  /** The list runs through fl and closes on itself. */
  ghost predicate Linked(fl: seq<int>, ptr: Links) {
    forall i :: 0 <= i < |fl| ==> fl[i] in ptr && ptr[fl[i]] == fl[if i + 1 < |fl| then i + 1 else 0]
  }

  /** Address order with one wrap point and no overlap. */
  ghost predicate Sorted(fl: seq<int>, size: Sizes) {
    && (forall i :: 0 <= i < |fl| ==> fl[i] in size)
    && (forall i, j :: 0 <= i < j < |fl| ==> fl[i] + size[fl[i]] <= fl[j] && fl[i] < fl[j])
  }

  /** The blocks at positions k and k + 1 do not touch. */
  ghost predicate Gap(fl: seq<int>, size: Sizes, k: nat) {
    k + 1 < |fl| && fl[k] in size ==> fl[k] + size[fl[k]] != fl[k + 1]
  }

  /** No two neighbours could be merged. */
  ghost predicate Coalesced(fl: seq<int>, size: Sizes) {
    forall k: nat :: Gap(fl, size, k)
  }

  ghost predicate ListOk(base: int, fl: seq<int>, ptr: Links, size: Sizes) {
    && 0 < |fl| && fl[0] == base
    && base in size && size[base] == 0
    && (forall i :: 1 <= i < |fl| ==> fl[i] in size && 1 <= size[fl[i]])
    && Linked(fl, ptr) && Sorted(fl, size)
  }

  /** Unit u is in a free block. */
  ghost predicate InFree(fl: seq<int>, size: Sizes, u: int) {
    exists i :: 0 <= i < |fl| && Holds(size, fl[i], u)
  }

  ghost predicate InLive(live: set<int>, size: Sizes, u: int) {
    exists a :: a in live && Holds(size, a, u)
  }

  /** Live blocks lie above base, apart from each other and from the free blocks. */
  ghost predicate LiveOk(base: int, fl: seq<int>, live: set<int>, size: Sizes) {
    && (forall a :: a in live ==> a in size && 1 <= size[a] && base < a)
    && (forall a, b :: a in live && b in live && a != b ==> Apart(size, a, b))
    && (forall a, i :: a in live && 0 <= i < |fl| ==> Apart(size, a, fl[i]))
  }

  /** The obtained units are exactly those of the free and the live blocks. */
  ghost predicate Conserved(core: set<int>, fl: seq<int>, live: set<int>, size: Sizes) {
    forall u :: u in core <==> InFree(fl, size, u) || InLive(live, size, u)
  }

  ghost predicate HeapOk(base: int, fl: seq<int>, live: set<int>, core: set<int>, ptr: Links, size: Sizes) {
    && ListOk(base, fl, ptr, size)
    && LiveOk(base, fl, live, size)
    && Conserved(core, fl, live, size)
  }

  /** No unit is both free and live: the two kinds of block partition the obtained memory. */
  lemma FreeAndLiveDisjoint(base: int, fl: seq<int>, live: set<int>, core: set<int>, ptr: Links, size: Sizes, u: int)
    requires HeapOk(base, fl, live, core, ptr, size)
    ensures !(InFree(fl, size, u) && InLive(live, size, u))
  {
    forall i, a | 0 <= i < |fl| && a in live
      ensures !(Holds(size, fl[i], u) && Holds(size, a, u))
    {
      assert Apart(size, a, fl[i]);
    }
  }

  // ---------------------------------------------------------------------
  // Putting a block into the list

  /** fl[t] is the last free block below bp. */
  ghost predicate Before(fl: seq<int>, bp: int, t: nat) {
    && t < |fl| && fl[t] < bp
    && (t + 1 < |fl| ==> bp < fl[t + 1])
  }

  lemma OnePlace(fl: seq<int>, size: Sizes, bp: int, i: nat, t: nat)
    requires Sorted(fl, size) && Before(fl, bp, i) && Before(fl, bp, t)
    ensures i == t
  {
  }

  ghost function NextOf(fl: seq<int>, t: nat): int
    requires t < |fl|
  {
    fl[if t + 1 < |fl| then t + 1 else 0]
  }

  ghost function Inserted(fl: seq<int>, t: nat, bp: int): seq<int>
    requires t < |fl|
  {
    fl[..t + 1] + [bp] + fl[t + 1..]
  }

  function InsertLinks(ptr: Links, p: int, nxt: int, bp: int): Links {
    ptr[bp := nxt][p := bp]
  }

  lemma InsertLinked(fl: seq<int>, ptr: Links, size: Sizes, t: nat, bp: int)
    requires Linked(fl, ptr) && Sorted(fl, size) && Before(fl, bp, t)
    ensures Linked(Inserted(fl, t, bp), InsertLinks(ptr, fl[t], NextOf(fl, t), bp))
  {
    var fl', ptr' := Inserted(fl, t, bp), InsertLinks(ptr, fl[t], NextOf(fl, t), bp);
    forall i | 0 <= i < |fl'|
      ensures fl'[i] in ptr' && ptr'[fl'[i]] == fl'[if i + 1 < |fl'| then i + 1 else 0]
    {
      if i < t {
        assert fl'[i] == fl[i] && fl'[i + 1] == fl[i + 1];
      } else if i > t + 1 {
        assert fl'[i] == fl[i - 1] && fl[i - 1] > bp;
      }
    }
  }

  lemma InsertSorted(fl: seq<int>, size: Sizes, t: nat, bp: int)
    requires Sorted(fl, size) && Before(fl, bp, t) && bp in size
    requires forall i :: 0 <= i < |fl| ==> Apart(size, bp, fl[i])
    ensures Sorted(Inserted(fl, t, bp), size)
    ensures forall k: nat :: k != t && k != t + 1 && (forall m: nat :: Gap(fl, size, m)) ==>
              Gap(Inserted(fl, t, bp), size, k)
  {
    var fl' := Inserted(fl, t, bp);
    forall i | 0 <= i < |fl|
      ensures i <= t ==> fl[i] + size[fl[i]] <= bp && fl[i] < bp
      ensures i > t ==> bp + size[bp] <= fl[i] && bp < fl[i]
    {
      assert Apart(size, bp, fl[i]);
    }
    forall k: nat | k != t && k != t + 1 && (forall m: nat :: Gap(fl, size, m))
      ensures Gap(fl', size, k)
    {
      assert Gap(fl, size, k);
      if k > t + 1 {
        assert Gap(fl, size, k - 1);
      }
    }
  }

  lemma InsertUnits(fl: seq<int>, size: Sizes, t: nat, bp: int, u: int)
    requires t < |fl|
    ensures InFree(Inserted(fl, t, bp), size, u) <==> InFree(fl, size, u) || Holds(size, bp, u)
  {
    var fl' := Inserted(fl, t, bp);
    if Holds(size, bp, u) {
      assert fl'[t + 1] == bp;
    } else if InFree(fl, size, u) {
      var i :| 0 <= i < |fl| && Holds(size, fl[i], u);
      assert fl'[if i <= t then i else i + 1] == fl[i];
    }
  }

  /** A live block becomes a free one: no unit is gained or lost. */
  lemma InsertKeeps(base: int, fl: seq<int>, live: set<int>, core: set<int>, ptr: Links, size: Sizes, t: nat, bp: int)
    requires HeapOk(base, fl, live, core, ptr, size) && bp in live && Before(fl, bp, t)
    ensures HeapOk(base, Inserted(fl, t, bp), live - {bp}, core, InsertLinks(ptr, fl[t], NextOf(fl, t), bp), size)
  {
    InsertLinked(fl, ptr, size, t, bp);
    InsertSorted(fl, size, t, bp);
    forall u
      ensures u in core <==> InFree(Inserted(fl, t, bp), size, u) || InLive(live - {bp}, size, u)
    {
      InsertUnits(fl, size, t, bp, u);
    }
    InsertLive(base, fl, live, size, t, bp);
  }

  lemma InsertLive(base: int, fl: seq<int>, live: set<int>, size: Sizes, t: nat, bp: int)
    requires LiveOk(base, fl, live, size) && bp in live && t < |fl|
    ensures LiveOk(base, Inserted(fl, t, bp), live - {bp}, size)
  {
    var fl' := Inserted(fl, t, bp);
    forall a, i | a in live - {bp} && 0 <= i < |fl'|
      ensures Apart(size, a, fl'[i])
    {
      assert Apart(size, a, bp);
      if i <= t {
        assert Apart(size, a, fl[i]);
      } else if i > t + 1 {
        assert Apart(size, a, fl[i - 1]);
      }
    }
  }

  // ---------------------------------------------------------------------
  // Merging two neighbours that touch

  ghost function Merged(fl: seq<int>, k: nat): seq<int>
    requires k + 1 < |fl|
  {
    fl[..k + 1] + fl[k + 2..]
  }

  function MergeSizes(size: Sizes, a: int, b: int): Sizes
    requires a in size && b in size
  {
    size[a := size[a] + size[b]]
  }

  function MergeLinks(ptr: Links, a: int, b: int): Links
    requires b in ptr
  {
    ptr[a := ptr[b]]
  }

  lemma MergeLinked(fl: seq<int>, ptr: Links, size: Sizes, k: nat)
    requires Linked(fl, ptr) && Sorted(fl, size) && k + 1 < |fl|
    ensures Linked(Merged(fl, k), MergeLinks(ptr, fl[k], fl[k + 1]))
  {
    var fl', ptr' := Merged(fl, k), MergeLinks(ptr, fl[k], fl[k + 1]);
    forall i | 0 <= i < |fl'|
      ensures fl'[i] in ptr' && ptr'[fl'[i]] == fl'[if i + 1 < |fl'| then i + 1 else 0]
    {
      if i < k {
        assert fl'[i] == fl[i] && fl[i] < fl[k] && fl'[i + 1] == fl[i + 1];
      } else if i > k {
        assert fl'[i] == fl[i + 1] && fl[i + 1] > fl[k];
      }
    }
  }

  lemma MergeSorted(fl: seq<int>, size: Sizes, k: nat)
    requires Sorted(fl, size) && k + 1 < |fl| && fl[k] + size[fl[k]] == fl[k + 1]
    ensures Sorted(Merged(fl, k), MergeSizes(size, fl[k], fl[k + 1]))
  {
    var fl', size' := Merged(fl, k), MergeSizes(size, fl[k], fl[k + 1]);
    MergedAt(fl, k);
    forall i, j | 0 <= i < j < |fl'|
      ensures fl'[i] + size'[fl'[i]] <= fl'[j] && fl'[i] < fl'[j]
    {
      var x, y := if i <= k then i else i + 1, if j <= k then j else j + 1;
      assert fl[x] < fl[y] && fl[x] + size[fl[x]] <= fl[y];
    }
  }

  lemma MergedAt(fl: seq<int>, k: nat)
    requires k + 1 < |fl|
    ensures |Merged(fl, k)| == |fl| - 1
    ensures forall i :: 0 <= i < |fl| - 1 ==> Merged(fl, k)[i] == fl[if i <= k then i else i + 1]
  {
  }

  lemma MergeGap(fl: seq<int>, size: Sizes, k: nat, m: nat)
    requires Sorted(fl, size) && k + 1 < |fl| && fl[k] + size[fl[k]] == fl[k + 1]
    requires if m < k then Gap(fl, size, m) else Gap(fl, size, m + 1)
    ensures Gap(Merged(fl, k), MergeSizes(size, fl[k], fl[k + 1]), m)
  {
    MergedAt(fl, k);
    if m < k {
      assert fl[m] < fl[k];
    } else if k < m && m + 1 < |fl| {
      assert fl[k] < fl[m + 1];
    }
  }

  lemma MergeUnits(fl: seq<int>, size: Sizes, k: nat, u: int)
    requires Sorted(fl, size) && k + 1 < |fl| && fl[k] + size[fl[k]] == fl[k + 1]
    ensures InFree(Merged(fl, k), MergeSizes(size, fl[k], fl[k + 1]), u) <==> InFree(fl, size, u)
  {
    var fl', size' := Merged(fl, k), MergeSizes(size, fl[k], fl[k + 1]);
    MergedAt(fl, k);
    assert Holds(size', fl[k], u) <==> Holds(size, fl[k], u) || Holds(size, fl[k + 1], u);
    assert forall i :: 0 <= i < |fl| && i != k ==> (Holds(size', fl[i], u) <==> Holds(size, fl[i], u));
    if InFree(fl, size, u) {
      var i :| 0 <= i < |fl| && Holds(size, fl[i], u);
      assert Holds(size', fl'[if i <= k then i else i - 1], u);
    }
  }

  lemma MergeLive(base: int, fl: seq<int>, live: set<int>, size: Sizes, k: nat)
    requires LiveOk(base, fl, live, size) && Sorted(fl, size)
    requires k + 1 < |fl| && fl[k] + size[fl[k]] == fl[k + 1]
    requires forall i :: 0 <= i < |fl| ==> fl[i] !in live
    ensures LiveOk(base, Merged(fl, k), live, MergeSizes(size, fl[k], fl[k + 1]))
  {
    var fl', size' := Merged(fl, k), MergeSizes(size, fl[k], fl[k + 1]);
    MergedAt(fl, k);
    forall a, i | a in live && 0 <= i < |fl'|
      ensures Apart(size', a, fl'[i])
    {
      assert Apart(size, a, fl[k]) && Apart(size, a, fl[k + 1]);
      assert Apart(size, a, fl[if i <= k then i else i + 1]);
    }
    forall a, b | a in live && b in live && a != b
      ensures Apart(size', a, b)
    {
      assert Apart(size, a, b);
    }
  }

  /** A header is not both free and live. */
  lemma NotBoth(base: int, fl: seq<int>, live: set<int>, core: set<int>, ptr: Links, size: Sizes)
    requires HeapOk(base, fl, live, core, ptr, size)
    ensures forall i :: 0 <= i < |fl| ==> fl[i] !in live
  {
    forall i | 0 <= i < |fl|
      ensures fl[i] !in live
    {
      assert fl[i] in live ==> Apart(size, fl[i], fl[i]);
    }
  }

  lemma SameLiveUnits(live: set<int>, size: Sizes, size': Sizes, u: int)
    requires forall a :: a in live ==> a in size && a in size' && size'[a] == size[a]
    ensures InLive(live, size', u) <==> InLive(live, size, u)
  {
    if InLive(live, size, u) {
      var a :| a in live && Holds(size, a, u);
      assert Holds(size', a, u);
    }
  }

  lemma MergeKeeps(base: int, fl: seq<int>, live: set<int>, core: set<int>, ptr: Links, size: Sizes, k: nat)
    requires HeapOk(base, fl, live, core, ptr, size) && k + 1 < |fl| && fl[k] + size[fl[k]] == fl[k + 1]
    ensures HeapOk(base, Merged(fl, k), live, core,
                   MergeLinks(ptr, fl[k], fl[k + 1]), MergeSizes(size, fl[k], fl[k + 1]))
  {
    NotBoth(base, fl, live, core, ptr, size);
    MergeLinked(fl, ptr, size, k);
    MergeSorted(fl, size, k);
    MergeLive(base, fl, live, size, k);
    forall u
      ensures u in core <==> InFree(Merged(fl, k), MergeSizes(size, fl[k], fl[k + 1]), u)
                             || InLive(live, MergeSizes(size, fl[k], fl[k + 1]), u)
    {
      MergeUnits(fl, size, k, u);
      SameLiveUnits(live, size, MergeSizes(size, fl[k], fl[k + 1]), u);
    }
    assert k != 0;
  }

  // ---------------------------------------------------------------------
  // free as a whole

  lemma {:induction false} PlaceExists(fl: seq<int>, bp: int, n: nat) returns (t: nat)
    requires 1 <= n <= |fl| && fl[0] < bp && bp !in fl && (n < |fl| ==> bp < fl[n])
    ensures Before(fl, bp, t)
  {
    if fl[n - 1] < bp {
      t := n - 1;
    } else {
      t := PlaceExists(fl, bp, n - 1);
    }
  }

  /** What free does to the sizes: the block above, then the block below, merge where they touch. */
  function FreedSizes(size: Sizes, p: int, nxt: int, bp: int): Sizes
    requires p in size && nxt in size && bp in size
  {
    var size1 := if bp + size[bp] == nxt then size[bp := size[bp] + size[nxt]] else size;
    if p + size1[p] == bp then size1[p := size1[p] + size1[bp]] else size1
  }

  function FreedLinks(ptr: Links, size: Sizes, p: int, nxt: int, bp: int): Links
    requires p in size && bp in size && nxt in ptr
  {
    var ptr1 := ptr[bp := if bp + size[bp] == nxt then ptr[nxt] else nxt];
    ptr1[p := if p + size[p] == bp then ptr1[bp] else bp]
  }

  /** Some free block contains the units a .. a + n - 1. */
  ghost predicate Covered(fl: seq<int>, size: Sizes, a: int, n: nat) {
    exists k :: 0 <= k < |fl| && fl[k] in size && fl[k] <= a && a + n <= fl[k] + size[fl[k]]
  }

  /** The state of the heap once free has put bp in and merged it upward. */
  ghost predicate HalfFreed(base: int, fl: seq<int>, live: set<int>, core: set<int>, ptr: Links, size: Sizes,
                            t: nat, p: int, bp: int, n: nat) {
    && HeapOk(base, fl, live, core, ptr, size)
    && t + 1 < |fl| && fl[t] == p && fl[t + 1] == bp && n <= size[bp]
    && forall k: nat :: k != t ==> Gap(fl, size, k)
  }

  lemma InsertedGaps(fl: seq<int>, live: set<int>, base: int, size: Sizes, t: nat, bp: int)
    requires Sorted(fl, size) && LiveOk(base, fl, live, size) && Coalesced(fl, size) && bp in live && Before(fl, bp, t)
    ensures Sorted(Inserted(fl, t, bp), size)
    ensures forall k: nat :: k != t && k != t + 1 ==> Gap(Inserted(fl, t, bp), size, k)
  {
    assert forall i :: 0 <= i < |fl| ==> Apart(size, bp, fl[i]);
    InsertSorted(fl, size, t, bp);
  }

  lemma UpMergeGaps(fl: seq<int>, size: Sizes, t: nat, fl': seq<int>, size': Sizes)
    requires Sorted(fl, size) && t + 2 < |fl| && fl[t + 1] + size[fl[t + 1]] == fl[t + 2]
    requires forall m: nat :: m != t && m != t + 1 ==> Gap(fl, size, m)
    requires fl' == Merged(fl, t + 1) && size' == MergeSizes(size, fl[t + 1], fl[t + 2])
    ensures forall k: nat :: k != t ==> Gap(fl', size', k)
  {
    forall k: nat
      ensures k != t ==> Gap(fl', size', k)
    {
      if k != t {
        MergeGap(fl, size, t + 1, k);
      }
    }
  }

  lemma UpMerge(base: int, fl: seq<int>, live: set<int>, core: set<int>, ptr: Links, size: Sizes, t: nat, p: int,
                bp: int)
    requires HeapOk(base, fl, live, core, ptr, size)
    requires t + 2 < |fl| && fl[t] == p && fl[t + 1] == bp && bp + size[bp] == fl[t + 2]
    requires forall m: nat :: m != t && m != t + 1 ==> Gap(fl, size, m)
    ensures HalfFreed(base, Merged(fl, t + 1), live, core, MergeLinks(ptr, bp, fl[t + 2]),
                      MergeSizes(size, bp, fl[t + 2]), t, p, bp, size[bp])
  {
    MergeKeeps(base, fl, live, core, ptr, size, t + 1);
    UpMergeGaps(fl, size, t, Merged(fl, t + 1), MergeSizes(size, bp, fl[t + 2]));
    MergedAt(fl, t + 1);
  }

  lemma InsertThenMerge(ptr: Links, p: int, nxt: int, bp: int)
    requires nxt in ptr && p != bp && nxt != bp && nxt != p
    ensures nxt in InsertLinks(ptr, p, nxt, bp)
    ensures MergeLinks(InsertLinks(ptr, p, nxt, bp), bp, nxt) == ptr[bp := ptr[nxt]][p := bp]
  {
  }

  lemma NextInserted(fl: seq<int>, size: Sizes, t: nat, bp: int)
    requires Sorted(fl, size) && Before(fl, bp, t) && bp < NextOf(fl, t)
    ensures t + 1 < |fl| && NextOf(fl, t) == fl[t + 1] && Inserted(fl, t, bp)[t + 2] == fl[t + 1]
    ensures fl[t] < bp && fl[t + 1] in size
  {
  }

  lemma FreeUpMerged(base: int, fl: seq<int>, live: set<int>, core: set<int>, ptr: Links, size: Sizes, t: nat, bp: int,
                     p: int, nxt: int)
      returns (fl': seq<int>, ptr': Links, size': Sizes)
    requires HeapOk(base, fl, live, core, ptr, size) && Coalesced(fl, size) && bp in live && Before(fl, bp, t)
    requires p == fl[t] && nxt == NextOf(fl, t) && bp in size && bp + size[bp] == nxt
    ensures HalfFreed(base, fl', live - {bp}, core, ptr', size', t, p, bp, size[bp])
    ensures nxt in size && nxt in ptr
    ensures size' == size[bp := size[bp] + size[nxt]] && ptr' == ptr[bp := ptr[nxt]][p := bp]
  {
    InsertKeeps(base, fl, live, core, ptr, size, t, bp);
    InsertedGaps(fl, live, base, size, t, bp);
    NextInserted(fl, size, t, bp);
    var fl1, ptr1 := Inserted(fl, t, bp), InsertLinks(ptr, p, nxt, bp);
    UpMerge(base, fl1, live - {bp}, core, ptr1, size, t, p, bp);
    InsertThenMerge(ptr, p, nxt, bp);
    fl', ptr', size' := Merged(fl1, t + 1), MergeLinks(ptr1, bp, nxt), MergeSizes(size, bp, nxt);
  }

  lemma FreeUpApart(base: int, fl: seq<int>, live: set<int>, core: set<int>, ptr: Links, size: Sizes, t: nat, bp: int,
                    p: int, nxt: int)
      returns (fl': seq<int>, ptr': Links)
    requires HeapOk(base, fl, live, core, ptr, size) && Coalesced(fl, size) && bp in live && Before(fl, bp, t)
    requires p == fl[t] && nxt == NextOf(fl, t) && bp in size && bp + size[bp] != nxt
    ensures HalfFreed(base, fl', live - {bp}, core, ptr', size, t, p, bp, size[bp])
    ensures nxt in size && nxt in ptr && ptr' == ptr[bp := nxt][p := bp]
  {
    InsertKeeps(base, fl, live, core, ptr, size, t, bp);
    InsertedGaps(fl, live, base, size, t, bp);
    fl', ptr' := Inserted(fl, t, bp), InsertLinks(ptr, p, nxt, bp);
    assert Gap(fl', size, t + 1);
  }

  lemma FreeUpward(base: int, fl: seq<int>, live: set<int>, core: set<int>, ptr: Links, size: Sizes, t: nat, bp: int)
      returns (fl': seq<int>, ptr': Links, size': Sizes)
    requires HeapOk(base, fl, live, core, ptr, size) && Coalesced(fl, size) && bp in live && Before(fl, bp, t)
    ensures HalfFreed(base, fl', live - {bp}, core, ptr', size', t, fl[t], bp, size[bp])
    ensures NextOf(fl, t) in size && NextOf(fl, t) in ptr
    ensures size' == if bp + size[bp] == NextOf(fl, t) then size[bp := size[bp] + size[NextOf(fl, t)]] else size
    ensures ptr' == ptr[bp := if bp + size[bp] == NextOf(fl, t) then ptr[NextOf(fl, t)] else NextOf(fl, t)][fl[t] := bp]
  {
    var p, nxt := fl[t], NextOf(fl, t);
    size' := size;
    if bp + size[bp] == nxt {
      fl', ptr', size' := FreeUpMerged(base, fl, live, core, ptr, size, t, bp, p, nxt);
    } else {
      fl', ptr' := FreeUpApart(base, fl, live, core, ptr, size, t, bp, p, nxt);
    }
  }

  lemma FreeDownward(base: int, fl: seq<int>, live: set<int>, core: set<int>, ptr: Links, size: Sizes,
                     t: nat, p: int, bp: int, n: nat)
      returns (fl': seq<int>, ptr': Links, size': Sizes)
    requires HalfFreed(base, fl, live, core, ptr, size, t, p, bp, n)
    ensures HeapOk(base, fl', live, core, ptr', size') && Coalesced(fl', size') && p in fl'
    ensures Covered(fl', size', bp, n)
    ensures size' == (if p + size[p] == bp then size[p := size[p] + size[bp]] else size)
    ensures ptr' == if p + size[p] == bp then ptr[p := ptr[bp]] else ptr
  {
    fl', ptr', size' := fl, ptr, size;
    if p + size[p] == bp {
      forall k: nat
        ensures Gap(Merged(fl, t), MergeSizes(size, p, bp), k)
      {
        MergeGap(fl, size, t, k);
      }
      MergeKeeps(base, fl, live, core, ptr, size, t);
      MergedAt(fl, t);
      fl', ptr', size' := Merged(fl, t), MergeLinks(ptr, p, bp), MergeSizes(size, p, bp);
      assert fl'[t] == p;
    } else {
      assert Gap(fl, size, t);
      assert fl'[t + 1] == bp;
    }
  }

  /** The four ways a freed block joins the list, put together. */
  lemma FreeKeeps(base: int, fl: seq<int>, live: set<int>, core: set<int>, ptr: Links, size: Sizes, t: nat, bp: int)
      returns (fl': seq<int>)
    requires HeapOk(base, fl, live, core, ptr, size) && Coalesced(fl, size) && bp in live && Before(fl, bp, t)
    ensures fl[t] in size && NextOf(fl, t) in size && NextOf(fl, t) in ptr && ptr[fl[t]] == NextOf(fl, t)
    ensures var size' := FreedSizes(size, fl[t], NextOf(fl, t), bp);
      && HeapOk(base, fl', live - {bp}, core, FreedLinks(ptr, size, fl[t], NextOf(fl, t), bp), size')
      && Coalesced(fl', size') && fl[t] in fl' && Covered(fl', size', bp, size[bp])
  {
    var p, nxt := fl[t], NextOf(fl, t);
    var fl1, ptr1, size1 := FreeUpward(base, fl, live, core, ptr, size, t, bp);
    var ptr2, size2;
    fl', ptr2, size2 := FreeDownward(base, fl1, live - {bp}, core, ptr1, size1, t, p, bp, size[bp]);
    assert size1[p] == size[p];
    assert size2 == FreedSizes(size, p, nxt, bp);
    assert ptr2 == FreedLinks(ptr, size, p, nxt, bp);
  }

  // ---------------------------------------------------------------------
  // Taking a block off the list

  ghost function Without(fl: seq<int>, k: nat): seq<int>
    requires k < |fl|
  {
    fl[..k] + fl[k + 1..]
  }

  lemma WithoutAt(fl: seq<int>, k: nat)
    requires k < |fl|
    ensures |Without(fl, k)| == |fl| - 1
    ensures forall i :: 0 <= i < |fl| - 1 ==> Without(fl, k)[i] == fl[if i < k then i else i + 1]
  {
  }

  lemma RemoveLinked(fl: seq<int>, ptr: Links, size: Sizes, k: nat)
    requires Linked(fl, ptr) && Sorted(fl, size) && 1 <= k < |fl|
    ensures Linked(Without(fl, k), ptr[fl[k - 1] := ptr[fl[k]]])
  {
    WithoutAt(fl, k);
    var fl', ptr' := Without(fl, k), ptr[fl[k - 1] := ptr[fl[k]]];
    forall i | 0 <= i < |fl'|
      ensures fl'[i] in ptr' && ptr'[fl'[i]] == fl'[if i + 1 < |fl'| then i + 1 else 0]
    {
      if i < k - 1 {
        assert fl[i] < fl[k - 1];
      } else if i >= k {
        assert fl[k - 1] < fl[i + 1];
      }
    }
  }

  lemma RemoveSorted(fl: seq<int>, size: Sizes, k: nat)
    requires Sorted(fl, size) && 1 <= k < |fl|
    ensures Sorted(Without(fl, k), size)
    ensures Coalesced(fl, size) && 1 <= size[fl[k]] ==> Coalesced(Without(fl, k), size)
  {
    WithoutAt(fl, k);
    var fl' := Without(fl, k);
    if Coalesced(fl, size) && 1 <= size[fl[k]] {
      forall m: nat
        ensures Gap(fl', size, m)
      {
        assert Gap(fl, size, m) && Gap(fl, size, m + 1);
        if m == k - 1 && k + 1 < |fl| {
          assert fl[k - 1] < fl[k] && fl[k] + size[fl[k]] <= fl[k + 1];
        }
      }
    }
  }

  lemma RemoveUnits(fl: seq<int>, live: set<int>, size: Sizes, k: nat, u: int)
    requires k < |fl|
    ensures InFree(fl, size, u) || InLive(live, size, u)
        <==> InFree(Without(fl, k), size, u) || InLive(live + {fl[k]}, size, u)
  {
    WithoutAt(fl, k);
    var fl' := Without(fl, k);
    if InFree(fl, size, u) {
      var i :| 0 <= i < |fl| && Holds(size, fl[i], u);
      if i == k {
        assert fl[k] in live + {fl[k]};
      } else {
        assert Holds(size, fl'[if i < k then i else i - 1], u);
      }
    }
    if InLive(live, size, u) {
      var a :| a in live && Holds(size, a, u);
      assert a in live + {fl[k]};
    }
    if InLive(live + {fl[k]}, size, u) && !InLive(live, size, u) {
      assert Holds(size, fl[k], u);
    }
  }

  /** An exact fit: the whole free block becomes live. */
  lemma RemoveKeeps(base: int, fl: seq<int>, live: set<int>, core: set<int>, ptr: Links, size: Sizes, k: nat)
    requires HeapOk(base, fl, live, core, ptr, size) && 1 <= k < |fl|
    ensures HeapOk(base, Without(fl, k), live + {fl[k]}, core, ptr[fl[k - 1] := ptr[fl[k]]], size)
  {
    RemoveLinked(fl, ptr, size, k);
    RemoveSorted(fl, size, k);
    WithoutAt(fl, k);
    forall u
      ensures u in core <==> InFree(Without(fl, k), size, u) || InLive(live + {fl[k]}, size, u)
    {
      RemoveUnits(fl, live, size, k, u);
    }
    RemoveLive(base, fl, live, size, k);
  }

  lemma RemoveLive(base: int, fl: seq<int>, live: set<int>, size: Sizes, k: nat)
    requires LiveOk(base, fl, live, size) && Sorted(fl, size) && 1 <= k < |fl| && fl[0] == base && 1 <= size[fl[k]]
    ensures LiveOk(base, Without(fl, k), live + {fl[k]}, size)
  {
    WithoutAt(fl, k);
    var live', fl' := live + {fl[k]}, Without(fl, k);
    forall a, b | a in live' && b in live' && a != b
      ensures Apart(size, a, b)
    {
      if a in live && b in live {
        assert Apart(size, a, b);
      } else {
        assert Apart(size, if a in live then a else b, fl[k]);
      }
    }
    forall a, i | a in live' && 0 <= i < |fl'|
      ensures Apart(size, a, fl'[i])
    {
      var x := if i < k then i else i + 1;
      assert a in live ==> Apart(size, a, fl[x]);
    }
  }

  /** The sizes after cutting n units off the top of block a. */
  function SplitSizes(size: Sizes, a: int, n: nat): Sizes
    requires a in size && n < size[a]
  {
    size[a := size[a] - n][a + size[a] - n := n]
  }

  /** The tail of a free block becomes live. */
  lemma SplitKeeps(base: int, fl: seq<int>, live: set<int>, core: set<int>, ptr: Links, size: Sizes, k: nat, n: nat)
    requires HeapOk(base, fl, live, core, ptr, size) && k < |fl| && 1 <= n < size[fl[k]]
    ensures HeapOk(base, fl, live + {fl[k] + size[fl[k]] - n}, core, ptr, SplitSizes(size, fl[k], n))
  {
    var a, size' := fl[k] + size[fl[k]] - n, SplitSizes(size, fl[k], n);
    SplitFresh(base, fl, live, size, k, n);
    SplitSorted(fl, size, k, n);
    SplitLive(base, fl, live, size, k, n);
    forall u
      ensures u in core <==> InFree(fl, size', u) || InLive(live + {a}, size', u)
    {
      SplitUnits(base, fl, live, size, k, n, u);
    }
  }

  lemma SplitSorted(fl: seq<int>, size: Sizes, k: nat, n: nat)
    requires Sorted(fl, size) && k < |fl| && n < size[fl[k]]
    requires fl[k] + size[fl[k]] - n !in fl
    ensures Sorted(fl, SplitSizes(size, fl[k], n))
    ensures Coalesced(fl, size) && 1 <= n ==> Coalesced(fl, SplitSizes(size, fl[k], n))
  {
    var size' := SplitSizes(size, fl[k], n);
    assert forall i :: 0 <= i < |fl| && i != k ==> fl[i] != fl[k] && size'[fl[i]] == size[fl[i]];
    if Coalesced(fl, size) && 1 <= n {
      forall m: nat
        ensures Gap(fl, size', m)
      {
        assert Gap(fl, size, m);
        if m == k && k + 1 < |fl| {
          assert fl[k] + size[fl[k]] <= fl[k + 1];
        }
      }
    }
  }

  /** The new header lies inside the block it is cut from, so it is no header yet. */
  lemma SplitFresh(base: int, fl: seq<int>, live: set<int>, size: Sizes, k: nat, n: nat)
    requires LiveOk(base, fl, live, size) && Sorted(fl, size) && k < |fl| && 1 <= n < size[fl[k]]
    ensures var a := fl[k] + size[fl[k]] - n; a !in live && a !in fl && fl[k] !in live
  {
    var a := fl[k] + size[fl[k]] - n;
    assert a in live ==> Apart(size, a, fl[k]);
    assert fl[k] in live ==> Apart(size, fl[k], fl[k]);
    forall i | 0 <= i < |fl|
      ensures fl[i] != a
    {
      if i > k {
        assert fl[k] + size[fl[k]] <= fl[i];
      } else if i < k {
        assert fl[i] < fl[k];
      }
    }
  }

  lemma SplitLive(base: int, fl: seq<int>, live: set<int>, size: Sizes, k: nat, n: nat)
    requires LiveOk(base, fl, live, size) && Sorted(fl, size) && k < |fl| && 1 <= n < size[fl[k]]
    requires 0 < |fl| && fl[0] == base
    ensures LiveOk(base, fl, live + {fl[k] + size[fl[k]] - n}, SplitSizes(size, fl[k], n))
  {
    var a, size' := fl[k] + size[fl[k]] - n, SplitSizes(size, fl[k], n);
    SplitFresh(base, fl, live, size, k, n);
    var live' := live + {a};
    forall x, y | x in live' && y in live' && x != y
      ensures Apart(size', x, y)
    {
      if x in live && y in live {
        assert Apart(size, x, y);
      } else {
        assert Apart(size, if x in live then x else y, fl[k]);
      }
    }
    forall x, i | x in live' && 0 <= i < |fl|
      ensures Apart(size', x, fl[i])
    {
      if x in live {
        assert Apart(size, x, fl[i]);
      } else if i < k {
        assert fl[i] + size[fl[i]] <= fl[k];
      } else if i > k {
        assert fl[k] + size[fl[k]] <= fl[i];
      }
    }
  }

  lemma SplitUnits(base: int, fl: seq<int>, live: set<int>, size: Sizes, k: nat, n: nat, u: int)
    requires LiveOk(base, fl, live, size) && Sorted(fl, size) && k < |fl| && 1 <= n < size[fl[k]]
    ensures var a, size' := fl[k] + size[fl[k]] - n, SplitSizes(size, fl[k], n);
      InFree(fl, size, u) || InLive(live, size, u) <==> InFree(fl, size', u) || InLive(live + {a}, size', u)
  {
    var a, size' := fl[k] + size[fl[k]] - n, SplitSizes(size, fl[k], n);
    SplitFresh(base, fl, live, size, k, n);
    SameLiveUnits(live, size, size', u);
    assert Holds(size, fl[k], u) <==> Holds(size', fl[k], u) || Holds(size', a, u);
    assert forall i :: 0 <= i < |fl| && i != k ==> (Holds(size', fl[i], u) <==> Holds(size, fl[i], u));
    if InLive(live, size', u) {
      var x :| x in live && Holds(size', x, u);
      assert x in live + {a};
    }
    if Holds(size', a, u) {
      assert a in live + {a};
    }
  }

  function Range(p: int, n: nat): (r: set<int>)
    ensures forall u :: u in r <==> p <= u < p + n
  {
    if n == 0 then {} else Range(p, n - 1) + {p + n - 1}
  }

  lemma BelowBrk(base: int, fl: seq<int>, live: set<int>, core: set<int>, ptr: Links, size: Sizes, brk: int)
    requires HeapOk(base, fl, live, core, ptr, size) && (forall u :: u in core ==> base < u < brk) && base < brk
    ensures forall i :: 0 <= i < |fl| ==> fl[i] in size && fl[i] < brk && fl[i] + size[fl[i]] <= brk
    ensures forall a :: a in live ==> a in size && a < brk && a + size[a] <= brk
  {
    forall i | 0 <= i < |fl|
      ensures fl[i] in size && fl[i] < brk && fl[i] + size[fl[i]] <= brk
    {
      if i > 0 {
        assert Holds(size, fl[i], fl[i] + size[fl[i]] - 1);
        assert InFree(fl, size, fl[i] + size[fl[i]] - 1);
      }
    }
    forall a | a in live
      ensures a in size && a < brk && a + size[a] <= brk
    {
      assert Holds(size, a, a + size[a] - 1);
      assert InLive(live, size, a + size[a] - 1);
    }
  }

  lemma GrowLive(base: int, fl: seq<int>, live: set<int>, size: Sizes, p: int, n: nat)
    requires LiveOk(base, fl, live, size) && base < p && 1 <= n
    requires forall i :: 0 <= i < |fl| ==> fl[i] in size && fl[i] < p && fl[i] + size[fl[i]] <= p
    requires forall a :: a in live ==> a in size && a < p && a + size[a] <= p
    ensures LiveOk(base, fl, live + {p}, size[p := n])
  {
    var live', size' := live + {p}, size[p := n];
    forall a, b | a in live' && b in live' && a != b
      ensures Apart(size', a, b)
    {
      assert a in live && b in live ==> Apart(size, a, b);
    }
    forall a, i | a in live' && 0 <= i < |fl|
      ensures Apart(size', a, fl[i])
    {
      assert a in live ==> Apart(size, a, fl[i]);
    }
  }

  lemma GrowUnits(fl: seq<int>, live: set<int>, core: set<int>, size: Sizes, p: int, n: nat)
    requires Conserved(core, fl, live, size)
    requires forall i :: 0 <= i < |fl| ==> fl[i] in size && fl[i] < p
    requires forall a :: a in live ==> a in size && a < p
    ensures Conserved(core + Range(p, n), fl, live + {p}, size[p := n])
  {
    var live', size' := live + {p}, size[p := n];
    forall u
      ensures u in core + Range(p, n) <==> InFree(fl, size', u) || InLive(live', size', u)
    {
      SameLiveUnits(live, size, size', u);
      assert forall i :: 0 <= i < |fl| ==> (Holds(size', fl[i], u) <==> Holds(size, fl[i], u));
      assert Holds(size', p, u) <==> u in Range(p, n);
      if InLive(live, size', u) {
        var a :| a in live && Holds(size', a, u);
        assert a in live';
      }
      assert p in live';
    }
  }

  /** A fresh region above everything counts as one more live block until it is freed into the list. */
  lemma GrowKeeps(base: int, fl: seq<int>, live: set<int>, core: set<int>, ptr: Links, size: Sizes,
                  p: int, n: nat, brk: int)
    requires HeapOk(base, fl, live, core, ptr, size) && (forall u :: u in core ==> base < u < brk) && base < brk <= p
    requires 1 <= n
    ensures HeapOk(base, fl, live + {p}, core + Range(p, n), ptr, size[p := n])
    ensures p !in live && p !in fl
    ensures Coalesced(fl, size) ==> Coalesced(fl, size[p := n])
  {
    BelowBrk(base, fl, live, core, ptr, size, brk);
    GrowUnits(fl, live, core, size, p, n);
    GrowLive(base, fl, live, size, p, n);
    var size' := size[p := n];
    assert Sorted(fl, size');
    if Coalesced(fl, size) {
      forall k: nat
        ensures Gap(fl, size', k)
      {
        assert Gap(fl, size, k);
      }
    }
  }

  // ---------------------------------------------------------------------
  // The allocator

  /** How many steps round a list of n from position i to position f. */
  function Dist(i: int, f: int, n: int): int {
    if i <= f then f - i else f - i + n
  }

  /** A request in units, with one for the header. */
  function Units(nbytes: nat): (n: nat)
    ensures 1 <= n && nbytes <= (n - 1) * UNIT < nbytes + UNIT
  {
    (nbytes + UNIT - 1) / UNIT + 1
  }

  /** What sbrk is asked for when n units are needed: the product is 64 bits wide, sbrk's parameter an int. */
  function SbrkArg(n: nat): int {
    var low := n * UNIT % 0x1_0000_0000;
    if low < 0x8000_0000 then low else low - 0x1_0000_0000
  }

  /** A request whose size in bytes, header included, fits an int. */
  predicate Askable(n: nat) { n * UNIT < 0x8000_0000 }

  /** For every request that malloc's argument can express, sbrk is asked for what the new header will claim
      exactly if that fits an int. */
  lemma AsksForWhatItClaims(nbytes: nat, n: nat)
    requires nbytes < 0x1_0000_0000 && n == Units(nbytes)
    ensures SbrkArg(n) == n * UNIT <==> Askable(n)
  {
  }

  lemma EmptyHeap(base: int, ptr: Links, size: Sizes)
    requires base in ptr && ptr[base] == base && base in size && size[base] == 0
    ensures HeapOk(base, [base], {}, {}, ptr, size) && Coalesced([base], size)
  {
  }

  function Succ(i: int, n: int): int { if i + 1 < n then i + 1 else 0 }

  function Pred(i: int, n: int): int { if i == 0 then n - 1 else i - 1 }

  lemma StepOn(fl: seq<int>, ptr: Links, i: nat)
    requires Linked(fl, ptr) && i < |fl|
    ensures fl[i] in ptr && ptr[fl[i]] == fl[Succ(i, |fl|)] && Pred(Succ(i, |fl|), |fl|) == i
  {
  }

  /** A fitting block lies between position i and position f, walking the list. */
  ghost predicate FitAhead(fl: seq<int>, size: Sizes, i: int, f: int, n: nat) {
    exists k :: 0 <= k < |fl| && fl[k] in size && n <= size[fl[k]] && Dist(k, f, |fl|) <= Dist(i, f, |fl|)
  }

  /** Walking past a block that does not fit keeps the fitting one ahead; at freep there is nothing past. */
  lemma FitStaysAhead(fl: seq<int>, size: Sizes, i: nat, f: nat, n: nat)
    requires i < |fl| && f < |fl| && fl[i] in size && size[fl[i]] < n && FitAhead(fl, size, i, f, n)
    ensures i != f && FitAhead(fl, size, Succ(i, |fl|), f, n)
    ensures Dist(Succ(i, |fl|), f, |fl|) < Dist(i, f, |fl|)
  {
    var k :| 0 <= k < |fl| && fl[k] in size && n <= size[fl[k]] && Dist(k, f, |fl|) <= Dist(i, f, |fl|);
    assert k != i;
  }

  lemma FitAfterGrowth(fl: seq<int>, size: Sizes, f: nat, n: nat)
    requires f < |fl| && exists k :: 0 <= k < |fl| && fl[k] in size && n <= size[fl[k]]
    ensures FitAhead(fl, size, Succ(f, |fl|), f, n)
  {
    var k :| 0 <= k < |fl| && fl[k] in size && n <= size[fl[k]];
    assert Dist(k, f, |fl|) <= Dist(Succ(f, |fl|), f, |fl|);
  }

  lemma SameIndex(fl: seq<int>, size: Sizes, i: nat, f: nat)
    requires Sorted(fl, size) && i < |fl| && f < |fl| && fl[i] == fl[f]
    ensures i == f
  {
  }

  class Heap {
    const base: int
    var freep: int
    var ptr: Links
    var size: Sizes
    ghost var fl: seq<int>
    ghost var live: set<int>
    ghost var core: set<int>     // every unit sbrk has returned
    ghost var brk: int           // first unit above all of them

    ghost predicate Valid()
      reads this
    {
      && NULL < base < brk
      && (forall u :: u in core ==> base < u < brk)
      && (freep == NULL ==> live == {} && core == {})
      && (freep != NULL ==>
            HeapOk(base, fl, live, core, ptr, size) && Coalesced(fl, size) && freep in fl)
    }

    constructor (base: int, brk: int)
      requires NULL < base < brk
      ensures Valid() && freep == NULL && live == {} && core == {} && this.base == base && this.brk == brk
    {
      this.base, this.brk := base, brk;
      freep := NULL;
      ptr, size := map[], map[];
      fl, live, core := [], {}, {};
    }

    /** Walk the circular list to the place of bp. */
    method FindPlace(bp: int, ghost t: nat) returns (p: int)
      requires freep != NULL && ListOk(base, fl, ptr, size) && freep in fl && Before(fl, bp, t)
      ensures p == fl[t]
    {
      p := freep;
      ghost var i :| 0 <= i < |fl| && fl[i] == freep;
      while !(bp > p && bp < ptr[p])
        invariant 0 <= i < |fl| && p == fl[i]
        decreases Dist(i, t, |fl|)
      {
        assert ptr[p] == NextOf(fl, i);
        assert i + 1 < |fl| ==> fl[i] < fl[i + 1];
        assert i > 0 ==> fl[0] < fl[i];
        assert t > 0 ==> fl[0] < fl[t];
        if p >= ptr[p] && (bp > p || bp < ptr[p]) {
          break;
        }
        p := ptr[p];
        i := if i + 1 < |fl| then i + 1 else 0;
      }
      assert Before(fl, bp, i) by {
        assert i + 1 < |fl| ==> fl[i] < fl[i + 1];
        assert t > 0 ==> fl[0] < fl[t];
      }
      OnePlace(fl, size, bp, i, t);
    }

    /** Put bp after p in the list, merging with the neighbours it touches. */
    method LinkIn(p: int, bp: int)
      requires p in ptr && p in size && bp in size && ptr[p] in size && ptr[p] in ptr && p != bp && ptr[p] != bp
      modifies this`ptr, this`size
      ensures size == FreedSizes(old(size), p, old(ptr)[p], bp)
      ensures ptr == FreedLinks(old(ptr), old(size), p, old(ptr)[p], bp)
    {
      var nxt := ptr[p];
      if bp + size[bp] == nxt {
        size := size[bp := size[bp] + size[nxt]];
        ptr := ptr[bp := ptr[nxt]];
      } else {
        ptr := ptr[bp := nxt];
      }
      if p + size[p] == bp {
        size := size[p := size[p] + size[bp]];
        ptr := ptr[p := ptr[bp]];
      } else {
        ptr := ptr[p := bp];
      }
    }

    /** Return the block whose data starts at ap to the free list. */
    method Free(ap: int)
      requires Valid() && freep != NULL && ap - 1 in live
      modifies this`freep, this`ptr, this`size, this`fl, this`live
      ensures Valid() && freep != NULL
      ensures live == old(live) - {ap - 1}
      ensures forall a :: a in live ==> a in size && a in old(size) && size[a] == old(size)[a]
      ensures ap - 1 in old(size) && Covered(fl, size, ap - 1, old(size)[ap - 1])
    {
      var bp := ap - 1;
      NotBoth(base, fl, live, core, ptr, size);
      ghost var t := PlaceExists(fl, bp, |fl|);
      var p := FindPlace(bp, t);
      ghost var fl' := FreeKeeps(base, fl, live, core, ptr, size, t, bp);
      LinkIn(p, bp);
      freep := p;
      fl, live := fl', live - {bp};
    }

    /** The number of bytes asked of sbrk for n units. */
    static method Ask(n: nat) returns (asked: int)
      requires Askable(n)
      ensures asked == n * UNIT
    {
      asked := SbrkArg(n);
    }

    /** Fresh memory of the given number of units, with its header set up as malloc would have it. */
    method Register(p: int, units: nat)
      requires Valid() && freep != NULL && brk <= p && 1 <= units
      modifies this`size, this`core, this`live, this`brk
      ensures Valid() && p !in old(live) && live == old(live) + {p} && core == old(core) + Range(p, units)
      ensures size == old(size)[p := units]
    {
      GrowKeeps(base, fl, live, core, ptr, size, p, units, brk);
      size := size[p := units];
      core := core + Range(p, units);
      live := live + {p};
      brk := p + units;
    }

    lemma BackAgain(s: set<int>, p: int)
      requires p !in s
      ensures s + {p} - {p} == s
    {
    }

    /** Put fresh memory of the given number of units into the list. */
    method AddCore(p: int, units: nat)
      requires Valid() && freep != NULL && brk <= p && 1 <= units
      modifies this
      ensures Valid() && freep != NULL && core == old(core) + Range(p, units)
      ensures live == old(live) && (forall a :: a in live ==> a in size && a in old(size) && size[a] == old(size)[a])
      ensures exists k :: 0 <= k < |fl| && fl[k] in size && units <= size[fl[k]]
    {
      assert forall a :: a in live ==> a in size;
      Register(p, units);
      BackAgain(old(live), p);
      Free(p + 1);
    }

    /** Get at least nu more units from sbrk, which answered p: -1 for failure, or fresh memory, as much as it was
        asked for, above everything it returned before. */
    method Morecore(nu: nat, p: int) returns (r: int, asked: int)
      requires Valid() && freep != NULL && (p == -1 || brk <= p) && Askable(nu)
      modifies this
      ensures Valid() && freep != NULL
      ensures live == old(live) && (forall a :: a in live ==> a in size && a in old(size) && size[a] == old(size)[a])
      ensures p == -1 ==> r == NULL && fl == old(fl) && core == old(core) && freep == old(freep) && size == old(size)
      ensures p != -1 ==>
        && r == freep
        && (exists k :: 0 <= k < |fl| && fl[k] in size && nu <= size[fl[k]])
        && core == old(core) + Range(p, if nu < MIN_CORE then MIN_CORE else nu)
      ensures asked == (if nu < MIN_CORE then MIN_CORE else nu) * UNIT
    {
      var units := if nu < MIN_CORE then MIN_CORE else nu;
      asked := Ask(units);
      if p == -1 {
        return NULL, asked;
      }
      AddCore(p, units);
      r := freep;
    }

    /** The block at place i of the list is taken whole. */
    method TakeWhole(prevp: int, p: int, ghost i: nat)
      requires Valid() && freep != NULL && 1 <= i < |fl| && fl[i - 1] == prevp && fl[i] == p
      modifies this`freep, this`ptr, this`fl, this`live
      ensures Valid() && freep == prevp && p !in old(live) && live == old(live) + {p}
    {
      NotBoth(base, fl, live, core, ptr, size);
      RemoveKeeps(base, fl, live, core, ptr, size, i);
      RemoveSorted(fl, size, i);
      WithoutAt(fl, i);
      ptr := ptr[prevp := ptr[p]];
      fl := Without(fl, i);
      assert fl[i - 1] == prevp;
      live := live + {p};
      freep := prevp;
    }

    /** The last n units of the block at place i of the list are taken. */
    method TakeTail(prevp: int, p: int, n: nat, ghost i: nat) returns (a: int)
      requires Valid() && freep != NULL && 1 <= n && 1 <= i < |fl| && fl[i - 1] == prevp && fl[i] == p && n < size[p]
      modifies this`freep, this`size, this`live
      ensures Valid() && freep == prevp && a !in old(live) && live == old(live) + {a} && a in size && size[a] == n
      ensures forall x :: x in old(live) ==> x in size && x in old(size) && size[x] == old(size)[x]
    {
      NotBoth(base, fl, live, core, ptr, size);
      SplitKeeps(base, fl, live, core, ptr, size, i, n);
      SplitFresh(base, fl, live, size, i, n);
      SplitSorted(fl, size, i, n);
      ghost var size' := SplitSizes(size, p, n);
      size := size[p := size[p] - n];
      a := p + size[p];
      size := size[a := n];
      assert size == size';
      assert fl[i - 1] == prevp;
      live := live + {a};
      freep := prevp;
    }

    /** Cut n units from the free block p, which follows prevp, and make them live. */
    method Take(prevp: int, p: int, n: nat, ghost i: nat) returns (a: int)
      requires Valid() && freep != NULL && 1 <= n && 1 <= i < |fl| && fl[i - 1] == prevp && fl[i] == p && n <= size[p]
      modifies this`freep, this`ptr, this`size, this`fl, this`live
      ensures Valid() && freep != NULL && a !in old(live) && live == old(live) + {a} && a in size && size[a] == n
      ensures forall x :: x in old(live) ==> x in size && x in old(size) && size[x] == old(size)[x]
    {
      if size[p] == n {
        assert forall x :: x in live ==> x in size;
        a := p;
        TakeWhole(prevp, p, i);
      } else {
        a := TakeTail(prevp, p, n, i);
      }
    }

    /** The search stands at position i, with prevp before it and freep at position f. */
    ghost predicate Standing(prevp: int, p: int, i: int, f: int)
      reads this
    {
      && Valid() && freep != NULL && 0 <= i < |fl| && 0 <= f < |fl|
      && fl[i] == p && fl[f] == freep && fl[Pred(i, |fl|)] == prevp
    }

    /** malloc's first call sets up a list of the one header base. */
    method Init()
      requires Valid()
      modifies this`ptr, this`size, this`freep, this`fl
      ensures Valid() && freep != NULL
      ensures forall a :: a in live ==> a in size && a in old(size) && size[a] == old(size)[a]
    {
      if freep == NULL {
        ptr, size, freep := ptr[base := base], size[base := 0], base;
        fl := [base];
        EmptyHeap(base, ptr, size);
      } else {
        assert forall a :: a in live ==> a in size;
      }
    }

    /** Ask for memory when the search has come round to freep, and step on from the new freep. */
    method Refill(nunits: nat, sbrk: int) returns (ok: bool, prevp: int, p: int, ghost i: int, ghost f: int)
      requires Valid() && freep != NULL && (sbrk == -1 || brk <= sbrk) && Askable(nunits)
      modifies this
      ensures Valid() && freep != NULL && live == old(live)
      ensures forall a :: a in live ==> a in size && a in old(size) && size[a] == old(size)[a]
      ensures !ok ==> sbrk == -1 && core == old(core)
      ensures ok ==> sbrk != -1 && core == old(core) + Range(sbrk, if nunits < MIN_CORE then MIN_CORE else nunits)
      ensures ok ==> Standing(prevp, p, i, f) && FitAhead(fl, size, i, f, nunits)
    {
      i, f, prevp := 0, 0, 0;
      var asked;
      p, asked := Morecore(nunits, sbrk);
      if p == NULL {
        return false, prevp, p, i, f;
      }
      f :| 0 <= f < |fl| && fl[f] == freep;
      StepOn(fl, ptr, f);
      FitAfterGrowth(fl, size, f, nunits);
      return true, p, ptr[p], Succ(f, |fl|), f;
    }

    /** The header a was taken for a request of n units, or a is NULL and nothing was. */
    twostate predicate Served(a: int, n: nat, sbrk: int)
      reads this
    {
      && Valid() && freep != NULL
      && (a == NULL ==> sbrk == -1 && live == old(live) && core == old(core))
      && (a != NULL ==> a !in old(live) && live == old(live) + {a} && a in size && size[a] == n)
      && SizesKept()
      && (core == old(core)
          || (sbrk != -1 && core == old(core) + Range(sbrk, if n < MIN_CORE then MIN_CORE else n)))
    }

    /** The sizes of the blocks that were live have not changed. */
    twostate predicate SizesKept()
      reads this
    {
      forall x :: x in old(live) ==> x in size && x in old(size) && size[x] == old(size)[x]
    }

    /** malloc's search stands at p, with a fit ahead if memory was asked for, and core0 was the memory before. */
    ghost predicate Searching(prevp: int, p: int, i: int, f: int, n: nat, sbrk: int, grown: bool, core0: set<int>)
      reads this
    {
      && Standing(prevp, p, i, f)
      && (if grown
          then FitAhead(fl, size, i, f, n) && sbrk != -1
               && core == core0 + Range(sbrk, if n < MIN_CORE then MIN_CORE else n)
          else core == core0 && (sbrk == -1 || brk <= sbrk))
    }

    /** One round of the search at a block that is too small: on to the next, or, all the way round, more memory. */
    method Advance(nunits: nat, sbrk: int, prevp: int, p: int, ghost i: int, ghost f: int, ghost grown: bool,
                   ghost core0: set<int>)
        returns (ok: bool, prevp': int, p': int, ghost i': int, ghost f': int, ghost grown': bool)
      requires Searching(prevp, p, i, f, nunits, sbrk, grown, core0) && p in size && size[p] < nunits && Askable(nunits)
      modifies this
      ensures Valid() && freep != NULL && live == old(live) && SizesKept()
      ensures !ok ==> sbrk == -1 && core == core0
      ensures ok ==> Searching(prevp', p', i', f', nunits, sbrk, grown', core0)
      ensures ok ==> (grown' && !grown) || (grown' == grown && Dist(i', f', |fl|) < Dist(i, f, old(|fl|)))
    {
      assert forall x :: x in live ==> x in size;
      if grown {
        FitStaysAhead(fl, size, i, f, nunits);
      }
      if p == freep {
        SameIndex(fl, size, i, f);
        ok, prevp', p', i', f' := Refill(nunits, sbrk);
        grown' := true;
      } else {
        StepOn(fl, ptr, i);
        return true, p, ptr[p], Succ(i, |fl|), f, grown;
      }
    }

    /** malloc's search.  It asks for memory at most once, and after a successful answer it finds a block
        even when the new memory was merged into the block freep points to. */
    method Search(nunits: nat, sbrk: int) returns (a: int)
      requires Valid() && freep != NULL && (sbrk == -1 || brk <= sbrk) && 1 <= nunits && Askable(nunits)
      modifies this
      ensures Served(a, nunits, sbrk)
    {
      assert forall x :: x in live ==> x in size;
      var prevp := freep;
      var p := ptr[prevp];
      ghost var f :| 0 <= f < |fl| && fl[f] == freep;
      ghost var i := Succ(f, |fl|);
      StepOn(fl, ptr, f);
      ghost var grown := false;
      while true
        invariant Searching(prevp, p, i, f, nunits, sbrk, grown, old(core)) && live == old(live) && SizesKept()
        decreases !grown, Dist(i, f, |fl|)
      {
        if size[p] >= nunits {
          a := Take(prevp, p, nunits, i);
          return;
        }
        var ok;
        ok, prevp, p, i, f, grown := Advance(nunits, sbrk, prevp, p, i, f, grown, old(core));
        if !ok {
          return NULL;
        }
      }
    }

    /** First-fit allocation of nbytes bytes.  sbrk is what the system would answer if asked for memory. */
    method Malloc(nbytes: nat, sbrk: int) returns (r: int)
      requires Valid() && (sbrk == -1 || brk <= sbrk) && Askable(Units(nbytes))
      modifies this
      ensures r == NULL ==> Served(NULL, Units(nbytes), sbrk)
      ensures r != NULL ==> Served(r - 1, Units(nbytes), sbrk)
    {
      var nunits := (nbytes + UNIT - 1) / UNIT + 1;
      Init();
      var a := Search(nunits, sbrk);
      r := if a == NULL then NULL else a + 1;
    }
  }
}
