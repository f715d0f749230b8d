/** Which blocks a write touches: the data blocks it spans, the blocks it allocates and their bitmap blocks, the
    indirect block and the inode's block, as kernel/fs.c hands them to log_write. */
module WriteSet {
  import opened Basics
  import opened InodeModel

  function BBlock(sb: Super, b: int): int { b / BPB + sb.bmapstart }

  function IBlock(sb: Super, i: int): int { i / IPB + sb.inodestart }

  function FreeCount(used: seq<bool>): nat { Count(used, false) }

  ghost predicate AllUsed(used: seq<bool>) { forall b :: 0 <= b < |used| ==> used[b] }

  // ---------------------------------------------------------------------
  // Allocation in order

  /** The lowest clear bit. */
  ghost predicate First(used: seq<bool>, a: int) {
    0 <= a < |used| && !used[a] && forall b :: 0 <= b < a ==> used[b]
  }

  function After(used: seq<bool>, addrs: seq<int>): (r: seq<bool>)
    ensures |r| == |used|
    decreases |addrs|
  {
    if addrs == [] then used
    else
      var n := |addrs| - 1;
      var u := After(used, addrs[..n]);
      if 0 <= addrs[n] < |u| then u[addrs[n] := true] else u
  }

  /** addrs were taken one after the other, each the lowest clear bit at its time, and left used'. */
  ghost predicate Grown(used: seq<bool>, used': seq<bool>, addrs: seq<int>)
    decreases |addrs|
  {
    if addrs == [] then used' == used
    else
      var n := |addrs| - 1;
      var mid := After(used, addrs[..n]);
      Grown(used, mid, addrs[..n]) && First(mid, addrs[n]) && used' == mid[addrs[n] := true]
  }

  lemma {:induction false} GrownAfter(used: seq<bool>, used': seq<bool>, addrs: seq<int>)
    requires Grown(used, used', addrs)
    ensures used' == After(used, addrs) && FreeCount(used') + |addrs| == FreeCount(used)
    decreases |addrs|
  {
    if addrs != [] {
      var n := |addrs| - 1;
      var mid := After(used, addrs[..n]);
      GrownAfter(used, mid, addrs[..n]);
      CountUpdate(mid, addrs[n], true, false);
    }
  }

  lemma GrownMore(used: seq<bool>, mid: seq<bool>, addrs: seq<int>, a: int)
    requires Grown(used, mid, addrs) && First(mid, a)
    ensures Grown(used, mid[a := true], addrs + [a])
  {
    GrownAfter(used, mid, addrs);
    assert (addrs + [a])[..|addrs|] == addrs;
  }

  lemma {:induction false} GrownJoin(u0: seq<bool>, u1: seq<bool>, u2: seq<bool>, a: seq<int>, b: seq<int>)
    requires Grown(u0, u1, a) && Grown(u1, u2, b)
    ensures Grown(u0, u2, a + b)
    decreases |b|
  {
    if b == [] {
      assert a + b == a;
    } else {
      var n := |b| - 1;
      var mid := After(u1, b[..n]);
      GrownJoin(u0, u1, mid, a, b[..n]);
      GrownMore(u0, mid, a + b[..n], b[n]);
      assert a + b == a + b[..n] + [b[n]];
    }
  }

  /** The bitmap blocks of the addresses. */
  function Bits(sb: Super, addrs: seq<int>): set<int>
    decreases |addrs|
  {
    if addrs == [] then {} else Bits(sb, addrs[..|addrs| - 1]) + {BBlock(sb, addrs[|addrs| - 1])}
  }

  lemma {:induction false} BitsJoin(sb: Super, a: seq<int>, b: seq<int>)
    ensures Bits(sb, a + b) == Bits(sb, a) + Bits(sb, b)
    decreases |b|
  {
    if b == [] {
      assert a + b == a;
    } else {
      BitsJoin(sb, a, b[..|b| - 1]);
      assert (a + b)[..|a + b| - 1] == a + b[..|b| - 1];
    }
  }

  lemma BitsOne(sb: Super, a: int)
    ensures Bits(sb, [a]) == {BBlock(sb, a)}
  {
    assert [a][..0] == [];
  }

  lemma {:induction false} BitsCard(sb: Super, a: seq<int>)
    ensures |Bits(sb, a)| <= |a|
    decreases |a|
  {
    if a != [] { BitsCard(sb, a[..|a| - 1]); }
  }

  // ---------------------------------------------------------------------
  // Slots

  function Zeros(sb: Super, d: Disk, i: nat, s: nat): nat
    requires Shape(sb, d) && i < |d.inodes| && s <= INDIRECT
  {
    if Slot(sb, d, i, s) == 0 then 1 else 0
  }

  /** The blocks in slots bn .. bn + c - 1. */
  function Addrs(sb: Super, d: Disk, i: nat, bn: nat, c: nat): set<int>
    requires Shape(sb, d) && i < |d.inodes| && bn + c <= MAXFILE
  {
    if c == 0 then {} else Addrs(sb, d, i, bn, c - 1) + {Slot(sb, d, i, bn + c - 1)}
  }

  /** How many of those slots are empty. */
  function NewCount(sb: Super, d: Disk, i: nat, bn: nat, c: nat): nat
    requires Shape(sb, d) && i < |d.inodes| && bn + c <= MAXFILE
  {
    if c == 0 then 0 else NewCount(sb, d, i, bn, c - 1) + Zeros(sb, d, i, bn + c - 1)
  }

  /** One of them is an empty entry of the indirect block. */
  predicate EntryNew(sb: Super, d: Disk, i: nat, bn: nat, c: nat)
    requires Shape(sb, d) && i < |d.inodes| && bn + c <= MAXFILE
  {
    c > 0 && (EntryNew(sb, d, i, bn, c - 1) || (bn + c - 1 >= NDIRECT && Slot(sb, d, i, bn + c - 1) == 0))
  }

  /** How many blocks mapping those slots allocates. */
  function Needed(sb: Super, d: Disk, i: nat, bn: nat, c: nat): nat
    requires Shape(sb, d) && i < |d.inodes| && bn + c <= MAXFILE
  {
    NewCount(sb, d, i, bn, c) + if EntryNew(sb, d, i, bn, c) then Zeros(sb, d, i, INDIRECT) else 0
  }

  /** What is logged when those slots, as they were in d0, have been mapped, as they are in d, taking fresh blocks,
      and written. */
  function Touched(sb: Super, d0: Disk, d: Disk, i: nat, bn: nat, c: nat, taken: seq<int>): set<int>
    requires Shape(sb, d0) && Shape(sb, d) && i < |d0.inodes| && i < |d.inodes| && bn + c <= MAXFILE
  {
    Addrs(sb, d, i, bn, c) + Bits(sb, taken) + if EntryNew(sb, d0, i, bn, c) then {Slot(sb, d, i, INDIRECT)} else {}
  }

  /** Mapping slots bn .. bn + c - 1 has left the others alone, and the indirect block where it was if there was one. */
  ghost predicate SlotsKept(sb: Super, d0: Disk, d: Disk, i: nat, bn: nat, c: nat)
    requires Shape(sb, d0) && Shape(sb, d) && i < |d0.inodes| && i < |d.inodes| && bn + c <= MAXFILE
  {
    && (forall s: nat :: s < MAXFILE && !(bn <= s < bn + c) ==> Slot(sb, d, i, s) == Slot(sb, d0, i, s))
    && (forall s: nat :: s < MAXFILE && Slot(sb, d0, i, s) != 0 ==> Slot(sb, d, i, s) == Slot(sb, d0, i, s))
    && (Slot(sb, d0, i, INDIRECT) != 0 ==> Slot(sb, d, i, INDIRECT) == Slot(sb, d0, i, INDIRECT))
    && (if EntryNew(sb, d0, i, bn, c) then Slot(sb, d, i, INDIRECT) != 0
        else Slot(sb, d, i, INDIRECT) == Slot(sb, d0, i, INDIRECT))
  }

  lemma OneSlot(sb: Super, d: Disk, i: nat, bn: nat)
    requires Shape(sb, d) && i < |d.inodes| && bn < MAXFILE
    ensures Addrs(sb, d, i, bn, 1) == {Slot(sb, d, i, bn)} && NewCount(sb, d, i, bn, 1) == Zeros(sb, d, i, bn)
    ensures EntryNew(sb, d, i, bn, 1) <==> bn >= NDIRECT && Slot(sb, d, i, bn) == 0
  {
    assert Addrs(sb, d, i, bn, 0) == {} && NewCount(sb, d, i, bn, 0) == 0 && !EntryNew(sb, d, i, bn, 0);
  }

  /** What mapping c' slots more needs. */
  lemma {:induction false} NeededJoin(sb: Super, d0: Disk, d: Disk, i: nat, bn: nat, c: nat, c': nat)
    requires Shape(sb, d0) && Shape(sb, d) && i < |d0.inodes| && i < |d.inodes| && bn + c + c' <= MAXFILE
    requires SlotsKept(sb, d0, d, i, bn, c)
    ensures NewCount(sb, d0, i, bn, c + c') == NewCount(sb, d0, i, bn, c) + NewCount(sb, d, i, bn + c, c')
    ensures EntryNew(sb, d0, i, bn, c + c') <==> EntryNew(sb, d0, i, bn, c) || EntryNew(sb, d, i, bn + c, c')
    ensures Needed(sb, d0, i, bn, c + c') == Needed(sb, d0, i, bn, c) + Needed(sb, d, i, bn + c, c')
  {
    if c' > 0 {
      NeededJoin(sb, d0, d, i, bn, c, c' - 1);
      assert c + c' - 1 == c + (c' - 1);
      assert Slot(sb, d, i, bn + c + c' - 1) == Slot(sb, d0, i, bn + c + c' - 1);
    }
  }

  /** A first slot that is mapped already needs nothing. */
  lemma {:induction false} NeededSkip(sb: Super, d: Disk, i: nat, bn: nat, c: nat)
    requires Shape(sb, d) && i < |d.inodes| && bn + 1 + c <= MAXFILE && Slot(sb, d, i, bn) != 0
    ensures NewCount(sb, d, i, bn, c + 1) == NewCount(sb, d, i, bn + 1, c)
    ensures EntryNew(sb, d, i, bn, c + 1) <==> EntryNew(sb, d, i, bn + 1, c)
  {
    if c > 0 {
      NeededSkip(sb, d, i, bn, c - 1);
    } else {
      OneSlot(sb, d, i, bn);
    }
  }

  lemma {:induction false} AddrsSame(sb: Super, d: Disk, d': Disk, i: nat, bn: nat, c: nat)
    requires Shape(sb, d) && Shape(sb, d') && i < |d.inodes| && i < |d'.inodes| && bn + c <= MAXFILE
    requires forall s: nat :: bn <= s < bn + c ==> Slot(sb, d', i, s) == Slot(sb, d, i, s)
    ensures Addrs(sb, d', i, bn, c) == Addrs(sb, d, i, bn, c)
  {
    if c > 0 { AddrsSame(sb, d, d', i, bn, c - 1); }
  }

  lemma KeptJoin(sb: Super, d0: Disk, d: Disk, d': Disk, i: nat, bn: nat, c: nat, c': nat)
    requires Shape(sb, d0) && Shape(sb, d) && Shape(sb, d') && i < |d0.inodes| && i < |d.inodes| && i < |d'.inodes|
    requires bn + c + c' <= MAXFILE && SlotsKept(sb, d0, d, i, bn, c) && SlotsKept(sb, d, d', i, bn + c, c')
    ensures SlotsKept(sb, d0, d', i, bn, c + c')
  {
    NeededJoin(sb, d0, d, i, bn, c, c');
  }

  lemma KeptSame(sb: Super, d0: Disk, d: Disk, d': Disk, i: nat, bn: nat, c: nat)
    requires Shape(sb, d0) && Shape(sb, d) && Shape(sb, d') && i < |d0.inodes| && i < |d.inodes| && i < |d'.inodes|
    requires bn + c <= MAXFILE && SlotsKept(sb, d0, d, i, bn, c)
    requires forall s: nat :: s <= INDIRECT ==> Slot(sb, d', i, s) == Slot(sb, d, i, s)
    ensures SlotsKept(sb, d0, d', i, bn, c)
  {
  }

  lemma KeptSkip(sb: Super, d: Disk, d': Disk, i: nat, bn: nat, c: nat)
    requires Shape(sb, d) && Shape(sb, d') && i < |d.inodes| && i < |d'.inodes|
    requires bn + 1 + c <= MAXFILE && Slot(sb, d, i, bn) != 0 && SlotsKept(sb, d, d', i, bn, c + 1)
    ensures SlotsKept(sb, d, d', i, bn + 1, c)
  {
    NeededSkip(sb, d, i, bn, c);
  }

  /** Slots bn .. bn + c - 1 and bn1 .. bn1 + c1 - 1 make up bn .. bn + c2 - 1: the second range begins where the first
      ends, or with the last slot of the first, which is mapped. */
  ghost predicate Abuts(sb: Super, d: Disk, i: nat, bn: nat, c: nat, bn1: nat, c1: nat, c2: nat)
    requires Shape(sb, d) && i < |d.inodes|
  {
    && bn + c <= MAXFILE && bn1 + c1 <= MAXFILE
    && (|| (bn1 == bn + c && c2 == c + c1)
        || (bn1 + 1 == bn + c && c2 + 1 == c + c1 && 0 < c && 0 < c1 && Slot(sb, d, i, bn1) != 0))
  }

  lemma NeededBoth(sb: Super, d0: Disk, d: Disk, i: nat, bn: nat, c: nat, bn1: nat, c1: nat, c2: nat)
    requires Shape(sb, d0) && Shape(sb, d) && i < |d0.inodes| && i < |d.inodes|
    requires Abuts(sb, d, i, bn, c, bn1, c1, c2) && SlotsKept(sb, d0, d, i, bn, c)
    ensures Needed(sb, d0, i, bn, c2) == Needed(sb, d0, i, bn, c) + Needed(sb, d, i, bn1, c1)
  {
    if bn1 == bn + c {
      NeededJoin(sb, d0, d, i, bn, c, c1);
    } else {
      NeededSkip(sb, d, i, bn1, c1 - 1);
      NeededJoin(sb, d0, d, i, bn, c, c1 - 1);
    }
  }

  lemma KeptBoth(sb: Super, d0: Disk, d: Disk, d': Disk, i: nat, bn: nat, c: nat, bn1: nat, c1: nat, c2: nat)
    requires Shape(sb, d0) && Shape(sb, d) && Shape(sb, d') && i < |d0.inodes| && i < |d.inodes| && i < |d'.inodes|
    requires Abuts(sb, d, i, bn, c, bn1, c1, c2)
    requires SlotsKept(sb, d0, d, i, bn, c) && SlotsKept(sb, d, d', i, bn1, c1)
    ensures SlotsKept(sb, d0, d', i, bn, c2)
  {
    if bn1 == bn + c {
      KeptJoin(sb, d0, d, d', i, bn, c, c1);
    } else {
      KeptSkip(sb, d, d', i, bn1, c1 - 1);
      KeptJoin(sb, d0, d, d', i, bn, c, c1 - 1);
    }
  }

  /** Mapping and writing one slot more adds what that slot alone would log. */
  lemma TouchedStep(sb: Super, d0: Disk, d: Disk, d': Disk, i: nat, bn: nat, c: nat, a: seq<int>, b: seq<int>)
    requires Shape(sb, d0) && Shape(sb, d) && Shape(sb, d') && i < |d0.inodes| && i < |d.inodes| && i < |d'.inodes|
    requires bn + c < MAXFILE && SlotsKept(sb, d0, d, i, bn, c) && SlotsKept(sb, d, d', i, bn + c, 1)
    ensures Touched(sb, d0, d', i, bn, c + 1, a + b)
         == Touched(sb, d0, d, i, bn, c, a) + Touched(sb, d, d', i, bn + c, 1, b)
  {
    NeededJoin(sb, d0, d, i, bn, c, 1);
    AddrsSame(sb, d, d', i, bn, c);
    OneSlot(sb, d', i, bn + c);
    BitsJoin(sb, a, b);
  }

  lemma {:induction false} NeededMono(sb: Super, d: Disk, i: nat, bn: nat, c: nat, c': nat)
    requires Shape(sb, d) && i < |d.inodes| && bn + c' <= MAXFILE && c <= c'
    ensures Needed(sb, d, i, bn, c) <= Needed(sb, d, i, bn, c')
    ensures EntryNew(sb, d, i, bn, c) ==> EntryNew(sb, d, i, bn, c')
    ensures NewCount(sb, d, i, bn, c) <= NewCount(sb, d, i, bn, c')
    decreases c'
  {
    if c < c' { NeededMono(sb, d, i, bn, c, c' - 1); }
  }

  lemma {:induction false} NewBound(sb: Super, d: Disk, i: nat, bn: nat, c: nat)
    requires Shape(sb, d) && i < |d.inodes| && bn + c <= MAXFILE
    ensures NewCount(sb, d, i, bn, c) <= c - (if c > 0 && Slot(sb, d, i, bn) != 0 then 1 else 0)
    ensures |Addrs(sb, d, i, bn, c)| <= c
  {
    if c > 0 { NewBound(sb, d, i, bn, c - 1); }
  }

  // ---------------------------------------------------------------------
  // Nothing changes without being logged

  ghost predicate Logs(sb: Super, d: Disk, d': Disk, logged: set<int>) {
    && |d'.used| == |d.used| && |d'.data| == |d.data|
    && (forall b :: 0 <= b < |d.used| && d'.used[b] != d.used[b] ==> BBlock(sb, b) in logged)
    && (forall b :: 0 <= b < |d.data| && d'.data[b] != d.data[b] ==> b in logged)
  }

  ghost predicate LogsAll(sb: Super, d: Disk, d': Disk, logged: set<int>) {
    && Logs(sb, d, d', logged) && |d'.inodes| == |d.inodes|
    && (forall i :: 0 <= i < |d.inodes| && d'.inodes[i] != d.inodes[i] ==> IBlock(sb, i) in logged)
  }

  lemma LogsJoin(sb: Super, d0: Disk, d1: Disk, d2: Disk, l1: set<int>, l2: set<int>)
    requires Logs(sb, d0, d1, l1) && Logs(sb, d1, d2, l2) && l1 <= l2
    ensures Logs(sb, d0, d2, l2)
  {
  }

  /** From d0 the slots bn .. bn + c - 1 of inode i were mapped and written, taking the blocks taken, and the set of
      logged blocks grew from before to logged. */
  ghost predicate Progress(sb: Super, d0: Disk, before: set<int>, d: Disk, logged: set<int>, i: nat, bn: nat, c: nat,
                           taken: seq<int>)
    requires Shape(sb, d0) && i < |d0.inodes| && bn + c <= MAXFILE
  {
    && Shape(sb, d) && i < |d.inodes|
    && logged == before + Touched(sb, d0, d, i, bn, c, taken) && Logs(sb, d0, d, logged)
    && Grown(d0.used, d.used, taken) && |taken| == Needed(sb, d0, i, bn, c)
    && SlotsKept(sb, d0, d, i, bn, c)
  }

  lemma ProgressNone(sb: Super, d: Disk, logged: set<int>, i: nat, bn: nat)
    requires Shape(sb, d) && i < |d.inodes| && bn <= MAXFILE
    ensures Progress(sb, d, logged, d, logged, i, bn, 0, [])
  {
  }

  lemma ProgressStep(sb: Super, d0: Disk, l0: set<int>, d: Disk, l: set<int>, d': Disk, l': set<int>,
                     i: nat, bn: nat, c: nat, at: nat, c': nat, a: seq<int>, b: seq<int>)
    requires Shape(sb, d0) && i < |d0.inodes| && at == bn + c < MAXFILE && c' == c + 1
    requires Progress(sb, d0, l0, d, l, i, bn, c, a) && Progress(sb, d, l, d', l', i, at, 1, b)
    ensures Progress(sb, d0, l0, d', l', i, bn, c', a + b)
  {
    TouchedStep(sb, d0, d, d', i, bn, c, a, b);
    NeededJoin(sb, d0, d, i, bn, c, 1);
    KeptJoin(sb, d0, d, d', i, bn, c, 1);
    GrownJoin(d0.used, d.used, d'.used, a, b);
    LogsJoin(sb, d0, d, d', l, l');
  }

  lemma ProgressEnough(sb: Super, d0: Disk, before: set<int>, d: Disk, logged: set<int>, i: nat, bn: nat, c: nat,
                       taken: seq<int>)
    requires Shape(sb, d0) && i < |d0.inodes| && bn + c <= MAXFILE
    requires Progress(sb, d0, before, d, logged, i, bn, c, taken)
    ensures Needed(sb, d0, i, bn, c) <= FreeCount(d0.used)
  {
    GrownAfter(d0.used, d.used, taken);
  }

  /** What counts is the bitmap, the data and the slots. */
  lemma ProgressSame(sb: Super, d0: Disk, before: set<int>, d: Disk, logged: set<int>, d': Disk,
                     i: nat, bn: nat, c: nat, taken: seq<int>)
    requires Shape(sb, d0) && i < |d0.inodes| && bn + c <= MAXFILE
    requires Progress(sb, d0, before, d, logged, i, bn, c, taken)
    requires Shape(sb, d') && i < |d'.inodes| && d'.used == d.used && d'.data == d.data
    requires forall s: nat :: s <= INDIRECT ==> Slot(sb, d', i, s) == Slot(sb, d, i, s)
    ensures Progress(sb, d0, before, d', logged, i, bn, c, taken)
  {
    AddrsSame(sb, d, d', i, bn, c);
    KeptSame(sb, d0, d, d', i, bn, c);
  }

  // ---------------------------------------------------------------------
  // How many blocks a write logs

  lemma TouchedBound(sb: Super, d0: Disk, d: Disk, i: nat, bn: nat, c: nat, taken: seq<int>)
    requires Shape(sb, d0) && Shape(sb, d) && i < |d0.inodes| && i < |d.inodes| && 0 < c && bn + c <= MAXFILE
    requires |taken| == Needed(sb, d0, i, bn, c)
    ensures |Touched(sb, d0, d, i, bn, c, taken)| <= 2 * c + 2 - if Slot(sb, d0, i, bn) != 0 then 1 else 0
  {
    NewBound(sb, d0, i, bn, c);
    NewBound(sb, d, i, bn, c);
    BitsCard(sb, taken);
  }

  /** The inode blocks, the bitmap blocks and the data blocks follow each other, as kernel/fs.h lays them out. */
  predicate Apart(sb: Super) {
    sb.inodestart + sb.ninodes / IPB < sb.bmapstart && sb.bmapstart + sb.size / BPB < sb.datastart
  }

  lemma {:induction false} AddrsCard(sb: Super, d: Disk, owner: Owner, i: nat, bn: nat, c: nat)
    requires Consistent(sb, d, owner, {}) && i < |d.inodes| && bn + c <= MAXFILE
    requires forall s: nat :: bn <= s < bn + c ==> Slot(sb, d, i, s) != 0
    ensures |Addrs(sb, d, i, bn, c)| == c
    ensures forall b :: b in Addrs(sb, d, i, bn, c) ==> b in owner && owner[b].0 == i && bn <= owner[b].1 < bn + c
  {
    if c > 0 { AddrsCard(sb, d, owner, i, bn, c - 1); }
  }

  lemma {:induction false} BitsRange(sb: Super, used: seq<bool>, used': seq<bool>, taken: seq<int>)
    requires Grown(used, used', taken) && |used| == sb.size
    ensures forall b :: b in Bits(sb, taken) ==> sb.bmapstart <= b <= sb.bmapstart + sb.size / BPB
    decreases |taken|
  {
    if taken != [] {
      var n := |taken| - 1;
      BitsRange(sb, used, After(used, taken[..n]), taken[..n]);
    }
  }

  lemma CardApart(data: set<int>, bits: set<int>, ind: set<int>, x: int)
    requires data !! bits && ind !! data && ind !! bits && x !in data && x !in bits && x !in ind
    ensures |data + bits + ind + {x}| == |data| + |bits| + |ind| + 1
  {
    assert |data + bits| == |data| + |bits|;
    assert |data + bits + ind| == |data + bits| + |ind|;
  }

  /** The indirect block, if there is one, is a data block but no slot's block. */
  lemma IndirectApart(sb: Super, d: Disk, owner: Owner, i: nat, bn: nat, c: nat)
    requires Consistent(sb, d, owner, {}) && i < |d.inodes| && bn + c <= MAXFILE
    requires forall b :: b in Addrs(sb, d, i, bn, c) ==> b in owner && owner[b].0 == i && bn <= owner[b].1 < bn + c
    requires Slot(sb, d, i, INDIRECT) != 0
    ensures sb.datastart <= Slot(sb, d, i, INDIRECT) && Slot(sb, d, i, INDIRECT) !in Addrs(sb, d, i, bn, c)
  {
  }

  /** Where the areas of the disk are apart, a write logs its data blocks, the bitmap blocks of what it took, the
      indirect block if that got a new entry, and the inode's block, and none of these is another. */
  lemma TouchedExactly(sb: Super, d0: Disk, d: Disk, owner: Owner, i: nat, bn: nat, c: nat, taken: seq<int>)
    requires Shape(sb, d0) && i < |d0.inodes| && Consistent(sb, d, owner, {}) && bn + c <= MAXFILE && Apart(sb)
    requires forall s: nat :: bn <= s < bn + c ==> Slot(sb, d, i, s) != 0
    requires Grown(d0.used, d.used, taken)
    requires EntryNew(sb, d0, i, bn, c) ==> Slot(sb, d, i, INDIRECT) != 0
    ensures |Touched(sb, d0, d, i, bn, c, taken) + {IBlock(sb, i)}|
         == c + |Bits(sb, taken)| + (if EntryNew(sb, d0, i, bn, c) then 1 else 0) + 1
  {
    AddrsCard(sb, d, owner, i, bn, c);
    BitsRange(sb, d0.used, d.used, taken);
    var data, bits := Addrs(sb, d, i, bn, c), Bits(sb, taken);
    var ind := if EntryNew(sb, d0, i, bn, c) then {Slot(sb, d, i, INDIRECT)} else {};
    if EntryNew(sb, d0, i, bn, c) {
      IndirectApart(sb, d, owner, i, bn, c);
    }
    assert forall b :: b in data ==> sb.datastart <= b;
    assert IBlock(sb, i) < sb.bmapstart by { assert i / IPB <= sb.ninodes / IPB; }
    CardApart(data, bits, ind, IBlock(sb, i));
  }

  /** Which blocks are taken does not depend on who takes them. */
  lemma {:induction false} GrownUnique(used: seq<bool>, u: seq<bool>, a: seq<int>, v: seq<bool>, b: seq<int>)
    requires Grown(used, u, a) && Grown(used, v, b) && |a| == |b|
    ensures a == b
    decreases |a|
  {
    if a != [] {
      var n := |a| - 1;
      GrownUnique(used, After(used, a[..n]), a[..n], After(used, b[..n]), b[..n]);
      assert a[n] == b[n];
      assert a == a[..n] + [a[n]] && b == b[..n] + [b[n]];
    }
  }
}
