/** balloc, bfree, bmap, itrunc, readi and writei of kernel/fs.c and the chunking loop of filewrite in
    kernel/file.c, working in place on the bitmap, the data blocks and the inodes.  The caller holds the
    lock of the inode a method works on. */
module FileSystem {
  import opened Basics
  import opened InodeModel
  import opened Param
  import opened WriteSet

  /** The most filewrite writes in one transaction: the inode, the indirect block and two blocks of slop are set aside,
      and each data block may come with a bitmap block. */
  const MAXPIECE := (MAXOPBLOCKS - 1 - 1 - 2) / 2 * BSIZE

  /** A panic stops the machine, and the operation it interrupts is never committed. */
  datatype Outcome = Got(addr: nat) | Panic

  /** A transaction of filewrite, for the bytes of the caller's buffer from k on, after which done of them are written:
      the disk before and after it, what it logged, which blocks it took and whose the blocks then are. */
  datatype Transaction =
    Transaction(k: nat, off: nat, done: nat, before: Disk, after: Disk, op: set<int>, taken: seq<int>, owner: Owner)

  /** How many blocks the bytes off .. off + n - 1 lie in. */
  function Spanned(off: nat, n: nat): (c: nat)
    ensures off + n <= MAXFILE * BSIZE ==> off / BSIZE + c <= MAXFILE
  {
    if n == 0 then 0 else (off + n - 1) / BSIZE - off / BSIZE + 1
  }

  /** The most blocks one writei can log: its data blocks, a bitmap block for each of them that may be
      new and for a new indirect block, the indirect block and the inode block.  A block that is entered
      in the middle lies below the file size, so it is not new. */
  function MaxLogged(off: nat, n: nat): int {
    if n == 0 then 0 else 2 * Spanned(off, n) + 3 - (if off % BSIZE == 0 then 0 else 1)
  }

  class FileSystem {
    const sb: Super
    var disk: Disk
    var logged: set<int>        // blocks given to log_write in the current operation
    ghost var owner: Owner

    ghost predicate Valid()
      reads this
    {
      Consistent(sb, disk, owner, {}) && NoHoles(sb, disk)
    }

    constructor (sb: Super, d: Disk, ghost owner: Owner)
      requires Consistent(sb, d, owner, {}) && NoHoles(sb, d)
      ensures Valid() && this.sb == sb && disk == d && this.owner == owner && logged == {}
    {
      this.sb := sb;
      disk := d;
      logged := {};
      this.owner := owner;
    }

    /** Find the first free bit, set it, and zero the block. */
    method Balloc() returns (r: Outcome)
      requires Shape(sb, disk)
      modifies this`disk, this`logged
      ensures r.Panic? ==> AllUsed(disk.used) && disk == old(disk) && logged == old(logged)
      ensures r.Got? ==>
        && First(old(disk).used, r.addr) && disk == Allocate(old(disk), r.addr)
        && logged == old(logged) + {BBlock(sb, r.addr), r.addr}
    {
      var b := 0;
      while b < sb.size
        invariant b % BPB == 0
        invariant forall x :: 0 <= x < b && x < sb.size ==> disk.used[x]
        invariant disk == old(disk) && logged == old(logged)
      {
        var bi := 0;
        while bi < BPB && b + bi < sb.size
          invariant 0 <= bi <= BPB
          invariant forall x :: 0 <= x < b + bi && x < sb.size ==> disk.used[x]
          invariant disk == old(disk) && logged == old(logged)
        {
          if !disk.used[b + bi] {
            disk := Disk(disk.used[b + bi := true], disk.data, disk.inodes);
            logged := logged + {BBlock(sb, b)};
            assert BBlock(sb, b) == BBlock(sb, b + bi);
            disk := Disk(disk.used, disk.data[b + bi := ZeroBlock()], disk.inodes);
            logged := logged + {b + bi};
            return Got(b + bi);
          }
          bi := bi + 1;
        }
        b := b + BPB;
      }
      return Panic;
    }

    /** Slot s of inode i, empty in d0, holds the lowest free block in d, and nothing else has moved. */
    ghost predicate SlotSet(d0: Disk, d: Disk, owner: Owner, i: nat, s: nat, addr: nat)
      requires Shape(sb, d0) && i < |d0.inodes| && s <= INDIRECT
    {
      && Consistent(sb, d, owner, {})
      && Wrote(sb, d0, d, i, 0, [])
      && (forall t: nat :: t <= INDIRECT && t != s ==> Slot(sb, d, i, t) == Slot(sb, d0, i, t))
      && Slot(sb, d0, i, s) == 0 && 0 < addr < sb.size && Slot(sb, d, i, s) == addr
      && First(d0.used, addr) && d.used == d0.used[addr := true]
    }

    /** The contract the three parts of bmap share: slot s of inode i is mapped on return, and if it had
        to be allocated the blocks in also are logged besides the new block and its bitmap block. */
    twostate predicate SlotMapped(i: nat, s: nat, addr: nat, also: set<int>)
      requires old(Shape(sb, disk)) && i < old(|disk.inodes|) && s <= INDIRECT
      reads this
    {
      && (if Slot(sb, old(disk), i, s) != 0
          then addr == Slot(sb, old(disk), i, s) && disk == old(disk) && owner == old(owner) && logged == old(logged)
          else && SlotSet(old(disk), disk, owner, i, s, addr)
               && logged == old(logged) + {addr, BBlock(sb, addr)} + also)
      && Logs(sb, old(disk), disk, logged)
    }

    method MapDirect(i: nat, bn: nat) returns (r: Outcome)
      requires Consistent(sb, disk, owner, {}) && i < |disk.inodes| && bn < NDIRECT
      modifies this
      ensures r.Panic? ==> Slot(sb, old(disk), i, bn) == 0 && disk == old(disk) && AllUsed(disk.used)
      ensures r.Got? ==> SlotMapped(i, bn, r.addr, {})
    {
      var addr := disk.inodes[i].addrs[bn];
      assert addr == Slot(sb, disk, i, bn);
      WroteNothing(sb, disk, i, 0);
      if addr == 0 {
        r := Balloc();
        if r.Panic? { return; }
        addr := r.addr;
        GrowDirect(sb, old(disk), owner, i, bn, addr);
        disk := SetAddr(disk, i, bn, addr);
        owner := owner[addr := (i, bn)];
      }
      return Got(addr);
    }

    method MapIndirect(i: nat) returns (r: Outcome)
      requires Consistent(sb, disk, owner, {}) && i < |disk.inodes|
      modifies this
      ensures r.Panic? ==> Slot(sb, old(disk), i, INDIRECT) == 0 && disk == old(disk) && AllUsed(disk.used)
      ensures r.Got? ==> SlotMapped(i, INDIRECT, r.addr, {})
    {
      var addr := disk.inodes[i].addrs[NDIRECT];
      assert addr == Slot(sb, disk, i, INDIRECT);
      WroteNothing(sb, disk, i, 0);
      if addr == 0 {
        r := Balloc();
        if r.Panic? { return; }
        addr := r.addr;
        GrowIndirect(sb, old(disk), owner, i, addr);
        disk := SetAddr(disk, i, NDIRECT, addr);
        owner := owner[addr := (i, INDIRECT)];
      }
      return Got(addr);
    }

    method MapEntry(i: nat, ind: nat, j: nat) returns (r: Outcome)
      requires Consistent(sb, disk, owner, {}) && i < |disk.inodes| && j < NINDIRECT
      requires 0 < ind < sb.size && Slot(sb, disk, i, INDIRECT) == ind
      modifies this
      ensures r.Panic? ==> Slot(sb, old(disk), i, NDIRECT + j) == 0 && disk == old(disk) && AllUsed(disk.used)
      ensures r.Got? ==> SlotMapped(i, NDIRECT + j, r.addr, {ind})
    {
      var addr := GetWord(disk.data[ind], j);
      assert addr == Slot(sb, disk, i, NDIRECT + j);
      WroteNothing(sb, disk, i, 0);
      if addr == 0 {
        r := Balloc();
        if r.Panic? { return; }
        addr := r.addr;
        GrowEntry(sb, old(disk), owner, i, j, addr);
        disk := SetEntry(disk, ind, j, addr);
        owner := owner[addr := (i, NDIRECT + j)];
        logged := logged + {ind};
      }
      return Got(addr);
    }

    /** Slot bn of inode i has been mapped, taking the given blocks from the bitmap. */
    ghost predicate Mapped(d0: Disk, d: Disk, owner: Owner, i: nat, bn: nat, addr: nat, taken: seq<int>)
      requires Shape(sb, d0) && i < |d0.inodes| && bn < MAXFILE
    {
      && Consistent(sb, d, owner, {}) && Wrote(sb, d0, d, i, 0, [])
      && SlotsKept(sb, d0, d, i, bn, 1) && 0 < addr < sb.size && Slot(sb, d, i, bn) == addr
      && Grown(d0.used, d.used, taken) && |taken| == Needed(sb, d0, i, bn, 1)
    }

    lemma MappedAlready(d: Disk, owner: Owner, i: nat, bn: nat)
      requires Consistent(sb, d, owner, {}) && i < |d.inodes| && bn < MAXFILE && Slot(sb, d, i, bn) != 0
      ensures Mapped(d, d, owner, i, bn, Slot(sb, d, i, bn), []) && Needed(sb, d, i, bn, 1) == 0
    {
      OneSlot(sb, d, i, bn);
      WroteNothing(sb, d, i, 0);
    }

    lemma MappedByOne(d0: Disk, d: Disk, owner: Owner, i: nat, bn: nat, addr: nat)
      requires Shape(sb, d0) && i < |d0.inodes| && bn < MAXFILE && SlotSet(d0, d, owner, i, bn, addr)
      requires bn >= NDIRECT ==> Slot(sb, d0, i, INDIRECT) != 0
      ensures Mapped(d0, d, owner, i, bn, addr, [addr]) && Needed(sb, d0, i, bn, 1) == 1 <= FreeCount(d0.used)
      ensures Touched(sb, d0, d, i, bn, 1, [addr])
           == {addr, BBlock(sb, addr)} + if bn < NDIRECT then {} else {Slot(sb, d, i, INDIRECT)}
    {
      OneSlot(sb, d0, i, bn);
      OneSlot(sb, d, i, bn);
      GrownMore(d0.used, d0.used, [], addr);
      assert [] + [addr] == [addr];
      GrownAfter(d0.used, d.used, [addr]);
      BitsOne(sb, addr);
    }

    lemma TakenTwo(used: seq<bool>, mid: seq<bool>, used': seq<bool>, ind: nat, addr: nat)
      requires First(used, ind) && mid == used[ind := true] && First(mid, addr) && used' == mid[addr := true]
      ensures Grown(used, used', [ind, addr]) && 2 <= FreeCount(used)
      ensures Bits(sb, [ind, addr]) == {BBlock(sb, ind), BBlock(sb, addr)}
    {
      GrownMore(used, used, [], ind);
      assert [] + [ind] == [ind] && [ind] + [addr] == [ind, addr];
      GrownMore(used, mid, [ind], addr);
      GrownAfter(used, used', [ind, addr]);
      BitsOne(sb, ind);
      BitsOne(sb, addr);
      BitsJoin(sb, [ind], [addr]);
    }

    lemma MappedByTwo(d0: Disk, mid: Disk, d: Disk, owner1: Owner, owner: Owner, i: nat, bn: nat, ind: nat, addr: nat)
      requires Shape(sb, d0) && i < |d0.inodes| && NDIRECT <= bn < MAXFILE && SlotSet(d0, mid, owner1, i, INDIRECT, ind)
      requires i < |mid.inodes| && SlotSet(mid, d, owner, i, bn, addr)
      ensures Mapped(d0, d, owner, i, bn, addr, [ind, addr]) && Needed(sb, d0, i, bn, 1) == 2 <= FreeCount(d0.used)
      ensures Touched(sb, d0, d, i, bn, 1, [ind, addr]) == {addr, BBlock(sb, addr), ind, BBlock(sb, ind)}
    {
      OneSlot(sb, d0, i, bn);
      OneSlot(sb, d, i, bn);
      WroteGrow(sb, d0, mid, d, i, 0, []);
      TakenTwo(d0.used, mid.used, d.used, ind, addr);
    }

    /** What bmap adds to the log besides the block itself: bitmap blocks, and the indirect block of a new entry. */
    ghost function MapLogged(d0: Disk, d: Disk, i: nat, bn: nat, taken: seq<int>): set<int>
      requires Shape(sb, d0) && Shape(sb, d) && i < |d0.inodes| && i < |d.inodes| && bn < MAXFILE
    {
      if Slot(sb, d0, i, bn) != 0 then {} else Touched(sb, d0, d, i, bn, 1, taken)
    }

    /** What bmap has done when it returns a block. */
    ghost predicate BmapDone(d0: Disk, l0: set<int>, d: Disk, l: set<int>, owner: Owner, i: nat, bn: nat, addr: nat,
                             taken: seq<int>)
      requires Shape(sb, d0) && i < |d0.inodes|
    {
      && bn < MAXFILE && Mapped(d0, d, owner, i, bn, addr, taken)
      && (Slot(sb, d0, i, bn) != 0 ==> d == d0)
      && l == l0 + MapLogged(d0, d, i, bn, taken) && Logs(sb, d0, d, l)
    }

    lemma DoneAlready(d: Disk, l: set<int>, owner: Owner, i: nat, bn: nat)
      requires Consistent(sb, d, owner, {}) && i < |d.inodes| && bn < MAXFILE && Slot(sb, d, i, bn) != 0
      ensures BmapDone(d, l, d, l, owner, i, bn, Slot(sb, d, i, bn), []) && Needed(sb, d, i, bn, 1) == 0
    {
      MappedAlready(d, owner, i, bn);
    }

    lemma DoneByOne(d0: Disk, l0: set<int>, d: Disk, l: set<int>, owner: Owner, i: nat, bn: nat, addr: nat)
      requires Shape(sb, d0) && i < |d0.inodes| && bn < MAXFILE && SlotSet(d0, d, owner, i, bn, addr)
      requires bn >= NDIRECT ==> Slot(sb, d0, i, INDIRECT) != 0
      requires l == l0 + {addr, BBlock(sb, addr)} + if bn < NDIRECT then {} else {Slot(sb, d, i, INDIRECT)}
      requires Logs(sb, d0, d, l)
      ensures BmapDone(d0, l0, d, l, owner, i, bn, addr, [addr]) && Needed(sb, d0, i, bn, 1) <= FreeCount(d0.used)
    {
      MappedByOne(d0, d, owner, i, bn, addr);
    }

    lemma DoneByTwo(d0: Disk, l0: set<int>, mid: Disk, l1: set<int>, d: Disk, l: set<int>, owner1: Owner, owner: Owner,
                    i: nat, bn: nat, ind: nat, addr: nat)
      requires Shape(sb, d0) && i < |d0.inodes| && NDIRECT <= bn < MAXFILE && SlotSet(d0, mid, owner1, i, INDIRECT, ind)
      requires i < |mid.inodes| && SlotSet(mid, d, owner, i, bn, addr)
      requires l1 == l0 + {ind, BBlock(sb, ind)} && l == l1 + {addr, BBlock(sb, addr)} + {ind}
      requires Logs(sb, d0, mid, l1) && Logs(sb, mid, d, l)
      ensures BmapDone(d0, l0, d, l, owner, i, bn, addr, [ind, addr]) && Needed(sb, d0, i, bn, 1) <= FreeCount(d0.used)
    {
      MappedByTwo(d0, mid, d, owner1, owner, i, bn, ind, addr);
      LogsJoin(sb, d0, mid, d, l1, l);
    }

    method BmapDirect(i: nat, bn: nat) returns (r: Outcome, ghost taken: seq<int>)
      requires Consistent(sb, disk, owner, {}) && i < |disk.inodes| && bn < NDIRECT
      modifies this
      ensures r.Panic? <==> FreeCount(old(disk).used) < Needed(sb, old(disk), i, bn, 1)
      ensures r.Panic? ==> AllUsed(disk.used)
      ensures r.Got? ==> BmapDone(old(disk), old(logged), disk, logged, owner, i, bn, r.addr, taken)
      ensures Slot(sb, old(disk), i, bn) != 0 ==> owner == old(owner)
    {
      taken := [];
      r := MapDirect(i, bn);
      if r.Panic? {
        OneSlot(sb, old(disk), i, bn);
        CountUniform(old(disk).used, false);
      } else if Slot(sb, old(disk), i, bn) != 0 {
        DoneAlready(disk, logged, owner, i, bn);
      } else {
        taken := [r.addr];
        DoneByOne(old(disk), old(logged), disk, logged, owner, i, bn, r.addr);
      }
    }

    /** The blocks run out at an entry of the indirect block. */
    lemma EntryPanics(d0: Disk, mid: Disk, i: nat, bn: nat, ind: nat)
      requires Shape(sb, d0) && i < |d0.inodes| && NDIRECT <= bn < MAXFILE && AllUsed(mid.used)
      requires if Slot(sb, d0, i, INDIRECT) != 0 then mid == d0
               else First(d0.used, ind) && mid.used == d0.used[ind := true]
      requires Slot(sb, d0, i, bn) == 0
      ensures FreeCount(d0.used) < Needed(sb, d0, i, bn, 1)
    {
      OneSlot(sb, d0, i, bn);
      CountUniform(mid.used, false);
      PanicCount(d0.used, mid.used, ind);
    }

    /** The second half of mapping an indirect entry, from a disk d0 without or with the indirect block ind. */
    method BmapEntry(i: nat, bn: nat, ind: nat, ghost d0: Disk, ghost l0: set<int>)
        returns (r: Outcome, ghost taken: seq<int>)
      requires Consistent(sb, disk, owner, {}) && i < |disk.inodes| && NDIRECT <= bn < MAXFILE
      requires 0 < ind < sb.size && Slot(sb, disk, i, INDIRECT) == ind && Shape(sb, d0) && i < |d0.inodes|
      requires if Slot(sb, d0, i, INDIRECT) != 0 then disk == d0 && logged == l0
               else SlotSet(d0, disk, owner, i, INDIRECT, ind) && logged == l0 + {ind, BBlock(sb, ind)}
                    && Logs(sb, d0, disk, logged)
      modifies this
      ensures r.Panic? <==> FreeCount(d0.used) < Needed(sb, d0, i, bn, 1)
      ensures r.Panic? ==> AllUsed(disk.used)
      ensures r.Got? ==> BmapDone(d0, l0, disk, logged, owner, i, bn, r.addr, taken)
      ensures Slot(sb, old(disk), i, bn) != 0 ==> owner == old(owner)
    {
      taken := [];
      ghost var mid, owner1, l1 := disk, owner, logged;
      r := MapEntry(i, ind, bn - NDIRECT);
      if r.Panic? {
        EntryPanics(d0, mid, i, bn, ind);
      } else if Slot(sb, mid, i, bn) != 0 {
        DoneAlready(disk, logged, owner, i, bn);
      } else if Slot(sb, d0, i, INDIRECT) != 0 {
        taken := [r.addr];
        DoneByOne(d0, l0, disk, logged, owner, i, bn, r.addr);
      } else {
        taken := [ind, r.addr];
        DoneByTwo(d0, l0, mid, l1, disk, logged, owner1, owner, i, bn, ind, r.addr);
      }
    }

    method BmapIndirect(i: nat, bn: nat) returns (r: Outcome, ghost taken: seq<int>)
      requires Consistent(sb, disk, owner, {}) && i < |disk.inodes| && NDIRECT <= bn < MAXFILE
      modifies this
      ensures r.Panic? <==> FreeCount(old(disk).used) < Needed(sb, old(disk), i, bn, 1)
      ensures r.Panic? ==> AllUsed(disk.used)
      ensures r.Got? ==> BmapDone(old(disk), old(logged), disk, logged, owner, i, bn, r.addr, taken)
      ensures Slot(sb, old(disk), i, bn) != 0 ==> owner == old(owner)
    {
      r := MapIndirect(i);
      if r.Panic? {
        OneSlot(sb, old(disk), i, bn);
        CountUniform(disk.used, false);
        return r, [];
      }
      r, taken := BmapEntry(i, bn, r.addr, old(disk), old(logged));
    }

    lemma PanicCount(used: seq<bool>, mid: seq<bool>, a: nat)
      requires mid == used || (First(used, a) && mid == used[a := true])
      ensures FreeCount(mid) == FreeCount(used) - if mid == used then 0 else 1
    {
      if mid != used { CountUpdate(used, a, true, false); }
    }

    /** The address of block bn of inode i, allocated on demand.  It panics exactly when bn is out of range or the
        bitmap has too few clear bits, and then every bit is set. */
    method Bmap(i: nat, bn: nat) returns (r: Outcome, ghost taken: seq<int>)
      requires Consistent(sb, disk, owner, {}) && i < |disk.inodes|
      modifies this
      ensures bn >= MAXFILE ==> r.Panic?
      ensures bn < MAXFILE ==> (r.Panic? <==> FreeCount(old(disk).used) < Needed(sb, old(disk), i, bn, 1))
      ensures bn < MAXFILE && r.Panic? ==> AllUsed(disk.used)
      ensures r.Got? ==> BmapDone(old(disk), old(logged), disk, logged, owner, i, bn, r.addr, taken)
      ensures bn < MAXFILE && Slot(sb, old(disk), i, bn) != 0 ==> owner == old(owner)
    {
      if bn < NDIRECT {
        r, taken := BmapDirect(i, bn);
      } else if bn - NDIRECT < NINDIRECT {
        r, taken := BmapIndirect(i, bn);
      } else {
        return Panic, [];
      }
    }

    /** tot bytes of src have been copied in at off. */
    ghost predicate Copied(d0: Disk, d: Disk, owner: Owner, i: nat, off: nat, src: seq<byte>, tot: nat)
      requires Shape(sb, d0) && i < |d0.inodes|
    {
      && Consistent(sb, d, owner, {})
      && tot <= |src| && Wrote(sb, d0, d, i, off, src[..tot])
      && MappedTo(sb, d, i, NewSize(d0.inodes[i].size, off, tot))
    }

    /** Overlaying the next bytes on the block b that bmap returned for slot bn extends the copied part. */
    lemma CopyStep(d0: Disk, d: Disk, mid: Disk, owner: Owner, i: nat, off: nat, src: seq<byte>, tot: nat, tot': nat,
                   bn: nat, o: nat, b: nat)
      requires Shape(sb, d0) && i < |d0.inodes| && tot < tot' <= |src|
      requires off + tot == bn * BSIZE + o && bn < MAXFILE && o < BSIZE && o + (tot' - tot) <= BSIZE
      requires Shape(sb, d) && MappedTo(sb, d, i, NewSize(d0.inodes[i].size, off, tot))
      requires Wrote(sb, d, mid, i, 0, []) && Consistent(sb, mid, owner, {})
      requires Wrote(sb, d0, mid, i, off, src[..tot]) && 0 < b < sb.size && Slot(sb, mid, i, bn) == b
      ensures var d' := PutData(mid, b, Overlay(mid.data[b], o, src[tot..tot']));
        && Copied(d0, d', owner, i, off, src, tot')
        && forall s: nat :: s <= INDIRECT ==> Slot(sb, d', i, s) == Slot(sb, mid, i, s)
    {
      var bl := Overlay(mid.data[b], o, src[tot..tot']);
      WroteChunk(sb, d0, mid, owner, i, off, src[..tot], src[tot..tot'], src[..tot'], bn, o, b);
      PutDataEffect(sb, mid, owner, i, bn, bl);
      MappedStep(d0, d, mid, PutData(mid, b, bl), i, off, tot, tot', bn);
    }

    lemma MappedStep(d0: Disk, d: Disk, mid: Disk, d': Disk, i: nat, off: nat, tot: nat, tot': nat, bn: nat)
      requires Shape(sb, d0) && i < |d0.inodes| && i < |d.inodes| && i < |mid.inodes| && i < |d'.inodes|
      requires Shape(sb, d) && Shape(sb, mid) && Shape(sb, d') && tot < tot'
      requires MappedTo(sb, d, i, NewSize(d0.inodes[i].size, off, tot))
      requires bn * BSIZE <= off + tot && off + tot' <= (bn + 1) * BSIZE && bn < MAXFILE
      requires forall s: nat :: s <= INDIRECT ==> Slot(sb, d', i, s) == Slot(sb, mid, i, s)
      requires forall s: nat :: s <= INDIRECT && Slot(sb, d, i, s) != 0 ==> Slot(sb, mid, i, s) != 0
      requires Slot(sb, mid, i, bn) != 0
      ensures MappedTo(sb, d', i, NewSize(d0.inodes[i].size, off, tot'))
    {
      forall s: nat | s < MAXFILE && s * BSIZE < NewSize(d0.inodes[i].size, off, tot')
        ensures Slot(sb, d', i, s) != 0
      {
        if s != bn {
          assert Slot(sb, d, i, s) != 0;
        }
      }
    }

    /** off + n as a 32-bit unsigned sum. */
    function Sum32(off: nat, n: nat): (s: nat)
      requires off < UINT && n < UINT
      ensures s < off <==> off + n >= UINT
      ensures off + n < UINT ==> s == off + n
    {
      (off + n) % UINT
    }

    /** A write is refused if it would leave a gap or outgrow the largest file. */
    predicate WriteRejected(size: nat, off: nat, n: nat) {
      off > size || off + n > MAXFILE * BSIZE
    }

    lemma SpannedStep(off: nat, n: nat, tot: nat, tot': nat)
      requires tot < n && (0 < tot ==> (off + tot) % BSIZE == 0)
      requires tot' == tot + if n - tot < BSIZE - (off + tot) % BSIZE then n - tot else BSIZE - (off + tot) % BSIZE
      ensures Spanned(off, tot') == Spanned(off, tot) + 1 <= Spanned(off, n)
      ensures (off + tot) / BSIZE == off / BSIZE + Spanned(off, tot)
      ensures tot' < n ==> (off + tot') % BSIZE == 0
    {
    }

    /** Writing the block that slot bn was mapped to logs it as well. */
    lemma ChunkLogged(d0: Disk, l0: set<int>, mid: Disk, l: set<int>, owner: Owner, i: nat, bn: nat, b: nat, bl: Block,
                      taken: seq<int>)
      requires Shape(sb, d0) && i < |d0.inodes| && bn < MAXFILE && |bl.bytes| == BSIZE
      requires BmapDone(d0, l0, mid, l, owner, i, bn, b, taken) && b < |mid.data|
      requires var d := PutData(mid, b, bl);
        Shape(sb, d) && forall s: nat :: s <= INDIRECT ==> Slot(sb, d, i, s) == Slot(sb, mid, i, s)
      ensures Progress(sb, d0, l0, PutData(mid, b, bl), l + {b}, i, bn, 1, taken)
    {
      var d := PutData(mid, b, bl);
      KeptSame(sb, d0, mid, d, i, bn, 1);
      OneSlot(sb, d0, i, bn);
      OneSlot(sb, mid, i, bn);
      OneSlot(sb, d, i, bn);
      assert Touched(sb, d0, d, i, bn, 1, taken) == MapLogged(d0, mid, i, bn, taken) + {b};
      LogsJoin(sb, d0, mid, d, l, l + {b});
    }

    /** One iteration of writei: map block bn, copy into it, log it. */
    method WriteChunk(i: nat, src: seq<byte>, off: nat, tot: nat, tot': nat, bn: nat, ghost d0: Disk)
        returns (ok: bool, ghost taken: seq<int>)
      requires Shape(sb, d0) && i < |d0.inodes| && Copied(d0, disk, owner, i, off, src, tot)
      requires tot < tot' <= |src| && bn < MAXFILE
      requires bn == (off + tot) / BSIZE && (off + tot) % BSIZE + (tot' - tot) <= BSIZE
      modifies this
      ensures !ok <==> FreeCount(old(disk).used) < Needed(sb, old(disk), i, bn, 1)
      ensures !ok ==> AllUsed(disk.used)
      ensures ok ==> Copied(d0, disk, owner, i, off, src, tot')
      ensures ok ==> Progress(sb, old(disk), old(logged), disk, logged, i, bn, 1, taken)
    {
      var r;
      r, taken := Bmap(i, bn);
      if r.Panic? {
        return false, [];
      }
      ghost var mid, l := disk, logged;
      WroteGrow(sb, d0, old(disk), mid, i, off, src[..tot]);
      var o := (off + tot) % BSIZE;
      CopyStep(d0, old(disk), mid, owner, i, off, src, tot, tot', bn, o, r.addr);
      var bl := Overlay(disk.data[r.addr], o, src[tot..tot']);
      disk := PutData(disk, r.addr, bl);
      logged := logged + {r.addr};
      ChunkLogged(old(disk), old(logged), mid, l, owner, i, bn, r.addr, bl, taken);
      return true, taken;
    }

    /** What holds after tot bytes: the bytes are in, and the log has what they explain. */
    ghost predicate LoopInv(d0: Disk, before: set<int>, i: nat, off: nat, src: seq<byte>, tot: nat, taken: seq<int>)
      requires Shape(sb, d0) && i < |d0.inodes| && tot <= |src| && off + |src| <= MAXFILE * BSIZE
      reads this
    {
      && Copied(d0, disk, owner, i, off, src, tot)
      && (0 < tot < |src| ==> (off + tot) % BSIZE == 0)
      && Progress(sb, d0, before, disk, logged, i, off / BSIZE, Spanned(off, tot), taken)
    }

    /** Mapping fails at slot bn + c exactly if the blocks run out there. */
    lemma RunsOut(d0: Disk, before: set<int>, d: Disk, l: set<int>, i: nat, bn: nat, c: nat, taken: seq<int>)
      requires Shape(sb, d0) && i < |d0.inodes| && bn + c < MAXFILE && Progress(sb, d0, before, d, l, i, bn, c, taken)
      ensures FreeCount(d.used) < Needed(sb, d, i, bn + c, 1) <==> FreeCount(d0.used) < Needed(sb, d0, i, bn, c + 1)
    {
      GrownAfter(d0.used, d.used, taken);
      NeededJoin(sb, d0, d, i, bn, c, 1);
    }

    /** One iteration, seen from where the loop began: slot at is the next after the c slots from bn. */
    method CopyBlock(i: nat, src: seq<byte>, off: nat, tot: nat, tot': nat, at: nat,
                     ghost d0: Disk, ghost before: set<int>, ghost bn: nat, ghost c: nat, ghost c': nat,
                     ghost taken: seq<int>)
        returns (ok: bool, ghost taken': seq<int>)
      requires Shape(sb, d0) && i < |d0.inodes| && Copied(d0, disk, owner, i, off, src, tot)
      requires tot < tot' <= |src| && at < MAXFILE
      requires at == (off + tot) / BSIZE && (off + tot) % BSIZE + (tot' - tot) <= BSIZE
      requires at == bn + c && c' == c + 1 && Progress(sb, d0, before, disk, logged, i, bn, c, taken)
      modifies this
      ensures !ok ==> FreeCount(d0.used) < Needed(sb, d0, i, bn, c') && AllUsed(disk.used)
      ensures ok ==> Copied(d0, disk, owner, i, off, src, tot')
      ensures ok ==> Progress(sb, d0, before, disk, logged, i, bn, c', taken')
    {
      RunsOut(d0, before, disk, logged, i, bn, c, taken);
      ghost var d, l, more := disk, logged, [];
      ok, more := WriteChunk(i, src, off, tot, tot', at, d0);
      taken' := taken + more;
      if ok {
        ProgressStep(sb, d0, before, d, l, disk, logged, i, bn, c, at, c', taken, more);
      }
    }

    method CopyNext(i: nat, src: seq<byte>, off: nat, tot: nat,
                    ghost d0: Disk, ghost before: set<int>, ghost taken: seq<int>)
        returns (ok: bool, tot': nat, ghost taken': seq<int>)
      requires Shape(sb, d0) && i < |d0.inodes| && off + |src| <= MAXFILE * BSIZE
      requires tot < |src| && LoopInv(d0, before, i, off, src, tot, taken)
      modifies this
      ensures !ok ==> FreeCount(d0.used) < Needed(sb, d0, i, off / BSIZE, Spanned(off, |src|)) && AllUsed(disk.used)
      ensures ok ==> tot < tot' <= |src| && LoopInv(d0, before, i, off, src, tot', taken')
    {
      var left, room := |src| - tot, BSIZE - (off + tot) % BSIZE;
      tot' := tot + if left < room then left else room;
      ghost var bn, c, c' := off / BSIZE, Spanned(off, tot), Spanned(off, tot');
      SpannedStep(off, |src|, tot, tot');
      NeededMono(sb, d0, i, bn, c', Spanned(off, |src|));
      ok, taken' := CopyBlock(i, src, off, tot, tot', (off + tot) / BSIZE, d0, before, bn, c, c', taken);
    }

    lemma LoopBegins(i: nat, off: nat, src: seq<byte>)
      requires Valid() && i < |disk.inodes| && off <= disk.inodes[i].size && off + |src| <= MAXFILE * BSIZE
      ensures LoopInv(disk, logged, i, off, src, 0, [])
    {
      WroteNothing(sb, disk, i, off);
      ProgressNone(sb, disk, logged, i, off / BSIZE);
    }

    lemma LoopEnds(d0: Disk, before: set<int>, i: nat, off: nat, src: seq<byte>, taken: seq<int>)
      requires Shape(sb, d0) && i < |d0.inodes| && off + |src| <= MAXFILE * BSIZE
      requires LoopInv(d0, before, i, off, src, |src|, taken)
      ensures FreeCount(d0.used) >= Needed(sb, d0, i, off / BSIZE, Spanned(off, |src|))
    {
      ProgressEnough(sb, d0, before, disk, logged, i, off / BSIZE, Spanned(off, |src|), taken);
    }

    /** writei's copy loop.  It panics exactly when the blocks it needs are not there. */
    method CopyIn(i: nat, src: seq<byte>, off: nat) returns (panicked: bool, ghost taken: seq<int>)
      requires Valid() && i < |disk.inodes| && off <= disk.inodes[i].size && off + |src| <= MAXFILE * BSIZE
      modifies this
      ensures !panicked ==> LoopInv(old(disk), old(logged), i, off, src, |src|, taken)
      ensures panicked <==>
        FreeCount(old(disk).used) < Needed(sb, old(disk), i, off / BSIZE, Spanned(off, |src|))
      ensures panicked ==> AllUsed(disk.used)
      ensures |src| == 0 ==> disk == old(disk) && owner == old(owner)
    {
      ghost var d0, before := disk, logged;
      taken := [];
      LoopBegins(i, off, src);
      var tot := 0;
      while tot < |src|
        invariant 0 <= tot <= |src|
        invariant LoopInv(d0, before, i, off, src, tot, taken)
        invariant |src| == 0 ==> disk == d0 && owner == old(owner)
      {
        var ok;
        ok, tot, taken := CopyNext(i, src, off, tot, d0, before, taken);
        if !ok {
          return true, taken;
        }
      }
      LoopEnds(d0, before, i, off, src, taken);
      return false, taken;
    }

    /** The first block of a write that does not start at a block boundary is mapped. */
    lemma FirstIsMapped(d: Disk, i: nat, off: nat, n: nat)
      requires Shape(sb, d) && NoHoles(sb, d) && i < |d.inodes| && !WriteRejected(d.inodes[i].size, off, n) && 0 < n
      ensures off % BSIZE != 0 ==> Slot(sb, d, i, off / BSIZE) != 0
    {
    }

    lemma SpanIsMapped(d: Disk, i: nat, off: nat, n: nat, size: nat)
      requires Shape(sb, d) && i < |d.inodes| && off + n <= MAXFILE * BSIZE && off + n <= size
      requires MappedTo(sb, d, i, size)
      ensures forall s: nat :: off / BSIZE <= s < off / BSIZE + Spanned(off, n) ==> Slot(sb, d, i, s) != 0
    {
      forall s: nat | off / BSIZE <= s < off / BSIZE + Spanned(off, n) ensures s * BSIZE < size {
      }
    }

    /** How many blocks an accepted write of n > 0 bytes logs, in terms of the disk it starts from and the blocks it
        takes. */
    ghost function LogSize(d0: Disk, i: nat, off: nat, n: nat, taken: seq<int>): int
      requires Shape(sb, d0) && i < |d0.inodes| && off + n <= MAXFILE * BSIZE
    {
      if n == 0 then 0
      else Spanned(off, n) + |Bits(sb, taken)|
           + (if EntryNew(sb, d0, i, off / BSIZE, Spanned(off, n)) then 1 else 0) + 1
    }

    /** The blocks an accepted write logs. */
    ghost function WriteLogs(d0: Disk, d: Disk, i: nat, off: nat, n: nat, taken: seq<int>): set<int>
      requires Shape(sb, d0) && Shape(sb, d) && i < |d0.inodes| && i < |d.inodes| && off + n <= MAXFILE * BSIZE
    {
      if n == 0 then {} else Touched(sb, d0, d, i, off / BSIZE, Spanned(off, n), taken) + {IBlock(sb, i)}
    }

    /** What an accepted write of n bytes at off did to the bitmap, the slots and the log. */
    ghost predicate Accounted(d0: Disk, before: set<int>, d: Disk, logged: set<int>, i: nat, off: nat, n: nat,
                              taken: seq<int>)
      requires Shape(sb, d0) && i < |d0.inodes| && off + n <= MAXFILE * BSIZE
    {
      var bn, c := off / BSIZE, Spanned(off, n);
      && Shape(sb, d) && logged == before + WriteLogs(d0, d, i, off, n, taken) && LogsAll(sb, d0, d, logged)
      && Grown(d0.used, d.used, taken) && |taken| == Needed(sb, d0, i, bn, c) && SlotsKept(sb, d0, d, i, bn, c)
    }

    lemma WriteAccounted(d0: Disk, before: set<int>, d1: Disk, l: set<int>, d: Disk, owner: Owner, i: nat, off: nat,
                         n: nat, taken: seq<int>)
      requires Shape(sb, d0) && i < |d0.inodes| && 0 < n && off + n <= MAXFILE * BSIZE
      requires Progress(sb, d0, before, d1, l, i, off / BSIZE, Spanned(off, n), taken)
      requires Consistent(sb, d1, owner, {}) && i < |d.inodes| && d == SetSize(d1, i, d.inodes[i].size)
      requires forall j: nat :: j < |d0.inodes| && j != i ==> d.inodes[j] == d0.inodes[j]
      ensures Accounted(d0, before, d, l + {IBlock(sb, i)}, i, off, n, taken)
    {
      SetSizeFrame(sb, d1, owner, i, d.inodes[i].size);
      ProgressSame(sb, d0, before, d1, l, d, i, off / BSIZE, Spanned(off, n), taken);
    }

    /** An accepted write logs no more than MaxLogged blocks, and exactly LogSize of them where the areas of the disk
        are apart. */
    lemma WriteSize(d0: Disk, before: set<int>, d: Disk, logged: set<int>, owner: Owner, i: nat, off: nat, n: nat,
                    taken: seq<int>)
      requires Shape(sb, d0) && NoHoles(sb, d0) && i < |d0.inodes| && !WriteRejected(d0.inodes[i].size, off, n)
      requires Accounted(d0, before, d, logged, i, off, n, taken)
      requires Consistent(sb, d, owner, {}) && NoHoles(sb, d) && off + n <= d.inodes[i].size
      ensures |WriteLogs(d0, d, i, off, n, taken)| <= MaxLogged(off, n)
      ensures Apart(sb) ==> |WriteLogs(d0, d, i, off, n, taken)| == LogSize(d0, i, off, n, taken)
    {
      if n > 0 {
        var bn, c := off / BSIZE, Spanned(off, n);
        FirstIsMapped(d0, i, off, n);
        TouchedBound(sb, d0, d, i, bn, c, taken);
        if Apart(sb) {
          SpanIsMapped(d, i, off, n, d.inodes[i].size);
          TouchedExactly(sb, d0, d, owner, i, bn, c, taken);
        }
      }
    }

    /** What a write that went through has done. */
    ghost predicate WriteDone(d0: Disk, l0: set<int>, d: Disk, l: set<int>, i: nat, src: seq<byte>, off: nat,
                              taken: seq<int>)
      requires Shape(sb, d0) && NoHoles(sb, d0) && i < |d0.inodes| && !WriteRejected(d0.inodes[i].size, off, |src|)
    {
      && Shape(sb, d) && NoHoles(sb, d)
      && Contents(sb, d, i) == Splice(Contents(sb, d0, i), off, src)
      && OthersSame(d0, d, i)
      && Accounted(d0, l0, d, l, i, off, |src|, taken)
    }

    /** What follows writei's loop: the size grows if the write went past the end, and the inode is written. */
    method Finish(i: nat, src: seq<byte>, off: nat, ghost d0: Disk, ghost before: set<int>, ghost taken: seq<int>)
      requires Shape(sb, d0) && NoHoles(sb, d0) && i < |d0.inodes| && !WriteRejected(d0.inodes[i].size, off, |src|)
      requires LoopInv(d0, before, i, off, src, |src|, taken)
      requires |src| == 0 ==> disk == d0
      modifies this`disk, this`logged
      ensures Valid() && WriteDone(d0, before, disk, logged, i, src, off, taken)
    {
      assert src[..|src|] == src;
      WriteEnds(sb, d0, disk, owner, i, off, src);
      if |src| > 0 {
        ghost var d1, l := disk, logged;
        if off + |src| > disk.inodes[i].size {
          disk := SetSize(disk, i, off + |src|);
        }
        logged := logged + {IBlock(sb, i)};
        WriteAccounted(d0, before, d1, l, disk, owner, i, off, |src|, taken);
      }
    }

    /** Write src at off: on success the file's bytes are spliced, every other file is as it was, every block that
        changed is logged, and the logged blocks are exactly those the write touches.  It panics exactly when the
        bitmap has fewer clear bits than there are blocks to map. */
    method Writei(i: nat, src: seq<byte>, off: nat) returns (r: int, panicked: bool, ghost taken: seq<int>)
      requires Valid() && i < |disk.inodes| && off < UINT && |src| < UINT
      modifies this
      ensures !panicked ==> Valid() && |disk.inodes| == |old(disk).inodes|
      ensures WriteRejected(old(disk).inodes[i].size, off, |src|) ==>
        r == -1 && !panicked && disk == old(disk) && owner == old(owner) && logged == old(logged)
      ensures !WriteRejected(old(disk).inodes[i].size, off, |src|) ==>
        && (panicked <==> FreeCount(old(disk).used) < Needed(sb, old(disk), i, off / BSIZE, Spanned(off, |src|)))
        && (!panicked ==> r == |src| && WriteDone(old(disk), old(logged), disk, logged, i, src, off, taken))
      ensures panicked ==> AllUsed(disk.used)
      ensures !panicked ==> |logged - old(logged)| <= MaxLogged(off, |src|)
    {
      taken := [];
      if off > disk.inodes[i].size || Sum32(off, |src|) < off {
        return -1, false, taken;
      }
      if Sum32(off, |src|) > MAXFILE * BSIZE {
        return -1, false, taken;
      }
      ghost var d0 := disk;
      panicked, taken := CopyIn(i, src, off);
      if panicked {
        return 0, true, taken;
      }
      Finish(i, src, off, d0, old(logged), taken);
      WriteSize(d0, old(logged), disk, logged, owner, i, off, |src|, taken);
      SubsetCard(logged - old(logged), WriteLogs(d0, disk, i, off, |src|, taken));
      return |src|, false, taken;
    }

    /** A read is refused if it starts beyond the end or its end does not fit 32 bits. */
    predicate ReadRejected(size: nat, off: nat, n: nat) {
      off > size || off + n >= UINT
    }

    /** Read up to n bytes at off: exactly the slice of the file clipped to its size.  Because no block
        below the size is missing, the call to bmap never allocates and nothing changes. */
    method Readi(i: nat, off: nat, n: nat) returns (out: seq<byte>)
      requires Valid() && i < |disk.inodes| && off < UINT && n < UINT
      modifies this
      ensures disk == old(disk) && owner == old(owner) && logged == old(logged)
      ensures var c := Contents(sb, disk, i);
        out == if ReadRejected(|c|, off, n) then [] else c[off..if off + n > |c| then |c| else off + n]
    {
      out := [];
      if off > disk.inodes[i].size || Sum32(off, n) < off {
        return;
      }
      var want := if Sum32(off, n) > disk.inodes[i].size then disk.inodes[i].size - off else n;
      out := CopyOut(i, off, off + want);
    }

    /** readi's copy loop. */
    method CopyOut(i: nat, off: nat, limit: nat) returns (out: seq<byte>)
      requires Valid() && i < |disk.inodes| && off <= limit <= disk.inodes[i].size
      modifies this
      ensures disk == old(disk) && owner == old(owner) && logged == old(logged)
      ensures out == Contents(sb, disk, i)[off..limit]
    {
      ghost var c := Contents(sb, disk, i);
      out := [];
      var pos := off;
      while pos < limit
        invariant Valid() && disk == old(disk) && owner == old(owner) && logged == old(logged)
        invariant off <= pos <= limit && out == c[off..pos]
      {
        var end := EndOfChunk(pos, limit);
        var piece := ReadChunk(i, pos, limit);
        Concat(c, off, pos, end);
        out := out + piece;
        pos := end;
      }
    }

    /** Where a copy from pos towards limit has to stop: at the end of the block at the latest. */
    function EndOfChunk(pos: nat, limit: nat): (end: nat)
      requires pos < limit
      ensures pos < end <= limit
    {
      var left, room := limit - pos, BSIZE - pos % BSIZE;
      pos + if left < room then left else room
    }

    /** One iteration of readi. */
    method ReadChunk(i: nat, pos: nat, limit: nat) returns (piece: seq<byte>)
      requires Valid() && i < |disk.inodes| && pos < limit <= disk.inodes[i].size
      modifies this
      ensures disk == old(disk) && owner == old(owner) && logged == old(logged)
      ensures piece == Contents(sb, disk, i)[pos..EndOfChunk(pos, limit)]
    {
      var end := EndOfChunk(pos, limit);
      assert Slot(sb, disk, i, pos / BSIZE) != 0;
      OneSlot(sb, disk, i, pos / BSIZE);
      var r, taken := Bmap(i, pos / BSIZE);
      piece := disk.data[r.addr].bytes[pos % BSIZE..pos % BSIZE + (end - pos)];
      SliceOfBlock(disk, i, pos, end);
    }

    lemma Concat(c: seq<byte>, a: nat, b: nat, e: nat)
      requires a <= b <= e <= |c|
      ensures c[a..b] + c[b..e] == c[a..e]
    {
    }

    lemma SliceOfBlock(d: Disk, i: nat, pos: nat, end: nat)
      requires Shape(sb, d) && i < |d.inodes| && d.inodes[i].size <= MAXFILE * BSIZE
      requires pos <= end <= d.inodes[i].size && end <= pos - pos % BSIZE + BSIZE && pos < MAXFILE * BSIZE
      requires 0 < Slot(sb, d, i, pos / BSIZE) < sb.size
      ensures d.data[Slot(sb, d, i, pos / BSIZE)].bytes[pos % BSIZE..pos % BSIZE + (end - pos)]
           == Contents(sb, d, i)[pos..end]
    {
      var piece := d.data[Slot(sb, d, i, pos / BSIZE)].bytes[pos % BSIZE..pos % BSIZE + (end - pos)];
      forall k | 0 <= k < |piece|
        ensures piece[k] == Contents(sb, d, i)[pos + k]
      {
        assert (pos + k) / BSIZE == pos / BSIZE && (pos + k) % BSIZE == pos % BSIZE + k;
      }
    }

    /** k bytes of src have been written at start, and nothing else about any file has changed. */
    ghost predicate Written(d0: Disk, d: Disk, i: nat, start: nat, src: seq<byte>, k: nat)
      requires Shape(sb, d0) && NoHoles(sb, d0) && i < |d0.inodes|
    {
      && Shape(sb, d) && NoHoles(sb, d) && k <= |src|
      && (k > 0 ==> start <= d0.inodes[i].size)
      && (if start <= d0.inodes[i].size
          then Contents(sb, d, i) == Splice(Contents(sb, d0, i), start, src[..k])
          else SameFile(sb, d0, d, i))
      && OthersSame(d0, d, i)
    }

    ghost predicate OthersSame(d0: Disk, d: Disk, i: nat) {
      |d0.inodes| == |d.inodes| && forall j: nat :: j < |d0.inodes| && j != i ==> SameFile(sb, d0, d, j)
    }

    lemma OthersSameTrans(d0: Disk, d1: Disk, d2: Disk, i: nat)
      requires OthersSame(d0, d1, i) && OthersSame(d1, d2, i)
      ensures OthersSame(d0, d2, i)
    {
      forall j: nat | j < |d0.inodes| && j != i ensures SameFile(sb, d0, d2, j) {
        assert SameFile(sb, d0, d1, j) && SameFile(sb, d1, d2, j);
      }
    }

    lemma WrittenStep(d0: Disk, d1: Disk, d2: Disk, i: nat, start: nat, src: seq<byte>, k: nat, off: nat,
                      piece: seq<byte>, k': nat)
      requires Shape(sb, d0) && NoHoles(sb, d0) && i < |d0.inodes| && off == start + k
      requires 0 < |piece| && k' == k + |piece| <= |src| && piece == src[k..k']
      requires Written(d0, d1, i, start, src, k) && Shape(sb, d2) && NoHoles(sb, d2)
      requires off <= d1.inodes[i].size
      requires Contents(sb, d2, i) == Splice(Contents(sb, d1, i), off, piece)
      requires OthersSame(d1, d2, i)
      ensures Written(d0, d2, i, start, src, k')
    {
      OthersSameTrans(d0, d1, d2, i);
      assert start <= d0.inodes[i].size;
      SpliceMore(Contents(sb, d0, i), start, src, k, |piece|);
    }

    /** No chunk of filewrite can outgrow a log transaction, whatever the offset, file or disk. */
    lemma ChunkFits(off: nat, n: nat)
      requires n <= MAXPIECE
      ensures 0 <= MaxLogged(off, n) <= MAXOPBLOCKS
    {
      if n > 0 {
        assert (off + n - 1) / BSIZE <= off / BSIZE + 3;
        assert off % BSIZE == 0 ==> (off + n - 1) / BSIZE <= off / BSIZE + 2;
      }
    }

    lemma SpliceMore(c: seq<byte>, start: nat, src: seq<byte>, k: nat, n: nat)
      requires start <= |c| && k + n <= |src|
      ensures Splice(Splice(c, start, src[..k]), start + k, src[k..k + n]) == Splice(c, start, src[..k + n])
    {
    }

    /** begin_op, writei and end_op: a write of at most three blocks' worth fits a transaction.  op is what it
        logged. */
    method WriteTransaction(i: nat, piece: seq<byte>, off: nat)
        returns (r: int, panicked: bool, op: set<int>, ghost taken: seq<int>)
      requires Valid() && i < |disk.inodes| && off < UINT && |piece| <= MAXPIECE
      modifies this
      ensures op == logged
      ensures !panicked ==> Valid() && |disk.inodes| == |old(disk).inodes| && |op| <= MAXOPBLOCKS
      ensures WriteRejected(old(disk).inodes[i].size, off, |piece|) ==>
        r == -1 && !panicked && disk == old(disk) && op == {}
      ensures !WriteRejected(old(disk).inodes[i].size, off, |piece|) ==>
        && (panicked <==> FreeCount(old(disk).used) < Needed(sb, old(disk), i, off / BSIZE, Spanned(off, |piece|)))
        && (!panicked ==> r == |piece| && WriteDone(old(disk), {}, disk, op, i, piece, off, taken))
        && (!panicked && Apart(sb) ==> |op| == LogSize(old(disk), i, off, |piece|, taken))
      ensures panicked ==> AllUsed(disk.used)
    {
      logged := {};
      r, panicked, taken := Writei(i, piece, off);
      op := logged;
      if !panicked {
        assert logged - {} == logged;
        ChunkFits(off, |piece|);
        if !WriteRejected(old(disk).inodes[i].size, off, |piece|) {
          WriteSize(old(disk), {}, disk, logged, owner, i, off, |piece|, taken);
          assert op == WriteLogs(old(disk), disk, i, off, |piece|, taken);
        }
      }
    }

    /** What one transaction takes of n bytes. */
    function Piece(n: nat): nat { if n > MAXPIECE then MAXPIECE else n }

    /** How many of n bytes filewrite gets written at start, if start is not beyond the end of the file: whole pieces,
        until one would outgrow the largest file. */
    function Accepted(start: nat, n: nat): (r: nat)
      ensures r <= n && (start <= MAXFILE * BSIZE ==> start + r <= MAXFILE * BSIZE)
      decreases n
    {
      if n == 0 || start + Piece(n) > MAXFILE * BSIZE then 0 else Piece(n) + Accepted(start + Piece(n), n - Piece(n))
    }

    lemma AcceptedStep(start: nat, n: nat)
      requires n > 0 && start + Piece(n) <= MAXFILE * BSIZE
      ensures Accepted(start, n) == Piece(n) + Accepted(start + Piece(n), n - Piece(n))
    {
    }

    /** filewrite writes everything exactly if it all fits the largest file. */
    lemma {:induction false} AcceptedAll(start: nat, n: nat)
      ensures Accepted(start, n) == n <==> n == 0 || start + n <= MAXFILE * BSIZE
      decreases n
    {
      if n > Piece(n) { AcceptedAll(start + Piece(n), n - Piece(n)); }
    }

    lemma SpannedMono(off: nat, n: nat, n': nat)
      requires n <= n'
      ensures Spanned(off, n) <= Spanned(off, n')
    {
    }

    /** How the blocks spanned by k bytes and by the next m make up those spanned by both. */
    lemma SpannedJoin(start: nat, k: nat, m: nat)
      requires 0 < m
      ensures var c, c1 := Spanned(start, k), Spanned(start + k, m);
        if k == 0 || (start + k) % BSIZE == 0
        then (start + k) / BSIZE == start / BSIZE + c && Spanned(start, k + m) == c + c1
        else c > 0 && (start + k) / BSIZE + 1 == start / BSIZE + c && Spanned(start, k + m) + 1 == c + c1
    {
    }

    /** k bytes written at start have taken exactly the blocks they needed. */
    ghost predicate Paid(d0: Disk, d: Disk, i: nat, start: nat, k: nat)
      requires Shape(sb, d0) && i < |d0.inodes|
    {
      && start + k <= MAXFILE * BSIZE && Shape(sb, d)
      && FreeCount(d.used) + Needed(sb, d0, i, start / BSIZE, Spanned(start, k)) == FreeCount(d0.used)
      && SlotsKept(sb, d0, d, i, start / BSIZE, Spanned(start, k))
    }

    lemma SpanNext(d: Disk, i: nat, start: nat, k: nat, off: nat, m: nat, k': nat)
      requires Shape(sb, d) && NoHoles(sb, d) && i < |d.inodes| && off <= d.inodes[i].size
      requires 0 < m && off == start + k && k' == k + m && off + m <= MAXFILE * BSIZE
      ensures Abuts(sb, d, i, start / BSIZE, Spanned(start, k), off / BSIZE, Spanned(off, m), Spanned(start, k'))
    {
      SpannedJoin(start, k, m);
      if k > 0 && off % BSIZE != 0 {
        assert Slot(sb, d, i, off / BSIZE) != 0;
      }
    }

    lemma PaidNext(d0: Disk, d: Disk, d': Disk, i: nat, start: nat, k: nat, off: nat, m: nat, k': nat)
      requires Shape(sb, d0) && i < |d0.inodes| && Paid(d0, d, i, start, k) && 0 < m
      requires off == start + k && k' == k + m && off + m <= MAXFILE * BSIZE
      requires NoHoles(sb, d) && off <= d.inodes[i].size && Paid(d, d', i, off, m)
      ensures Paid(d0, d', i, start, k')
    {
      var bn, c, bn1, c1, c2 := start / BSIZE, Spanned(start, k), off / BSIZE, Spanned(off, m), Spanned(start, k');
      SpanNext(d, i, start, k, off, m, k');
      NeededBoth(sb, d0, d, i, bn, c, bn1, c1, c2);
      KeptBoth(sb, d0, d, d', i, bn, c, bn1, c1, c2);
    }

    /** How much filewrite will write unless it runs out of blocks. */
    ghost function Goal(d: Disk, i: nat, start: nat, n: nat): nat
      requires i < |d.inodes|
    {
      if start > d.inodes[i].size then 0 else Accepted(start, n)
    }

    /** The bitmap has too few clear bits for that. */
    ghost predicate Short(d: Disk, i: nat, start: nat, n: nat)
      requires Shape(sb, d) && NoHoles(sb, d) && i < |d.inodes|
    {
      && start <= d.inodes[i].size
      && FreeCount(d.used) < Needed(sb, d, i, start / BSIZE, Spanned(start, Accepted(start, n)))
    }

    /** writei does not take the chunk. */
    ghost predicate Refused(t: Transaction, i: nat, src: seq<byte>)
      requires i < |t.before.inodes| && t.k < |src|
    {
      WriteRejected(t.before.inodes[i].size, t.off, |Chunk(src, t.k)|)
    }

    /** What a transaction makes of chunk k of src: writei at off. */
    ghost predicate OpDone(t: Transaction, i: nat, src: seq<byte>) {
      var d := t.before;
      && Shape(sb, d) && NoHoles(sb, d) && i < |d.inodes| && t.k < |src| && |t.op| <= MAXOPBLOCKS
      && Consistent(sb, t.after, t.owner, {})
      && if Refused(t, i, src) then t.op == {} && t.after == d && t.done == t.k
         else WriteDone(d, {}, t.after, t.op, i, Chunk(src, t.k), t.off, t.taken) && t.done == t.k + |Chunk(src, t.k)|
    }

    function Chunk(src: seq<byte>, k: nat): (c: seq<byte>)
      requires k < |src|
      ensures |c| == Piece(|src| - k) && k + |c| <= |src|
    {
      src[k..k + Piece(|src| - k)]
    }

    /** A write of n bytes at off is accepted but there are too few blocks for it. */
    ghost predicate Starved(d: Disk, i: nat, off: nat, n: nat)
      requires Shape(sb, d) && i < |d.inodes|
    {
      && !WriteRejected(d.inodes[i].size, off, n)
      && FreeCount(d.used) < Needed(sb, d, i, off / BSIZE, Spanned(off, n))
    }

    /** The disk after the first n transactions. */
    ghost function DiskAt(ts: seq<Transaction>, d0: Disk, n: nat): Disk
      requires n <= |ts|
    {
      if n == 0 then d0 else ts[n - 1].after
    }

    /** The n-th transaction since disk d0, which finds disk d. */
    ghost predicate IsNth(t: Transaction, n: nat, d0: Disk, d: Disk, i: nat, start: nat, src: seq<byte>)
      requires Shape(sb, d0) && NoHoles(sb, d0) && i < |d0.inodes|
    {
      && t.k == n * MAXPIECE && t.off == start + t.k && t.before == d && OpDone(t, i, src)
      && Written(d0, t.after, i, start, src, t.done)
    }

    ghost predicate Goes(t: Transaction, i: nat, src: seq<byte>) {
      i < |t.before.inodes| && t.k < |src| && !Refused(t, i, src)
    }

    /** None of the first n transactions was refused. */
    ghost predicate Going(ts: seq<Transaction>, n: nat, i: nat, src: seq<byte>)
      requires n <= |ts|
    {
      forall j :: 0 <= j < n ==> Goes(ts[j], i, src)
    }

    /** From d0 there was one transaction after the other, for one chunk of src after the other, and none after writei
        refused a chunk. */
    ghost predicate Transactions(ts: seq<Transaction>, d0: Disk, i: nat, start: nat, src: seq<byte>)
      requires Shape(sb, d0) && NoHoles(sb, d0) && i < |d0.inodes|
    {
      && (forall n: nat :: n < |ts| ==> IsNth(ts[n], n, d0, DiskAt(ts, d0, n), i, start, src))
      && (ts != [] ==> Going(ts, |ts| - 1, i, src))
    }

    /** What they logged. */
    ghost function Ops(ts: seq<Transaction>): seq<set<int>>
      decreases |ts|
    {
      if ts == [] then [] else Ops(ts[..|ts| - 1]) + [ts[|ts| - 1].op]
    }

    /** Where filewrite's loop is on its way, with k of n bytes written and off the file's offset. */
    ghost predicate OnCourse(d0: Disk, d: Disk, i: nat, start: nat, n: nat, k: nat, off: nat)
      requires Shape(sb, d0) && i < |d0.inodes|
    {
      && Shape(sb, d) && k <= n && off == start + k
      && (start <= d0.inodes[i].size ==>
            && off <= d.inodes[i].size && Paid(d0, d, i, start, k)
            && k + Accepted(off, n - k) == Accepted(start, n))
    }

    lemma AcceptedNext(start: nat, n: nat, k: nat, off: nat, m: nat, k': nat, off': nat)
      requires k < n && k + Accepted(off, n - k) == Accepted(start, n)
      requires m == Piece(n - k) && k' == k + m && off' == off + m <= MAXFILE * BSIZE
      ensures k' <= n && k' + Accepted(off', n - k') == Accepted(start, n)
    {
      AcceptedStep(off, n - k);
      assert n - k - m == n - k';
    }

    lemma CourseNext(d0: Disk, d: Disk, d': Disk, i: nat, start: nat, n: nat, k: nat, off: nat, m: nat, k': nat,
                     off': nat)
      requires Shape(sb, d0) && i < |d0.inodes| && OnCourse(d0, d, i, start, n, k, off) && NoHoles(sb, d)
      requires k < n && m == Piece(n - k) && k' == k + m && off' == off + m <= MAXFILE * BSIZE
      requires Paid(d, d', i, off, m) && off' <= d'.inodes[i].size
      ensures OnCourse(d0, d', i, start, n, k', off')
    {
      if start <= d0.inodes[i].size {
        PaidNext(d0, d, d', i, start, k, off, m, k');
        AcceptedNext(start, n, k, off, m, k', off');
      }
    }

    lemma CourseShort(d0: Disk, d: Disk, i: nat, start: nat, n: nat, k: nat, off: nat, m: nat)
      requires Shape(sb, d0) && i < |d0.inodes| && OnCourse(d0, d, i, start, n, k, off)
      requires NoHoles(sb, d0) && NoHoles(sb, d)
      requires k < n && m == Piece(n - k) && start <= d0.inodes[i].size && off + m <= MAXFILE * BSIZE
      requires FreeCount(d.used) < Needed(sb, d, i, off / BSIZE, Spanned(off, m))
      ensures Short(d0, i, start, n)
    {
      SpanNext(d, i, start, k, off, m, k + m);
      NeededBoth(sb, d0, d, i, start / BSIZE, Spanned(start, k), off / BSIZE, Spanned(off, m), Spanned(start, k + m));
      AcceptedStep(off, n - k);
      SpannedMono(start, k + m, Accepted(start, n));
      NeededMono(sb, d0, i, start / BSIZE, Spanned(start, k + m), Spanned(start, Accepted(start, n)));
    }

    lemma CourseEnds(d0: Disk, d: Disk, i: nat, start: nat, n: nat, k: nat, off: nat)
      requires Shape(sb, d0) && i < |d0.inodes| && OnCourse(d0, d, i, start, n, k, off) && NoHoles(sb, d0)
      requires start > d0.inodes[i].size ==> k == 0
      requires k == n || off > d.inodes[i].size || off + Piece(n - k) > MAXFILE * BSIZE
      ensures k == Goal(d0, i, start, n) && !Short(d0, i, start, n)
    {
    }

    lemma DonePaid(d: Disk, l: set<int>, d': Disk, l': set<int>, i: nat, piece: seq<byte>, off: nat, m: nat,
                   taken: seq<int>)
      requires Shape(sb, d) && NoHoles(sb, d) && i < |d.inodes| && !WriteRejected(d.inodes[i].size, off, |piece|)
      requires WriteDone(d, l, d', l', i, piece, off, taken) && m == |piece|
      ensures Paid(d, d', i, off, m) && off + m <= d'.inodes[i].size
    {
      GrownAfter(d.used, d'.used, taken);
      assert |Contents(sb, d', i)| == d'.inodes[i].size;
    }

    lemma ChunkNext(d0: Disk, d: Disk, d': Disk, op: set<int>, i: nat, start: nat, src: seq<byte>, k: nat, off: nat,
                    piece: seq<byte>, m: nat, k': nat, off': nat, taken: seq<int>)
      requires Shape(sb, d0) && NoHoles(sb, d0) && i < |d0.inodes| && Shape(sb, d) && NoHoles(sb, d)
      requires Written(d0, d, i, start, src, k) && OnCourse(d0, d, i, start, |src|, k, off)
      requires k < k' <= |src| && piece == src[k..k'] && m == |piece| == Piece(|src| - k) && off' == off + m
      requires !WriteRejected(d.inodes[i].size, off, |piece|) && WriteDone(d, {}, d', op, i, piece, off, taken)
      ensures Written(d0, d', i, start, src, k') && OnCourse(d0, d', i, start, |src|, k', off')
    {
      DonePaid(d, {}, d', op, i, piece, off, m, taken);
      WrittenStep(d0, d, d', i, start, src, k, off, piece, k');
      CourseNext(d0, d, d', i, start, |src|, k, off, m, k', off');
    }

    /** Where a round takes filewrite from k and off, in a file of that size: a chunk further, or nowhere if writei
        refuses. */
    predicate Moves(size: nat, n: nat, k: nat, off: nat, k': nat, off': nat)
      requires k < n
    {
      if WriteRejected(size, off, Piece(n - k)) then k' == k && off' == off
      else k' == k + Piece(n - k) && off' == off + Piece(n - k)
    }

    /** How many chunks k bytes make. */
    function Chunks(k: nat): nat {
      if k == 0 then 0 else if k <= MAXPIECE then 1 else 1 + Chunks(k - MAXPIECE)
    }

    lemma {:induction false} ChunksRoundUp(k: nat)
      ensures Chunks(k) == (k + MAXPIECE - 1) / MAXPIECE
    {
      if k > MAXPIECE { ChunksRoundUp(k - MAXPIECE); }
    }

    lemma {:induction false} ChunksOf(count: nat, m: nat)
      requires m <= MAXPIECE
      ensures Chunks(count * MAXPIECE + m) == count + if m > 0 then 1 else 0
    {
      if count > 0 {
        ChunksOf(count - 1, m);
        assert (count - 1) * MAXPIECE == count * MAXPIECE - MAXPIECE;
      }
    }

    lemma NextPiece(size: nat, n: nat, k: nat, off: nat, k': nat, off': nat, count: nat)
      requires k < n && k == count * MAXPIECE && Moves(size, n, k, off, k', off')
      ensures k <= k' <= n && (k < k' < n ==> k' == (count + 1) * MAXPIECE)
      ensures Chunks(k) == count && (k < k' ==> Chunks(k') == count + 1)
    {
      ChunksOf(count, 0);
      ChunksOf(count, Piece(n - k));
    }

    /** One round of filewrite's loop: writei of chunk k, in a transaction. */
    method WriteOneChunk(i: nat, src: seq<byte>, off: nat, k: nat)
        returns (k': nat, off': nat, panicked: bool, op: set<int>, ghost t: Transaction)
      requires Valid() && i < |disk.inodes| && off < UINT && k < |src|
      modifies this
      ensures t.k == k && t.off == off && t.done == k' && t.before == old(disk) && t.after == disk && t.op == op
      ensures panicked ==> AllUsed(disk.used) && Starved(old(disk), i, off, |Chunk(src, k)|)
      ensures !panicked ==> Valid() && OpDone(t, i, src)
      ensures !panicked ==> Moves(old(disk).inodes[i].size, |src|, k, off, k', off')
    {
      var piece := Chunk(src, k);
      ghost var d, taken := disk, [];
      k', off' := k, off;
      var r;
      r, panicked, op, taken := WriteTransaction(i, piece, off);
      if !panicked && r > 0 {
        k', off' := k + r, off + r;
      }
      t := Transaction(k, off, k', d, disk, op, taken, owner);
    }

    lemma NthMore(ts: seq<Transaction>, us: seq<Transaction>, d0: Disk, i: nat, start: nat, src: seq<byte>,
                  t: Transaction, n: nat)
      requires Shape(sb, d0) && NoHoles(sb, d0) && i < |d0.inodes|
      requires us == ts + [t] && n < |us| && IsNth(t, |ts|, d0, DiskAt(ts, d0, |ts|), i, start, src)
      requires n < |ts| ==> IsNth(ts[n], n, d0, DiskAt(ts, d0, n), i, start, src)
      ensures IsNth(us[n], n, d0, DiskAt(us, d0, n), i, start, src)
    {
      assert DiskAt(us, d0, n) == DiskAt(ts, d0, n);
    }

    lemma GoingMore(ts: seq<Transaction>, i: nat, src: seq<byte>, t: Transaction)
      requires Going(ts, |ts|, i, src)
      ensures Going(ts + [t], |ts|, i, src)
      ensures Going(ts + [t], |ts + [t]|, i, src) <==> Goes(t, i, src)
    {
      assert (ts + [t])[|ts|] == t;
    }

    lemma OneMoreTransaction(ts: seq<Transaction>, d0: Disk, i: nat, start: nat, src: seq<byte>, t: Transaction)
      requires Shape(sb, d0) && NoHoles(sb, d0) && i < |d0.inodes|
      requires Transactions(ts, d0, i, start, src) && Going(ts, |ts|, i, src)
      requires IsNth(t, |ts|, d0, DiskAt(ts, d0, |ts|), i, start, src)
      ensures Transactions(ts + [t], d0, i, start, src) && DiskAt(ts + [t], d0, |ts + [t]|) == t.after
      ensures Ops(ts + [t]) == Ops(ts) + [t.op]
    {
      var us := ts + [t];
      forall n: nat | n < |us| ensures IsNth(us[n], n, d0, DiskAt(us, d0, n), i, start, src) {
        NthMore(ts, us, d0, i, start, src, t, n);
      }
      GoingMore(ts, i, src, t);
      assert us[..|ts|] == ts;
    }

    lemma ChunkMoved(size: nat, src: seq<byte>, k: nat, off: nat, k': nat, off': nat)
      requires k < |src| && Moves(size, |src|, k, off, k', off') && k' != k
      ensures k < k' <= |src| && Chunk(src, k) == src[k..k'] && off' == off + |Chunk(src, k)|
      ensures !WriteRejected(size, off, |Chunk(src, k)|)
    {
    }

    lemma OpTaken(d0: Disk, i: nat, start: nat, src: seq<byte>, t: Transaction, k': nat, off': nat)
      requires Shape(sb, d0) && NoHoles(sb, d0) && i < |d0.inodes| && OpDone(t, i, src)
      requires Moves(t.before.inodes[i].size, |src|, t.k, t.off, k', off') && k' != t.k
      requires Written(d0, t.before, i, start, src, t.k) && OnCourse(d0, t.before, i, start, |src|, t.k, t.off)
      ensures Written(d0, t.after, i, start, src, k') && OnCourse(d0, t.after, i, start, |src|, k', off')
    {
      var piece := Chunk(src, t.k);
      ChunkMoved(t.before.inodes[i].size, src, t.k, t.off, k', off');
      ChunkNext(d0, t.before, t.after, t.op, i, start, src, t.k, t.off, piece, |piece|, k', off', t.taken);
    }

    /** What a transaction does for filewrite: a chunk more, or else filewrite is where it was meant to get. */
    lemma OpMoves(d0: Disk, i: nat, start: nat, src: seq<byte>, t: Transaction, k': nat, off': nat)
      requires Shape(sb, d0) && NoHoles(sb, d0) && i < |d0.inodes| && OpDone(t, i, src)
      requires Moves(t.before.inodes[i].size, |src|, t.k, t.off, k', off')
      requires Written(d0, t.before, i, start, src, t.k) && OnCourse(d0, t.before, i, start, |src|, t.k, t.off)
      ensures Written(d0, t.after, i, start, src, k') && OnCourse(d0, t.after, i, start, |src|, k', off')
      ensures k' == t.k ==> k' == Goal(d0, i, start, |src|) && !Short(d0, i, start, |src|)
    {
      if k' == t.k {
        CourseEnds(d0, t.before, i, start, |src|, t.k, t.off);
      } else {
        OpTaken(d0, i, start, src, t, k', off');
      }
    }

    /** filewrite with k bytes of src written, in transactions ts. */
    ghost predicate Midway(d0: Disk, d: Disk, ts: seq<Transaction>, i: nat, start: nat, src: seq<byte>, k: nat,
                           off: nat)
      requires Shape(sb, d0) && NoHoles(sb, d0) && i < |d0.inodes|
    {
      && Written(d0, d, i, start, src, k) && OnCourse(d0, d, i, start, |src|, k, off)
      && Transactions(ts, d0, i, start, src) && DiskAt(ts, d0, |ts|) == d
    }

    lemma FileBegins(d: Disk, i: nat, start: nat, src: seq<byte>)
      requires Shape(sb, d) && NoHoles(sb, d) && i < |d.inodes|
      ensures Midway(d, d, [], i, start, src, 0, start)
    {
      assert start <= d.inodes[i].size ==> Contents(sb, d, i) == Splice(Contents(sb, d, i), start, src[..0]);
    }

    lemma MidwayMoves(d0: Disk, ts: seq<Transaction>, i: nat, start: nat, src: seq<byte>, t: Transaction,
                      k': nat, off': nat)
      requires Shape(sb, d0) && NoHoles(sb, d0) && i < |d0.inodes| && OpDone(t, i, src)
      requires Moves(t.before.inodes[i].size, |src|, t.k, t.off, k', off') && t.done == k'
      requires Midway(d0, t.before, ts, i, start, src, t.k, t.off) && t.k == |ts| * MAXPIECE && Going(ts, |ts|, i, src)
      ensures Midway(d0, t.after, ts + [t], i, start, src, k', off') && Ops(ts + [t]) == Ops(ts) + [t.op]
      ensures k' == t.k || k' == |src| ==> k' == Goal(d0, i, start, |src|) && !Short(d0, i, start, |src|)
    {
      OpMoves(d0, i, start, src, t, k', off');
      OneMoreTransaction(ts, d0, i, start, src, t);
      if k' == |src| {
        CourseEnds(d0, t.after, i, start, |src|, k', off');
      }
    }

    lemma MidwayCounts(ts: seq<Transaction>, i: nat, src: seq<byte>, t: Transaction, k': nat, off': nat)
      requires i < |t.before.inodes| && t.k < |src| && Moves(t.before.inodes[i].size, |src|, t.k, t.off, k', off')
      requires t.k == |ts| * MAXPIECE && Going(ts, |ts|, i, src)
      ensures t.k < k' < |src| ==> k' == |ts + [t]| * MAXPIECE
      ensures |ts + [t]| == Chunks(k') + if k' == t.k then 1 else 0
      ensures k' != t.k <==> Going(ts + [t], |ts + [t]|, i, src)
    {
      NextPiece(t.before.inodes[i].size, |src|, t.k, t.off, k', off', |ts|);
      GoingMore(ts, i, src, t);
    }

    /** done of length bytes are written after m transactions: m chunks of them, or one less if the last was refused. */
    predicate Whole(done: nat, m: nat, length: nat) {
      done == length || done == m * MAXPIECE || done + MAXPIECE == m * MAXPIECE
    }

    lemma NthLeaves(t: Transaction, n: nat, d0: Disk, d: Disk, i: nat, start: nat, src: seq<byte>)
      requires Shape(sb, d0) && NoHoles(sb, d0) && i < |d0.inodes| && IsNth(t, n, d0, d, i, start, src)
      ensures Consistent(sb, t.after, t.owner, {}) && Written(d0, t.after, i, start, src, t.done)
      ensures Whole(t.done, n + 1, |src|)
    {
    }

    /** What filewrite leaves after a transaction: a whole number of chunks written, and the bitmap and the block
        pointers in agreement. */
    lemma NthAt(ts: seq<Transaction>, d0: Disk, i: nat, start: nat, src: seq<byte>, n: nat)
      requires Shape(sb, d0) && NoHoles(sb, d0) && i < |d0.inodes| && Transactions(ts, d0, i, start, src) && n < |ts|
      ensures Consistent(sb, ts[n].after, ts[n].owner, {}) && Written(d0, ts[n].after, i, start, src, ts[n].done)
      ensures Whole(ts[n].done, n + 1, |src|)
    {
      NthLeaves(ts[n], n, d0, DiskAt(ts, d0, n), i, start, src);
    }

    /** A transaction of filewrite changes nothing without logging it. */
    lemma NthLogs(ts: seq<Transaction>, d0: Disk, i: nat, start: nat, src: seq<byte>, n: nat)
      requires Shape(sb, d0) && NoHoles(sb, d0) && i < |d0.inodes| && Transactions(ts, d0, i, start, src) && n < |ts|
      ensures LogsAll(sb, DiskAt(ts, d0, n), DiskAt(ts, d0, n + 1), ts[n].op)
    {
      OpLogs(ts[n], n, d0, DiskAt(ts, d0, n), i, start, src);
    }

    lemma OpLogs(t: Transaction, n: nat, d0: Disk, d: Disk, i: nat, start: nat, src: seq<byte>)
      requires Shape(sb, d0) && NoHoles(sb, d0) && i < |d0.inodes| && IsNth(t, n, d0, d, i, start, src)
      ensures LogsAll(sb, d, t.after, t.op)
    {
    }

    lemma MidwayShort(d0: Disk, d: Disk, ts: seq<Transaction>, i: nat, start: nat, src: seq<byte>, k: nat, off: nat)
      requires Shape(sb, d0) && NoHoles(sb, d0) && i < |d0.inodes| && k < |src|
      requires Midway(d0, d, ts, i, start, src, k, off) && Starved(d, i, off, |Chunk(src, k)|)
      ensures Short(d0, i, start, |src|)
    {
      CourseShort(d0, d, i, start, |src|, k, off, |Chunk(src, k)|);
    }

    lemma NothingToWrite(d: Disk, i: nat, start: nat)
      requires Shape(sb, d) && NoHoles(sb, d) && i < |d.inodes|
      ensures Goal(d, i, start, 0) == 0 && !Short(d, i, start, 0)
    {
    }

    /** filewrite on an inode: one transaction per chunk of at most three blocks.  ops is what each of them logged, and
        k how much of src got written. */
    method FileWrite(i: nat, src: seq<byte>, start: nat)
        returns (ret: int, off: nat, panicked: bool, ops: seq<set<int>>, k: nat, ghost ts: seq<Transaction>)
      requires Valid() && i < |disk.inodes| && start < UINT && |src| < UINT
      modifies this
      ensures Transactions(ts, old(disk), i, start, src) && ops == Ops(ts)
      ensures !panicked ==>
        && Valid() && off == start + k && Written(old(disk), disk, i, start, src, k)
        && DiskAt(ts, old(disk), |ts|) == disk
        && k == Goal(old(disk), i, start, |src|) && ret == (if k == |src| then |src| else -1)
        && |ts| == Chunks(k) + if k < |src| then 1 else 0
      ensures panicked <==> Short(old(disk), i, start, |src|)
      ensures panicked ==> AllUsed(disk.used)
    {
      ghost var d0 := disk;
      off, k, panicked, ops, ts := start, 0, false, [], [];
      FileBegins(d0, i, start, src);
      if |src| == 0 {
        NothingToWrite(d0, i, start);
      }
      while k < |src|
        invariant off < UINT && !panicked && Valid() && Midway(d0, disk, ts, i, start, src, k, off) && ops == Ops(ts)
        invariant (k < |src| ==> k == |ts| * MAXPIECE) && |ts| == Chunks(k) && Going(ts, |ts|, i, src)
        invariant k == |src| ==> k == Goal(d0, i, start, |src|) && !Short(d0, i, start, |src|)
      {
        var k', off', op;
        ghost var d, t := disk, Transaction(0, 0, 0, disk, disk, {}, [], owner);
        k', off', panicked, op, t := WriteOneChunk(i, src, off, k);
        if panicked {
          MidwayShort(d0, d, ts, i, start, src, k, off);
          ret := -1;
          return;
        }
        MidwayMoves(d0, ts, i, start, src, t, k', off');
        MidwayCounts(ts, i, src, t, k', off');
        ops, ts := ops + [op], ts + [t];
        if k' == k {
          break;
        }
        k, off := k', off';
      }
      ret := if k == |src| then |src| else -1;
    }

    /** Clear the bit of block b, which must be set. */
    method Bfree(b: nat) returns (ok: bool)
      requires b < |disk.used|
      modifies this`disk, this`logged
      ensures ok <==> old(disk).used[b]
      ensures ok ==> disk == Disk(old(disk).used[b := false], old(disk).data, old(disk).inodes)
                     && logged == old(logged) + {BBlock(sb, b)}
      ensures !ok ==> disk == old(disk) && logged == old(logged)
    {
      if !disk.used[b] {
        return false;
      }
      disk := Disk(disk.used[b := false], disk.data, disk.inodes);
      logged := logged + {BBlock(sb, b)};
      return true;
    }

    /** Discard the contents of inode i.  The bitmap loses exactly the blocks inode i owned, every other
        file is as it was, and the panic of bfree cannot happen. */
    method Itrunc(i: nat) returns (ok: bool)
      requires Valid() && i < |disk.inodes|
      modifies this
      ensures ok && Valid()
      ensures forall s: nat :: s <= INDIRECT ==> Slot(sb, disk, i, s) == 0
      ensures disk.inodes[i].size == 0
      ensures forall b :: 0 <= b < sb.size ==>
                (disk.used[b] <==> old(disk).used[b] && !OwnedBy(old(owner), i, b))
      ensures OthersSame(old(disk), disk, i)
    {
      ghost var d0 := disk;
      ok := FreeDirects(i);
      if ok {
        ok := FreeIndirects(i, d0);
      }
      if ok {
        TruncEnds(sb, d0, disk, owner, i);
        disk := Emptied(disk, i);
        owner := Disowned(owner, i);
        logged := logged + {IBlock(sb, i)};
      }
    }

    /** itrunc's first loop. */
    method FreeDirects(i: nat) returns (ok: bool)
      requires Consistent(sb, disk, owner, {}) && i < |disk.inodes|
      modifies this`disk, this`logged
      ensures ok && FreedTo(sb, old(disk), disk, owner, i, NDIRECT)
    {
      ghost var d0 := disk;
      ok := true;
      var k := 0;
      while k < NDIRECT
        invariant 0 <= k <= NDIRECT && ok
        invariant FreedTo(sb, d0, disk, owner, i, k)
      {
        var addr := disk.inodes[i].addrs[k];
        assert addr == Slot(sb, d0, i, k);
        if addr != 0 {
          NextIsUsed(sb, d0, disk, owner, i, k);
          FreeDirect(sb, d0, disk, owner, i, k);
          ok := Bfree(addr);
          disk := SetAddr(disk, i, k, 0);
        } else {
          FreeEmpty(sb, d0, disk, owner, i, k);
        }
        k := k + 1;
      }
    }

    /** itrunc's handling of the indirect block, whose entries it leaves in place. */
    method FreeIndirects(i: nat, ghost d0: Disk) returns (ok: bool)
      requires Consistent(sb, d0, owner, {}) && FreedTo(sb, d0, disk, owner, i, NDIRECT)
      modifies this`disk, this`logged
      ensures ok && FreedTo(sb, d0, disk, owner, i, INDIRECT + 1)
    {
      var ind := disk.inodes[i].addrs[NDIRECT];
      assert ind == Slot(sb, d0, i, INDIRECT);
      ok := true;
      if ind == 0 {
        FreeNone(sb, d0, disk, owner, i, NDIRECT);
        return;
      }
      var j := 0;
      while j < NINDIRECT
        invariant 0 <= j <= NINDIRECT && ok
        invariant FreedTo(sb, d0, disk, owner, i, NDIRECT + j)
      {
        var addr := GetWord(disk.data[ind], j);
        assert addr == Slot(sb, d0, i, NDIRECT + j);
        if addr != 0 {
          NextIsUsed(sb, d0, disk, owner, i, NDIRECT + j);
          FreeEntry(sb, d0, disk, owner, i, NDIRECT + j);
          ok := Bfree(addr);
        } else {
          FreeEmpty(sb, d0, disk, owner, i, NDIRECT + j);
        }
        j := j + 1;
      }
      NextIsUsed(sb, d0, disk, owner, i, INDIRECT);
      FreeEntry(sb, d0, disk, owner, i, INDIRECT);
      ok := Bfree(ind);
    }
  }
}
