/** MAXOPBLOCKS of kernel/param.h is as small as filewrite allows: one of its transactions can log ten blocks. */
module FullTransaction {
  import opened Basics
  import opened InodeModel
  import opened Param
  import opened WriteSet
  import F = FileSystem

  // A disk of 32768 blocks and 2731 inodes.  Only the last bit of each bitmap block is clear.
  // Data block b belongs to direct slot b % 12 of inode b / 12, and no inode has an indirect block.
  const SIZE := 32768
  const NINODES := 2731
  const FILE := 18              // an inode with all its direct slots mapped
  const OFFSET := 11265         // one byte into its last direct block

  function Layout(): Super { Super(SIZE, NINODES, 32, 203, 208) }

  predicate Taken(b: int) { b % BPB != BPB - 1 }

  function Bitmap(): seq<bool> { seq(SIZE, b => Taken(b)) }

  /** The block in direct slot k of inode i. */
  function Direct(i: int, k: int): int {
    if 208 <= NDIRECT * i + k < SIZE && Taken(NDIRECT * i + k) then NDIRECT * i + k else 0
  }

  function Ip(i: int): (ip: Inode)
    ensures |ip.addrs| == NDIRECT + 1
  {
    Inode(seq(NDIRECT + 1, k => if k < NDIRECT then Direct(i, k) else 0), if i == FILE then OFFSET else 0)
  }

  function FullDisk(): Disk { Disk(Bitmap(), seq(SIZE, _ => ZeroBlock()), seq(NINODES, i => Ip(i))) }

  ghost function Owners(): Owner {
    map b | 208 <= b < SIZE && Taken(b) :: (b / NDIRECT, b % NDIRECT)
  }

  lemma Slots(i: nat, s: nat)
    requires i < NINODES && s <= INDIRECT
    ensures Shape(Layout(), FullDisk())
    ensures Slot(Layout(), FullDisk(), i, s) == if s < NDIRECT then Direct(i, s) else 0
  {
    assert FullDisk().inodes[i] == Ip(i);
  }

  lemma SlotIsOwned(i: nat, s: nat)
    requires i < NINODES && s < NDIRECT && Direct(i, s) != 0
    ensures Direct(i, s) in Owners() && Owners()[Direct(i, s)] == (i, s)
  {
  }

  lemma OwnedIsSlot(b: int)
    requires b in Owners()
    ensures 208 <= b < SIZE && Owners()[b].0 < NINODES && Owners()[b].1 < NDIRECT
    ensures Direct(Owners()[b].0, Owners()[b].1) == b
  {
  }

  lemma Owned()
    ensures Shape(Layout(), FullDisk()) && SlotsOwned(Layout(), FullDisk(), Owners())
  {
    var sb, d, owner := Layout(), FullDisk(), Owners();
    Slots(0, 0);
    forall i: nat, s: nat | i < |d.inodes| && s <= INDIRECT && Slot(sb, d, i, s) != 0
      ensures Slot(sb, d, i, s) in owner && owner[Slot(sb, d, i, s)] == (i, s)
    {
      Slots(i, s);
      SlotIsOwned(i, s);
    }
    forall b | b in owner
      ensures sb.datastart <= b < sb.size && owner[b].0 < |d.inodes| && owner[b].1 <= INDIRECT
      ensures Slot(sb, d, owner[b].0, owner[b].1) == b
    {
      OwnedIsSlot(b);
      Slots(owner[b].0, owner[b].1);
    }
  }

  lemma Whole()
    ensures Consistent(Layout(), FullDisk(), Owners(), {}) && NoHoles(Layout(), FullDisk())
  {
    var sb, d := Layout(), FullDisk();
    Owned();
    forall i: nat, s: nat | i < |d.inodes| && s < MAXFILE && s * BSIZE < d.inodes[i].size
      ensures Slot(sb, d, i, s) != 0
    {
      Slots(i, s);
      assert i == FILE && s < NDIRECT;
    }
  }

  /** The write maps three entries of an indirect block that it has to allocate first. */
  lemma FourNeeded()
    ensures Shape(Layout(), FullDisk()) && EntryNew(Layout(), FullDisk(), FILE, 11, 4)
    ensures Needed(Layout(), FullDisk(), FILE, 11, 4) == 4
  {
    var sb, d := Layout(), FullDisk();
    Slots(FILE, 11);
    Slots(FILE, 12);
    Slots(FILE, 13);
    Slots(FILE, 14);
    Slots(FILE, INDIRECT);
    OneSlot(sb, d, FILE, 11);
    assert NewCount(sb, d, FILE, 11, 2) == 1 && EntryNew(sb, d, FILE, 11, 2);
    assert NewCount(sb, d, FILE, 11, 3) == 2 && EntryNew(sb, d, FILE, 11, 3);
  }

  function Frees(n: nat): seq<int> { seq(n, k => k * BPB + BPB - 1) }

  lemma {:induction false} BitmapBlocks(n: nat)
    ensures |Bits(Layout(), Frees(n))| == n && forall x :: x in Bits(Layout(), Frees(n)) ==> x < 203 + n
  {
    if n > 0 {
      BitmapBlocks(n - 1);
      assert Frees(n)[..n - 1] == Frees(n - 1);
    }
  }

  /** The blocks allocated one after the other are the last ones of the bitmap blocks. */
  lemma {:induction false} Allocated(n: nat)
    requires n <= 4
    ensures Grown(Bitmap(), After(Bitmap(), Frees(n)), Frees(n))
    ensures forall b :: 0 <= b < SIZE ==> (After(Bitmap(), Frees(n))[b] <==> Taken(b) || b < n * BPB)
  {
    if n > 0 {
      Allocated(n - 1);
      assert Frees(n)[..n - 1] == Frees(n - 1);
    }
  }

  /** Writing bytes of inode i that lie in four blocks needs four new ones, one of them indirect, and the four lowest
      clear bits, of blocks f, are in different bitmap blocks. */
  ghost predicate Worst(sb: Super, d: Disk, i: nat, off: nat, n: nat, f: seq<int>) {
    && Shape(sb, d) && i < |d.inodes| && Apart(sb) && off + n <= MAXFILE * BSIZE && off <= d.inodes[i].size
    && F.Spanned(off, n) == 4 && EntryNew(sb, d, i, off / BSIZE, 4) && Needed(sb, d, i, off / BSIZE, 4) == 4
    && |f| == 4 && Grown(d.used, After(d.used, f), f) && |Bits(sb, f)| == 4
  }

  /** A transaction that is as bad as that goes through and logs ten blocks. */
  method WorstWrite(fs: F.FileSystem, i: nat, piece: seq<byte>, off: nat, ghost f: seq<int>)
      returns (op: set<int>, ghost taken: seq<int>)
    requires fs.Valid() && i < |fs.disk.inodes| && off < UINT && |piece| <= F.MAXPIECE
    requires Worst(fs.sb, fs.disk, i, off, |piece|, f)
    modifies fs
    ensures fs.Valid() && op == fs.logged && fs.WriteDone(old(fs.disk), {}, fs.disk, op, i, piece, off, taken)
    ensures |op| == MAXOPBLOCKS
  {
    ghost var used := fs.disk.used;
    GrownAfter(used, After(used, f), f);
    var r, panicked;
    r, panicked, op, taken := fs.WriteTransaction(i, piece, off);
    GrownUnique(used, fs.disk.used, taken, After(used, f), f);
  }

  lemma WorstFile()
    ensures Consistent(Layout(), FullDisk(), Owners(), {}) && NoHoles(Layout(), FullDisk())
    ensures Worst(Layout(), FullDisk(), FILE, OFFSET, 3072, Frees(4))
  {
    Whole();
    Slots(FILE, 0);
    FourNeeded();
    Allocated(4);
    BitmapBlocks(4);
  }

  /** There is such a write: on the consistent disk FullDisk(), of 3072 bytes to FILE at OFFSET. */
  method TenBlocks() returns (fs: F.FileSystem, op: set<int>, ghost taken: seq<int>)
    ensures Consistent(Layout(), FullDisk(), Owners(), {}) && NoHoles(Layout(), FullDisk())
    ensures Worst(Layout(), FullDisk(), FILE, OFFSET, 3072, Frees(4))
    ensures fs.sb == Layout() && fs.Valid() && op == fs.logged
    ensures fs.WriteDone(FullDisk(), {}, fs.disk, op, FILE, Zeroes(), OFFSET, taken)
    ensures |op| == MAXOPBLOCKS
  {
    WorstFile();
    fs := new F.FileSystem(Layout(), FullDisk(), Owners());
    op, taken := WorstWrite(fs, FILE, Zeroes(), OFFSET, Frees(4));
  }

  function Zeroes(): (z: seq<byte>)
    ensures |z| == 3072
  {
    seq(3072, _ => 0)
  }
}
