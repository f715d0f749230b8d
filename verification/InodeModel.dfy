/** Inodes, data blocks and the free bitmap of kernel/fs.c as values, and what it means for the bitmap
    and the block pointers to agree. */
module InodeModel {
  const BSIZE := 1024
  const NDIRECT := 12
  const NINDIRECT := 256        // BSIZE / sizeof(uint)
  const MAXFILE := 268          // NDIRECT + NINDIRECT
  const INDIRECT := 268         // slot number of the indirect block itself
  const BPB := 8192             // bitmap bits per block
  const IPB := 16               // inodes per block
  const UINT := 0x1_0000_0000

  newtype byte = x: int | 0 <= x < 256

  datatype Block = Block(bytes: seq<byte>)
  datatype Inode = Inode(addrs: seq<int>, size: nat)
  datatype Super = Super(size: nat, ninodes: nat, inodestart: nat, bmapstart: nat, datastart: nat)

  /** The parts of the disk these functions touch, as the buffer cache shows them. */
  datatype Disk = Disk(used: seq<bool>, data: seq<Block>, inodes: seq<Inode>)

  function ZeroBlock(): (z: Block)
    ensures |z.bytes| == BSIZE && forall k :: 0 <= k < BSIZE ==> z.bytes[k] == 0
  {
    Block(seq(BSIZE, _ => 0))
  }

  // ---------------------------------------------------------------------
  // A block seen as an array of little-endian 32-bit words

  function GetWord(bl: Block, j: nat): (w: int)
    requires |bl.bytes| == BSIZE && j < NINDIRECT
    ensures 0 <= w < UINT
  {
    bl.bytes[4 * j] as int + 256 * (bl.bytes[4 * j + 1] as int)
      + 65536 * (bl.bytes[4 * j + 2] as int) + 16777216 * (bl.bytes[4 * j + 3] as int)
  }

  function SetWord(bl: Block, j: nat, w: int): (r: Block)
    requires |bl.bytes| == BSIZE && j < NINDIRECT && 0 <= w < UINT
    ensures |r.bytes| == BSIZE
  {
    Digits(w);
    Block(bl.bytes[4 * j := (w % 256) as byte]
                  [4 * j + 1 := (w / 256 % 256) as byte]
                  [4 * j + 2 := (w / 65536 % 256) as byte]
                  [4 * j + 3 := (w / 16777216) as byte])
  }

  lemma Digits(w: int)
    requires 0 <= w < UINT
    ensures w % 256 + 256 * (w / 256 % 256) + 65536 * (w / 65536 % 256) + 16777216 * (w / 16777216) == w
    ensures 0 <= w / 16777216 < 256
  {
    assert w / 65536 == w / 256 / 256;
    assert w / 16777216 == w / 65536 / 256;
  }

  lemma OtherWord(bl: Block, j: nat, w: int, k: nat)
    requires |bl.bytes| == BSIZE && j < NINDIRECT && 0 <= w < UINT && k < NINDIRECT && k != j
    ensures GetWord(SetWord(bl, j, w), k) == GetWord(bl, k)
  {
    assert 4 * k + 3 < 4 * j || 4 * j + 3 < 4 * k;
  }

  lemma WordRoundTrip(bl: Block, j: nat, w: int)
    requires |bl.bytes| == BSIZE && j < NINDIRECT && 0 <= w < UINT
    ensures GetWord(SetWord(bl, j, w), j) == w
    ensures forall k :: 0 <= k < NINDIRECT && k != j ==> GetWord(SetWord(bl, j, w), k) == GetWord(bl, k)
  {
    Digits(w);
    forall k | 0 <= k < NINDIRECT && k != j
      ensures GetWord(SetWord(bl, j, w), k) == GetWord(bl, k)
    {
      OtherWord(bl, j, w, k);
    }
  }

  lemma ZeroWords()
    ensures |ZeroBlock().bytes| == BSIZE
    ensures forall j :: 0 <= j < NINDIRECT ==> GetWord(ZeroBlock(), j) == 0
  {
  }

  // ---------------------------------------------------------------------
  // Block pointers

  predicate Shape(sb: Super, d: Disk) {
    && 1 <= sb.datastart <= sb.size < UINT
    && |d.used| == sb.size && |d.data| == sb.size && |d.inodes| == sb.ninodes
    && (forall b :: 0 <= b < |d.data| ==> |d.data[b].bytes| == BSIZE)
    && (forall i :: 0 <= i < |d.inodes| ==> |d.inodes[i].addrs| == NDIRECT + 1)
    && (forall i :: 0 <= i < |d.inodes| ==> 0 <= d.inodes[i].addrs[NDIRECT] < sb.size)
  }

  /** The block number in slot s of inode i: direct, through the indirect block, or the indirect block
      itself; 0 when there is none. */
  function Slot(sb: Super, d: Disk, i: nat, s: nat): int
    requires Shape(sb, d) && i < |d.inodes| && s <= INDIRECT
  {
    if s < NDIRECT then d.inodes[i].addrs[s]
    else if s == INDIRECT then d.inodes[i].addrs[NDIRECT]
    else if d.inodes[i].addrs[NDIRECT] == 0 then 0
    else GetWord(d.data[d.inodes[i].addrs[NDIRECT]], s - NDIRECT)
  }

  /** Which slot of which inode a data block belongs to. */
  type Owner = map<int, (nat, nat)>

  ghost predicate SlotsOwned(sb: Super, d: Disk, owner: Owner)
    requires Shape(sb, d)
  {
    && (forall i: nat, s: nat :: i < |d.inodes| && s <= INDIRECT && Slot(sb, d, i, s) != 0 ==>
          Slot(sb, d, i, s) in owner && owner[Slot(sb, d, i, s)] == (i, s))
    && (forall b :: b in owner ==>
          && sb.datastart <= b < sb.size
          && owner[b].0 < |d.inodes| && owner[b].1 <= INDIRECT
          && Slot(sb, d, owner[b].0, owner[b].1) == b)
  }

  /** The bitmap marks the metadata, the owned blocks and the loose ones, and nothing else. */
  ghost predicate BitmapExact(sb: Super, d: Disk, owner: Owner, loose: set<int>)
    requires Shape(sb, d)
  {
    forall b :: 0 <= b < sb.size ==> (d.used[b] <==> b < sb.datastart || b in owner || b in loose)
  }

  /** Every block below the size of a file is mapped. */
  ghost predicate NoHoles(sb: Super, d: Disk)
    requires Shape(sb, d)
  {
    forall i: nat :: i < |d.inodes| ==>
      && d.inodes[i].size <= MAXFILE * BSIZE
      && forall s: nat :: s < MAXFILE && s * BSIZE < d.inodes[i].size ==> Slot(sb, d, i, s) != 0
  }

  ghost predicate Consistent(sb: Super, d: Disk, owner: Owner, loose: set<int>) {
    && Shape(sb, d)
    && SlotsOwned(sb, d, owner)
    && BitmapExact(sb, d, owner, loose)
    && (forall b :: b in loose ==> sb.datastart <= b < sb.size && b !in owner)
  }

  /** Each allocated data block is in exactly one slot of one inode. */
  lemma OneSlotEach(sb: Super, d: Disk, owner: Owner, b: int)
    requires Consistent(sb, d, owner, {})
    requires sb.datastart <= b < sb.size && d.used[b]
    ensures exists i: nat, s: nat :: i < |d.inodes| && s <= INDIRECT && Slot(sb, d, i, s) == b
    ensures forall i: nat, s: nat, j: nat, t: nat ::
              && i < |d.inodes| && s <= INDIRECT && j < |d.inodes| && t <= INDIRECT
              && Slot(sb, d, i, s) == b && Slot(sb, d, j, t) == b
              ==> (i, s) == (j, t)
  {
    assert Slot(sb, d, owner[b].0, owner[b].1) == b;
  }

  // ---------------------------------------------------------------------
  // Elementary changes

  /** Changing the contents of a block that is no inode's indirect block moves no pointer. */
  lemma DataFrame(sb: Super, d: Disk, b: int, bl: Block)
    requires Shape(sb, d) && 0 <= b < sb.size && |bl.bytes| == BSIZE
    requires b == 0 || forall i :: 0 <= i < |d.inodes| ==> d.inodes[i].addrs[NDIRECT] != b
    ensures var d' := d.(data := d.data[b := bl]);
      Shape(sb, d') && forall i: nat, s: nat :: i < |d.inodes| && s <= INDIRECT ==>
        Slot(sb, d', i, s) == Slot(sb, d, i, s)
  {
  }

  function Allocate(d: Disk, b: nat): Disk
    requires b < |d.used| && b < |d.data|
  {
    Disk(d.used[b := true], d.data[b := ZeroBlock()], d.inodes)
  }

  lemma AllocateKeeps(sb: Super, d: Disk, owner: Owner, b: nat)
    requires Consistent(sb, d, owner, {}) && b < sb.size && !d.used[b]
    ensures var d' := Allocate(d, b);
      && Consistent(sb, d', owner, {b})
      && forall i: nat, s: nat :: i < |d.inodes| && s <= INDIRECT ==> Slot(sb, d', i, s) == Slot(sb, d, i, s)
  {
    forall i: nat | i < |d.inodes| ensures d.inodes[i].addrs[NDIRECT] != b {
      assert Slot(sb, d, i, INDIRECT) == d.inodes[i].addrs[NDIRECT];
    }
    DataFrame(sb, d, b, ZeroBlock());
    var d1 := d.(data := d.data[b := ZeroBlock()]);
    assert forall i: nat, s: nat :: i < |d.inodes| && s <= INDIRECT ==>
      Slot(sb, Allocate(d, b), i, s) == Slot(sb, d1, i, s);
  }

  /** d' has b in slot s of inode i and every other pointer as in d. */
  ghost predicate OnePointerSet(sb: Super, d: Disk, d': Disk, i: nat, s: nat, b: int) {
    && Shape(sb, d) && Shape(sb, d') && i < |d.inodes| && s <= INDIRECT
    && d'.used == d.used
    && forall j: nat, t: nat :: j < |d.inodes| && t <= INDIRECT ==>
         Slot(sb, d', j, t) == if j == i && t == s then b else Slot(sb, d, j, t)
  }

  /** Putting the loose block into an empty slot restores the exact bitmap. */
  lemma LinkKeeps(sb: Super, d: Disk, d': Disk, owner: Owner, i: nat, s: nat, b: int)
    requires Consistent(sb, d, owner, {b}) && OnePointerSet(sb, d, d', i, s, b)
    requires Slot(sb, d, i, s) == 0
    ensures Consistent(sb, d', owner[b := (i, s)], {})
  {
  }

  function SetAddr(d: Disk, i: nat, k: nat, b: int): Disk
    requires i < |d.inodes| && k < |d.inodes[i].addrs|
  {
    var ip := d.inodes[i];
    Disk(d.used, d.data, d.inodes[i := Inode(ip.addrs[k := b], ip.size)])
  }

  lemma SetDirect(sb: Super, d: Disk, i: nat, s: nat, b: int)
    requires Shape(sb, d) && i < |d.inodes| && s < NDIRECT
    ensures OnePointerSet(sb, d, SetAddr(d, i, s, b), i, s, b)
  {
  }

  /** A fresh indirect block is zeroed, so installing it brings in no stale pointer. */
  lemma SetIndirect(sb: Super, d: Disk, i: nat, b: int)
    requires Shape(sb, d) && i < |d.inodes| && 0 <= b < sb.size
    requires Slot(sb, d, i, INDIRECT) == 0 && d.data[b] == ZeroBlock()
    ensures OnePointerSet(sb, d, SetAddr(d, i, NDIRECT, b), i, INDIRECT, b)
  {
    ZeroWords();
  }

  function SetEntry(d: Disk, ind: nat, j: nat, b: int): Disk
    requires ind < |d.data| && |d.data[ind].bytes| == BSIZE && j < NINDIRECT && 0 <= b < UINT
  {
    Disk(d.used, d.data[ind := SetWord(d.data[ind], j, b)], d.inodes)
  }

  lemma SetEntryPointer(sb: Super, d: Disk, owner: Owner, loose: set<int>, i: nat, j: nat, b: int)
    requires Consistent(sb, d, owner, loose) && i < |d.inodes| && j < NINDIRECT && 0 <= b < UINT
    requires Slot(sb, d, i, INDIRECT) != 0
    ensures OnePointerSet(sb, d, SetEntry(d, Slot(sb, d, i, INDIRECT), j, b), i, NDIRECT + j, b)
  {
    var ind := Slot(sb, d, i, INDIRECT);
    WordRoundTrip(d.data[ind], j, b);
    forall k: nat | k < |d.inodes| && k != i ensures d.inodes[k].addrs[NDIRECT] != ind {
      assert Slot(sb, d, k, INDIRECT) == d.inodes[k].addrs[NDIRECT];
    }
  }

  // ---------------------------------------------------------------------
  // File contents

  /** Byte k of inode i, or 0 where no block is mapped. */
  function FileByte(sb: Super, d: Disk, i: nat, k: nat): byte
    requires Shape(sb, d) && i < |d.inodes| && k < MAXFILE * BSIZE
  {
    var b := Slot(sb, d, i, k / BSIZE);
    if 0 < b < sb.size then d.data[b].bytes[k % BSIZE] else 0
  }

  ghost function Contents(sb: Super, d: Disk, i: nat): (c: seq<byte>)
    requires Shape(sb, d) && i < |d.inodes| && d.inodes[i].size <= MAXFILE * BSIZE
    ensures |c| == d.inodes[i].size
    ensures forall k :: 0 <= k < |c| ==> c[k] == FileByte(sb, d, i, k)
  {
    seq(d.inodes[i].size, k requires 0 <= k < d.inodes[i].size => FileByte(sb, d, i, k))
  }

  /** Inode j has the same metadata, the same pointers and the same data in d and d'. */
  ghost predicate SameFile(sb: Super, d: Disk, d': Disk, j: nat) {
    && Shape(sb, d) && Shape(sb, d') && j < |d.inodes|
    && d'.inodes[j] == d.inodes[j]
    && (forall s: nat :: s <= INDIRECT ==> Slot(sb, d', j, s) == Slot(sb, d, j, s))
    && (forall k: nat :: k < MAXFILE * BSIZE ==> FileByte(sb, d', j, k) == FileByte(sb, d, j, k))
  }

  /** The bytes of src laid over a block from offset o on. */
  function Overlay(bl: Block, o: nat, src: seq<byte>): (r: Block)
    requires |bl.bytes| == BSIZE && o + |src| <= BSIZE
    ensures |r.bytes| == BSIZE
    ensures forall k :: 0 <= k < BSIZE ==>
              r.bytes[k] == if o <= k < o + |src| then src[k - o] else bl.bytes[k]
  {
    Block(bl.bytes[..o] + src + bl.bytes[o + |src|..])
  }

  function PutData(d: Disk, b: nat, bl: Block): Disk
    requires b < |d.data|
  {
    Disk(d.used, d.data[b := bl], d.inodes)
  }

  /** Writing a data block changes that one block of that one file and moves no pointer. */
  lemma PutDataEffect(sb: Super, d: Disk, owner: Owner, i: nat, s: nat, bl: Block)
    requires Consistent(sb, d, owner, {}) && i < |d.inodes| && s < MAXFILE && |bl.bytes| == BSIZE
    requires Slot(sb, d, i, s) != 0
    ensures var d' := PutData(d, Slot(sb, d, i, s), bl);
      && Consistent(sb, d', owner, {})
      && (forall j: nat, t: nat :: j < |d.inodes| && t <= INDIRECT ==> Slot(sb, d', j, t) == Slot(sb, d, j, t))
      && (forall j: nat, k: nat :: j < |d.inodes| && k < MAXFILE * BSIZE ==>
            FileByte(sb, d', j, k) ==
              if j == i && k / BSIZE == s then bl.bytes[k % BSIZE] else FileByte(sb, d, j, k))
  {
    var b := Slot(sb, d, i, s);
    forall j: nat | j < |d.inodes| ensures d.inodes[j].addrs[NDIRECT] != b {
      assert Slot(sb, d, j, INDIRECT) == d.inodes[j].addrs[NDIRECT];
    }
    DataFrame(sb, d, b, bl);
    var d' := PutData(d, b, bl);
    assert d' == d.(data := d.data[b := bl]);
    assert SlotsOwned(sb, d', owner);
    forall j: nat, k: nat | j < |d.inodes| && k < MAXFILE * BSIZE
      ensures FileByte(sb, d', j, k) ==
                if j == i && k / BSIZE == s then bl.bytes[k % BSIZE] else FileByte(sb, d, j, k)
    {
      assert Slot(sb, d', j, k / BSIZE) == Slot(sb, d, j, k / BSIZE);
    }
  }

  /** From d to d', some empty slots of inode i were given zeroed blocks and the
      bytes of src were written at off; nothing else about any file changed. */
  ghost predicate Wrote(sb: Super, d: Disk, d': Disk, i: nat, off: nat, src: seq<byte>) {
    && Shape(sb, d) && Shape(sb, d') && i < |d.inodes| && off + |src| <= MAXFILE * BSIZE
    && (forall j: nat :: j < |d.inodes| && j != i ==> d'.inodes[j] == d.inodes[j])
    && d'.inodes[i].size == d.inodes[i].size
    && (forall j: nat, t: nat :: j < |d.inodes| && t <= INDIRECT ==>
          Slot(sb, d', j, t) == Slot(sb, d, j, t) || (j == i && Slot(sb, d, j, t) == 0))
    && (forall j: nat, k: nat :: j < |d.inodes| && k < MAXFILE * BSIZE ==>
          FileByte(sb, d', j, k) ==
            if j == i && off <= k < off + |src| then src[k - off] else FileByte(sb, d, j, k))
  }

  lemma WroteNothing(sb: Super, d: Disk, i: nat, off: nat)
    requires Shape(sb, d) && i < |d.inodes| && off <= MAXFILE * BSIZE
    ensures Wrote(sb, d, d, i, off, [])
  {
  }

  lemma WroteGrow(sb: Super, d: Disk, d1: Disk, d2: Disk, i: nat, off: nat, src: seq<byte>)
    requires Wrote(sb, d, d1, i, off, src) && Wrote(sb, d1, d2, i, 0, [])
    ensures Wrote(sb, d, d2, i, off, src)
  {
  }

  /** One iteration of writei's copy: chunk goes to offset o of block b, in slot s, after the bytes src. */
  lemma WroteChunk(sb: Super, d: Disk, d1: Disk, owner: Owner, i: nat, off: nat, src: seq<byte>, chunk: seq<byte>,
                   all: seq<byte>, s: nat, o: nat, b: nat)
    requires Wrote(sb, d, d1, i, off, src) && Consistent(sb, d1, owner, {}) && all == src + chunk
    requires off + |src| == s * BSIZE + o && s < MAXFILE && o < BSIZE && o + |chunk| <= BSIZE
    requires 0 < b < sb.size && Slot(sb, d1, i, s) == b
    ensures Wrote(sb, d, PutData(d1, b, Overlay(d1.data[b], o, chunk)), i, off, all)
  {
    var bl := Overlay(d1.data[b], o, chunk);
    PutDataEffect(sb, d1, owner, i, s, bl);
    var d2 := PutData(d1, b, bl);
    forall k: nat | k < MAXFILE * BSIZE
      ensures FileByte(sb, d2, i, k) == if off <= k < off + |all| then all[k - off] else FileByte(sb, d, i, k)
    {
      if k / BSIZE == s {
        assert k - (off + |src|) == k % BSIZE - o;
        assert FileByte(sb, d1, i, k) == d1.data[b].bytes[k % BSIZE];
        assert FileByte(sb, d2, i, k) == bl.bytes[k % BSIZE];
      } else {
        assert FileByte(sb, d2, i, k) == FileByte(sb, d1, i, k);
        assert k < off + |src| || off + |all| <= k;
      }
    }
  }

  // ---------------------------------------------------------------------
  // Growing a file by one block

  lemma AllocateBytes(sb: Super, d: Disk, owner: Owner, b: nat)
    requires Consistent(sb, d, owner, {}) && b < sb.size && !d.used[b]
    ensures var d' := Allocate(d, b);
      && Shape(sb, d')
      && forall j: nat, k: nat :: j < |d.inodes| && k < MAXFILE * BSIZE ==>
           FileByte(sb, d', j, k) == FileByte(sb, d, j, k)
  {
    AllocateKeeps(sb, d, owner, b);
  }

  /** Setting an empty slot to a zeroed loose block leaves every byte of every file as it reads. */
  lemma PointerBytes(sb: Super, d: Disk, d': Disk, owner: Owner, i: nat, s: nat, b: int)
    requires Consistent(sb, d, owner, {b}) && OnePointerSet(sb, d, d', i, s, b)
    requires Slot(sb, d, i, s) == 0 && d.data[b] == ZeroBlock()
    requires forall x :: 0 < x < sb.size && x != Slot(sb, d, i, INDIRECT) ==> d'.data[x] == d.data[x]
    ensures forall j: nat, k: nat :: j < |d.inodes| && k < MAXFILE * BSIZE ==>
              FileByte(sb, d', j, k) == FileByte(sb, d, j, k)
  {
    forall j: nat, k: nat | j < |d.inodes| && k < MAXFILE * BSIZE
      ensures FileByte(sb, d', j, k) == FileByte(sb, d, j, k)
    {
      var t := k / BSIZE;
      if j == i && t == s {
        assert Slot(sb, d', j, t) == b;
        assert b != Slot(sb, d, i, INDIRECT);
      } else {
        assert Slot(sb, d', j, t) == Slot(sb, d, j, t);
        assert Slot(sb, d, j, t) != 0 ==> Slot(sb, d, j, t) != Slot(sb, d, i, INDIRECT);
      }
    }
  }

  /** A slot of inode i that was empty now holds b, a block that was free, freshly zeroed. */
  ghost predicate GrewBy(sb: Super, d: Disk, d': Disk, owner: Owner, owner': Owner, i: nat, s: nat, b: nat) {
    && Consistent(sb, d', owner', {}) && owner' == owner[b := (i, s)]
    && Wrote(sb, d, d', i, 0, [])
    && i < |d'.inodes| && s <= INDIRECT && Slot(sb, d', i, s) == b
    && (forall t: nat :: t <= INDIRECT && t != s ==> Slot(sb, d', i, t) == Slot(sb, d, i, t))
  }

  lemma GrowDirect(sb: Super, d: Disk, owner: Owner, i: nat, s: nat, b: nat)
    requires Consistent(sb, d, owner, {}) && 0 < b < sb.size && !d.used[b]
    requires i < |d.inodes| && s < NDIRECT && Slot(sb, d, i, s) == 0
    ensures GrewBy(sb, d, SetAddr(Allocate(d, b), i, s, b), owner, owner[b := (i, s)], i, s, b)
  {
    AllocateKeeps(sb, d, owner, b);
    AllocateBytes(sb, d, owner, b);
    var d1 := Allocate(d, b);
    SetDirect(sb, d1, i, s, b);
    LinkKeeps(sb, d1, SetAddr(d1, i, s, b), owner, i, s, b);
    PointerBytes(sb, d1, SetAddr(d1, i, s, b), owner, i, s, b);
  }

  lemma GrowIndirect(sb: Super, d: Disk, owner: Owner, i: nat, b: nat)
    requires Consistent(sb, d, owner, {}) && 0 < b < sb.size && !d.used[b]
    requires i < |d.inodes| && Slot(sb, d, i, INDIRECT) == 0
    ensures GrewBy(sb, d, SetAddr(Allocate(d, b), i, NDIRECT, b), owner, owner[b := (i, INDIRECT)], i, INDIRECT, b)
  {
    AllocateKeeps(sb, d, owner, b);
    AllocateBytes(sb, d, owner, b);
    var d1 := Allocate(d, b);
    SetIndirect(sb, d1, i, b);
    LinkKeeps(sb, d1, SetAddr(d1, i, NDIRECT, b), owner, i, INDIRECT, b);
    PointerBytes(sb, d1, SetAddr(d1, i, NDIRECT, b), owner, i, INDIRECT, b);
  }

  lemma GrowEntry(sb: Super, d: Disk, owner: Owner, i: nat, j: nat, b: nat)
    requires Consistent(sb, d, owner, {}) && 0 < b < sb.size && !d.used[b]
    requires i < |d.inodes| && j < NINDIRECT && Slot(sb, d, i, NDIRECT + j) == 0 && Slot(sb, d, i, INDIRECT) != 0
    ensures var ind := Slot(sb, d, i, INDIRECT);
      && 0 < ind < sb.size
      && GrewBy(sb, d, SetEntry(Allocate(d, b), ind, j, b), owner, owner[b := (i, NDIRECT + j)], i, NDIRECT + j, b)
  {
    AllocateKeeps(sb, d, owner, b);
    AllocateBytes(sb, d, owner, b);
    var d1, ind := Allocate(d, b), Slot(sb, d, i, INDIRECT);
    assert Slot(sb, d1, i, INDIRECT) == ind;
    SetEntryPointer(sb, d1, owner, {b}, i, j, b);
    LinkKeeps(sb, d1, SetEntry(d1, ind, j, b), owner, i, NDIRECT + j, b);
    PointerBytes(sb, d1, SetEntry(d1, ind, j, b), owner, i, NDIRECT + j, b);
  }

  // ---------------------------------------------------------------------
  // A whole write

  function Splice<T>(c: seq<T>, off: nat, src: seq<T>): (r: seq<T>)
    requires off <= |c|
    ensures |r| == if off + |src| < |c| then |c| else off + |src|
    ensures forall k :: 0 <= k < |r| ==> r[k] == if off <= k < off + |src| then src[k - off] else c[k]
  {
    c[..off] + src + if off + |src| < |c| then c[off + |src|..] else []
  }

  function SetSize(d: Disk, i: nat, size: nat): Disk
    requires i < |d.inodes|
  {
    Disk(d.used, d.data, d.inodes[i := Inode(d.inodes[i].addrs, size)])
  }

  lemma SetSizeFrame(sb: Super, d: Disk, owner: Owner, i: nat, size: nat)
    requires Consistent(sb, d, owner, {}) && i < |d.inodes|
    ensures var d' := SetSize(d, i, size);
      && Consistent(sb, d', owner, {})
      && (forall j: nat, t: nat :: j < |d.inodes| && t <= INDIRECT ==> Slot(sb, d', j, t) == Slot(sb, d, j, t))
      && (forall j: nat, k: nat :: j < |d.inodes| && k < MAXFILE * BSIZE ==>
            FileByte(sb, d', j, k) == FileByte(sb, d, j, k))
  {
    var d' := SetSize(d, i, size);
    assert forall j: nat, t: nat :: j < |d.inodes| && t <= INDIRECT ==> Slot(sb, d', j, t) == Slot(sb, d, j, t);
  }

  /** Every block that starts below len is mapped. */
  ghost predicate MappedTo(sb: Super, d: Disk, i: nat, len: nat)
    requires Shape(sb, d) && i < |d.inodes|
  {
    forall s: nat :: s < MAXFILE && s * BSIZE < len ==> Slot(sb, d, i, s) != 0
  }

  /** The new size of a file after n bytes were written at off. */
  function NewSize(size: nat, off: nat, n: nat): nat {
    if off + n > size then off + n else size
  }

  /** After the copy loop, setting the size completes a splice and leaves no hole. */
  lemma WriteEnds(sb: Super, d: Disk, d1: Disk, owner: Owner, i: nat, off: nat, src: seq<byte>)
    requires Shape(sb, d) && NoHoles(sb, d) && i < |d.inodes|
    requires Wrote(sb, d, d1, i, off, src) && Consistent(sb, d1, owner, {})
    requires off <= d.inodes[i].size && MappedTo(sb, d1, i, NewSize(d.inodes[i].size, off, |src|))
    ensures var d' := SetSize(d1, i, NewSize(d.inodes[i].size, off, |src|));
      && Consistent(sb, d', owner, {}) && NoHoles(sb, d')
      && Contents(sb, d', i) == Splice(Contents(sb, d, i), off, src)
      && forall j: nat :: j < |d.inodes| && j != i ==> SameFile(sb, d, d', j)
  {
    var size := NewSize(d.inodes[i].size, off, |src|);
    var d' := SetSize(d1, i, size);
    SetSizeFrame(sb, d1, owner, i, size);
    forall j: nat, s: nat | j < |d.inodes| && s < MAXFILE && s * BSIZE < d'.inodes[j].size
      ensures Slot(sb, d', j, s) != 0
    {
      assert Slot(sb, d', j, s) == Slot(sb, d1, j, s);
      if j != i {
        assert Slot(sb, d, j, s) != 0;
      }
    }
    assert NoHoles(sb, d');
    assert Contents(sb, d', i) == Splice(Contents(sb, d, i), off, src);
  }

  // ---------------------------------------------------------------------
  // Truncation

  ghost predicate OwnedBy(owner: Owner, i: nat, b: int) { b in owner && owner[b].0 == i }

  /** From d0, the blocks in the slots of inode i below s have been freed, and its direct pointers below s
      cleared; nothing else has changed. */
  ghost predicate FreedTo(sb: Super, d0: Disk, d: Disk, owner: Owner, i: nat, s: nat) {
    && Shape(sb, d0) && Shape(sb, d) && i < |d0.inodes| && d.data == d0.data
    && (forall j :: 0 <= j < |d0.inodes| && j != i ==> d.inodes[j] == d0.inodes[j])
    && (forall k :: 0 <= k <= NDIRECT ==>
          d.inodes[i].addrs[k] == if k < s && k < NDIRECT then 0 else d0.inodes[i].addrs[k])
    && (forall b :: 0 <= b < sb.size ==>
          (d.used[b] <==> d0.used[b] && !(OwnedBy(owner, i, b) && owner[b].1 < s)))
  }

  function ClearBit(d: Disk, b: nat): Disk
    requires b < |d.used|
  {
    Disk(d.used[b := false], d.data, d.inodes)
  }

  /** A mapped slot that is next in line holds a block whose bit is still set. */
  lemma NextIsUsed(sb: Super, d0: Disk, d: Disk, owner: Owner, i: nat, s: nat)
    requires Consistent(sb, d0, owner, {}) && FreedTo(sb, d0, d, owner, i, s) && s <= INDIRECT
    requires Slot(sb, d0, i, s) != 0
    ensures 0 < Slot(sb, d0, i, s) < sb.size && d.used[Slot(sb, d0, i, s)]
  {
  }

  lemma FreeEmpty(sb: Super, d0: Disk, d: Disk, owner: Owner, i: nat, s: nat)
    requires Consistent(sb, d0, owner, {}) && FreedTo(sb, d0, d, owner, i, s) && s <= INDIRECT
    requires Slot(sb, d0, i, s) == 0
    ensures FreedTo(sb, d0, d, owner, i, s + 1)
  {
    assert forall b :: OwnedBy(owner, i, b) ==> owner[b].1 != s;
  }

  lemma FreeDirect(sb: Super, d0: Disk, d: Disk, owner: Owner, i: nat, s: nat)
    requires Consistent(sb, d0, owner, {}) && FreedTo(sb, d0, d, owner, i, s) && s < NDIRECT
    requires 0 < Slot(sb, d0, i, s) < sb.size
    ensures FreedTo(sb, d0, SetAddr(ClearBit(d, Slot(sb, d0, i, s)), i, s, 0), owner, i, s + 1)
  {
    assert forall b :: OwnedBy(owner, i, b) && owner[b].1 == s ==> b == Slot(sb, d0, i, s);
  }

  lemma FreeEntry(sb: Super, d0: Disk, d: Disk, owner: Owner, i: nat, s: nat)
    requires Consistent(sb, d0, owner, {}) && FreedTo(sb, d0, d, owner, i, s) && NDIRECT <= s <= INDIRECT
    requires 0 < Slot(sb, d0, i, s) < sb.size
    ensures FreedTo(sb, d0, ClearBit(d, Slot(sb, d0, i, s)), owner, i, s + 1)
  {
    assert forall b :: OwnedBy(owner, i, b) && owner[b].1 == s ==> b == Slot(sb, d0, i, s);
  }

  /** Without an indirect block there is nothing left to free. */
  lemma {:induction false} FreeNone(sb: Super, d0: Disk, d: Disk, owner: Owner, i: nat, s: nat)
    requires Consistent(sb, d0, owner, {}) && FreedTo(sb, d0, d, owner, i, s) && NDIRECT <= s <= INDIRECT + 1
    requires Slot(sb, d0, i, INDIRECT) == 0
    ensures FreedTo(sb, d0, d, owner, i, INDIRECT + 1)
    decreases INDIRECT + 1 - s
  {
    if s <= INDIRECT {
      FreeEmpty(sb, d0, d, owner, i, s);
      FreeNone(sb, d0, d, owner, i, s + 1);
    }
  }

  function Emptied(d: Disk, i: nat): Disk
    requires i < |d.inodes| && |d.inodes[i].addrs| == NDIRECT + 1
  {
    Disk(d.used, d.data, d.inodes[i := Inode(d.inodes[i].addrs[NDIRECT := 0], 0)])
  }

  ghost function Disowned(owner: Owner, i: nat): Owner {
    map b | b in owner && owner[b].0 != i :: owner[b]
  }

  /** With every slot freed, clearing the last pointer and the size leaves an empty file. */
  lemma TruncEnds(sb: Super, d0: Disk, d: Disk, owner: Owner, i: nat)
    requires Consistent(sb, d0, owner, {}) && NoHoles(sb, d0)
    requires FreedTo(sb, d0, d, owner, i, INDIRECT + 1)
    ensures var d' := Emptied(d, i);
      && Consistent(sb, d', Disowned(owner, i), {}) && NoHoles(sb, d')
      && (forall s: nat :: s <= INDIRECT ==> Slot(sb, d', i, s) == 0)
      && (forall j: nat :: j < |d0.inodes| && j != i ==> SameFile(sb, d0, d', j))
  {
    var d' := Emptied(d, i);
    assert Shape(sb, d');
    assert forall j: nat, s: nat :: j < |d0.inodes| && s <= INDIRECT ==>
      Slot(sb, d', j, s) == if j == i then 0 else Slot(sb, d0, j, s);
    assert SlotsOwned(sb, d', Disowned(owner, i));
    assert BitmapExact(sb, d', Disowned(owner, i), {});
  }
}
