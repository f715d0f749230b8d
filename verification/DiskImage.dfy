/** The files of kernel/fs.c in the blocks of the disk: where the bits of the bitmap, the inodes and the data stand in
    a disk image, and how the image of a disk is written. */
module DiskImage {
  import opened InodeModel
  import opened WriteSet
  import Log = RedoLog

  const INODE_WORDS := 16       // sizeof(struct dinode) / sizeof(uint)
  const SIZE_WORD := 2          // the size stands after the type, major, minor and nlink
  const ADDRS_WORD := 3

  // ---------------------------------------------------------------------
  // Reading a block

  function Bit(w: int, k: nat): bool
    decreases k
  {
    if k == 0 then w % 2 == 1 else Bit(w / 2, k - 1)
  }

  /** Byte k of a little-endian word. */
  function WordByte(w: int, k: nat): byte
    decreases k
  {
    if k == 0 then (w % 256) as byte else WordByte(w / 256, k - 1)
  }

  function ReadBit(bl: Log.Block, k: nat): bool
    requires |bl.words| == Log.WORDS && k < BPB
  {
    Bit(bl.words[k / 32], k % 32)
  }

  function ReadInode(bl: Log.Block, s: nat): Inode
    requires |bl.words| == Log.WORDS && s < IPB
  {
    var w := bl.words[INODE_WORDS * s..INODE_WORDS * s + INODE_WORDS];
    Inode(seq(NDIRECT + 1, x requires 0 <= x < NDIRECT + 1 => w[ADDRS_WORD + x] % UINT), w[SIZE_WORD] % UINT)
  }

  function ReadData(bl: Log.Block): Block
    requires |bl.words| == Log.WORDS
  {
    Block(seq(BSIZE, x requires 0 <= x < BSIZE => WordByte(bl.words[x / 4], x % 4)))
  }

  // ---------------------------------------------------------------------
  // The disk an image shows

  /** Block b, with contents bl, has everything that disk d keeps in it. */
  ghost predicate BlockShows(sb: Super, bl: Log.Block, b: int, d: Disk) {
    && |bl.words| == Log.WORDS
    && (forall x :: 0 <= x < |d.used| && BBlock(sb, x) == b ==> d.used[x] == ReadBit(bl, x % BPB))
    && (forall i :: 0 <= i < |d.inodes| && IBlock(sb, i) == b ==> d.inodes[i] == ReadInode(bl, i % IPB))
    && (sb.datastart <= b < |d.data| ==> d.data[b] == ReadData(bl))
  }

  /** The blocks outside the log area show d. */
  ghost predicate Shows(l: Log.Layout, sb: Super, img: Log.Image, d: Disk) {
    |img| == sb.size && forall b :: Log.Home(l, |img|, b) ==> BlockShows(sb, img[b], b, d)
  }

  /** The log area comes before the inodes, as kernel/fs.h lays the disk out. */
  predicate LogFirst(l: Log.Layout, sb: Super) {
    Apart(sb) && l.start + l.size <= sb.inodestart && sb.datastart <= sb.size
  }

  /** An image shows one disk at most: the bitmap, the inodes and the data blocks are read off it. */
  lemma OneDisk(l: Log.Layout, sb: Super, img: Log.Image, d: Disk, d': Disk)
    requires LogFirst(l, sb) && Shape(sb, d) && Shape(sb, d') && Shows(l, sb, img, d) && Shows(l, sb, img, d')
    ensures d.used == d'.used && d.inodes == d'.inodes
    ensures forall b :: sb.datastart <= b < sb.size ==> d.data[b] == d'.data[b]
  {
    forall x | 0 <= x < sb.size ensures d.used[x] == d'.used[x] {
      assert Log.Home(l, |img|, BBlock(sb, x));
    }
    forall i | 0 <= i < sb.ninodes ensures d.inodes[i] == d'.inodes[i] {
      assert Log.Home(l, |img|, IBlock(sb, i));
    }
    forall b | sb.datastart <= b < sb.size ensures d.data[b] == d'.data[b] {
      assert Log.Home(l, |img|, b);
    }
  }

  /** A block that was not logged shows the disk after a change as well as the one before. */
  lemma UnloggedShows(sb: Super, bl: Log.Block, b: int, d: Disk, d': Disk, op: set<int>)
    requires LogsAll(sb, d, d', op) && b !in op && BlockShows(sb, bl, b, d)
    ensures BlockShows(sb, bl, b, d')
  {
  }

  // ---------------------------------------------------------------------
  // Writing a disk out

  /** 32 bits of the bitmap as a word. */
  function Pack(bits: seq<bool>): (w: int)
    ensures 0 <= w
  {
    if bits == [] then 0 else (if bits[0] then 1 else 0) + 2 * Pack(bits[1..])
  }

  lemma {:induction false} PackedBit(bits: seq<bool>, k: nat)
    requires k < |bits|
    ensures Bit(Pack(bits), k) == bits[k]
    decreases k
  {
    LowBit(Pack(bits), bits[0], Pack(bits[1..]));
    if k > 0 { PackedBit(bits[1..], k - 1); }
  }

  lemma LowBit(w: int, bit: bool, rest: int)
    requires w == (if bit then 1 else 0) + 2 * rest
    ensures Bit(w, 0) == bit && w / 2 == rest
  {
  }

  function Bits32(used: seq<bool>, at: int): (bits: seq<bool>)
    ensures |bits| == 32
  {
    seq(32, k => 0 <= at + k < |used| && used[at + k])
  }

  function BitmapBlock(used: seq<bool>, at: int): (bl: Log.Block)
    ensures |bl.words| == Log.WORDS
  {
    Log.Block(seq(Log.WORDS, j => Pack(Bits32(used, at + 32 * j))))
  }

  lemma BitmapReads(used: seq<bool>, at: int, k: nat)
    requires k < BPB && 0 <= at + k < |used|
    ensures ReadBit(BitmapBlock(used, at), k) == used[at + k]
  {
    var j, r := k / 32, k % 32;
    assert k == 32 * j + r;
    PackedBit(Bits32(used, at + 32 * j), r);
  }

  /** The 16 words of an inode; those before the size are not modelled. */
  function InodeWords(n: Inode): (w: seq<int>)
    requires |n.addrs| == NDIRECT + 1
    ensures |w| == INODE_WORDS
  {
    [0, 0, n.size] + n.addrs
  }

  function InodeWord(inodes: seq<Inode>, i: int, x: int): int {
    if 0 <= i < |inodes| && |inodes[i].addrs| == NDIRECT + 1 && 0 <= x < INODE_WORDS then InodeWords(inodes[i])[x]
    else 0
  }

  function InodeBlock(inodes: seq<Inode>, at: int): (bl: Log.Block)
    ensures |bl.words| == Log.WORDS
  {
    Log.Block(seq(Log.WORDS, j => InodeWord(inodes, at + j / INODE_WORDS, j % INODE_WORDS)))
  }

  predicate Fits32(n: Inode) {
    |n.addrs| == NDIRECT + 1 && n.size < UINT && forall x :: 0 <= x < |n.addrs| ==> 0 <= n.addrs[x] < UINT
  }

  lemma InodeIndex(s: nat, x: nat)
    requires x < INODE_WORDS
    ensures (INODE_WORDS * s + x) / INODE_WORDS == s && (INODE_WORDS * s + x) % INODE_WORDS == x
  {
  }

  lemma InodeWordAt(inodes: seq<Inode>, at: int, s: nat, x: nat)
    requires s < IPB && x < INODE_WORDS && 0 <= at + s < |inodes| && |inodes[at + s].addrs| == NDIRECT + 1
    ensures InodeBlock(inodes, at).words[INODE_WORDS * s + x] == InodeWords(inodes[at + s])[x]
  {
    InodeIndex(s, x);
  }

  lemma WordsRead(bl: Log.Block, s: nat, n: Inode)
    requires |bl.words| == Log.WORDS && s < IPB && Fits32(n)
    requires bl.words[INODE_WORDS * s..INODE_WORDS * s + INODE_WORDS] == InodeWords(n)
    ensures ReadInode(bl, s) == n
  {
    assert ReadInode(bl, s).addrs == n.addrs;
  }

  lemma InodeReads(inodes: seq<Inode>, at: int, s: nat)
    requires s < IPB && 0 <= at + s < |inodes| && Fits32(inodes[at + s])
    ensures ReadInode(InodeBlock(inodes, at), s) == inodes[at + s]
  {
    var bl, n := InodeBlock(inodes, at), inodes[at + s];
    forall x | 0 <= x < INODE_WORDS ensures bl.words[INODE_WORDS * s + x] == InodeWords(n)[x] {
      InodeWordAt(inodes, at, s, x);
    }
    WordsRead(bl, s, n);
  }

  function DataBlock(data: Block): (bl: Log.Block)
    requires |data.bytes| == BSIZE
    ensures |bl.words| == Log.WORDS
  {
    Log.Block(seq(Log.WORDS, j requires 0 <= j < Log.WORDS => GetWord(data, j)))
  }

  lemma LowByte(w: int, a: byte, rest: int)
    requires w == a as int + 256 * rest
    ensures WordByte(w, 0) == a && w / 256 == rest
  {
  }

  lemma NextByte(w: int, rest: int, k: nat)
    requires w / 256 == rest
    ensures WordByte(w, k + 1) == WordByte(rest, k)
  {
  }

  lemma FourBytes(w: int, a: byte, b: byte, c: byte, d: byte)
    requires w == a as int + 256 * (b as int) + 65536 * (c as int) + 16777216 * (d as int)
    ensures WordByte(w, 0) == a && WordByte(w, 1) == b && WordByte(w, 2) == c && WordByte(w, 3) == d
  {
    var z: int := d as int;
    var y: int := c as int + 256 * z;
    var x: int := b as int + 256 * y;
    LowByte(w, a, x);
    LowByte(x, b, y);
    LowByte(y, c, z);
    LowByte(z, d, 0);
    NextByte(w, x, 0);
    NextByte(w, x, 1);
    NextByte(x, y, 0);
    NextByte(w, x, 2);
    NextByte(x, y, 1);
    NextByte(y, z, 0);
  }

  lemma DataReads(data: Block)
    requires |data.bytes| == BSIZE
    ensures ReadData(DataBlock(data)) == data
  {
    forall x | 0 <= x < BSIZE ensures ReadData(DataBlock(data)).bytes[x] == data.bytes[x] {
      var j := x / 4;
      var w := data.bytes[4 * j..4 * j + 4];
      FourBytes(GetWord(data, j), w[0], w[1], w[2], w[3]);
    }
  }

  /** Block b of the image of d. */
  function BlockOf(sb: Super, d: Disk, b: int): (bl: Log.Block)
    requires forall x :: 0 <= x < |d.data| ==> |d.data[x].bytes| == BSIZE
    ensures |bl.words| == Log.WORDS
  {
    if sb.datastart <= b < |d.data| then DataBlock(d.data[b])
    else if sb.bmapstart <= b then BitmapBlock(d.used, (b - sb.bmapstart) * BPB)
    else InodeBlock(d.inodes, (b - sb.inodestart) * IPB)
  }

  function ImageOf(sb: Super, d: Disk): (img: Log.Image)
    requires forall x :: 0 <= x < |d.data| ==> |d.data[x].bytes| == BSIZE
    ensures |img| == sb.size
  {
    seq(sb.size, b => BlockOf(sb, d, b))
  }

  lemma BitmapShows(sb: Super, d: Disk, x: nat, b: int)
    requires Shape(sb, d) && Apart(sb) && x < sb.size && BBlock(sb, x) == b
    ensures ReadBit(BlockOf(sb, d, b), x % BPB) == d.used[x]
  {
    var at := (b - sb.bmapstart) * BPB;
    assert x == at + x % BPB;
    BitmapReads(d.used, at, x % BPB);
  }

  lemma InodeShows(sb: Super, d: Disk, i: nat, b: int)
    requires Shape(sb, d) && Apart(sb) && i < sb.ninodes && IBlock(sb, i) == b && Fits32(d.inodes[i])
    ensures ReadInode(BlockOf(sb, d, b), i % IPB) == d.inodes[i]
  {
    var at := (b - sb.inodestart) * IPB;
    assert i == at + i % IPB;
    InodeReads(d.inodes, at, i % IPB);
  }

  lemma InodesFit(sb: Super, d: Disk, owner: Owner, i: nat)
    requires Consistent(sb, d, owner, {}) && NoHoles(sb, d) && i < sb.ninodes
    ensures Fits32(d.inodes[i])
  {
    forall x | 0 <= x < NDIRECT + 1 ensures 0 <= d.inodes[i].addrs[x] < UINT {
      assert Slot(sb, d, i, if x == NDIRECT then INDIRECT else x) == d.inodes[i].addrs[x];
    }
  }

  /** Every file system whose bitmap and block pointers agree is shown by an image: what is written out is read back. */
  lemma WrittenOut(l: Log.Layout, sb: Super, d: Disk, owner: Owner)
    requires LogFirst(l, sb) && Consistent(sb, d, owner, {}) && NoHoles(sb, d)
    ensures Shows(l, sb, ImageOf(sb, d), d)
  {
    forall b | 0 <= b < sb.size ensures BlockShows(sb, BlockOf(sb, d, b), b, d) {
      forall x | 0 <= x < sb.size && BBlock(sb, x) == b ensures ReadBit(BlockOf(sb, d, b), x % BPB) == d.used[x] {
        BitmapShows(sb, d, x, b);
      }
      forall i | 0 <= i < sb.ninodes && IBlock(sb, i) == b
        ensures ReadInode(BlockOf(sb, d, b), i % IPB) == d.inodes[i]
      {
        InodesFit(sb, d, owner, i);
        InodeShows(sb, d, i, b);
      }
      if sb.datastart <= b { DataReads(d.data[b]); }
    }
  }
}
