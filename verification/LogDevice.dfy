/** kernel/log.c as it runs: the in-memory header, the pinned buffers and the platter, changed in
    place, with every image the platter ever holds kept as a history. */
module LogDevice {
  import opened Param
  import opened RedoLog

  /** log_write's list of block numbers: a number already present is absorbed. */
  function Absorb(blocks: seq<int>, b: int): (r: seq<int>)
    ensures Distinct(blocks) ==> Distinct(r)
    ensures forall x :: x in r <==> x in blocks || x == b
    ensures blocks <= r
  {
    if b in blocks then blocks else blocks + [b]
  }

  function Values(blocks: seq<int>, cache: map<int, Block>): (vals: seq<Block>)
    requires forall i :: 0 <= i < |blocks| ==> blocks[i] in cache
    ensures |vals| == |blocks|
  {
    seq(|blocks|, i requires 0 <= i < |blocks| => cache[blocks[i]])
  }

  /** Only blocks from the given place in the list on are pinned. */
  ghost predicate PinnedFrom(cache: map<int, Block>, blocks: seq<int>, i: nat)
    requires i <= |blocks|
  {
    forall b :: b in cache ==> b in blocks[i..]
  }

  lemma Unpin(cache: map<int, Block>, blocks: seq<int>, i: nat)
    requires i < |blocks| && PinnedFrom(cache, blocks, i)
    ensures PinnedFrom(cache - {blocks[i]}, blocks, i + 1)
  {
    assert blocks[i..] == [blocks[i]] + blocks[i + 1..];
  }

  lemma NothingPinned(cache: map<int, Block>, blocks: seq<int>)
    requires PinnedFrom(cache, blocks, |blocks|)
    ensures cache == map[]
  {
    assert forall b :: b !in cache;
  }

  /** install_trans has copied the first k blocks, and the disk passed through the given images. */
  ghost predicate Installing(l: Layout, d0: Image, blocks: seq<int>, k: nat, d: Image, images: seq<Image>)
    requires LayoutOk(l, |d0|) && BlocksOk(l, |d0|, blocks)
  {
    k <= |blocks| && d == RecoveryFrom(l, d0, blocks, k) && images == RecoveryImages(l, d0, blocks, k)
  }

  lemma InstallNext(l: Layout, d0: Image, blocks: seq<int>, k: nat, d: Image, images: seq<Image>)
    requires LayoutOk(l, |d0|) && BlocksOk(l, |d0|, blocks) && k < |blocks| && Installing(l, d0, blocks, k, d, images)
    ensures 0 <= blocks[k] < |d|
    ensures var d' := d[blocks[k] := d[l.start + 1 + k]]; Installing(l, d0, blocks, k + 1, d', images + [d'])
  {
    RecoveryNext(l, d0, blocks, k, d);
  }

  /** The panics of the log. */
  datatype Stop = TooBig | OutsideTransaction | CommittingInEndOp

  datatype Answer = Recorded | Stopped(why: Stop)

  /** The pin counts with one taken off for each of the blocks. */
  ghost predicate Unpinned(pins: seq<int>, pins': seq<int>, blocks: seq<int>) {
    |pins'| == |pins| && forall b :: 0 <= b < |pins| ==> pins'[b] == pins[b] - if b in blocks then 1 else 0
  }

  lemma UnpinnedMore(pins: seq<int>, pins': seq<int>, blocks: seq<int>, i: nat)
    requires i < |blocks| && Unpinned(pins, pins', blocks[..i]) && Distinct(blocks) && 0 <= blocks[i] < |pins|
    ensures Unpinned(pins, pins'[blocks[i] := pins'[blocks[i]] - 1], blocks[..i + 1])
  {
    assert blocks[..i + 1] == blocks[..i] + [blocks[i]];
    assert blocks[i] !in blocks[..i];
  }

  class Log {
    const layout: Layout
    const block: array<int>
    var n: nat                      // log.lh.n
    var disk: Image
    var cache: map<int, Block>      // pinned buffers; an unpinned block reads as the platter
    var pins: seq<int>              // how often each block is pinned
    var outstanding: int            // log.outstanding
    ghost var history: seq<Image>   // the platter after each write

    ghost function Blocks(): seq<int>
      requires n <= block.Length
      reads this, block
    {
      block[..n]
    }

    ghost predicate Valid()
      reads this, block
    {
      && block.Length == LOGSIZE && n <= LOGSIZE
      && ImageOk(layout, disk) && |disk[layout.start].words| == WORDS
      && BlocksOk(layout, |disk|, Blocks())
      && (forall b :: b in cache <==> b in Blocks())
      && |pins| == |disk|
    }

    constructor (layout: Layout, disk: Image)
      requires ImageOk(layout, disk) && |disk[layout.start].words| == WORDS
      ensures Valid() && this.layout == layout && this.disk == disk && n == 0 && history == []
      ensures outstanding == 0 && forall b :: 0 <= b < |pins| ==> pins[b] == 0
    {
      pins := seq(|disk|, _ => 0);
      outstanding := 0;
      this.layout := layout;
      this.disk := disk;
      block := new int[LOGSIZE];
      n := 0;
      cache := map[];
      history := [];
    }

    function Bread(b: int): Block
      requires 0 <= b < |disk|
      reads this
    {
      if b in cache then cache[b] else disk[b]
    }

    method Bwrite(b: int, data: Block)
      requires 0 <= b < |disk|
      modifies this`disk, this`history
      ensures disk == old(disk)[b := data] && history == old(history) + [disk]
    {
      disk := disk[b := data];
      history := history + [disk];
    }

    /** Read the on-disk header into memory. */
    method ReadHead()
      requires Valid() && cache == map[]
      modifies this`n, block
      ensures n <= block.Length && Blocks() == Listed(disk[layout.start])
    {
      var header := Bread(layout.start);
      n := header.words[0];
      for i := 0 to n
        invariant n == header.words[0] <= block.Length
        invariant forall j :: 0 <= j < i ==> block[j] == header.words[1 + j]
      {
        block[i] := header.words[1 + i];
      }
    }

    /** Write the in-memory header to the platter in one block write. */
    method WriteHead()
      requires block.Length == LOGSIZE && n <= LOGSIZE
      requires LayoutOk(layout, |disk|) && layout.start !in cache && |disk[layout.start].words| == WORDS
      modifies this`disk, this`history
      ensures disk == old(disk)[layout.start := HeaderFor(old(disk)[layout.start], Blocks())]
      ensures history == old(history) + [disk]
    {
      var header := Bread(layout.start).words;
      var hb := header[0 := n];
      for i := 0 to n
        invariant |hb| == |header|
        invariant forall j :: 0 <= j < |hb| ==>
                    hb[j] == if j == 0 then n else if j <= i then block[j - 1] else header[j]
      {
        hb := hb[1 + i := block[i]];
      }
      assert Block(hb) == HeaderFor(Block(header), Blocks());
      Bwrite(layout.start, Block(hb));
    }

    /** Copy one log block to its home and unpin it. */
    method InstallOne(tail: nat)
      requires tail < block.Length && 0 <= block[tail] < |disk| && |pins| == |disk|
      requires layout.start + tail + 1 < |disk| && layout.start + tail + 1 !in cache
      modifies this`disk, this`history, this`cache, this`pins
      ensures disk == old(disk)[block[tail] := old(disk)[layout.start + 1 + tail]] && history == old(history) + [disk]
      ensures cache == old(cache) - {block[tail]}
      ensures pins == old(pins)[block[tail] := old(pins)[block[tail]] - 1]
    {
      var lbuf := Bread(layout.start + tail + 1);
      Bwrite(block[tail], lbuf);
      cache := cache - {block[tail]};
      pins := pins[block[tail] := pins[block[tail]] - 1];
    }

    /** Copy the log blocks to their homes and unpin them. */
    method InstallTrans()
      requires block.Length == LOGSIZE && n <= LOGSIZE
      requires LayoutOk(layout, |disk|) && BlocksOk(layout, |disk|, Blocks())
      requires (forall b :: b in cache ==> b in Blocks()) && |pins| == |disk|
      modifies this`disk, this`history, this`cache, this`pins
      ensures disk == RecoveryFrom(layout, old(disk), Blocks(), n)
      ensures history == old(history) + RecoveryImages(layout, old(disk), Blocks(), n)
      ensures cache == map[] && disk[layout.start] == old(disk)[layout.start]
      ensures Unpinned(old(pins), pins, Blocks())
    {
      ghost var blocks, images := Blocks(), [];
      assert blocks[0..] == blocks && blocks[..n] == blocks;
      for tail := 0 to n
        invariant Installing(layout, old(disk), blocks, tail, disk, images) && history == old(history) + images
        invariant PinnedFrom(cache, blocks, tail) && Unpinned(old(pins), pins, blocks[..tail])
      {
        assert Home(layout, |disk|, blocks[tail]);
        assert forall b :: b in blocks ==> Home(layout, |disk|, b);
        InstallNext(layout, old(disk), blocks, tail, disk, images);
        Unpin(cache, blocks, tail);
        UnpinnedMore(old(pins), pins, blocks, tail);
        InstallOne(tail);
        Append(old(history), images, [disk]);
        images := images + [disk];
      }
      RecoveryShape(layout, old(disk), blocks, n);
      NothingPinned(cache, blocks);
    }

    /** What commit and recovery have in common: install, forget the transaction, clear the header. */
    method InstallAndClear()
      requires block.Length == LOGSIZE && n <= LOGSIZE
      requires LayoutOk(layout, |disk|) && |disk[layout.start].words| == WORDS
      requires BlocksOk(layout, |disk|, Blocks())
      requires (forall b :: b in cache ==> b in Blocks()) && |pins| == |disk|
      modifies this`disk, this`history, this`cache, this`pins, this`n
      ensures n == 0 && cache == map[] && |disk| == |old(disk)| && |disk[layout.start].words| == WORDS
      ensures disk == RecoveryFrom(layout, old(disk), old(Blocks()), old(n) + 1)
      ensures history == old(history) + RecoveryImages(layout, old(disk), old(Blocks()), old(n) + 1)
      ensures Unpinned(old(pins), pins, old(Blocks()))
    {
      ghost var d, blocks := disk, Blocks();
      InstallTrans();
      ghost var e := disk;
      n := 0;
      WriteHead();
      ClearStage(layout, d, blocks, |blocks|, e, disk);
      Append(old(history), RecoveryImages(layout, d, blocks, |blocks|), [disk]);
    }

    /** Copy the modified blocks from the cache to the log. */
    method WriteLog(ghost vals: seq<Block>)
      requires Valid() && vals == Values(Blocks(), cache)
      modifies this`disk, this`history
      ensures disk == CommitImage(layout, old(disk), Blocks(), vals, n)
      ensures history == old(history) + CommitImages(layout, old(disk), Blocks(), vals, n)
      ensures disk[layout.start] == old(disk)[layout.start]
    {
      ghost var blocks := Blocks();
      for tail := 0 to n
        invariant disk == CommitImage(layout, old(disk), blocks, vals, tail)
        invariant history == old(history) + CommitImages(layout, old(disk), blocks, vals, tail)
      {
        assert block[tail] == blocks[tail] && blocks[tail] in cache;
        CommitNext(layout, old(disk), blocks, vals, tail, disk);
        CommitImagesNext(layout, old(disk), blocks, vals, tail);
        var from := Bread(block[tail]);
        Bwrite(layout.start + tail + 1, from);
      }
      LogFillShape(layout, old(disk), blocks, vals, n);
    }

    /** The first half of commit: fill the log, then write the header. */
    method LogTransaction(ghost vals: seq<Block>)
      requires Valid() && vals == Values(Blocks(), cache)
      modifies this`disk, this`history
      ensures |disk| == |old(disk)| && |disk[layout.start].words| == WORDS
      ensures disk == CommitImage(layout, old(disk), Blocks(), vals, n + 1)
      ensures history == old(history) + CommitImages(layout, old(disk), Blocks(), vals, n + 1)
    {
      WriteLog(vals);
      assert forall b :: b in Blocks() ==> Home(layout, |disk|, b);
      ghost var e := disk;
      WriteHead();
      HeaderStage(layout, old(disk), Blocks(), vals, n, e, disk);
      Append(old(history), CommitImages(layout, old(disk), Blocks(), vals, n), [disk]);
    }

    /** The branch of commit with something to write. */
    method WriteTransaction(ghost vals: seq<Block>)
      requires Valid() && vals == Values(Blocks(), cache)
      modifies this`disk, this`history, this`cache, this`pins, this`n
      ensures Unpinned(old(pins), pins, old(Blocks()))
      ensures n == 0 && cache == map[] && |disk| == |old(disk)| && |disk[layout.start].words| == WORDS
      ensures disk == CommitImage(layout, old(disk), old(Blocks()), vals, 2 * old(n) + 2)
      ensures history == old(history) + CommitImages(layout, old(disk), old(Blocks()), vals, 2 * old(n) + 2)
    {
      ghost var blocks, d := Blocks(), disk;
      LogTransaction(vals);
      ghost var e := disk;
      InstallAndClear();
      WholeCommit(layout, d, blocks, vals, e);
      Append(old(history), CommitImages(layout, d, blocks, vals, |blocks| + 1),
             RecoveryImages(layout, e, blocks, |blocks| + 1));
    }

    /** Commit passes through exactly the images of CommitImage, so a crash at any moment of it is
        a crash CommitAtomic speaks about. */
    method Commit()
      requires Valid() && Listed(disk[layout.start]) == []
      modifies this`disk, this`history, this`cache, this`pins, this`n
      ensures Valid() && n == 0 && Unpinned(old(pins), pins, old(Blocks()))
      ensures old(n) == 0 ==> disk == old(disk) && history == old(history)
      ensures old(n) > 0 ==>
        var blocks := old(Blocks()); var vals := Values(blocks, old(cache));
        && disk == CommitImage(layout, old(disk), blocks, vals, 2 * |blocks| + 2)
        && history == old(history) + CommitImages(layout, old(disk), blocks, vals, 2 * |blocks| + 2)
      ensures Listed(disk[layout.start]) == []
      ensures forall b :: Home(layout, |disk|, b) ==> disk[b] == old(Bread(b))
    {
      if n > 0 {
        ghost var blocks, d := Blocks(), disk;
        ghost var vals := Values(blocks, cache);
        WriteTransaction(vals);
        CommitEnds(layout, d, blocks, vals);
      }
    }

    /** Boot: install whatever the header lists, then clear it.  The platter passes through exactly
        the images of RecoveryImage. */
    method RecoverFromLog()
      requires Valid() && cache == map[]
      modifies this`disk, this`history, this`cache, this`pins, this`n, block
      ensures Valid() && n == 0 && Unpinned(old(pins), pins, Listed(old(disk)[layout.start]))
      ensures disk == Recovered(layout, old(disk))
      ensures Listed(disk[layout.start]) == []
      ensures var blocks := Listed(old(disk)[layout.start]);
        history == old(history) + RecoveryImages(layout, old(disk), blocks, |blocks| + 1)
    {
      ReadHead();
      InstallAndClear();
      RecoveredMeaning(layout, old(disk));
    }

    /** Record a modified buffer: list its number, absorbing repeats, and pin it if it is new.  The size test comes
        before the search, so a full log stops even a write that would have been absorbed. */
    method LogWrite(b: int, data: Block) returns (r: Answer)
      requires Valid() && Home(layout, |disk|, b)
      modifies this`n, this`cache, this`pins, block
      ensures Valid()
      ensures r == if old(n) >= LOGSIZE || old(n) >= layout.size - 1 then Stopped(TooBig)
                   else if outstanding < 1 then Stopped(OutsideTransaction) else Recorded
      ensures !r.Recorded? ==> Blocks() == old(Blocks()) && cache == old(cache) && pins == old(pins)
      ensures r.Recorded? ==>
        && Blocks() == Absorb(old(Blocks()), b) && cache == old(cache)[b := data]
        && pins == if b in old(Blocks()) then old(pins) else old(pins)[b := old(pins)[b] + 1]
    {
      if n >= LOGSIZE || n >= layout.size - 1 {
        return Stopped(TooBig);
      }
      if outstanding < 1 {
        return Stopped(OutsideTransaction);
      }
      ghost var blocks := Blocks();
      var i := 0;
      while i < n && block[i] != b
        invariant 0 <= i <= n
        invariant b !in blocks[..i]
      {
        i := i + 1;
      }
      assert i == n <==> b !in blocks by {
        assert i == n ==> blocks[..i] == blocks;
      }
      block[i] := b;
      if i == n {
        pins := pins[b := pins[b] + 1];
        n := n + 1;
      }
      cache := cache[b := data];
      assert Blocks() == Absorb(blocks, b);
      r := Recorded;
    }
  }
}
