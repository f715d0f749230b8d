/** The physical redo log of kernel/log.c.

    A disk image is a sequence of blocks; single-block writes are atomic and
    synchronous, and the machine may stop after any of them.  A block is its
    BSIZE bytes seen as 32-bit words, so that the header block needs no special
    treatment: word 0 is the count n and the words after it are the home block
    numbers. */
module RedoLog {
  import opened Param

  const WORDS := 256            // BSIZE / sizeof(int)

  datatype Block = Block(words: seq<int>)
  type Image = seq<Block>

  /** Where the superblock puts the log: the header at start, then size - 1 log blocks. */
  datatype Layout = Layout(start: nat, size: nat)

  predicate LayoutOk(l: Layout, length: nat) {
    1 <= l.size && l.start + l.size <= length
  }

  /** A block outside the log area. */
  predicate Home(l: Layout, length: nat, b: int) {
    0 <= b < length && !(l.start <= b < l.start + l.size)
  }

  predicate Distinct(s: seq<int>) {
    forall i, j :: 0 <= i < j < |s| ==> s[i] != s[j]
  }

  /** A list that fits the header. */
  predicate ListOk(l: Layout, length: nat, blocks: seq<int>) {
    && |blocks| <= LOGSIZE
    && Distinct(blocks)
    && forall i :: 0 <= i < |blocks| ==> Home(l, length, blocks[i])
  }

  /** A list that fits both the header and the log area. */
  predicate BlocksOk(l: Layout, length: nat, blocks: seq<int>) {
    ListOk(l, length, blocks) && |blocks| < l.size
  }

  predicate HeaderOk(header: Block) {
    0 < |header.words| && 0 <= header.words[0] <= LOGSIZE && header.words[0] < |header.words|
  }

  /** The home block numbers an on-disk header lists. */
  function Listed(header: Block): (blocks: seq<int>)
    requires HeaderOk(header)
    ensures |blocks| == header.words[0]
  {
    header.words[1..1 + header.words[0]]
  }

  /** write_head overwrites the count and the first n entries and leaves stale entries behind. */
  function HeaderFor(header: Block, blocks: seq<int>): (h: Block)
    requires |blocks| <= LOGSIZE
    ensures HeaderOk(h) && Listed(h) == blocks
    ensures |blocks| < |header.words| ==> |h.words| == |header.words|
  {
    Block([|blocks|] + blocks + if 1 + |blocks| <= |header.words| then header.words[1 + |blocks|..] else [])
  }

  predicate ImageOk(l: Layout, d: Image) {
    && LayoutOk(l, |d|)
    && HeaderOk(d[l.start])
    && BlocksOk(l, |d|, Listed(d[l.start]))
  }

  /** Recovery can read every block the header lists, if not all of them in the log area. */
  predicate Bootable(l: Layout, d: Image) {
    && LayoutOk(l, |d|)
    && HeaderOk(d[l.start])
    && ListOk(l, |d|, Listed(d[l.start])) && l.start + |Listed(d[l.start])| < |d|
  }

  // ---------------------------------------------------------------------
  // Recovery

  /** The (k+1)-st disk write of recovery, with the block list already read from the header. */
  function RecoveryWrite(l: Layout, d: Image, blocks: seq<int>, k: nat): (e: Image)
    requires LayoutOk(l, |d|) && ListOk(l, |d|, blocks) && l.start + |blocks| < |d| && k <= |blocks|
    ensures |e| == |d|
  {
    if k < |blocks| then d[blocks[k] := d[l.start + 1 + k]]
    else d[l.start := HeaderFor(d[l.start], [])]
  }

  /** The disk after k writes of a recovery that started on d. */
  function RecoveryFrom(l: Layout, d: Image, blocks: seq<int>, k: nat): (e: Image)
    requires LayoutOk(l, |d|) && BlocksOk(l, |d|, blocks) && k <= |blocks| + 1
    ensures |e| == |d|
    decreases k
  {
    if k == 0 then d else RecoveryWrite(l, RecoveryFrom(l, d, blocks, k - 1), blocks, k - 1)
  }

  function RecoveryImage(l: Layout, d: Image, k: nat): (e: Image)
    requires ImageOk(l, d) && k <= |Listed(d[l.start])| + 1
  {
    RecoveryFrom(l, d, Listed(d[l.start]), k)
  }

  /** What a completed recovery leaves. */
  function Recovered(l: Layout, d: Image): (e: Image)
    requires ImageOk(l, d)
  {
    RecoveryImage(l, d, |Listed(d[l.start])| + 1)
  }

  /** The images the disk passes through in the first k writes of recovery. */
  function RecoveryImages(l: Layout, d: Image, blocks: seq<int>, k: nat): (es: seq<Image>)
    requires LayoutOk(l, |d|) && BlocksOk(l, |d|, blocks) && k <= |blocks| + 1
    ensures |es| == k && forall i :: 0 <= i < k ==> es[i] == RecoveryFrom(l, d, blocks, i + 1)
  {
    seq(k, i requires 0 <= i < k => RecoveryFrom(l, d, blocks, i + 1))
  }

  lemma RecoveryNext(l: Layout, d: Image, blocks: seq<int>, k: nat, e: Image)
    requires LayoutOk(l, |d|) && BlocksOk(l, |d|, blocks) && k < |blocks| && e == RecoveryFrom(l, d, blocks, k)
    ensures var f := e[blocks[k] := e[l.start + 1 + k]];
      && RecoveryFrom(l, d, blocks, k + 1) == f
      && RecoveryImages(l, d, blocks, k + 1) == RecoveryImages(l, d, blocks, k) + [f]
  {
    assert RecoveryWrite(l, e, blocks, k) == e[blocks[k] := e[l.start + 1 + k]];
  }

  /** Two images agree on every block a file system can see. */
  ghost predicate SameHome(l: Layout, d: Image, e: Image) {
    |d| == |e| && forall b :: Home(l, |d|, b) ==> d[b] == e[b]
  }

  /** e is d with every log block copied to the home its header lists, and the header cleared: what
      recovery should mean, said without any order of writes. */
  ghost predicate Replayed(l: Layout, d: Image, e: Image)
    requires ImageOk(l, d)
  {
    var blocks := Listed(d[l.start]);
    && |e| == |d|
    && (forall i :: 0 <= i < |blocks| ==> e[blocks[i]] == d[l.start + 1 + i])
    && (forall b :: Home(l, |d|, b) && b !in blocks ==> e[b] == d[b])
    && ImageOk(l, e) && Listed(e[l.start]) == []
  }

  /** Closed form of a recovery interrupted after k writes: the first k listed blocks hold their
      log copies, the log area below the header is untouched, the header is cleared only at the end. */
  ghost predicate Stage(l: Layout, d: Image, blocks: seq<int>, k: nat, e: Image)
    requires LayoutOk(l, |d|) && BlocksOk(l, |d|, blocks)
  {
    && |e| == |d|
    && (forall i :: 0 <= i < |blocks| ==> e[blocks[i]] == if i < k then d[l.start + 1 + i] else d[blocks[i]])
    && (forall b :: Home(l, |d|, b) && b !in blocks ==> e[b] == d[b])
    && (forall b :: l.start < b < l.start + l.size ==> e[b] == d[b])
    && e[l.start] == if k <= |blocks| then d[l.start] else HeaderFor(d[l.start], [])
  }

  lemma StageNext(l: Layout, d: Image, blocks: seq<int>, k: nat, e: Image)
    requires LayoutOk(l, |d|) && BlocksOk(l, |d|, blocks) && k <= |blocks| && Stage(l, d, blocks, k, e)
    ensures Stage(l, d, blocks, k + 1, RecoveryWrite(l, e, blocks, k))
  {
  }

  lemma {:induction false} RecoveryShape(l: Layout, d: Image, blocks: seq<int>, k: nat)
    requires LayoutOk(l, |d|) && BlocksOk(l, |d|, blocks) && k <= |blocks| + 1
    ensures Stage(l, d, blocks, k, RecoveryFrom(l, d, blocks, k))
  {
    if k > 0 {
      RecoveryShape(l, d, blocks, k - 1);
      StageNext(l, d, blocks, k - 1, RecoveryFrom(l, d, blocks, k - 1));
    }
  }

  /** A completed recovery replays exactly the listed blocks and clears the header. */
  lemma RecoveredMeaning(l: Layout, d: Image)
    requires ImageOk(l, d)
    ensures Replayed(l, d, Recovered(l, d))
  {
    var blocks := Listed(d[l.start]);
    RecoveryShape(l, d, blocks, |blocks| + 1);
  }

  /** Stopping recovery after any k writes and starting it again ends where an undisturbed one ends. */
  lemma InterruptedRecovery(l: Layout, d: Image, k: nat)
    requires ImageOk(l, d) && k <= |Listed(d[l.start])| + 1
    ensures ImageOk(l, RecoveryImage(l, d, k))
    ensures SameHome(l, Recovered(l, RecoveryImage(l, d, k)), Recovered(l, d))
  {
    var blocks := Listed(d[l.start]);
    var e := RecoveryImage(l, d, k);
    RecoveryShape(l, d, blocks, k);
    RecoveredMeaning(l, d);
    RecoveredMeaning(l, e);
    SameReplay(l, d, e, Recovered(l, d), Recovered(l, e), k);
  }

  /** Replaying the untouched image and replaying one with the first k homes already written agree. */
  lemma SameReplay(l: Layout, d: Image, e: Image, d': Image, e': Image, k: nat)
    requires ImageOk(l, d) && ImageOk(l, e) && |d| == |e| && k <= |Listed(d[l.start])| + 1
    requires Replayed(l, d, d') && Replayed(l, e, e')
    requires Stage(l, d, Listed(d[l.start]), k, e)
    ensures SameHome(l, e', d')
  {
    var blocks := Listed(d[l.start]);
    forall b | Home(l, |d|, b)
      ensures e'[b] == d'[b]
    {
      if b in blocks {
        var i :| 0 <= i < |blocks| && blocks[i] == b;
        assert d'[blocks[i]] == d[l.start + 1 + i];
        if k <= |blocks| {
          assert e'[blocks[i]] == e[l.start + 1 + i];
        }
      }
    }
  }

  /** One boot after another, the i-th recovery being cut off after stops[i] writes. */
  ghost predicate CrashChain(l: Layout, images: seq<Image>, stops: seq<nat>) {
    && |images| == |stops| + 1
    && forall i :: 0 <= i < |stops| ==>
         ImageOk(l, images[i]) && stops[i] <= |Listed(images[i][l.start])| + 1
         && images[i + 1] == RecoveryImage(l, images[i], stops[i])
  }

  /** However often and wherever recovery itself crashes, the completed recovery is the same. */
  lemma {:induction false} RepeatedCrashes(l: Layout, images: seq<Image>, stops: seq<nat>)
    requires CrashChain(l, images, stops) && ImageOk(l, images[0])
    ensures ImageOk(l, images[|stops|])
    ensures SameHome(l, Recovered(l, images[|stops|]), Recovered(l, images[0]))
    ensures Listed(Recovered(l, images[|stops|])[l.start]) == []
    decreases |stops|
  {
    RecoveredMeaning(l, images[0]);
    if |stops| > 0 {
      var m := |stops| - 1;
      RepeatedCrashes(l, images[..m + 1], stops[..m]);
      InterruptedRecovery(l, images[m], stops[m]);
      RecoveredMeaning(l, images[m + 1]);
    }
  }

  // ---------------------------------------------------------------------
  // Commit

  /** The (k+1)-st disk write of commit: n log blocks, the header, n home blocks, the cleared header. */
  function CommitWrite(l: Layout, d: Image, blocks: seq<int>, vals: seq<Block>, k: nat): (e: Image)
    requires LayoutOk(l, |d|) && BlocksOk(l, |d|, blocks)
    requires |vals| == |blocks| && k <= 2 * |blocks| + 1
    ensures |e| == |d|
  {
    var n := |blocks|;
    if k < n then d[l.start + 1 + k := vals[k]]
    else if k == n then d[l.start := HeaderFor(d[l.start], blocks)]
    else if k <= 2 * n then d[blocks[k - n - 1] := d[l.start + k - n]]
    else d[l.start := HeaderFor(d[l.start], [])]
  }

  /** The disk after k writes of a commit that started on d. */
  function CommitImage(l: Layout, d: Image, blocks: seq<int>, vals: seq<Block>, k: nat): (e: Image)
    requires LayoutOk(l, |d|) && BlocksOk(l, |d|, blocks)
    requires |vals| == |blocks| && k <= 2 * |blocks| + 2
    ensures |e| == |d|
    decreases k
  {
    if k == 0 then d else CommitWrite(l, CommitImage(l, d, blocks, vals, k - 1), blocks, vals, k - 1)
  }

  /** The images the disk passes through in the first k writes of commit. */
  function CommitImages(l: Layout, d: Image, blocks: seq<int>, vals: seq<Block>, k: nat): (es: seq<Image>)
    requires LayoutOk(l, |d|) && BlocksOk(l, |d|, blocks)
    requires |vals| == |blocks| && k <= 2 * |blocks| + 2
    ensures |es| == k && forall i :: 0 <= i < k ==> es[i] == CommitImage(l, d, blocks, vals, i + 1)
  {
    seq(k, i requires 0 <= i < k => CommitImage(l, d, blocks, vals, i + 1))
  }

  /** The image in which every logged block has its new contents. */
  ghost predicate Updated(l: Layout, d: Image, blocks: seq<int>, vals: seq<Block>, e: Image)
    requires |vals| == |blocks| && BlocksOk(l, |d|, blocks)
  {
    && |e| == |d|
    && (forall i :: 0 <= i < |blocks| ==> e[blocks[i]] == vals[i])
    && (forall b :: Home(l, |d|, b) && b !in blocks ==> e[b] == d[b])
  }

  /** Until the header write, commit touches nothing but the log blocks. */
  lemma {:induction false} LogFillShape(l: Layout, d: Image, blocks: seq<int>, vals: seq<Block>, k: nat)
    requires LayoutOk(l, |d|) && BlocksOk(l, |d|, blocks)
    requires |vals| == |blocks| && k <= |blocks|
    ensures var e := CommitImage(l, d, blocks, vals, k);
      && (forall i :: 0 <= i < k ==> e[l.start + 1 + i] == vals[i])
      && SameHome(l, e, d) && e[l.start] == d[l.start]
  {
    if k > 0 {
      LogFillShape(l, d, blocks, vals, k - 1);
    }
  }

  lemma Append<T>(a: seq<T>, b: seq<T>, c: seq<T>)
    ensures a + b + c == a + (b + c)
  {
  }

  lemma TailWrite(l: Layout, e: Image, blocks: seq<int>, vals: seq<Block>, m: nat, k: nat, f: Image)
    requires LayoutOk(l, |e|) && BlocksOk(l, |e|, blocks)
    requires |vals| == |blocks| && m <= |blocks| && k == |blocks| + 1 + m && f == RecoveryFrom(l, e, blocks, m)
    ensures CommitWrite(l, f, blocks, vals, k) == RecoveryFrom(l, e, blocks, m + 1)
  {
    assert CommitWrite(l, f, blocks, vals, k) == RecoveryWrite(l, f, blocks, m);
  }

  lemma CommitNext(l: Layout, d: Image, blocks: seq<int>, vals: seq<Block>, k: nat, f: Image)
    requires LayoutOk(l, |d|) && BlocksOk(l, |d|, blocks) && |vals| == |blocks| && k <= 2 * |blocks| + 1
    requires f == CommitImage(l, d, blocks, vals, k)
    ensures CommitImage(l, d, blocks, vals, k + 1) == CommitWrite(l, f, blocks, vals, k)
  {
  }

  lemma CommitImagesNext(l: Layout, d: Image, blocks: seq<int>, vals: seq<Block>, k: nat)
    requires LayoutOk(l, |d|) && BlocksOk(l, |d|, blocks) && |vals| == |blocks| && k <= 2 * |blocks| + 1
    ensures CommitImages(l, d, blocks, vals, k + 1)
         == CommitImages(l, d, blocks, vals, k) + [CommitImage(l, d, blocks, vals, k + 1)]
  {
  }

  lemma TailNext(l: Layout, d: Image, blocks: seq<int>, vals: seq<Block>, e: Image, m: nat, k: nat, f: Image)
    requires LayoutOk(l, |d|) && BlocksOk(l, |d|, blocks) && |vals| == |blocks| && |e| == |d|
    requires m <= |blocks| && k == |blocks| + 1 + m
    requires f == CommitImage(l, d, blocks, vals, k) && f == RecoveryFrom(l, e, blocks, m)
    ensures CommitImage(l, d, blocks, vals, k + 1) == RecoveryFrom(l, e, blocks, m + 1)
  {
    TailWrite(l, e, blocks, vals, m, k, f);
    CommitNext(l, d, blocks, vals, k, f);
  }

  /** From the header write on, commit performs the very writes recovery would perform. */
  lemma {:induction false} CommitTail(l: Layout, d: Image, blocks: seq<int>, vals: seq<Block>, e: Image, m: nat, k: nat)
    requires LayoutOk(l, |d|) && BlocksOk(l, |d|, blocks) && |vals| == |blocks|
    requires m <= |blocks| + 1 && k == |blocks| + 1 + m && e == CommitImage(l, d, blocks, vals, |blocks| + 1)
    ensures CommitImage(l, d, blocks, vals, k) == RecoveryFrom(l, e, blocks, m)
    decreases m
  {
    if m > 0 {
      CommitTail(l, d, blocks, vals, e, m - 1, k - 1);
      TailNext(l, d, blocks, vals, e, m - 1, k - 1, CommitImage(l, d, blocks, vals, k - 1));
    }
  }

  lemma Joined<T>(c: seq<T>, a: seq<T>, b: seq<T>)
    requires |c| == |a| + |b| && c[..|a|] == a
    requires forall j :: 0 <= j < |b| ==> c[|a|..][j] == b[j]
    ensures c == a + b
  {
    assert c[|a|..] == b;
  }

  lemma TailImage(l: Layout, d: Image, blocks: seq<int>, vals: seq<Block>, e: Image, k: nat, a: nat, j: nat)
    requires LayoutOk(l, |d|) && BlocksOk(l, |d|, blocks) && |vals| == |blocks| && k <= 2 * |blocks| + 2
    requires a == |blocks| + 1 && a + j < k && e == CommitImage(l, d, blocks, vals, a)
    ensures CommitImages(l, d, blocks, vals, k)[a..][j] == RecoveryFrom(l, e, blocks, j + 1)
  {
    CommitTail(l, d, blocks, vals, e, j + 1, a + j + 1);
  }

  lemma CommitTailImages(l: Layout, d: Image, blocks: seq<int>, vals: seq<Block>, e: Image, m: nat, k: nat)
    requires LayoutOk(l, |d|) && BlocksOk(l, |d|, blocks) && |vals| == |blocks|
    requires m <= |blocks| + 1 && k == |blocks| + 1 + m && e == CommitImage(l, d, blocks, vals, |blocks| + 1)
    ensures CommitImages(l, d, blocks, vals, k)
         == CommitImages(l, d, blocks, vals, |blocks| + 1) + RecoveryImages(l, e, blocks, m)
  {
    var n := |blocks| + 1;
    var c, a := CommitImages(l, d, blocks, vals, k), CommitImages(l, d, blocks, vals, n);
    var b := RecoveryImages(l, e, blocks, m);
    assert c[..n] == a;
    forall j | 0 <= j < m ensures c[n..][j] == b[j] { TailImage(l, d, blocks, vals, e, k, n, j); }
    Joined(c, a, b);
  }

  /** Image e holds the transaction: its header lists the blocks and its recovery shows the new state. */
  ghost predicate Committed(l: Layout, d: Image, blocks: seq<int>, vals: seq<Block>, e: Image)
    requires |vals| == |blocks| && BlocksOk(l, |d|, blocks)
  {
    && ImageOk(l, e) && Listed(e[l.start]) == blocks
    && Updated(l, d, blocks, vals, Recovered(l, e))
  }

  /** Once the log blocks hold the new contents, a header that lists their homes makes recovery show
      the new state. */
  lemma HeaderCommits(l: Layout, d: Image, f: Image, blocks: seq<int>, vals: seq<Block>)
    requires LayoutOk(l, |d|) && BlocksOk(l, |d|, blocks) && |vals| == |blocks| && |f| == |d|
    requires forall i :: 0 <= i < |blocks| ==> f[l.start + 1 + i] == vals[i]
    requires SameHome(l, f, d)
    ensures Committed(l, d, blocks, vals, f[l.start := HeaderFor(f[l.start], blocks)])
  {
    var e := f[l.start := HeaderFor(f[l.start], blocks)];
    assert Listed(e[l.start]) == blocks;
    RecoveryShape(l, e, blocks, |blocks| + 1);
  }

  /** Commit's write_head: image e, the n-th, becomes h, which differs in the header alone. */
  lemma HeaderStage(l: Layout, d: Image, blocks: seq<int>, vals: seq<Block>, n: nat, e: Image, h: Image)
    requires LayoutOk(l, |d|) && BlocksOk(l, |d|, blocks) && |vals| == |blocks| == n
    requires e == CommitImage(l, d, blocks, vals, n) && h == e[l.start := HeaderFor(e[l.start], blocks)]
    ensures CommitImage(l, d, blocks, vals, n + 1) == h
    ensures CommitImages(l, d, blocks, vals, n + 1) == CommitImages(l, d, blocks, vals, n) + [h]
  {
    assert CommitWrite(l, e, blocks, vals, n) == h;
    CommitNext(l, d, blocks, vals, n, e);
    CommitImagesNext(l, d, blocks, vals, n);
  }

  /** The header write is the commit point: from the very next moment recovery shows the new state. */
  lemma HeaderWritten(l: Layout, d: Image, blocks: seq<int>, vals: seq<Block>)
    requires LayoutOk(l, |d|) && BlocksOk(l, |d|, blocks) && |vals| == |blocks|
    ensures Committed(l, d, blocks, vals, CommitImage(l, d, blocks, vals, |blocks| + 1))
  {
    var e := CommitImage(l, d, blocks, vals, |blocks|);
    LogFillShape(l, d, blocks, vals, |blocks|);
    HeaderStage(l, d, blocks, vals, |blocks|, e, e[l.start := HeaderFor(e[l.start], blocks)]);
    HeaderCommits(l, d, e, blocks, vals);
  }

  /** Recovering e shows the old state d (k <= n) or all of the new state (k > n), with a clear header. */
  ghost predicate OldOrNew(l: Layout, d: Image, blocks: seq<int>, vals: seq<Block>, k: nat, e: Image)
    requires BlocksOk(l, |d|, blocks) && |vals| == |blocks|
  {
    && ImageOk(l, e)
    && (k <= |blocks| ==> SameHome(l, Recovered(l, e), d))
    && (k > |blocks| ==> Updated(l, d, blocks, vals, Recovered(l, e)))
    && Replayed(l, e, Recovered(l, e))
  }

  lemma BeforeHeader(l: Layout, d: Image, blocks: seq<int>, vals: seq<Block>, k: nat, e: Image)
    requires ImageOk(l, d) && Listed(d[l.start]) == []
    requires BlocksOk(l, |d|, blocks) && |vals| == |blocks| && k <= |blocks| && e == CommitImage(l, d, blocks, vals, k)
    ensures OldOrNew(l, d, blocks, vals, k, e)
  {
    LogFillShape(l, d, blocks, vals, k);
    RecoveredMeaning(l, e);
  }

  /** Once the header lists the transaction, any number of recovery's writes leave the new state to be shown. */
  lemma AfterHeader(l: Layout, d: Image, blocks: seq<int>, vals: seq<Block>, e: Image, m: nat, k: nat, f: Image)
    requires BlocksOk(l, |d|, blocks) && |vals| == |blocks| && Committed(l, d, blocks, vals, e)
    requires m <= |blocks| + 1 && k > |blocks| && f == RecoveryFrom(l, e, blocks, m)
    ensures OldOrNew(l, d, blocks, vals, k, f)
  {
    InterruptedRecovery(l, e, m);
    RecoveredMeaning(l, f);
  }

  /** Crash atomicity.  A crash after any k writes of commit leaves a disk whose recovery shows all of
      the old home blocks (header not yet written, k <= n) or all of the new ones (k > n). */
  lemma CommitAtomic(l: Layout, d: Image, blocks: seq<int>, vals: seq<Block>, k: nat)
    requires ImageOk(l, d) && Listed(d[l.start]) == []
    requires BlocksOk(l, |d|, blocks) && |vals| == |blocks| && k <= 2 * |blocks| + 2
    ensures OldOrNew(l, d, blocks, vals, k, CommitImage(l, d, blocks, vals, k))
  {
    var f := CommitImage(l, d, blocks, vals, k);
    if k <= |blocks| {
      BeforeHeader(l, d, blocks, vals, k, f);
    } else {
      var m, e := k - |blocks| - 1, CommitImage(l, d, blocks, vals, |blocks| + 1);
      HeaderWritten(l, d, blocks, vals);
      CommitTail(l, d, blocks, vals, e, m, k);
      AfterHeader(l, d, blocks, vals, e, m, k, f);
    }
  }

  /** Crash atomicity with the crashes of recovery folded in: after a crash inside commit and any
      number of crashes inside the recoveries that follow, the completed recovery shows the old
      state or the new state, and which one depends only on whether the header write happened. */
  lemma CommitCrashRecover(l: Layout, d: Image, blocks: seq<int>, vals: seq<Block>, k: nat,
                           images: seq<Image>, stops: seq<nat>)
    requires ImageOk(l, d) && Listed(d[l.start]) == []
    requires BlocksOk(l, |d|, blocks) && |vals| == |blocks| && k <= 2 * |blocks| + 2
    requires CrashChain(l, images, stops) && images[0] == CommitImage(l, d, blocks, vals, k)
    ensures ImageOk(l, images[|stops|])
    ensures var f := Recovered(l, images[|stops|]);
      && Listed(f[l.start]) == []
      && (if k <= |blocks| then SameHome(l, f, d) else Updated(l, d, blocks, vals, f))
  {
    CommitAtomic(l, d, blocks, vals, k);
    RepeatedCrashes(l, images, stops);
  }

  lemma TransactionEnds(l: Layout, d: Image, blocks: seq<int>, vals: seq<Block>, e: Image, f: Image)
    requires BlocksOk(l, |d|, blocks) && |vals| == |blocks| && Committed(l, d, blocks, vals, e)
    requires f == RecoveryFrom(l, e, blocks, |blocks| + 1)
    ensures ImageOk(l, f) && Listed(f[l.start]) == [] && Updated(l, d, blocks, vals, f)
  {
    RecoveredMeaning(l, e);
  }

  /** A commit that is not interrupted leaves every home block with its new contents in place. */
  lemma CommitEnds(l: Layout, d: Image, blocks: seq<int>, vals: seq<Block>)
    requires ImageOk(l, d) && BlocksOk(l, |d|, blocks) && |vals| == |blocks|
    ensures var e := CommitImage(l, d, blocks, vals, 2 * |blocks| + 2);
      ImageOk(l, e) && Listed(e[l.start]) == [] && Updated(l, d, blocks, vals, e)
  {
    var k := 2 * |blocks| + 2;
    var e, f := CommitImage(l, d, blocks, vals, |blocks| + 1), CommitImage(l, d, blocks, vals, k);
    CommitTail(l, d, blocks, vals, e, |blocks| + 1, k);
    HeaderWritten(l, d, blocks, vals);
    TransactionEnds(l, d, blocks, vals, e, f);
  }

  /** The last write of recovery, and of commit, clears the header. */
  lemma ClearStage(l: Layout, d: Image, blocks: seq<int>, n: nat, e: Image, c: Image)
    requires LayoutOk(l, |d|) && BlocksOk(l, |d|, blocks) && n == |blocks|
    requires e == RecoveryFrom(l, d, blocks, n) && c == e[l.start := HeaderFor(e[l.start], [])]
    ensures RecoveryFrom(l, d, blocks, n + 1) == c
    ensures RecoveryImages(l, d, blocks, n + 1) == RecoveryImages(l, d, blocks, n) + [c]
  {
    assert RecoveryWrite(l, e, blocks, n) == c;
  }

  lemma WholeCommit(l: Layout, d: Image, blocks: seq<int>, vals: seq<Block>, headed: Image)
    requires LayoutOk(l, |d|) && BlocksOk(l, |d|, blocks) && |vals| == |blocks|
    requires headed == CommitImage(l, d, blocks, vals, |blocks| + 1)
    ensures CommitImage(l, d, blocks, vals, 2 * |blocks| + 2) == RecoveryFrom(l, headed, blocks, |blocks| + 1)
    ensures CommitImages(l, d, blocks, vals, 2 * |blocks| + 2)
         == CommitImages(l, d, blocks, vals, |blocks| + 1) + RecoveryImages(l, headed, blocks, |blocks| + 1)
  {
    CommitTail(l, d, blocks, vals, headed, |blocks| + 1, 2 * |blocks| + 2);
    CommitTailImages(l, d, blocks, vals, headed, |blocks| + 1, 2 * |blocks| + 2);
  }
}
