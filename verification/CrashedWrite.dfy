/** A crash in the middle of filewrite: its transactions, as FileSystem.FileWrite makes them, on the log. */
module CrashedWrite {
  import opened Param
  import opened InodeModel
  import opened WriteSet
  import opened DiskImage
  import opened FileSystem
  import opened DurableDisk
  import GroupCommit
  import Log = RedoLog

  /** The transactions of a filewrite that finds disk d0. */
  ghost predicate Writes(fs: FileSystem, ts: seq<Transaction>, d0: Disk, i: nat, start: nat, src: seq<byte>) {
    Shape(fs.sb, d0) && NoHoles(fs.sb, d0) && i < |d0.inodes| && fs.Transactions(ts, d0, i, start, src)
  }

  /** The disks before, between and after the transactions. */
  ghost function Disks(fs: FileSystem, ts: seq<Transaction>, d0: Disk): (ds: seq<Disk>)
    ensures |ds| == |ts| + 1 && forall n :: 0 <= n <= |ts| ==> ds[n] == fs.DiskAt(ts, d0, n)
  {
    seq(|ts| + 1, n requires 0 <= n <= |ts| => fs.DiskAt(ts, d0, n))
  }

  function Logged(ts: seq<Transaction>): (ops: seq<set<int>>)
    ensures |ops| == |ts| && forall n :: 0 <= n < |ts| ==> ops[n] == ts[n].op
  {
    seq(|ts|, n requires 0 <= n < |ts| => ts[n].op)
  }

  lemma WritesChange(fs: FileSystem, ts: seq<Transaction>, d0: Disk, i: nat, start: nat, src: seq<byte>)
    requires Writes(fs, ts, d0, i, start, src)
    ensures Changes(fs.sb, Disks(fs, ts, d0), Logged(ts))
  {
    forall n: nat | n < |ts| ensures LogsAll(fs.sb, fs.DiskAt(ts, d0, n), fs.DiskAt(ts, d0, n + 1), ts[n].op) {
      fs.NthLogs(ts, d0, i, start, src, n);
    }
  }

  /** How many bytes are written after m transactions. */
  function Done(ts: seq<Transaction>, m: nat): nat
    requires m <= |ts|
  {
    if m == 0 then 0 else ts[m - 1].done
  }

  /** Between two transactions the bitmap and the block pointers agree, no file has holes, and a whole number of chunks
      is written and nothing else changed. */
  lemma BetweenTransactions(fs: FileSystem, ts: seq<Transaction>, d0: Disk, owner: Owner, i: nat, start: nat,
                            src: seq<byte>, m: nat)
      returns (owner': Owner)
    requires Writes(fs, ts, d0, i, start, src) && Consistent(fs.sb, d0, owner, {}) && m <= |ts|
    ensures Consistent(fs.sb, fs.DiskAt(ts, d0, m), owner', {})
    ensures fs.Written(d0, fs.DiskAt(ts, d0, m), i, start, src, Done(ts, m)) && fs.Whole(Done(ts, m), m, |src|)
  {
    if m == 0 {
      owner' := owner;
      fs.FileBegins(d0, i, start, src);
    } else {
      owner' := ts[m - 1].owner;
      fs.NthAt(ts, d0, i, start, src, m - 1);
    }
  }

  /** A crash during filewrite, however often recovery is interrupted, leaves a file system whose bitmap and block
      pointers agree, in which no file has holes, a whole number of chunks is written to the file and no other file is
      changed; no chunk is lost that a completed commit has taken. */
  lemma CrashedFileWrite(l: Log.Layout, fs: FileSystem, states: seq<GroupCommit.State>, events: seq<GroupCommit.Event>,
                         p: nat, ts: seq<Transaction>, d0: Disk, owner: Owner, i: nat, start: nat, src: seq<byte>,
                         c: nat, x: nat, y: nat)
      returns (m: nat, d: Disk, owner': Owner)
    requires Writes(fs, ts, d0, i, start, src) && Consistent(fs.sb, d0, owner, {})
    requires LOGSIZE - MAXOPBLOCKS < l.size && GroupCommit.Run(l, states, events) && c <= x <= y <= |events|
    requires Performs(l, fs.sb, states, events, p, Disks(fs, ts, d0), Logged(ts), x)
    requires CommittedAt(events, c) && OnlyRecovers(events, x, y)
    ensures Ended(events, p, c) <= m <= Ended(events, p, x) && m <= |ts|
    ensures Log.ImageOk(l, states[y].disk) && Shows(l, fs.sb, Log.Recovered(l, states[y].disk), d)
    ensures states[y].phase.Running? ==> Shows(l, fs.sb, states[y].disk, d)
    ensures Consistent(fs.sb, d, owner', {}) && fs.Written(d0, d, i, start, src, Done(ts, m))
    ensures fs.Whole(Done(ts, m), m, |src|)
  {
    WritesChange(fs, ts, d0, i, start, src);
    m := CrashBetween(l, fs.sb, states, events, p, Disks(fs, ts, d0), Logged(ts), c, x, y);
    d := fs.DiskAt(ts, d0, m);
    owner' := BetweenTransactions(fs, ts, d0, owner, i, start, src, m);
  }
}
