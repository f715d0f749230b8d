/** begin_op, log_write, end_op, commit, crashes and recovery of kernel/log.c as one state machine.

    Any number of processes take part, and a step is what runs between two points at which another
    process or a crash can come in: a stretch under log.lock, one unlocked test, or one disk write.
    The log area may have any size; a list that outgrows it is written where log.c would write it.
    The durable and logical images are history: no step reads them. */
module GroupCommit {
  import opened Param
  import opened RedoLog
  import opened LogDevice

  /** Where a process stands with respect to the log. */
  datatype Op =
    | Outside                                          // in no file system call
    | Asleep                                           // sleeping on &log in begin_op
    | Woken                                            // made runnable, about to test again
    | Active(logged: set<int>)                         // between begin_op and end_op
    | Checked(logged: set<int>, b: int, data: Block)   // in log_write, past its unlocked tests
    | Committer                                        // the end_op that is running commit

  datatype Phase =
    | Running
    | Commit(base: Image, k: nat)      // k writes of commit done, starting from base
    | Recover(base: Image, k: nat)     // k writes of recovery done, starting from base
    | Panicked(why: Stop)

  datatype State = State(
    disk: Image,
    cache: map<int, Block>,            // pinned buffers
    blocks: seq<int>,                  // log.lh.block[..n]
    outstanding: int,
    committing: bool,
    ops: seq<Op>,
    phase: Phase,
    durable: Image,                    // history: what the committed transactions add up to
    logical: Image)                    // history: what all log_writes so far add up to

  datatype Event =
    | BeginOp(p: nat) | LogCheck(p: nat, b: int, data: Block) | LogAppend(p: nat) | EndOp(p: nat)
    | CommitIO | CommitDone | Crash | RecoverIO | RecoverDone

  // ---------------------------------------------------------------------
  // Steps

  function InCall(o: Op): bool { o.Active? || o.Checked? }

  function Wake(o: Op): Op { if o.Asleep? then Woken else o }

  /** wakeup(&log). */
  function WakeAll(ops: seq<Op>): (r: seq<Op>)
    ensures |r| == |ops| && forall i :: 0 <= i < |ops| ==> r[i] == Wake(ops[i])
  {
    seq(|ops|, i requires 0 <= i < |ops| => Wake(ops[i]))
  }

  function View(s: State, b: int): Block
    requires 0 <= b < |s.disk|
  {
    if b in s.cache then s.cache[b] else s.disk[b]
  }

  /** How many log blocks commit has filled. */
  function LogFilled(s: State): (m: nat)
    requires s.phase.Commit?
    ensures m <= |s.blocks|
  {
    if s.phase.k <= |s.blocks| then s.phase.k else |s.blocks|
  }

  /** What the steps need in order to be defined; part of the invariant. */
  predicate Shape(l: Layout, s: State) {
    && LayoutOk(l, |s.disk|)
    && ListOk(l, |s.disk|, s.blocks)
    && |s.durable| == |s.disk| && |s.logical| == |s.disk|
    && (s.phase.Commit? ==>
          |s.phase.base| == |s.disk| && s.phase.k <= 2 * |s.blocks| + 2 && l.start + LogFilled(s) < |s.disk|)
    && (s.phase.Recover? ==>
          Bootable(l, s.phase.base) && |s.phase.base| == |s.disk| && s.phase.k <= |Listed(s.phase.base[l.start])| + 1)
  }

  /** The new contents commit copies out, as history knows them. */
  function Pending(l: Layout, s: State): (vals: seq<Block>)
    requires Shape(l, s)
    ensures |vals| == |s.blocks| && forall i :: 0 <= i < |vals| ==> vals[i] == s.logical[s.blocks[i]]
  {
    assert forall i :: 0 <= i < |s.blocks| ==> Home(l, |s.disk|, s.blocks[i]);
    seq(|s.blocks|, i requires 0 <= i < |s.blocks| => s.logical[s.blocks[i]])
  }

  /** The next disk write of commit can be made: a log block exists on the disk, and it is not the buffer that
      is copied to or from it, which would have its sleep lock taken twice. */
  predicate CommitGoesOn(l: Layout, s: State)
    requires Shape(l, s) && s.phase.Commit?
  {
    var n, k := |s.blocks|, s.phase.k;
    && 0 < n && k < 2 * n + 2
    && (k < n ==> l.start + 1 + k < |s.disk| && s.blocks[k] != l.start + 1 + k)
    && (n < k <= 2 * n ==> s.blocks[k - n - 1] != l.start + k - n)
  }

  predicate Enabled(l: Layout, s: State, ev: Event)
    requires Shape(l, s)
  {
    var up := s.phase.Running? || s.phase.Commit?;
    match ev
    case BeginOp(p) => up && p < |s.ops| && (s.ops[p].Outside? || s.ops[p].Woken?)
    // the caller keeps to MAXOPBLOCKS distinct blocks per operation
    case LogCheck(p, b, data) => up && p < |s.ops| && s.ops[p].Active? && Home(l, |s.disk|, b)
                                 && |s.ops[p].logged + {b}| <= MAXOPBLOCKS
    case LogAppend(p) => up && p < |s.ops| && s.ops[p].Checked?
    case EndOp(p) => up && p < |s.ops| && s.ops[p].Active?
    case CommitIO => s.phase.Commit? && CommitGoesOn(l, s)
    case CommitDone => s.phase.Commit? && (|s.blocks| == 0 || s.phase.k == 2 * |s.blocks| + 2)
    case Crash => Bootable(l, s.disk)
    case RecoverIO =>
      && s.phase.Recover?
      && var blocks := Listed(s.phase.base[l.start]);
         s.phase.k <= |blocks| && (s.phase.k < |blocks| ==> blocks[s.phase.k] != l.start + 1 + s.phase.k)
    case RecoverDone => s.phase.Recover? && s.phase.k == |Listed(s.phase.base[l.start])| + 1
  }

  /** One attempt of begin_op: sleep while committing or while the log might run out. */
  function NextBegin(s: State, p: nat): State
    requires p < |s.ops|
  {
    if s.committing then s.(ops := s.ops[p := Asleep])
    else if |s.blocks| + (s.outstanding + 1) * MAXOPBLOCKS > LOGSIZE then s.(ops := s.ops[p := Asleep])
    else s.(outstanding := s.outstanding + 1, ops := s.ops[p := Active({})])
  }

  /** log_write's tests, made without holding log.lock. */
  function NextCheck(l: Layout, s: State, p: nat, b: int, data: Block): State
    requires p < |s.ops| && s.ops[p].Active?
  {
    if |s.blocks| >= LOGSIZE || |s.blocks| >= l.size - 1 then s.(phase := Panicked(TooBig))
    else if s.outstanding < 1 then s.(phase := Panicked(OutsideTransaction))
    else s.(ops := s.ops[p := Checked(s.ops[p].logged, b, data)])
  }

  /** log_write's locked part: absorb or append, and pin. */
  function NextAppend(s: State, p: nat): State
    requires p < |s.ops| && s.ops[p].Checked? && 0 <= s.ops[p].b < |s.logical|
  {
    var o := s.ops[p];
    s.(blocks := Absorb(s.blocks, o.b),
       cache := s.cache[o.b := o.data],
       logical := s.logical[o.b := o.data],
       ops := s.ops[p := Active(o.logged + {o.b})])
  }

  /** end_op up to its release of log.lock. */
  function NextEnd(s: State, p: nat): State
    requires p < |s.ops|
  {
    if s.committing then s.(outstanding := s.outstanding - 1, phase := Panicked(CommittingInEndOp))
    else if s.outstanding - 1 == 0 then
      s.(outstanding := 0, committing := true, ops := s.ops[p := Committer], phase := Commit(s.disk, 0))
    else s.(outstanding := s.outstanding - 1, ops := WakeAll(s.ops[p := Outside]))
  }

  /** The logged blocks as the buffer cache shows them. */
  function Buffers(l: Layout, s: State): (vals: seq<Block>)
    requires Shape(l, s)
    ensures |vals| == |s.blocks| && forall i :: 0 <= i < |vals| ==> vals[i] == View(s, s.blocks[i])
  {
    assert forall i :: 0 <= i < |s.blocks| ==> Home(l, |s.disk|, s.blocks[i]);
    seq(|s.blocks|, i requires 0 <= i < |s.blocks| => View(s, s.blocks[i]))
  }

  /** bread gives the one buffer a block has, so a log block that is pinned as well changes in the cache. */
  function Patch(cache: map<int, Block>, b: int, v: Block): map<int, Block> {
    if b in cache then cache[b := v] else cache
  }

  /** The next disk write of commit.  A log block is filled from the buffer cache; an installed block is
      unpinned; the header write is where the group becomes durable. */
  function NextCommitIO(l: Layout, s: State): State
    requires Shape(l, s) && Enabled(l, s, CommitIO)
  {
    var n, k := |s.blocks|, s.phase.k;
    var s' := s.(phase := Commit(s.phase.base, k + 1));
    if k < n then
      var v := View(s, s.blocks[k]);
      s'.(disk := s.disk[l.start + 1 + k := v], cache := Patch(s.cache, l.start + 1 + k, v))
    else if k == n then
      s'.(disk := s.disk[l.start := HeaderFor(s.disk[l.start], s.blocks)], durable := s.logical)
    else if k <= 2 * n then
      var b := s.blocks[k - n - 1];
      s'.(disk := s.disk[b := View(s, l.start + k - n)], cache := s.cache - {b})
    else
      s'.(disk := s.disk[l.start := HeaderFor(s.disk[l.start], [])])
  }

  function Idle(o: Op): Op { if o.Committer? then Outside else Wake(o) }

  function NextCommitDone(s: State): State {
    s.(blocks := [], committing := false, phase := Running,
       ops := seq(|s.ops|, i requires 0 <= i < |s.ops| => Idle(s.ops[i])))
  }

  /** Memory is lost; the machine boots and starts recovery. */
  function NextCrash(s: State): State {
    s.(cache := map[], blocks := [], outstanding := 0, committing := false,
       ops := seq(|s.ops|, _ => Outside), phase := Recover(s.disk, 0), logical := s.durable)
  }

  function Next(l: Layout, s: State, ev: Event): State
    requires Shape(l, s) && Enabled(l, s, ev)
    requires ev.LogAppend? ==> Home(l, |s.disk|, s.ops[ev.p].b)
  {
    match ev
    case BeginOp(p) => NextBegin(s, p)
    case LogCheck(p, b, data) => NextCheck(l, s, p, b, data)
    case LogAppend(p) => NextAppend(s, p)
    case EndOp(p) => NextEnd(s, p)
    case CommitIO => NextCommitIO(l, s)
    case CommitDone => NextCommitDone(s)
    case Crash => NextCrash(s)
    case RecoverIO =>
      s.(disk := RecoveryWrite(l, s.disk, Listed(s.phase.base[l.start]), s.phase.k),
         phase := Recover(s.phase.base, s.phase.k + 1))
    case RecoverDone => s.(phase := Running)
  }

  // ---------------------------------------------------------------------
  // Counting over the process table

  function Reserve(o: Op): int { if InCall(o) then MAXOPBLOCKS - |o.logged| else 0 }

  /** Log space the active operations may still claim. */
  function Reserved(ops: seq<Op>): int {
    if ops == [] then 0 else Reserve(ops[0]) + Reserved(ops[1..])
  }

  function CountActive(ops: seq<Op>): nat {
    if ops == [] then 0 else (if InCall(ops[0]) then 1 else 0) + CountActive(ops[1..])
  }

  lemma {:induction false} TallyUpdate(ops: seq<Op>, p: nat, o: Op)
    requires p < |ops|
    ensures Reserved(ops[p := o]) == Reserved(ops) - Reserve(ops[p]) + Reserve(o)
    ensures CountActive(ops[p := o])
         == CountActive(ops) - (if InCall(ops[p]) then 1 else 0) + (if InCall(o) then 1 else 0)
  {
    if p > 0 {
      TallyUpdate(ops[1..], p - 1, o);
      assert ops[p := o][1..] == ops[1..][p - 1 := o];
    } else {
      assert ops[p := o][1..] == ops[1..];
    }
  }

  lemma {:induction false} TallySame(a: seq<Op>, b: seq<Op>)
    requires |a| == |b|
    requires forall i :: 0 <= i < |a| ==> a[i] == b[i] || (!InCall(a[i]) && !InCall(b[i]))
    ensures Reserved(a) == Reserved(b) && CountActive(a) == CountActive(b)
  {
    if a != [] {
      TallySame(a[1..], b[1..]);
    }
  }

  lemma {:induction false} TallyBounds(ops: seq<Op>)
    requires forall i :: 0 <= i < |ops| && InCall(ops[i]) ==> |ops[i].logged| <= MAXOPBLOCKS
    ensures 0 <= Reserved(ops) <= MAXOPBLOCKS * CountActive(ops)
    ensures forall i :: 0 <= i < |ops| && InCall(ops[i]) ==> CountActive(ops) > 0 && Reserve(ops[i]) <= Reserved(ops)
    ensures CountActive(ops) > 0 ==> exists i :: 0 <= i < |ops| && InCall(ops[i])
  {
    if ops != [] {
      TallyBounds(ops[1..]);
    }
  }

  // ---------------------------------------------------------------------
  // The invariant

  /** Recovery run at this instant would show exactly the committed transactions. */
  ghost predicate Durable(l: Layout, s: State) {
    ImageOk(l, s.disk) && SameHome(l, Recovered(l, s.disk), s.durable)
  }

  /** The condition on which begin_op goes to sleep. */
  predicate MustWait(s: State) {
    s.committing || |s.blocks| + (s.outstanding + 1) * MAXOPBLOCKS > LOGSIZE
  }

  ghost predicate OpOk(l: Layout, s: State, o: Op) {
    && (InCall(o) ==> |o.logged| <= MAXOPBLOCKS && forall b :: b in o.logged ==> b in s.blocks)
    && (o.Checked? ==> Home(l, |s.disk|, o.b) && |o.logged + {o.b}| <= MAXOPBLOCKS && l.size > 1)
    && (o.Committer? ==> s.committing)
    && (o.Asleep? ==> MustWait(s))
  }

  ghost predicate Counts(l: Layout, s: State) {
    && s.outstanding == CountActive(s.ops)
    && (s.committing <==> s.phase.Commit?)
    && (s.committing ==> s.outstanding == 0)
    && (!s.committing ==> |s.blocks| + Reserved(s.ops) <= LOGSIZE)
    && (!s.committing && s.outstanding == 0 ==> s.blocks == [])
    && (l.size == 1 ==> s.blocks == [])
    && forall i :: 0 <= i < |s.ops| ==> OpOk(l, s, s.ops[i])
  }

  /** What processes read, through the cache, is the logical image. */
  ghost predicate Coherent(l: Layout, s: State) {
    && |s.logical| == |s.disk|
    && (forall b :: b in s.cache ==> b in s.blocks && 0 <= b < |s.disk| && s.cache[b] == s.logical[b])
    && (forall b :: Home(l, |s.disk|, b) && b !in s.blocks ==> s.disk[b] == s.logical[b])
  }

  ghost predicate RunningOk(l: Layout, s: State) {
    && (forall b :: b in s.blocks ==> b in s.cache)
    && ImageOk(l, s.disk) && Listed(s.disk[l.start]) == []
    && SameHome(l, s.disk, s.durable)
  }

  /** How many blocks install_trans has copied home and unpinned. */
  function Installed(s: State): (m: nat)
    requires s.phase.Commit?
    ensures m <= |s.blocks|
  {
    var n, k := |s.blocks|, s.phase.k;
    if k <= n then 0 else if k <= 2 * n + 1 then k - n - 1 else n
  }

  /** After k writes of a commit of vals to blocks that began on base. */
  ghost predicate Committing(l: Layout, base: Image, blocks: seq<int>, vals: seq<Block>, k: nat, d: Image,
                             durable: Image, logical: Image)
    requires LayoutOk(l, |base|) && BlocksOk(l, |base|, blocks) && |vals| == |blocks| && k <= 2 * |blocks| + 2
  {
    && ImageOk(l, base) && Listed(base[l.start]) == []
    && d == CommitImage(l, base, blocks, vals, k)
    && Updated(l, base, blocks, vals, logical)
    && (k <= |blocks| ==> SameHome(l, base, durable))
    && (k > |blocks| ==> durable == logical)
  }

  ghost predicate CommitOk(l: Layout, s: State)
    requires Shape(l, s) && Fits(l, s) && s.phase.Commit?
  {
    && Committing(l, s.phase.base, s.blocks, Pending(l, s), s.phase.k, s.disk, s.durable, s.logical)
    && (s.phase.k <= |s.blocks| ==> forall b :: b in s.blocks ==> b in s.cache)
    && PinnedFrom(s.cache, s.blocks, Installed(s))
  }

  ghost predicate RecoverOk(l: Layout, s: State)
    requires Shape(l, s) && s.phase.Recover?
  {
    var base, k := s.phase.base, s.phase.k;
    && s.cache == map[] && s.blocks == []
    && (forall i :: 0 <= i < |s.ops| ==> s.ops[i].Outside?)
    && ImageOk(l, base) && s.disk == RecoveryImage(l, base, k)
    && SameHome(l, Recovered(l, base), s.durable)
    && s.logical == s.durable
  }

  /** The list fits the log area. */
  predicate Fits(l: Layout, s: State) { |s.blocks| < l.size }

  /** The longest list log_write lets pass. */
  function Full(l: Layout): int { if l.size - 1 < LOGSIZE then l.size - 1 else LOGSIZE }

  /** What holds in every run, whatever the size of the log area. */
  ghost predicate Wide(l: Layout, s: State) {
    && Shape(l, s) && Counts(l, s) && Bootable(l, s.disk)
    && (s.phase.Panicked? ==> s.phase.why == TooBig && |s.blocks| >= Full(l))
  }

  /** What holds as long as the list has fitted the log area. */
  ghost predicate Inv(l: Layout, s: State) {
    && Wide(l, s) && Fits(l, s)
    && Durable(l, s)
    && (s.phase.Running? ==> Coherent(l, s) && RunningOk(l, s))
    && (s.phase.Commit? ==> Coherent(l, s) && CommitOk(l, s))
    && (s.phase.Recover? ==> RecoverOk(l, s))
  }

  // ---------------------------------------------------------------------
  // Every step keeps the invariant

  /** The process table plays no part in the state of the disk. */
  lemma DiskFrame(l: Layout, s: State, ops: seq<Op>)
    requires Shape(l, s) && Fits(l, s) && s.phase.Commit? && CommitOk(l, s)
    ensures Shape(l, s.(ops := ops)) && CommitOk(l, s.(ops := ops))
  {
    assert Pending(l, s.(ops := ops)) == Pending(l, s);
  }

  lemma SleepWide(l: Layout, s: State, p: nat)
    requires Wide(l, s) && Enabled(l, s, BeginOp(p)) && MustWait(s)
    ensures Wide(l, s.(ops := s.ops[p := Asleep]))
  {
    TallyUpdate(s.ops, p, Asleep);
    TallyBounds(s.ops);
  }

  lemma StartWide(l: Layout, s: State, p: nat)
    requires Wide(l, s) && Enabled(l, s, BeginOp(p)) && !MustWait(s)
    ensures Wide(l, s.(outstanding := s.outstanding + 1, ops := s.ops[p := Active({})]))
  {
    TallyUpdate(s.ops, p, Active({}));
    TallyBounds(s.ops);
  }

  lemma BeginWide(l: Layout, s: State, p: nat)
    requires Wide(l, s) && Enabled(l, s, BeginOp(p))
    ensures Wide(l, NextBegin(s, p))
  {
    if MustWait(s) { SleepWide(l, s, p); } else { StartWide(l, s, p); }
  }

  lemma BeginKeeps(l: Layout, s: State, p: nat)
    requires Inv(l, s) && Enabled(l, s, BeginOp(p))
    ensures Inv(l, NextBegin(s, p))
  {
    BeginWide(l, s, p);
    if s.phase.Commit? {
      DiskFrame(l, s, s.ops[p := Asleep]);
    }
  }

  lemma NotCommitting(l: Layout, s: State, p: nat)
    requires Shape(l, s) && Counts(l, s) && p < |s.ops| && InCall(s.ops[p])
    ensures !s.committing && s.outstanding > 0 && OpOk(l, s, s.ops[p])
    ensures 0 <= Reserve(s.ops[p]) <= Reserved(s.ops)
  {
    TallyBounds(s.ops);
    assert OpOk(l, s, s.ops[p]);
  }

  lemma CheckWide(l: Layout, s: State, p: nat, b: int, data: Block)
    requires Wide(l, s) && Enabled(l, s, LogCheck(p, b, data))
    ensures Wide(l, NextCheck(l, s, p, b, data))
  {
    NotCommitting(l, s, p);
    TallyUpdate(s.ops, p, Checked(s.ops[p].logged, b, data));
  }

  lemma CheckKeeps(l: Layout, s: State, p: nat, b: int, data: Block)
    requires Inv(l, s) && Enabled(l, s, LogCheck(p, b, data))
    ensures Inv(l, NextCheck(l, s, p, b, data))
  {
    CheckWide(l, s, p, b, data);
    NotCommitting(l, s, p);
  }

  /** The size panic of log_write strikes exactly when the log is full.  If the log area holds as much as the header,
      that is only at a process that has used up its MAXOPBLOCKS and is writing again to a block already in the log. */
  lemma TooBigExactly(l: Layout, s: State, p: nat, b: int, data: Block)
    requires Inv(l, s) && Enabled(l, s, LogCheck(p, b, data))
    ensures NextCheck(l, s, p, b, data).phase == Panicked(TooBig) <==> |s.blocks| == Full(l)
    ensures |s.blocks| == LOGSIZE ==> |s.ops[p].logged| == MAXOPBLOCKS && b in s.blocks
  {
    TallyBounds(s.ops);
    assert OpOk(l, s, s.ops[p]);
    assert b !in s.ops[p].logged ==> |s.ops[p].logged + {b}| == |s.ops[p].logged| + 1;
  }

  lemma AppendOps(l: Layout, s: State, p: nat, i: nat)
    requires Wide(l, s) && Enabled(l, s, LogAppend(p)) && i < |s.ops|
    ensures 0 <= s.ops[p].b < |s.disk| && OpOk(l, NextAppend(s, p), NextAppend(s, p).ops[i])
  {
    assert OpOk(l, s, s.ops[i]) && OpOk(l, s, s.ops[p]);
  }

  lemma AppendWide(l: Layout, s: State, p: nat)
    requires Wide(l, s) && Enabled(l, s, LogAppend(p))
    ensures Home(l, |s.disk|, s.ops[p].b) && Wide(l, NextAppend(s, p))
  {
    var o := s.ops[p];
    NotCommitting(l, s, p);
    TallyUpdate(s.ops, p, Active(o.logged + {o.b}));
    if o.b in o.logged {
      assert o.logged + {o.b} == o.logged;
    }
    var s' := NextAppend(s, p);
    forall i | 0 <= i < |s.ops| ensures OpOk(l, s', s'.ops[i]) { AppendOps(l, s, p, i); }
  }

  lemma AppendKeeps(l: Layout, s: State, p: nat)
    requires Inv(l, s) && Enabled(l, s, LogAppend(p))
    ensures Home(l, |s.disk|, s.ops[p].b)
    ensures Fits(l, NextAppend(s, p)) ==> Inv(l, NextAppend(s, p))
  {
    NotCommitting(l, s, p);
    AppendWide(l, s, p);
  }

  lemma EndOps(l: Layout, s: State, p: nat, i: nat)
    requires Wide(l, s) && Enabled(l, s, EndOp(p)) && i < |s.ops|
    ensures OpOk(l, NextEnd(s, p), NextEnd(s, p).ops[i])
  {
    NotCommitting(l, s, p);
    assert OpOk(l, s, s.ops[i]);
  }

  lemma EndTally(l: Layout, s: State, p: nat)
    requires Wide(l, s) && Enabled(l, s, EndOp(p))
    ensures CountActive(NextEnd(s, p).ops) == s.outstanding - 1
    ensures Reserved(NextEnd(s, p).ops) == Reserved(s.ops) - Reserve(s.ops[p]) <= Reserved(s.ops)
  {
    NotCommitting(l, s, p);
    TallyUpdate(s.ops, p, Committer);
    TallyUpdate(s.ops, p, Outside);
    var ended := s.ops[p := Outside];
    TallySame(ended, WakeAll(ended));
  }

  lemma EndWide(l: Layout, s: State, p: nat)
    requires Wide(l, s) && Enabled(l, s, EndOp(p))
    ensures Wide(l, NextEnd(s, p)) && !NextEnd(s, p).phase.Panicked?
  {
    NotCommitting(l, s, p);
    EndTally(l, s, p);
    var s' := NextEnd(s, p);
    forall i | 0 <= i < |s.ops| ensures OpOk(l, s', s'.ops[i]) { EndOps(l, s, p, i); }
  }

  lemma EndKeeps(l: Layout, s: State, p: nat)
    requires Inv(l, s) && Enabled(l, s, EndOp(p))
    ensures Inv(l, NextEnd(s, p))
  {
    NotCommitting(l, s, p);
    EndWide(l, s, p);
  }

  lemma CommitIOWide(l: Layout, s: State)
    requires Wide(l, s) && Enabled(l, s, CommitIO)
    ensures Wide(l, NextCommitIO(l, s))
  {
    var s' := NextCommitIO(l, s);
    assert s'.disk[l.start] == s.disk[l.start] || Listed(s'.disk[l.start]) == s.blocks
        || Listed(s'.disk[l.start]) == [];
    forall i | 0 <= i < |s.ops| ensures OpOk(l, s', s'.ops[i]) { assert OpOk(l, s, s.ops[i]); }
  }

  /** No buffer of the log area is pinned. */
  lemma LogUnpinned(l: Layout, s: State, b: int)
    requires Shape(l, s) && Coherent(l, s) && l.start <= b < l.start + l.size
    ensures b !in s.cache
  {
    assert forall i :: 0 <= i < |s.blocks| ==> Home(l, |s.disk|, s.blocks[i]);
  }

  lemma FillWrites(l: Layout, s: State, k: nat)
    requires Shape(l, s) && Fits(l, s) && Enabled(l, s, CommitIO) && Coherent(l, s) && s.phase.k == k < |s.blocks|
    ensures NextCommitIO(l, s).disk == CommitWrite(l, s.disk, s.blocks, Buffers(l, s), k)
    ensures NextCommitIO(l, s).cache == s.cache
  {
    LogUnpinned(l, s, l.start + 1 + k);
  }

  lemma InstallWrites(l: Layout, s: State, i: nat, k: nat)
    requires Shape(l, s) && Fits(l, s) && Enabled(l, s, CommitIO) && Coherent(l, s)
    requires s.phase.k == k == |s.blocks| + 1 + i && i < |s.blocks|
    ensures NextCommitIO(l, s).disk == CommitWrite(l, s.disk, s.blocks, Buffers(l, s), k)
    ensures NextCommitIO(l, s).cache == s.cache - {s.blocks[i]}
  {
    LogUnpinned(l, s, l.start + 1 + i);
  }

  /** A list that fits is written to the log area alone. */
  lemma CommitIOWrites(l: Layout, s: State, n: nat, k: nat)
    requires Shape(l, s) && Fits(l, s) && Enabled(l, s, CommitIO) && Coherent(l, s) && n == |s.blocks| && k == s.phase.k
    ensures NextCommitIO(l, s).disk == CommitWrite(l, s.disk, s.blocks, Buffers(l, s), k)
    ensures NextCommitIO(l, s).cache == if n < k <= 2 * n then s.cache - {s.blocks[k - n - 1]} else s.cache
  {
    if k < n {
      FillWrites(l, s, k);
    } else if n < k <= 2 * n {
      InstallWrites(l, s, k - n - 1, k);
    }
  }

  lemma SameWrite(l: Layout, d: Image, blocks: seq<int>, vals: seq<Block>, vals': seq<Block>, k: nat)
    requires LayoutOk(l, |d|) && BlocksOk(l, |d|, blocks)
    requires |vals| == |vals'| == |blocks| && k <= 2 * |blocks| + 1
    requires k < |blocks| ==> vals[k] == vals'[k]
    ensures CommitWrite(l, d, blocks, vals, k) == CommitWrite(l, d, blocks, vals', k)
  {
  }

  lemma ImageNext(l: Layout, base: Image, blocks: seq<int>, vals: seq<Block>, vals': seq<Block>, k: nat, k': nat,
                  d: Image, d': Image)
    requires LayoutOk(l, |base|) && BlocksOk(l, |base|, blocks) && |vals| == |vals'| == |blocks|
    requires k' == k + 1 <= 2 * |blocks| + 2 && (k < |blocks| ==> vals[k] == vals'[k])
    requires d == CommitImage(l, base, blocks, vals, k) && d' == CommitWrite(l, d, blocks, vals', k)
    ensures d' == CommitImage(l, base, blocks, vals, k')
  {
    SameWrite(l, d, blocks, vals, vals', k);
    CommitNext(l, base, blocks, vals, k, d);
  }

  /** What commit copies from the cache is what was logged. */
  lemma BuffersPending(l: Layout, s: State, k: nat)
    requires Shape(l, s) && Coherent(l, s) && k < |s.blocks| && forall b :: b in s.blocks ==> b in s.cache
    ensures Buffers(l, s)[k] == Pending(l, s)[k]
  {
    assert s.blocks[k] in s.blocks;
  }

  lemma CommitIOImage(l: Layout, s: State, s': State)
    requires Shape(l, s) && Fits(l, s) && Enabled(l, s, CommitIO) && Coherent(l, s) && CommitOk(l, s)
    requires s' == NextCommitIO(l, s) && Shape(l, s')
    ensures s'.disk == CommitImage(l, s.phase.base, s.blocks, Pending(l, s), s'.phase.k)
  {
    var k := s.phase.k;
    if k < |s.blocks| { BuffersPending(l, s, k); }
    CommitIOWrites(l, s, |s.blocks|, k);
    ImageNext(l, s.phase.base, s.blocks, Pending(l, s), Buffers(l, s), k, s'.phase.k, s.disk, s'.disk);
  }

  lemma CommitIOShape(l: Layout, s: State, s': State)
    requires Shape(l, s) && Enabled(l, s, CommitIO) && s' == NextCommitIO(l, s)
    ensures Shape(l, s') && Pending(l, s') == Pending(l, s)
  {
  }

  lemma AgreesWith(l: Layout, d: Image, blocks: seq<int>, vals: seq<Block>, k: nat, e: Image, durable: Image)
    requires BlocksOk(l, |d|, blocks) && |vals| == |blocks| && OldOrNew(l, d, blocks, vals, k, e)
    requires k <= |blocks| ==> SameHome(l, d, durable)
    requires k > |blocks| ==> Updated(l, d, blocks, vals, durable)
    ensures ImageOk(l, e) && SameHome(l, Recovered(l, e), durable)
  {
    var r := Recovered(l, e);
    assert forall b :: Home(l, |d|, b) && b in blocks && k > |blocks| ==> r[b] == durable[b];
  }

  /** At every stage of a commit recovery shows what is durable. */
  lemma CommittingDurable(l: Layout, base: Image, blocks: seq<int>, vals: seq<Block>, k: nat, d: Image,
                          durable: Image, logical: Image)
    requires LayoutOk(l, |base|) && BlocksOk(l, |base|, blocks) && |vals| == |blocks| && k <= 2 * |blocks| + 2
    requires Committing(l, base, blocks, vals, k, d, durable, logical)
    ensures ImageOk(l, d) && SameHome(l, Recovered(l, d), durable)
  {
    CommitAtomic(l, base, blocks, vals, k);
    AgreesWith(l, base, blocks, vals, k, d, durable);
  }

  /** What is durable changes with the header write. */
  lemma CommittingNext(l: Layout, base: Image, blocks: seq<int>, vals: seq<Block>, k: nat, d: Image,
                       durable: Image, logical: Image, k': nat, d': Image, durable': Image)
    requires LayoutOk(l, |base|) && BlocksOk(l, |base|, blocks) && |vals| == |blocks|
    requires k' == k + 1 <= 2 * |blocks| + 2
    requires Committing(l, base, blocks, vals, k, d, durable, logical)
    requires d' == CommitImage(l, base, blocks, vals, k')
    requires durable' == if k == |blocks| then logical else durable
    ensures Committing(l, base, blocks, vals, k', d', durable', logical)
  {
  }

  lemma CommitIOCache(l: Layout, s: State)
    requires Shape(l, s) && Fits(l, s) && Enabled(l, s, CommitIO) && Coherent(l, s)
    requires PinnedFrom(s.cache, s.blocks, Installed(s))
    ensures PinnedFrom(NextCommitIO(l, s).cache, s.blocks, Installed(NextCommitIO(l, s)))
  {
    CommitIOWrites(l, s, |s.blocks|, s.phase.k);
    var m, m' := Installed(s), Installed(NextCommitIO(l, s));
    if m < m' {
      Unpin(s.cache, s.blocks, m);
    }
  }

  lemma WriteElsewhere(l: Layout, d: Image, blocks: seq<int>, vals: seq<Block>, k: nat, b: int)
    requires LayoutOk(l, |d|) && BlocksOk(l, |d|, blocks) && |vals| == |blocks| && k <= 2 * |blocks| + 1
    requires Home(l, |d|, b) && b !in blocks
    ensures CommitWrite(l, d, blocks, vals, k)[b] == d[b]
  {
  }

  lemma CommitIOCoherent(l: Layout, s: State)
    requires Shape(l, s) && Fits(l, s) && Enabled(l, s, CommitIO) && Coherent(l, s)
    ensures Coherent(l, NextCommitIO(l, s))
  {
    CommitIOWrites(l, s, |s.blocks|, s.phase.k);
    var s' := NextCommitIO(l, s);
    forall b | Home(l, |s.disk|, b) && b !in s.blocks ensures s'.disk[b] == s.logical[b] {
      WriteElsewhere(l, s.disk, s.blocks, Buffers(l, s), s.phase.k, b);
    }
  }

  lemma CommitIOStage(l: Layout, s: State, s': State, base: Image, vals: seq<Block>, k: nat, k': nat)
    requires Shape(l, s) && Fits(l, s) && Enabled(l, s, CommitIO) && Coherent(l, s) && CommitOk(l, s)
    requires s' == NextCommitIO(l, s) && base == s.phase.base && vals == Pending(l, s)
    requires k == s.phase.k && k' == s'.phase.k
    ensures k' <= 2 * |s.blocks| + 2 && Committing(l, base, s.blocks, vals, k', s'.disk, s'.durable, s.logical)
  {
    CommitIOShape(l, s, s');
    CommitIOImage(l, s, s');
    CommittingNext(l, base, s.blocks, vals, k, s.disk, s.durable, s.logical, k', s'.disk, s'.durable);
  }

  lemma CommitIOPins(l: Layout, s: State, s': State)
    requires Shape(l, s) && Fits(l, s) && Enabled(l, s, CommitIO) && Coherent(l, s) && CommitOk(l, s)
    requires s' == NextCommitIO(l, s)
    ensures s'.phase.k <= |s'.blocks| ==> forall b :: b in s'.blocks ==> b in s'.cache
    ensures PinnedFrom(s'.cache, s'.blocks, Installed(s'))
  {
    CommitIOCache(l, s);
    CommitIOWrites(l, s, |s.blocks|, s.phase.k);
  }

  lemma CommitIOPhase(l: Layout, s: State, s': State)
    requires Shape(l, s) && Fits(l, s) && Enabled(l, s, CommitIO) && Coherent(l, s) && CommitOk(l, s)
    requires s' == NextCommitIO(l, s)
    ensures Shape(l, s') && CommitOk(l, s')
  {
    CommitIOShape(l, s, s');
    CommitIOImage(l, s, s');
    CommitIOStage(l, s, s', s.phase.base, Pending(l, s), s.phase.k, s'.phase.k);
    CommitIOPins(l, s, s');
  }

  lemma CommitOkDurable(l: Layout, s: State)
    requires Shape(l, s) && Fits(l, s) && s.phase.Commit? && CommitOk(l, s)
    ensures Durable(l, s)
  {
    CommittingDurable(l, s.phase.base, s.blocks, Pending(l, s), s.phase.k, s.disk, s.durable, s.logical);
  }

  lemma InCommit(l: Layout, s: State)
    requires s.phase.Commit? && Wide(l, s) && Fits(l, s) && Coherent(l, s) && CommitOk(l, s)
    ensures Inv(l, s)
  {
    CommitOkDurable(l, s);
  }

  lemma CommitIOKeeps(l: Layout, s: State)
    requires Inv(l, s) && Enabled(l, s, CommitIO)
    ensures Inv(l, NextCommitIO(l, s))
  {
    CommitIOWide(l, s);
    CommitIOCoherent(l, s);
    CommitIOPhase(l, s, NextCommitIO(l, s));
    InCommit(l, NextCommitIO(l, s));
  }

  lemma CommitDoneWide(l: Layout, s: State)
    requires Wide(l, s) && Enabled(l, s, CommitDone)
    ensures Wide(l, NextCommitDone(s))
  {
    var s' := NextCommitDone(s);
    TallyBounds(s.ops);
    TallySame(s.ops, s'.ops);
    TallyBounds(s'.ops);
    forall i | 0 <= i < |s.ops| ensures OpOk(l, s', s'.ops[i]) { assert OpOk(l, s, s.ops[i]); }
  }

  /** A commit that is done has left the disk as the log has it, and clear. */
  lemma CommitDoneDisk(l: Layout, s: State)
    requires Shape(l, s) && Fits(l, s) && Enabled(l, s, CommitDone) && Coherent(l, s) && CommitOk(l, s)
    ensures ImageOk(l, s.disk) && Listed(s.disk[l.start]) == [] && SameHome(l, s.disk, s.logical) && s.cache == map[]
  {
    NothingPinned(s.cache, s.blocks);
    if |s.blocks| > 0 {
      CommitEnds(l, s.phase.base, s.blocks, Pending(l, s));
    }
  }

  lemma CommitDoneKeeps(l: Layout, s: State)
    requires Inv(l, s) && Enabled(l, s, CommitDone)
    ensures Inv(l, NextCommitDone(s))
  {
    CommitDoneWide(l, s);
    CommitDoneDisk(l, s);
    CommitDoneDurable(l, s);
  }

  lemma CommitDoneDurable(l: Layout, s: State)
    requires Shape(l, s) && Fits(l, s) && Enabled(l, s, CommitDone) && CommitOk(l, s)
    ensures SameHome(l, s.durable, s.logical)
  {
  }

  lemma {:induction false} NoneActive(ops: seq<Op>)
    requires forall i :: 0 <= i < |ops| ==> !InCall(ops[i])
    ensures CountActive(ops) == 0 && Reserved(ops) == 0
  {
    if ops != [] {
      NoneActive(ops[1..]);
    }
  }

  lemma CrashWide(l: Layout, s: State)
    requires Wide(l, s)
    ensures Wide(l, NextCrash(s))
  {
    NoneActive(NextCrash(s).ops);
  }

  lemma CrashKeeps(l: Layout, s: State)
    requires Inv(l, s)
    ensures Inv(l, NextCrash(s))
  {
    CrashWide(l, s);
  }

  lemma RecoverIOWide(l: Layout, s: State)
    requires Wide(l, s) && Enabled(l, s, RecoverIO)
    ensures Wide(l, Next(l, s, RecoverIO))
  {
    var s' := Next(l, s, RecoverIO);
    assert s'.disk[l.start] == s.disk[l.start] || Listed(s'.disk[l.start]) == [];
    forall i | 0 <= i < |s.ops| ensures OpOk(l, s', s'.ops[i]) { assert OpOk(l, s, s.ops[i]); }
  }

  lemma RecoverIOImage(l: Layout, s: State)
    requires Shape(l, s) && Enabled(l, s, RecoverIO) && RecoverOk(l, s)
    ensures Next(l, s, RecoverIO).disk == RecoveryImage(l, s.phase.base, s.phase.k + 1)
  {
  }

  lemma RecoverIOKeeps(l: Layout, s: State)
    requires Inv(l, s) && Enabled(l, s, RecoverIO)
    ensures Inv(l, Next(l, s, RecoverIO))
  {
    RecoverIOWide(l, s);
    RecoverIOImage(l, s);
    InterruptedRecovery(l, s.phase.base, s.phase.k + 1);
  }

  lemma RecoverDoneWide(l: Layout, s: State)
    requires Wide(l, s) && Enabled(l, s, RecoverDone)
    ensures Wide(l, Next(l, s, RecoverDone))
  {
    forall i | 0 <= i < |s.ops| ensures OpOk(l, Next(l, s, RecoverDone), s.ops[i]) { assert OpOk(l, s, s.ops[i]); }
  }

  lemma RecoverDoneKeeps(l: Layout, s: State)
    requires Inv(l, s) && Enabled(l, s, RecoverDone)
    ensures Inv(l, Next(l, s, RecoverDone))
  {
    RecoverDoneWide(l, s);
    RecoveredMeaning(l, s.phase.base);
  }

  lemma AppendHome(l: Layout, s: State, ev: Event)
    requires Wide(l, s) && Enabled(l, s, ev)
    ensures ev.LogAppend? ==> Home(l, |s.disk|, s.ops[ev.p].b)
  {
    if ev.LogAppend? {
      assert OpOk(l, s, s.ops[ev.p]);
    }
  }

  /** Log space is accounted for by every event, whatever the size of the log area, and a crash is possible
      at any time. */
  lemma StepWide(l: Layout, s: State, ev: Event)
    requires Wide(l, s) && Enabled(l, s, ev)
    ensures ev.LogAppend? ==> Home(l, |s.disk|, s.ops[ev.p].b)
    ensures Wide(l, Next(l, s, ev)) && Enabled(l, Next(l, s, ev), Crash)
  {
    AppendHome(l, s, ev);
    match ev
    case BeginOp(p) => BeginWide(l, s, p);
    case LogCheck(p, b, data) => CheckWide(l, s, p, b, data);
    case LogAppend(p) => AppendWide(l, s, p);
    case EndOp(p) => EndWide(l, s, p);
    case CommitIO => CommitIOWide(l, s);
    case CommitDone => CommitDoneWide(l, s);
    case Crash => CrashWide(l, s);
    case RecoverIO => RecoverIOWide(l, s);
    case RecoverDone => RecoverDoneWide(l, s);
  }

  /** Every event, in every state the invariant allows, leads to a state the invariant allows, unless the list outgrows
      the log area. */
  lemma StepKeeps(l: Layout, s: State, ev: Event)
    requires Inv(l, s) && Enabled(l, s, ev)
    ensures ev.LogAppend? ==> Home(l, |s.disk|, s.ops[ev.p].b)
    ensures Fits(l, Next(l, s, ev)) ==> Inv(l, Next(l, s, ev))
  {
    AppendHome(l, s, ev);
    match ev
    case BeginOp(p) => BeginKeeps(l, s, p);
    case LogCheck(p, b, data) => CheckKeeps(l, s, p, b, data);
    case LogAppend(p) => AppendKeeps(l, s, p);
    case EndOp(p) => EndKeeps(l, s, p);
    case CommitIO => CommitIOKeeps(l, s);
    case CommitDone => CommitDoneKeeps(l, s);
    case Crash => CrashKeeps(l, s);
    case RecoverIO => RecoverIOKeeps(l, s);
    case RecoverDone => RecoverDoneKeeps(l, s);
  }

  // ---------------------------------------------------------------------
  // Whole runs

  /** A machine that has just been switched on with a well-formed disk. */
  ghost predicate Init(l: Layout, s: State) {
    && ImageOk(l, s.disk)
    && s.cache == map[] && s.blocks == [] && s.outstanding == 0 && !s.committing
    && (forall i :: 0 <= i < |s.ops| ==> s.ops[i].Outside?)
    && s.phase == Recover(s.disk, 0)
    && s.durable == Recovered(l, s.disk) && s.logical == s.durable
  }

  ghost predicate IsStep(l: Layout, s: State, ev: Event, s': State) {
    && Shape(l, s) && Enabled(l, s, ev)
    && (ev.LogAppend? ==> Home(l, |s.disk|, s.ops[ev.p].b))
    && s' == Next(l, s, ev)
  }

  ghost predicate Run(l: Layout, states: seq<State>, events: seq<Event>) {
    && |states| == |events| + 1
    && Init(l, states[0])
    && forall i :: 0 <= i < |events| ==> IsStep(l, states[i], events[i], states[i + 1])
  }

  lemma InitKeeps(l: Layout, s: State)
    requires Init(l, s)
    ensures Wide(l, s) && (Fits(l, s) ==> Inv(l, s))
  {
    NoneActive(s.ops);
  }

  /** The accounting holds in every state of every run. */
  lemma {:induction false} RunWide(l: Layout, states: seq<State>, events: seq<Event>, i: nat)
    requires Run(l, states, events) && i < |states|
    ensures Wide(l, states[i])
  {
    if i == 0 {
      InitKeeps(l, states[0]);
    } else {
      RunWide(l, states, events, i - 1);
      assert IsStep(l, states[i - 1], events[i - 1], states[i]);
      StepWide(l, states[i - 1], events[i - 1]);
    }
  }

  /** The list has fitted the log area up to the i-th state. */
  ghost predicate Fitted(l: Layout, states: seq<State>, i: nat)
    requires i < |states|
  {
    forall j :: 0 <= j <= i ==> Fits(l, states[j])
  }

  /** The invariant holds in every state of every run until the list outgrows the log area. */
  lemma {:induction false} RunKeeps(l: Layout, states: seq<State>, events: seq<Event>, i: nat)
    requires Run(l, states, events) && i < |states| && Fitted(l, states, i)
    ensures Inv(l, states[i])
  {
    if i == 0 {
      InitKeeps(l, states[0]);
    } else {
      RunKeeps(l, states, events, i - 1);
      assert IsStep(l, states[i - 1], events[i - 1], states[i]);
      StepKeeps(l, states[i - 1], events[i - 1]);
    }
  }

  /** Log discipline in every interleaving and for every log area: the header never overflows, its block numbers are
      distinct, a commit has no operation in progress, neither the panic of end_op nor the transaction panic of
      log_write is reachable, and no wakeup is lost: whoever sleeps in begin_op still has to wait, and
      some operation or commit is under way whose end will wake it. */
  lemma LogDiscipline(l: Layout, states: seq<State>, events: seq<Event>, i: nat)
    requires Run(l, states, events) && i < |states|
    ensures var s := states[i];
      && |s.blocks| <= LOGSIZE && Distinct(s.blocks)
      && (s.committing ==> s.outstanding == 0 && forall p :: 0 <= p < |s.ops| ==> !InCall(s.ops[p]))
      && s.phase != Panicked(CommittingInEndOp) && s.phase != Panicked(OutsideTransaction)
      && (!s.phase.Panicked? ==> forall p :: 0 <= p < |s.ops| && s.ops[p].Asleep? ==>
            MustWait(s) && (s.phase.Commit? || exists q :: 0 <= q < |s.ops| && InCall(s.ops[q])))
  {
    RunWide(l, states, events, i);
    var s := states[i];
    TallyBounds(s.ops);
    assert forall p :: 0 <= p < |s.ops| ==> OpOk(l, s, s.ops[p]);
  }

  /** Only the header write of a commit changes what is durable. */
  lemma OnlyHeader(l: Layout, s: State, ev: Event)
    requires Shape(l, s) && Counts(l, s) && Enabled(l, s, ev) && (ev.LogAppend? ==> Home(l, |s.disk|, s.ops[ev.p].b))
    ensures var d := Next(l, s, ev).durable;
      d == s.durable || (ev == CommitIO && s.phase.k == |s.blocks| && s.outstanding == 0 && d == s.logical)
  {
  }

  /** A step changes what recovery would show only by being the header write of a commit; then it makes
      durable, all at once, everything logged so far, and no operation is in progress. */
  lemma CommitPoint(l: Layout, s: State, ev: Event, s': State)
    requires Inv(l, s) && IsStep(l, s, ev, s') && Fits(l, s')
    ensures Durable(l, s')
    ensures s'.durable == s.durable
         || (ev == CommitIO && s.phase.k == |s.blocks| && s.outstanding == 0 && s'.durable == s.logical)
  {
    OnlyHeader(l, s, ev);
    StepKeeps(l, s, ev);
  }

  lemma DurableMoves(l: Layout, states: seq<State>, events: seq<Event>, i: nat)
    requires Run(l, states, events) && 0 < i < |states| && Fitted(l, states, i)
    ensures Durable(l, states[i])
    ensures states[i].durable == states[i - 1].durable
         || (states[i - 1].outstanding == 0 && states[i].durable == states[i - 1].logical)
  {
    RunKeeps(l, states, events, i - 1);
    assert IsStep(l, states[i - 1], events[i - 1], states[i]);
    CommitPoint(l, states[i - 1], events[i - 1], states[i]);
  }

  /** No half-done operation survives a crash: in every state of every run, unless the list has outgrown the log area,
      recovery would show the logical image of some earlier moment at which no file system call was in progress. */
  lemma {:induction false} CrashConsistency(l: Layout, states: seq<State>, events: seq<Event>, i: nat)
      returns (j: nat)
    requires Run(l, states, events) && i < |states| && Fitted(l, states, i)
    ensures j <= i && states[j].outstanding == 0
    ensures states[i].durable == states[j].logical
    ensures ImageOk(l, states[i].disk) && SameHome(l, Recovered(l, states[i].disk), states[j].logical)
  {
    if i == 0 {
      return 0;
    }
    j := CrashConsistency(l, states, events, i - 1);
    DurableMoves(l, states, events, i);
    if states[i].durable != states[i - 1].durable {
      j := i - 1;
    }
  }

  /** A finished end_op that committed is never lost: once a commit completes, the logical image of
      that moment is what recovery shows. */
  lemma CompletedCommitIsDurable(l: Layout, s: State)
    requires Inv(l, s) && Enabled(l, s, CommitDone)
    ensures SameHome(l, Recovered(l, s.disk), s.logical)
  {
    if |s.blocks| == 0 {
      assert SameHome(l, s.phase.base, s.logical);
    }
  }
}
