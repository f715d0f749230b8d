/** Changes of the file system of kernel/fs.c, made in operations on the log of kernel/log.c, and what a crash leaves
    of them.

    One process changes the disk, in one operation after the other, and the log runs as in GroupCommit: other processes
    may begin and end operations meanwhile, which log nothing, so that a commit can carry several changes, and the
    machine may stop anywhere. */
module DurableDisk {
  import opened Param
  import opened InodeModel
  import opened WriteSet
  import opened DiskImage
  import opened GroupCommit
  import Log = RedoLog

  /** The disk goes from ds[n] to ds[n + 1] in an operation that logs ops[n]; nothing changes without being logged. */
  ghost predicate Changes(sb: Super, ds: seq<Disk>, ops: seq<set<int>>) {
    |ds| == |ops| + 1 && forall n :: 0 <= n < |ops| ==> LogsAll(sb, ds[n], ds[n + 1], ops[n])
  }

  /** How many operations process p has ended in the first x steps. */
  function Ended(events: seq<Event>, p: nat, x: nat): nat
    requires x <= |events|
  {
    if x == 0 then 0 else Ended(events, p, x - 1) + if events[x - 1] == EndOp(p) then 1 else 0
  }

  function LoggedBy(ops: seq<set<int>>, n: nat): set<int> { if n < |ops| then ops[n] else {} }

  /** A step that belongs to the n-th operation of process p, or to none: only p logs, and only what the operation
      logs; when the operation ends, each of its blocks has been given to log_write as the disk after it has it. */
  ghost predicate Follows(l: Log.Layout, sb: Super, s: State, ev: Event, p: nat, ds: seq<Disk>, ops: seq<set<int>>,
                          n: nat)
    requires |ds| == |ops| + 1
  {
    && ev != Crash
    && (ev.LogAppend? ==> ev.p == p < |s.ops| && s.ops[p].Checked? && s.ops[p].b in LoggedBy(ops, n))
    && (ev == EndOp(p) ==> n < |ops| && forall b :: b in ops[n] && Log.Home(l, |s.logical|, b) ==>
          BlockShows(sb, s.logical[b], b, ds[n + 1]))
  }

  /** The first x steps of a run, from an image that shows ds[0], make the changes. */
  ghost predicate Performs(l: Log.Layout, sb: Super, states: seq<State>, events: seq<Event>, p: nat, ds: seq<Disk>,
                           ops: seq<set<int>>, x: nat)
    requires |ds| == |ops| + 1 && x <= |events| < |states|
  {
    && Shows(l, sb, states[0].durable, ds[0])
    && forall y :: 0 <= y < x ==> Follows(l, sb, states[y], events[y], p, ds, ops, Ended(events, p, y))
  }

  // ---------------------------------------------------------------------
  // What has been logged shows the disk after the operations that have ended

  ghost predicate InOp(s: State, p: nat) { p < |s.ops| && InCall(s.ops[p]) }

  /** A block of img shows d, unless it is one of those that are being written. */
  ghost predicate Settled(l: Log.Layout, sb: Super, img: Log.Image, d: Disk, op: set<int>) {
    |img| == sb.size && forall b :: Log.Home(l, |img|, b) && b !in op ==> BlockShows(sb, img[b], b, d)
  }

  /** After n operations, with the next one perhaps under way. */
  ghost predicate LoggedSo(l: Log.Layout, sb: Super, s: State, p: nat, ds: seq<Disk>, ops: seq<set<int>>, n: nat) {
    && n < |ds|
    && Settled(l, sb, s.logical, ds[n], if InOp(s, p) then LoggedBy(ops, n) else {})
  }

  /** A step other than a crash ends no operation but that of the process that takes it, and changes no contents but
      those of the block it logs. */
  lemma OtherSteps(l: Log.Layout, s: State, ev: Event, s': State, p: nat)
    requires IsStep(l, s, ev, s') && ev != Crash && ev != EndOp(p)
    ensures InOp(s, p) ==> InOp(s', p)
    ensures ev.LogAppend? ==> s'.logical == s.logical[s.ops[ev.p].b := s.ops[ev.p].data] && (ev.p == p ==> InOp(s, p))
    ensures !ev.LogAppend? ==> s'.logical == s.logical
  {
  }

  /** An operation that ends leaves the disk after it. */
  lemma EndsSettled(l: Log.Layout, sb: Super, img: Log.Image, d: Disk, d': Disk, op: set<int>)
    requires LogsAll(sb, d, d', op) && Settled(l, sb, img, d, op)
    requires forall b :: b in op && Log.Home(l, |img|, b) ==> BlockShows(sb, img[b], b, d')
    ensures Settled(l, sb, img, d', {})
  {
    forall b | Log.Home(l, |img|, b) ensures BlockShows(sb, img[b], b, d') {
      if b !in op { UnloggedShows(sb, img[b], b, d, d', op); }
    }
  }

  lemma LoggedEnds(l: Log.Layout, sb: Super, s: State, s': State, p: nat, ds: seq<Disk>, ops: seq<set<int>>, n: nat)
    requires Changes(sb, ds, ops) && LoggedSo(l, sb, s, p, ds, ops, n)
    requires IsStep(l, s, EndOp(p), s') && Follows(l, sb, s, EndOp(p), p, ds, ops, n)
    ensures LoggedSo(l, sb, s', p, ds, ops, n + 1)
  {
    EndsSettled(l, sb, s.logical, ds[n], ds[n + 1], ops[n]);
  }

  lemma LoggedNext(l: Log.Layout, sb: Super, s: State, ev: Event, s': State, p: nat, ds: seq<Disk>,
                   ops: seq<set<int>>, n: nat)
    requires |ds| == |ops| + 1 && LoggedSo(l, sb, s, p, ds, ops, n)
    requires IsStep(l, s, ev, s') && Follows(l, sb, s, ev, p, ds, ops, n) && ev != EndOp(p)
    ensures LoggedSo(l, sb, s', p, ds, ops, n)
  {
    OtherSteps(l, s, ev, s', p);
  }

  lemma LoggedStep(l: Log.Layout, sb: Super, s: State, ev: Event, s': State, p: nat, ds: seq<Disk>,
                   ops: seq<set<int>>, n: nat, n': nat)
    requires Changes(sb, ds, ops) && LoggedSo(l, sb, s, p, ds, ops, n)
    requires IsStep(l, s, ev, s') && Follows(l, sb, s, ev, p, ds, ops, n)
    requires n' == n + if ev == EndOp(p) then 1 else 0
    ensures LoggedSo(l, sb, s', p, ds, ops, n')
  {
    if ev == EndOp(p) {
      LoggedEnds(l, sb, s, s', p, ds, ops, n);
    } else {
      LoggedNext(l, sb, s, ev, s', p, ds, ops, n);
    }
  }

  /** At every step what has been logged shows the disk after the operations that have ended, but for the blocks of one
      that is under way. */
  lemma LoggedAll(l: Log.Layout, sb: Super, states: seq<State>, events: seq<Event>, p: nat, ds: seq<Disk>,
                  ops: seq<set<int>>, x: nat)
    requires Changes(sb, ds, ops) && Run(l, states, events) && x <= |events|
    requires Performs(l, sb, states, events, p, ds, ops, x)
    ensures LoggedSo(l, sb, states[x], p, ds, ops, Ended(events, p, x))
  {
    for y := 0 to x
      invariant LoggedSo(l, sb, states[y], p, ds, ops, Ended(events, p, y))
    {
      var n, n' := Ended(events, p, y), Ended(events, p, y + 1);
      LoggedStep(l, sb, states[y], events[y], states[y + 1], p, ds, ops, n, n');
    }
  }

  // ---------------------------------------------------------------------
  // One writer leaves room in the log

  ghost predicate OnlyLogs(events: seq<Event>, p: nat, x: nat) {
    x <= |events| && forall y :: 0 <= y < x && events[y].LogAppend? ==> events[y].p == p
  }

  /** The list has room for another operation besides what process p may still log. */
  ghost predicate Spare(s: State, p: nat) {
    |s.blocks| + (if InOp(s, p) then MAXOPBLOCKS - |s.ops[p].logged| else 0) <= LOGSIZE - MAXOPBLOCKS
  }

  lemma SpareAppend(l: Log.Layout, s: State, s': State, p: nat)
    requires Wide(l, s) && IsStep(l, s, LogAppend(p), s') && Spare(s, p)
    ensures Spare(s', p)
  {
    var o := s.ops[p];
    assert OpOk(l, s, o);
    if o.b in o.logged {
      assert o.logged + {o.b} == o.logged;
    } else {
      assert |o.logged + {o.b}| == |o.logged| + 1;
    }
  }

  lemma SpareBegins(l: Log.Layout, s: State, s': State, p: nat)
    requires Wide(l, s) && IsStep(l, s, BeginOp(p), s') && Spare(s, p)
    ensures Spare(s', p)
  {
  }

  lemma SpareStep(l: Log.Layout, s: State, ev: Event, s': State, p: nat)
    requires Wide(l, s) && IsStep(l, s, ev, s') && Spare(s, p) && (ev.LogAppend? ==> ev.p == p)
    ensures Spare(s', p)
  {
    if ev == LogAppend(p) {
      SpareAppend(l, s, s', p);
    } else if ev == BeginOp(p) {
      SpareBegins(l, s, s', p);
    }
  }

  /** If only one process logs, the list fits any log area that has room for all operations but one. */
  lemma OneWriterFits(l: Log.Layout, states: seq<State>, events: seq<Event>, p: nat, x: nat)
    requires Run(l, states, events) && x <= |events| && OnlyLogs(events, p, x) && LOGSIZE - MAXOPBLOCKS < l.size
    ensures Fitted(l, states, x)
  {
    for y := 0 to x
      invariant Spare(states[y], p) && Fitted(l, states, y)
    {
      RunWide(l, states, events, y);
      RunWide(l, states, events, y + 1);
      SpareStep(l, states[y], events[y], states[y + 1], p);
      SpareFits(l, states[y + 1], p);
    }
  }

  lemma SpareFits(l: Log.Layout, s: State, p: nat)
    requires Wide(l, s) && Spare(s, p) && LOGSIZE - MAXOPBLOCKS < l.size
    ensures Fits(l, s)
  {
    if InOp(s, p) { assert OpOk(l, s, s.ops[p]); }
  }

  // ---------------------------------------------------------------------
  // What a crash leaves

  lemma NobodyIn(l: Log.Layout, s: State, p: nat)
    requires Wide(l, s) && s.outstanding == 0
    ensures !InOp(s, p)
  {
    assert forall q :: 0 <= q < |s.ops| ==> OpOk(l, s, s.ops[q]);
    TallyBounds(s.ops);
  }

  /** With no operation in progress, what has been logged shows the disk after the operations so far. */
  lemma QuietShows(l: Log.Layout, sb: Super, states: seq<State>, events: seq<Event>, p: nat, ds: seq<Disk>,
                   ops: seq<set<int>>, x: nat)
    requires Changes(sb, ds, ops) && Run(l, states, events) && x <= |events|
    requires Performs(l, sb, states, events, p, ds, ops, x) && states[x].outstanding == 0
    ensures Ended(events, p, x) < |ds| && Shows(l, sb, states[x].logical, ds[Ended(events, p, x)])
  {
    LoggedAll(l, sb, states, events, p, ds, ops, x);
    RunWide(l, states, events, x);
    NobodyIn(l, states[x], p);
  }

  lemma SameShows(l: Log.Layout, sb: Super, img: Log.Image, img': Log.Image, d: Disk)
    requires Shows(l, sb, img, d) && Log.SameHome(l, img, img')
    ensures Shows(l, sb, img', d)
  {
  }

  /** Nothing is committed yet, or a commit has just been completed. */
  ghost predicate CommittedAt(events: seq<Event>, c: nat) {
    c == 0 || (c <= |events| && events[c - 1] == CommitDone)
  }

  lemma CommittedShows(l: Log.Layout, sb: Super, states: seq<State>, events: seq<Event>, p: nat, ds: seq<Disk>,
                       ops: seq<set<int>>, c: nat, last: nat)
    requires Changes(sb, ds, ops) && Run(l, states, events) && c <= last <= |events|
    requires Performs(l, sb, states, events, p, ds, ops, last) && Fitted(l, states, last) && CommittedAt(events, c)
    ensures Ended(events, p, c) < |ds| && Shows(l, sb, states[c].durable, ds[Ended(events, p, c)])
  {
    if c > 0 {
      var s := states[c - 1];
      assert IsStep(l, s, events[c - 1], states[c]);
      RunKeeps(l, states, events, c - 1);
      CompletedCommitIsDurable(l, s);
      QuietShows(l, sb, states, events, p, ds, ops, c - 1);
      SameShows(l, sb, s.logical, s.durable, ds[Ended(events, p, c - 1)]);
    }
  }

  /** Where what is durable goes in a step, with n operations ended: it stays, or it shows the disk after them. */
  ghost predicate StaysOrShows(l: Log.Layout, sb: Super, durable: Log.Image, durable': Log.Image, ds: seq<Disk>,
                               n: nat)
  {
    durable' == durable || (n < |ds| && Shows(l, sb, durable', ds[n]))
  }

  lemma DurableStep(l: Log.Layout, sb: Super, states: seq<State>, events: seq<Event>, p: nat, ds: seq<Disk>,
                    ops: seq<set<int>>, x: nat, y: nat, last: nat)
    requires Changes(sb, ds, ops) && Run(l, states, events) && y == x + 1 <= last <= |events|
    requires Performs(l, sb, states, events, p, ds, ops, last) && Fitted(l, states, last)
    ensures StaysOrShows(l, sb, states[x].durable, states[y].durable, ds, Ended(events, p, x))
  {
    DurableMoves(l, states, events, y);
    if states[y].durable != states[x].durable {
      QuietShows(l, sb, states, events, p, ds, ops, x);
    }
  }

  lemma StepByStep(l: Log.Layout, sb: Super, states: seq<State>, events: seq<Event>, p: nat, ds: seq<Disk>, c: nat,
                   x: nat)
      returns (m: nat)
    requires c <= x <= |events| < |states| && Ended(events, p, c) < |ds|
    requires Shows(l, sb, states[c].durable, ds[Ended(events, p, c)])
    requires forall y :: c <= y < x ==>
      StaysOrShows(l, sb, states[y].durable, states[y + 1].durable, ds, Ended(events, p, y))
    ensures Ended(events, p, c) <= m <= Ended(events, p, x) && m < |ds| && Shows(l, sb, states[x].durable, ds[m])
  {
    m := Ended(events, p, c);
    for y := c to x
      invariant Ended(events, p, c) <= m <= Ended(events, p, y) && m < |ds| && Shows(l, sb, states[y].durable, ds[m])
    {
      if states[y + 1].durable != states[y].durable { m := Ended(events, p, y); }
    }
  }

  /** What is durable shows a disk between two operations, and none from before a completed commit. */
  lemma DurableShows(l: Log.Layout, sb: Super, states: seq<State>, events: seq<Event>, p: nat, ds: seq<Disk>,
                     ops: seq<set<int>>, c: nat, x: nat)
      returns (m: nat)
    requires Changes(sb, ds, ops) && Run(l, states, events) && c <= x <= |events|
    requires Performs(l, sb, states, events, p, ds, ops, x) && Fitted(l, states, x) && CommittedAt(events, c)
    ensures Ended(events, p, c) <= m <= Ended(events, p, x) && m < |ds| && Shows(l, sb, states[x].durable, ds[m])
  {
    CommittedShows(l, sb, states, events, p, ds, ops, c, x);
    forall y | c <= y < x
      ensures StaysOrShows(l, sb, states[y].durable, states[y + 1].durable, ds, Ended(events, p, y))
    {
      DurableStep(l, sb, states, events, p, ds, ops, y, y + 1, x);
    }
    m := StepByStep(l, sb, states, events, p, ds, c, x);
  }

  /** The machine only stops and recovers in steps x .. y. */
  ghost predicate OnlyRecovers(events: seq<Event>, x: nat, y: nat) {
    y <= |events| && forall z :: x <= z < y ==> events[z].Crash? || events[z].RecoverIO? || events[z].RecoverDone?
  }

  lemma StillDurable(l: Log.Layout, states: seq<State>, events: seq<Event>, x: nat, y: nat)
    requires Run(l, states, events) && x <= y && OnlyRecovers(events, x, y)
    ensures states[y].durable == states[x].durable
  {
    for z := x to y
      invariant states[z].durable == states[x].durable
    {
      assert IsStep(l, states[z], events[z], states[z + 1]);
    }
  }

  /** However often the machine stops, recovery shows the disk between two operations, with every operation of a
      completed commit. */
  lemma CrashBetween(l: Log.Layout, sb: Super, states: seq<State>, events: seq<Event>, p: nat, ds: seq<Disk>,
                     ops: seq<set<int>>, c: nat, x: nat, y: nat)
      returns (m: nat)
    requires Changes(sb, ds, ops) && Run(l, states, events) && c <= x <= y <= |events|
    requires LOGSIZE - MAXOPBLOCKS < l.size
    requires Performs(l, sb, states, events, p, ds, ops, x) && CommittedAt(events, c) && OnlyRecovers(events, x, y)
    ensures Ended(events, p, c) <= m <= Ended(events, p, x) && m < |ds|
    ensures Log.ImageOk(l, states[y].disk) && Shows(l, sb, Log.Recovered(l, states[y].disk), ds[m])
    ensures states[y].phase.Running? ==> Shows(l, sb, states[y].disk, ds[m])
  {
    OneWriterFits(l, states, events, p, y);
    m := DurableShows(l, sb, states, events, p, ds, ops, c, x);
    StillDurable(l, states, events, x, y);
    RunKeeps(l, states, events, y);
    SameShows(l, sb, states[y].durable, Log.Recovered(l, states[y].disk), ds[m]);
    if states[y].phase.Running? {
      SameShows(l, sb, states[y].durable, states[y].disk, ds[m]);
    }
  }

  // ---------------------------------------------------------------------
  // Any number of writers

  /** An image shows a file system whose bitmap and block pointers agree and in which no file has holes. */
  ghost predicate ShowsFiles(l: Log.Layout, sb: Super, img: Log.Image) {
    exists d, owner :: Consistent(sb, d, owner, {}) && NoHoles(sb, d) && Shows(l, sb, img, d)
  }

  /** If what has been logged shows a file system in order whenever no call is in progress, recovery shows one at every
      moment, whoever writes. */
  lemma CrashShowsFiles(l: Log.Layout, sb: Super, states: seq<State>, events: seq<Event>, x: nat)
    requires Run(l, states, events) && x < |states| && Fitted(l, states, x)
    requires forall y :: 0 <= y <= x && states[y].outstanding == 0 ==> ShowsFiles(l, sb, states[y].logical)
    ensures Log.ImageOk(l, states[x].disk) && ShowsFiles(l, sb, Log.Recovered(l, states[x].disk))
  {
    var y := CrashConsistency(l, states, events, x);
    var d, owner :| Consistent(sb, d, owner, {}) && NoHoles(sb, d) && Shows(l, sb, states[y].logical, d);
    SameShows(l, sb, states[y].logical, Log.Recovered(l, states[x].disk), d);
  }
}
