/** How much log area kernel/log.c needs: a run that fills the log one block at a time, and what becomes of it when
    the log area is smaller than the header, down to a crash that shows half a transaction. */
module LogRoom {
  import opened Param
  import opened RedoLog
  import opened LogDevice
  import opened GroupCommit

  /** The log area has room for every block the header can list. */
  predicate Roomy(l: Layout) { LOGSIZE < l.size }

  const OLD := Block([0])
  const NEW := Block([1])

  /** Three processes write different blocks behind the log in turn: block j by process Who(j). */
  function Home0(l: Layout, j: nat): int { l.start + l.size + j }

  function Who(j: nat): (p: nat)
    ensures p < 3
  {
    if j < 3 then j else Who(j - 3)
  }

  /** Three turns are one of each. */
  lemma {:induction false} Turns(j: nat)
    ensures Who(j) != Who(j + 1) && Who(j) != Who(j + 2) && Who(j + 1) != Who(j + 2) && Who(j + 3) == Who(j)
  {
    if j >= 3 { Turns(j - 3); }
  }

  function Logged(l: Layout, m: nat, p: nat): set<int> {
    if m == 0 then {} else Logged(l, m - 1, p) + if Who(m - 1) == p then {Home0(l, m - 1)} else {}
  }

  /** How many of the first m blocks are process p's. */
  function Share(m: nat, p: nat): nat {
    if m == 0 then 0 else Share(m - 1, p) + if Who(m - 1) == p then 1 else 0
  }

  lemma RoundShare(m: nat, p: nat)
    requires p < 3
    ensures Share(m + 3, p) == Share(m, p) + 1
  {
    Turns(m);
    assert Share(m + 1, p) == Share(m, p) + if Who(m) == p then 1 else 0;
    assert Share(m + 2, p) == Share(m + 1, p) + if Who(m + 1) == p then 1 else 0;
  }

  lemma {:induction false} ShareOf(m: nat)
    ensures 3 * Share(m, Who(m)) <= m && Share(3 * m, 2) == m
  {
    if m >= 3 {
      ShareOf(m - 3);
      RoundShare(m - 3, Who(m));
    }
    if m > 0 {
      ShareOf(m - 1);
      RoundShare(3 * (m - 1), 2);
    }
  }

  lemma {:induction false} LoggedBelow(l: Layout, m: nat, p: nat)
    ensures forall b :: b in Logged(l, m, p) ==> b < Home0(l, m)
  {
    if m > 0 { LoggedBelow(l, m - 1, p); }
  }

  lemma {:induction false} LoggedCount(l: Layout, m: nat, p: nat)
    ensures |Logged(l, m, p)| == Share(m, p)
  {
    if m > 0 {
      LoggedCount(l, m - 1, p);
      LoggedBelow(l, m - 1, p);
      var w, b := Logged(l, m - 1, p), Home0(l, m - 1);
      assert b !in w && |w + {b}| == |w| + 1;
    }
  }

  /** The process whose turn it is has logged fewer than its share. */
  lemma InBudget(l: Layout, m: nat)
    requires m < LOGSIZE
    ensures |Logged(l, m, Who(m))| < MAXOPBLOCKS
    ensures |Logged(l, m, Who(m)) + {Home0(l, m)}| <= MAXOPBLOCKS
  {
    LoggedCount(l, m, Who(m));
    ShareOf(m);
  }

  /** A disk of empty blocks, its header listing nothing. */
  function Blank(length: nat): Image { seq(length, _ => OLD) }

  predicate RoomBehind(l: Layout, length: nat) { LayoutOk(l, length) && l.start + l.size + LOGSIZE <= length }

  /** The homes behind the log are as they were, and the first m of them have new contents in the cache. */
  ghost predicate Pinned(l: Layout, s: State, m: nat) {
    && ImageOk(l, s.disk) && Listed(s.disk[l.start]) == [] && |s.logical| == |s.disk|
    && (forall b :: Home(l, |s.disk|, b) ==> s.disk[b] == OLD)
    && l.start + l.size + m <= |s.disk|
    && (forall j: nat :: j < m ==>
          Home0(l, j) in s.cache && s.cache[Home0(l, j)] == NEW && s.logical[Home0(l, j)] == NEW)
  }

  /** Three operations have logged m blocks between them, the first m behind the log. */
  ghost predicate Level(l: Layout, length: nat, m: nat, s: State) {
    && Shape(l, s) && |s.disk| == length && s.phase == Running && !s.committing && s.outstanding == 3 && |s.ops| == 3
    && |s.blocks| == m && (forall j :: 0 <= j < m ==> s.blocks[j] == Home0(l, j))
    && Pinned(l, s, m)
  }

  predicate Shared(l: Layout, m: nat, ops: seq<Op>) {
    |ops| == 3 && forall p: nat :: p < 3 ==> ops[p] == Active(Logged(l, m, p))
  }

  /** They are active, and took turns. */
  ghost predicate Filled(l: Layout, length: nat, m: nat, s: State) {
    Level(l, length, m, s) && Shared(l, m, s.ops)
  }

  /** With no call in progress, the first two homes behind the log are not new and old. */
  predicate Whole(l: Layout, s: State) {
    s.outstanding == 0 ==>
      Home0(l, 1) < |s.logical| && (s.logical[Home0(l, 0)] == OLD || s.logical[Home0(l, 1)] == NEW)
  }

  /** A run of the machine that ends in s. */
  ghost predicate Ends(l: Layout, states: seq<State>, events: seq<Event>, s: State) {
    Run(l, states, events) && states[|events|] == s
  }

  /** Such a run in which every moment without a call in progress is whole. */
  ghost predicate Reaches(l: Layout, states: seq<State>, events: seq<Event>, s: State) {
    Ends(l, states, events, s) && forall j :: 0 <= j < |states| ==> Whole(l, states[j])
  }

  lemma Extend(l: Layout, states: seq<State>, events: seq<Event>, s: State, ev: Event, s': State)
      returns (states': seq<State>, events': seq<Event>)
    requires Reaches(l, states, events, s) && IsStep(l, s, ev, s') && Whole(l, s')
    ensures Reaches(l, states', events', s') && states'[0] == states[0]
  {
    states', events' := states + [s'], events + [ev];
  }

  /** The machine has recovered a blank disk, and k of the three operations have begun. */
  ghost predicate Begun(l: Layout, length: nat, k: nat, s: State) {
    && Shape(l, s) && |s.disk| == length && s.phase == Running && !s.committing && s.outstanding == k && s.blocks == []
    && |s.ops| == 3 && (forall p: nat :: p < 3 ==> s.ops[p] == if p < k then Active({}) else Outside)
    && Pinned(l, s, 0) && Home0(l, 1) < |s.logical| && s.logical[Home0(l, 0)] == OLD
  }

  function BootState(l: Layout, length: nat): State
    requires LayoutOk(l, length)
  {
    var d := Blank(length);
    State(d, map[], [], 0, false, [Outside, Outside, Outside], Recover(d, 0), Recovered(l, d), Recovered(l, d))
  }

  lemma BlankRecovered(l: Layout, length: nat)
    requires RoomBehind(l, length)
    ensures ImageOk(l, Blank(length)) && Listed(Blank(length)[l.start]) == []
    ensures var r := Recovered(l, Blank(length));
      && |r| == length && ImageOk(l, r) && Listed(r[l.start]) == [] && forall b :: Home(l, length, b) ==> r[b] == OLD
    ensures Recovered(l, Blank(length)) == RecoveryWrite(l, Blank(length), [], 0)
  {
    assert Listed(Blank(length)[l.start]) == [];
    RecoveredMeaning(l, Blank(length));
    RecoveryStart(l, Blank(length));
  }

  lemma RecoveryStart(l: Layout, d: Image)
    requires LayoutOk(l, |d|)
    ensures RecoveryFrom(l, d, [], 1) == RecoveryWrite(l, d, [], 0)
  {
    assert RecoveryFrom(l, d, [], 0) == d;
  }

  lemma BootRun(l: Layout, length: nat) returns (states: seq<State>, events: seq<Event>, s: State)
    requires RoomBehind(l, length)
    ensures Reaches(l, states, events, s) && Begun(l, length, 0, s) && |states[0].disk| == length
  {
    BlankRecovered(l, length);
    var s0 := BootState(l, length);
    var s1 := Next(l, s0, RecoverIO);
    assert s1.disk == Recovered(l, Blank(length));
    s := Next(l, s1, RecoverDone);
    states, events := [s0], [];
    states, events := Extend(l, states, events, s0, RecoverIO, s1);
    states, events := Extend(l, states, events, s1, RecoverDone, s);
  }

  lemma BeginRun(l: Layout, states: seq<State>, events: seq<Event>, length: nat, k: nat, s: State)
      returns (states': seq<State>, events': seq<Event>, s': State)
    requires RoomBehind(l, length) && k < 3 && Reaches(l, states, events, s) && Begun(l, length, k, s)
    ensures Reaches(l, states', events', s') && Begun(l, length, k + 1, s') && states'[0] == states[0]
  {
    s' := NextBegin(s, k);
    states', events' := Extend(l, states, events, s, BeginOp(k), s');
  }

  lemma FillStart(l: Layout, length: nat) returns (states: seq<State>, events: seq<Event>, s: State)
    requires RoomBehind(l, length)
    ensures Reaches(l, states, events, s) && Filled(l, length, 0, s) && |states[0].disk| == length
  {
    states, events, s := BootRun(l, length);
    states, events, s := BeginRun(l, states, events, length, 0, s);
    states, events, s := BeginRun(l, states, events, length, 1, s);
    states, events, s := BeginRun(l, states, events, length, 2, s);
  }

  /** The process whose turn it is calls log_write for its next block. */
  function Turn(l: Layout, m: nat): Event { LogCheck(Who(m), Home0(l, m), NEW) }

  lemma TurnStep(l: Layout, length: nat, m: nat, s: State)
    requires RoomBehind(l, length) && Filled(l, length, m, s) && m < LOGSIZE
    ensures IsStep(l, s, Turn(l, m), NextCheck(l, s, Who(m), Home0(l, m), NEW))
  {
    InBudget(l, m);
    assert s.ops[Who(m)] == Active(Logged(l, m, Who(m)));
  }

  /** Appending the next home behind the log, whatever room is left. */
  lemma Appended(l: Layout, length: nat, m: nat, s: State, p: nat)
    requires Level(l, length, m, s) && m < LOGSIZE && Home0(l, m) < length
    requires p < 3 && s.ops[p].Checked? && s.ops[p].b == Home0(l, m) && s.ops[p].data == NEW
    ensures var s' := NextAppend(s, p);
      && IsStep(l, s, LogAppend(p), s') && Level(l, length, m + 1, s')
      && s'.ops == s.ops[p := Active(s.ops[p].logged + {Home0(l, m)})]
  {
    assert Home0(l, m) !in s.blocks;
    assert NextAppend(s, p).blocks == s.blocks + [Home0(l, m)];
  }

  lemma SharedNext(l: Layout, m: nat, ops: seq<Op>)
    requires Shared(l, m, ops)
    ensures Shared(l, m + 1, ops[Who(m) := Active(Logged(l, m, Who(m)) + {Home0(l, m)})])
  {
    forall q: nat | q < 3 ensures Logged(l, m + 1, q) == Logged(l, m, q) + if Who(m) == q then {Home0(l, m)} else {} {}
  }

  lemma CheckPassed(l: Layout, length: nat, m: nat, s: State, p: nat, b: int)
    requires Filled(l, length, m, s) && m < LOGSIZE && m < l.size - 1 && p == Who(m)
    ensures NextCheck(l, s, p, b, NEW) == s.(ops := s.ops[p := Checked(Logged(l, m, p), b, NEW)])
  {
    assert s.ops[p] == Active(Logged(l, m, p));
  }

  lemma AppendStep(l: Layout, length: nat, m: nat, s: State, p: nat, t: State)
    requires RoomBehind(l, length) && Filled(l, length, m, s) && m < LOGSIZE && m < l.size - 1
    requires p == Who(m) && t == s.(ops := s.ops[p := Checked(Logged(l, m, p), Home0(l, m), NEW)])
    ensures IsStep(l, t, LogAppend(p), NextAppend(t, p)) && Filled(l, length, m + 1, NextAppend(t, p))
  {
    Appended(l, length, m, t, p);
    SharedNext(l, m, s.ops);
    var o := Active(Logged(l, m, p) + {Home0(l, m)});
    assert t.ops[p := o] == s.ops[p := o];
  }

  lemma LogOne(l: Layout, states: seq<State>, events: seq<Event>, length: nat, m: nat, s: State)
      returns (states': seq<State>, events': seq<Event>, s': State)
    requires RoomBehind(l, length) && Reaches(l, states, events, s) && Filled(l, length, m, s)
    requires m < LOGSIZE && m < l.size - 1
    ensures Reaches(l, states', events', s') && Filled(l, length, m + 1, s') && states'[0] == states[0]
  {
    TurnStep(l, length, m, s);
    var t := NextCheck(l, s, Who(m), Home0(l, m), NEW);
    CheckPassed(l, length, m, s, Who(m), Home0(l, m));
    AppendStep(l, length, m, s, Who(m), t);
    s' := NextAppend(t, Who(m));
    states', events' := Extend(l, states, events, s, Turn(l, m), t);
    states', events' := Extend(l, states', events', t, LogAppend(Who(m)), s');
  }

  lemma {:induction false} FillRun(l: Layout, length: nat, m: nat)
      returns (states: seq<State>, events: seq<Event>, s: State)
    requires RoomBehind(l, length) && m <= LOGSIZE && m < l.size
    ensures Reaches(l, states, events, s) && Filled(l, length, m, s) && |states[0].disk| == length
  {
    if m == 0 {
      states, events, s := FillStart(l, length);
    } else {
      states, events, s := FillRun(l, length, m - 1);
      states, events, s := LogOne(l, states, events, length, m - 1, s);
    }
  }

  /** What the log promises: the list fits the log area, and the size panic is for a full header only. */
  predicate Disciplined(l: Layout, s: State) {
    |s.blocks| < l.size && (s.phase == Panicked(TooBig) ==> |s.blocks| == LOGSIZE)
  }

  /** In a log area of LOGSIZE blocks or fewer, a process within its budget is stopped. */
  lemma StoppedInBudget(l: Layout, length: nat) returns (states: seq<State>, events: seq<Event>, s: State, p: nat)
    requires RoomBehind(l, length) && !Roomy(l)
    ensures Reaches(l, states, events, s) && |states[0].disk| == length && s.phase == Panicked(TooBig)
    ensures |s.blocks| == l.size - 1 < LOGSIZE && p < |s.ops| && s.ops[p].Active? && |s.ops[p].logged| < MAXOPBLOCKS
  {
    var m := l.size - 1;
    var t;
    states, events, t := FillRun(l, length, m);
    p := Who(m);
    InBudget(l, m);
    TurnStep(l, length, m, t);
    assert t.ops[p] == Active(Logged(l, m, p));
    s := NextCheck(l, t, p, Home0(l, m), NEW);
    states, events := Extend(l, states, events, t, Turn(l, m), s);
  }

  /** A process passes the unlocked test. */
  lemma PassCheck(l: Layout, s: State, p: nat, b: int)
    requires Shape(l, s) && s.phase == Running && s.outstanding > 0 && |s.blocks| < LOGSIZE && |s.blocks| < l.size - 1
    requires p < |s.ops| && s.ops[p].Active? && |s.ops[p].logged + {b}| <= MAXOPBLOCKS && Home(l, |s.disk|, b)
    ensures var s' := s.(ops := s.ops[p := Checked(s.ops[p].logged, b, NEW)]);
      Shape(l, s') && IsStep(l, s, LogCheck(p, b, NEW), s')
  {
  }

  /** Processes p and q have passed it for two homes behind the log; r is where it was. */
  predicate TwoChecked(l: Layout, m: nat, s: State, p: nat, q: nat, r: nat) {
    && |s.ops| == 3 && p < 3 && q < 3 && r < 3 && p != q && p != r && q != r
    && s.ops[p].Checked? && s.ops[p].b == Home0(l, m) && s.ops[p].data == NEW
    && s.ops[q].Checked? && s.ops[q].b == Home0(l, m + 1) && s.ops[q].data == NEW
    && s.ops[r].Active?
  }

  lemma TwoPass(l: Layout, m: nat, s: State, p: nat, q: nat, r: nat) returns (t: State, u: State)
    requires Shape(l, s) && s.phase == Running && s.outstanding > 0 && |s.blocks| < LOGSIZE && |s.blocks| < l.size - 1
    requires |s.ops| == 3 && p < 3 && q < 3 && r < 3 && p != q && p != r && q != r && Home0(l, m + 1) < |s.disk|
    requires s.ops[p].Active? && |s.ops[p].logged + {Home0(l, m)}| <= MAXOPBLOCKS
    requires s.ops[q].Active? && |s.ops[q].logged + {Home0(l, m + 1)}| <= MAXOPBLOCKS && s.ops[r].Active?
    ensures IsStep(l, s, LogCheck(p, Home0(l, m), NEW), t) && IsStep(l, t, LogCheck(q, Home0(l, m + 1), NEW), u)
    ensures t.outstanding == s.outstanding && u == s.(ops := u.ops) && TwoChecked(l, m, u, p, q, r)
  {
    PassCheck(l, s, p, Home0(l, m));
    t := s.(ops := s.ops[p := Checked(s.ops[p].logged, Home0(l, m), NEW)]);
    PassCheck(l, t, q, Home0(l, m + 1));
    u := t.(ops := t.ops[q := Checked(t.ops[q].logged, Home0(l, m + 1), NEW)]);
  }

  /** The next two processes do, one after the other. */
  lemma TwoChecks(l: Layout, length: nat, m: nat, s: State) returns (t: State, u: State)
    requires RoomBehind(l, length) && Filled(l, length, m, s) && m < LOGSIZE - 1 && m + 1 < l.size
    ensures IsStep(l, s, Turn(l, m), t) && IsStep(l, t, Turn(l, m + 1), u)
    ensures t.outstanding == 3 && u == s.(ops := u.ops) && TwoChecked(l, m, u, Who(m), Who(m + 1), Who(m + 2))
  {
    var p, q, r := Who(m), Who(m + 1), Who(m + 2);
    Turns(m);
    assert s.ops[p] == Active(Logged(l, m, p)) && s.ops[q] == Active(Logged(l, m, q));
    assert Logged(l, m + 1, q) == Logged(l, m, q) + {};
    InBudget(l, m);
    InBudget(l, m + 1);
    t, u := TwoPass(l, m, s, p, q, r);
  }

  /** The three operations have logged one block more than the log area holds. */
  ghost predicate Overfull(l: Layout, length: nat, s: State) {
    Level(l, length, l.size, s) && forall p: nat :: p < 3 ==> s.ops[p].Active?
  }

  lemma TwoAppends(l: Layout, length: nat, m: nat, s: State, p: nat, q: nat, r: nat) returns (v: State, w: State)
    requires RoomBehind(l, length) && m + 2 == l.size <= LOGSIZE
    requires Level(l, length, m, s) && TwoChecked(l, m, s, p, q, r)
    ensures IsStep(l, s, LogAppend(p), v) && IsStep(l, v, LogAppend(q), w)
    ensures v.outstanding == 3 && Overfull(l, length, w)
  {
    Appended(l, length, m, s, p);
    v := NextAppend(s, p);
    Appended(l, length, m + 1, v, q);
    w := NextAppend(v, q);
  }

  /** A log area of 2 to LOGSIZE blocks, such as the one of LOGSIZE blocks that mkfs makes, can be overrun: the
      log block for the last entry is then a home block. */
  lemma Overrun(l: Layout, length: nat) returns (states: seq<State>, events: seq<Event>, s: State)
    requires RoomBehind(l, length) && !Roomy(l) && 2 <= l.size
    ensures Reaches(l, states, events, s) && |states[0].disk| == length && Overfull(l, length, s)
    ensures |s.blocks| == l.size && Home(l, length, l.start + |s.blocks|)
  {
    var m := l.size - 2;
    var s0, t, u, v;
    states, events, s0 := FillRun(l, length, m);
    t, u := TwoChecks(l, length, m, s0);
    v, s := TwoAppends(l, length, m, u, Who(m), Who(m + 1), Who(m + 2));
    states, events := Extend(l, states, events, s0, Turn(l, m), t);
    states, events := Extend(l, states, events, t, Turn(l, m + 1), u);
    states, events := Extend(l, states, events, u, LogAppend(Who(m)), v);
    states, events := Extend(l, states, events, v, LogAppend(Who(m + 1)), s);
  }

  // ---------------------------------------------------------------------
  // The commit of an overfull log

  /** The last end_op has started the commit, and k log blocks are written.  The last of them is the first home
      behind the log. */
  ghost predicate Writing(l: Layout, length: nat, k: nat, s: State) {
    && Shape(l, s) && |s.disk| == length && s.outstanding == 0 && s.committing
    && s.phase.Commit? && s.phase.k == k <= l.size
    && |s.blocks| == l.size && (forall j :: 0 <= j < l.size ==> s.blocks[j] == Home0(l, j))
    && ImageOk(l, s.disk) && Listed(s.disk[l.start]) == []
    && (forall j :: 0 <= j < l.size ==> Home0(l, j) in s.cache && s.cache[Home0(l, j)] == NEW)
    && Home0(l, 1) < |s.logical| && s.logical[Home0(l, 1)] == NEW
    && s.disk[Home0(l, 1)] == OLD && (k == l.size ==> s.disk[Home0(l, 0)] == NEW)
  }

  lemma EndRun(l: Layout, states: seq<State>, events: seq<Event>, length: nat, s: State)
      returns (states': seq<State>, events': seq<Event>, s': State)
    requires RoomBehind(l, length) && 2 <= l.size <= LOGSIZE && Reaches(l, states, events, s) && Overfull(l, length, s)
    ensures Reaches(l, states', events', s') && Writing(l, length, 0, s') && states'[0] == states[0]
  {
    var t := NextEnd(s, 0);
    states', events' := Extend(l, states, events, s, EndOp(0), t);
    var u := NextEnd(t, 1);
    states', events' := Extend(l, states', events', t, EndOp(1), u);
    s' := NextEnd(u, 2);
    states', events' := Extend(l, states', events', u, EndOp(2), s');
  }

  lemma WriteOne(l: Layout, length: nat, k: nat, s: State)
    requires RoomBehind(l, length) && 2 <= l.size <= LOGSIZE && Writing(l, length, k, s) && k < l.size
    ensures IsStep(l, s, CommitIO, NextCommitIO(l, s)) && Writing(l, length, k + 1, NextCommitIO(l, s))
  {
    assert s.blocks[k] == Home0(l, k);
    var s' := NextCommitIO(l, s);
    assert View(s, Home0(l, k)) == NEW;
    assert s'.disk == s.disk[l.start + 1 + k := NEW];
    assert s'.disk[l.start] == s.disk[l.start];
  }

  lemma {:induction false} WriteRun(l: Layout, states: seq<State>, events: seq<Event>, length: nat, k: nat, s: State)
      returns (states': seq<State>, events': seq<Event>, s': State)
    requires RoomBehind(l, length) && 2 <= l.size <= LOGSIZE
    requires Reaches(l, states, events, s) && Writing(l, length, k, s)
    ensures Reaches(l, states', events', s') && Writing(l, length, l.size, s') && states'[0] == states[0]
    decreases l.size - k
  {
    if k == l.size {
      return states, events, s;
    }
    WriteOne(l, length, k, s);
    s' := NextCommitIO(l, s);
    states', events' := Extend(l, states, events, s, CommitIO, s');
    states', events', s' := WriteRun(l, states', events', length, k + 1, s');
  }

  /** A crash at the end of write_log then shows half a transaction: what recovery leaves is at no earlier moment
      without a call in progress what had been logged. */
  lemma HalfShown(l: Layout, length: nat) returns (states: seq<State>, events: seq<Event>, s: State)
    requires RoomBehind(l, length) && !Roomy(l) && 2 <= l.size
    ensures Ends(l, states, events, s) && |states[0].disk| == length && Shape(l, s) && Enabled(l, s, Crash)
    ensures ImageOk(l, s.disk) && forall j :: 0 <= j < |states| && states[j].outstanding == 0 ==>
              !SameHome(l, Recovered(l, s.disk), states[j].logical)
  {
    states, events, s := Overrun(l, length);
    states, events, s := EndRun(l, states, events, length, s);
    states, events, s := WriteRun(l, states, events, length, 0, s);
    RecoveredMeaning(l, s.disk);
    var r := Recovered(l, s.disk);
    assert Home(l, length, Home0(l, 0)) && Home(l, length, Home0(l, 1));
    assert r[Home0(l, 0)] == NEW && r[Home0(l, 1)] == OLD;
    forall j | 0 <= j < |states| && states[j].outstanding == 0 ensures !SameHome(l, r, states[j].logical) {
      assert Whole(l, states[j]);
    }
  }

  /** With room enough, the size panic is reached too: three operations log ten blocks each, and one of them
      writes again to a block of its own. */
  lemma StoppedAtRepeat(l: Layout, length: nat) returns (states: seq<State>, events: seq<Event>, s: State)
    requires RoomBehind(l, length) && Roomy(l)
    ensures Reaches(l, states, events, s) && |states[0].disk| == length && s.phase == Panicked(TooBig)
    ensures |s.blocks| == LOGSIZE
  {
    var t;
    states, events, t := FillRun(l, length, LOGSIZE);
    LoggedCount(l, LOGSIZE, 2);
    ShareOf(MAXOPBLOCKS);
    var b := Home0(l, LOGSIZE - 1);
    assert t.ops[2] == Active(Logged(l, LOGSIZE, 2)) && b in Logged(l, LOGSIZE, 2);
    assert Logged(l, LOGSIZE, 2) + {b} == Logged(l, LOGSIZE, 2);
    s := NextCheck(l, t, 2, b, NEW);
    states, events := Extend(l, states, events, t, LogCheck(2, b, NEW), s);
  }

  /** Every run on a disk of the given length keeps the promise. */
  ghost predicate AllDisciplined(l: Layout, length: nat) {
    forall states: seq<State>, events: seq<Event>, s: State ::
      Ends(l, states, events, s) && |states[0].disk| == length ==> Disciplined(l, s)
  }

  /** The list fits in every run of an area that holds what the header can list, or nothing. */
  lemma NeverOutgrown(l: Layout, states: seq<State>, events: seq<Event>)
    requires (Roomy(l) || l.size == 1) && Run(l, states, events)
    ensures Fitted(l, states, |events|)
  {
    forall j | 0 <= j < |states| ensures Fits(l, states[j]) { RunWide(l, states, events, j); }
  }

  /** The log keeps its promise in every run if and only if the log area has more than LOGSIZE blocks. */
  lemma RoomExactly(l: Layout, length: nat)
    requires RoomBehind(l, length)
    ensures AllDisciplined(l, length) <==> Roomy(l)
  {
    if Roomy(l) {
      forall states: seq<State>, events: seq<Event>, s: State
        | Ends(l, states, events, s) && |states[0].disk| == length
        ensures Disciplined(l, s)
      {
        RunWide(l, states, events, |events|);
      }
    } else {
      var states, events, s, p := StoppedInBudget(l, length);
      assert !Disciplined(l, s);
    }
  }

  /** What recovery would show at s is the logical image of some moment of the run without a call in progress. */
  ghost predicate Consistent(l: Layout, states: seq<State>, s: State) {
    ImageOk(l, s.disk) && exists j :: 0 <= j < |states| && states[j].outstanding == 0
                                      && SameHome(l, Recovered(l, s.disk), states[j].logical)
  }

  ghost predicate AllConsistent(l: Layout, length: nat) {
    forall states: seq<State>, events: seq<Event>, s: State ::
      Ends(l, states, events, s) && |states[0].disk| == length ==> Consistent(l, states, s)
  }

  /** A crash shows whole calls only, in every run, if and only if the log area has more than LOGSIZE blocks, or has
      none besides the header, so that nothing can be logged. */
  lemma ConsistentExactly(l: Layout, length: nat)
    requires RoomBehind(l, length)
    ensures AllConsistent(l, length) <==> Roomy(l) || l.size == 1
  {
    if Roomy(l) || l.size == 1 {
      forall states: seq<State>, events: seq<Event>, s: State
        | Ends(l, states, events, s) && |states[0].disk| == length
        ensures Consistent(l, states, s)
      {
        NeverOutgrown(l, states, events);
        var j := CrashConsistency(l, states, events, |events|);
      }
    } else {
      var states, events, s := HalfShown(l, length);
      assert !Consistent(l, states, s);
    }
  }
}
