/** fork, exit, reparent, wait and kill of kernel/proc.c as a state machine over any number of process
    slots.  A step is one critical section, or one piece of a longer one with the locks it holds written
    down, so that every interleaving the spinlocks allow is a run.  Slot INIT is initproc. */
module WaitExit {
  const INIT := 0
  const NONE := -1

  datatype ProcState = UNUSED | SLEEPING | RUNNABLE | RUNNING | ZOMBIE
  datatype Chan = Nothing | Itself | Other

  /** How far a process is in the kernel code that concerns parents and children. */
  datatype Pc =
    | Outside                            // none of the below
    | Scan(k: nat, havekids: bool)       // wait, about to look at slot k; holds its own lock
    | Asleep                             // wait, inside sleep(p, &p->lock)
    | ReadParent                         // exit, init already woken
    | LockParent(orig: int)              // exit, original_parent read
    | LockSelf(orig: int)                // exit, holds orig's lock
    | Reparent(orig: int, k: nat)        // exit, holds orig's and its own lock, about to look at slot k
    | ReleaseParent(orig: int)           // exit, already ZOMBIE, holds both locks
    | Switch                             // exit, holds its own lock until the scheduler drops it
    | Dead                               // exit, switched away for good

  datatype Proc = Proc(state: ProcState, parent: int, chan: Chan, killed: bool, pc: Pc)

  /** lock[x] is the slot of the process holding the lock of slot x, or NONE. */
  datatype State = State(procs: seq<Proc>, lock: seq<int>)

  datatype Event =
    | Fork(p: nat, np: nat)
    | WaitEnter(p: nat) | WaitLook(p: nat, copyFails: bool) | WaitEnd(p: nat)
    | ExitWakeInit(p: nat) | ExitRead(p: nat) | ExitLockParent(p: nat) | ExitLockSelf(p: nat)
    | ExitReparent(p: nat) | ExitZombie(p: nat) | ExitRelease(p: nat) | ExitSwitch(p: nat)
    | Kill(p: nat) | SleepOther(p: nat) | WakeOther(p: nat) | Schedule(p: nat) | Yield(p: nat)

  predicate Shape(s: State) {
    |s.lock| == |s.procs| && 0 < |s.procs|
  }

  predicate IsSlot(s: State, x: int) { 0 <= x < |s.procs| }

  predicate Free(s: State, x: int)
    requires Shape(s)
  {
    IsSlot(s, x) && s.lock[x] == NONE
  }

  /** The locks a process holds, as its position in the code implies. */
  predicate Holds(p: int, pc: Pc, x: int) {
    match pc
    case Scan(_, _) => x == p
    case LockSelf(orig) => x == orig
    case Reparent(orig, _) => x == orig || x == p
    case ReleaseParent(orig) => x == orig || x == p
    case Switch => x == p
    case _ => false
  }

  // ---------------------------------------------------------------------
  // Steps

  function SetProc(s: State, p: nat, pr: Proc): State
    requires p < |s.procs|
  {
    State(s.procs[p := pr], s.lock)
  }

  function SetLock(s: State, x: nat, h: int): State
    requires x < |s.lock|
  {
    State(s.procs, s.lock[x := h])
  }

  /** wakeup1: a process asleep in wait becomes runnable. */
  function Wakeup1(pr: Proc): Proc {
    if pr.chan == Itself && pr.state == SLEEPING then pr.(state := RUNNABLE) else pr
  }

  const FREE_PROC := Proc(UNUSED, NONE, Nothing, false, Outside)

  predicate Enabled(s: State, ev: Event)
    requires Shape(s)
  {
    && ev.p < |s.procs|
    && var p := ev.p; var pr := s.procs[p];
    match ev
    case Fork(_, np) => pr.state == RUNNING && pr.pc == Outside
                        && np < |s.procs| && np != p && s.procs[np].state == UNUSED && Free(s, np)
    case WaitEnter(_) => pr.state == RUNNING && pr.pc == Outside && Free(s, p)
    case WaitLook(_, _) => pr.state == RUNNING && pr.pc.Scan? && pr.pc.k < |s.procs|
                           && (s.procs[pr.pc.k].parent == p ==> Free(s, pr.pc.k))
    case WaitEnd(_) => pr.state == RUNNING && pr.pc.Scan? && pr.pc.k == |s.procs| && s.lock[p] == p
    case ExitWakeInit(_) => pr.state == RUNNING && pr.pc == Outside && p != INIT && Free(s, INIT)
    case ExitRead(_) => pr.state == RUNNING && pr.pc == ReadParent && Free(s, p)
    case ExitLockParent(_) => pr.state == RUNNING && pr.pc.LockParent? && Free(s, pr.pc.orig)
    case ExitLockSelf(_) => pr.state == RUNNING && pr.pc.LockSelf? && Free(s, p)
    case ExitReparent(_) => pr.state == RUNNING && pr.pc.Reparent? && pr.pc.k < |s.procs|
                            && (s.procs[pr.pc.k].parent == p ==> Free(s, pr.pc.k))
    case ExitZombie(_) => pr.state == RUNNING && pr.pc.Reparent? && pr.pc.k == |s.procs| && IsSlot(s, pr.pc.orig)
    case ExitRelease(_) => pr.pc.ReleaseParent? && IsSlot(s, pr.pc.orig)
    case ExitSwitch(_) => pr.pc == Switch
    case Kill(_) => Free(s, p)
    case SleepOther(_) => pr.state == RUNNING && pr.pc == Outside && Free(s, p)
    case WakeOther(_) => pr.state == SLEEPING && pr.chan == Other && Free(s, p)
    case Schedule(_) => pr.state == RUNNABLE && Free(s, p)
    // interrupts are off while a lock is held
    case Yield(_) => pr.state == RUNNING && (pr.pc == Outside || pr.pc == ReadParent || pr.pc.LockParent?) && Free(s, p)
  }

  /** wait looks at slot k, under its own lock and, if the slot is a child, the child's. */
  function NextLook(s: State, p: nat, copyFails: bool): State
    requires Shape(s) && p < |s.procs| && s.procs[p].pc.Scan? && s.procs[p].pc.k < |s.procs|
  {
    var pr := s.procs[p];
    var k := pr.pc.k;
    if s.procs[k].parent != p then SetProc(s, p, pr.(pc := Scan(k + 1, pr.pc.havekids)))
    else if s.procs[k].state != ZOMBIE then SetProc(s, p, pr.(pc := Scan(k + 1, true)))
    else
      var done := SetLock(SetProc(s, p, pr.(pc := Outside)), p, NONE);
      if copyFails then done else SetProc(done, k, FREE_PROC)
  }

  function NextReparent(s: State, p: nat): State
    requires Shape(s) && p < |s.procs| && s.procs[p].pc.Reparent? && s.procs[p].pc.k < |s.procs|
  {
    var pr := s.procs[p];
    var k := pr.pc.k;
    var s1 := if s.procs[k].parent == p then SetProc(s, k, s.procs[k].(parent := INIT)) else s;
    SetProc(s1, p, s1.procs[p].(pc := Reparent(pr.pc.orig, k + 1)))
  }

  /** exit wakes the parent it read and becomes a zombie, holding both locks. */
  function NextZombie(s: State, p: nat): State
    requires Shape(s) && p < |s.procs| && s.procs[p].pc.Reparent? && IsSlot(s, s.procs[p].pc.orig)
  {
    var orig := s.procs[p].pc.orig;
    var s1 := SetProc(s, orig, Wakeup1(s.procs[orig]));
    SetProc(s1, p, s1.procs[p].(state := ZOMBIE, pc := ReleaseParent(orig)))
  }

  function Next(s: State, ev: Event): State
    requires Shape(s) && Enabled(s, ev)
  {
    var p := ev.p;
    var pr := s.procs[p];
    match ev
    case Fork(_, np) => SetProc(s, np, Proc(RUNNABLE, p, Nothing, s.procs[np].killed, Outside))
    case WaitEnter(_) => SetLock(SetProc(s, p, pr.(pc := Scan(0, false))), p, p)
    case WaitLook(_, copyFails) => NextLook(s, p, copyFails)
    case WaitEnd(_) =>
      if !pr.pc.havekids || pr.killed then SetLock(SetProc(s, p, pr.(pc := Outside)), p, NONE)
      else SetLock(SetProc(s, p, pr.(state := SLEEPING, chan := Itself, pc := Asleep)), p, NONE)
    case ExitWakeInit(_) =>
      var s1 := SetProc(s, INIT, Wakeup1(s.procs[INIT]));
      SetProc(s1, p, s1.procs[p].(pc := ReadParent))
    case ExitRead(_) => SetProc(s, p, pr.(pc := LockParent(pr.parent)))
    case ExitLockParent(_) => SetLock(SetProc(s, p, pr.(pc := LockSelf(pr.pc.orig))), pr.pc.orig, p)
    case ExitLockSelf(_) => SetLock(SetProc(s, p, pr.(pc := Reparent(pr.pc.orig, 0))), p, p)
    case ExitReparent(_) => NextReparent(s, p)
    case ExitZombie(_) => NextZombie(s, p)
    case ExitRelease(_) => SetLock(SetProc(s, p, pr.(pc := Switch)), pr.pc.orig, NONE)
    case ExitSwitch(_) => SetLock(SetProc(s, p, pr.(pc := Dead)), p, NONE)
    case Kill(_) => SetProc(s, p, pr.(killed := true, state := if pr.state == SLEEPING then RUNNABLE else pr.state))
    case SleepOther(_) => SetProc(s, p, pr.(state := SLEEPING, chan := Other))
    case WakeOther(_) => SetProc(s, p, pr.(state := RUNNABLE))
    case Schedule(_) =>
      // sched returns inside sleep with p->lock held, and wait scans again
      if pr.pc == Asleep then SetLock(SetProc(s, p, pr.(state := RUNNING, chan := Nothing, pc := Scan(0, false))), p, p)
      else SetProc(s, p, pr.(state := RUNNING, chan := Nothing))
    case Yield(_) => SetProc(s, p, pr.(state := RUNNABLE))
  }

  // ---------------------------------------------------------------------
  // The invariant

  /** The lock table says what the positions in the code say. */
  ghost predicate LocksOk(s: State)
    requires Shape(s)
  {
    && (forall x :: 0 <= x < |s.procs| && s.lock[x] != NONE ==>
          IsSlot(s, s.lock[x]) && Holds(s.lock[x], s.procs[s.lock[x]].pc, x))
    && (forall p, x :: 0 <= p < |s.procs| && 0 <= x < |s.procs| && Holds(p, s.procs[p].pc, x) ==> s.lock[x] == p)
  }

  predicate Exiting(pc: Pc) {
    pc.ReadParent? || pc.LockParent? || pc.LockSelf? || pc.Reparent? || pc.ReleaseParent? || pc.Switch? || pc.Dead?
  }

  predicate Gone(pc: Pc) { pc.ReleaseParent? || pc.Switch? || pc.Dead? }

  /** State, channel and position of one process fit together. */
  predicate LocalOk(p: int, pr: Proc) {
    && (pr.state == UNUSED ==> pr.pc == Outside && pr.parent == NONE && pr.chan == Nothing)
    && (p == INIT ==> pr.state != UNUSED && !Exiting(pr.pc) && pr.parent == NONE)
    && (pr.state == ZOMBIE <==> Gone(pr.pc))
    && (pr.pc == Asleep ==> (pr.state == SLEEPING || pr.state == RUNNABLE) && pr.chan == Itself)
    && (pr.state == SLEEPING ==> (pr.chan == Itself && pr.pc == Asleep) || (pr.chan == Other && pr.pc == Outside))
    && (pr.pc.Scan? || pr.pc.LockSelf? || pr.pc.Reparent? ==> pr.state == RUNNING)
  }

  /** Everyone but init has a parent whose slot is in use, and exit has read it or it is now init. */
  predicate ParentOk(s: State, p: int)
    requires Shape(s) && IsSlot(s, p)
  {
    var pr := s.procs[p];
    && pr.parent != p
    && (p != INIT && pr.state != UNUSED ==> IsSlot(s, pr.parent) && s.procs[pr.parent].state != UNUSED)
    && (pr.pc.LockParent? || pr.pc.LockSelf? || pr.pc.Reparent? || pr.pc.ReleaseParent? ==>
          IsSlot(s, pr.pc.orig) && pr.pc.orig != p && (pr.parent == pr.pc.orig || pr.parent == INIT))
  }

  /** None of the slots below n is a child of p. */
  predicate NoChildBelow(s: State, p: int, n: int) {
    forall j :: 0 <= j < n && j < |s.procs| ==> s.procs[j].parent != p
  }

  /** None of the slots below n is a zombie child of p. */
  predicate NoZombieBelow(s: State, p: int, n: int) {
    forall j :: 0 <= j < n && j < |s.procs| && s.procs[j].parent == p ==> s.procs[j].state != ZOMBIE
  }

  predicate AsleepInWait(pr: Proc) { pr.state == SLEEPING && pr.chan == Itself }

  predicate ChildrenOk(s: State, p: int)
    requires Shape(s) && IsSlot(s, p)
  {
    var pr := s.procs[p];
    && (pr.pc.Reparent? ==> NoChildBelow(s, p, pr.pc.k))
    && (pr.state == ZOMBIE || pr.state == UNUSED ==> NoChildBelow(s, p, |s.procs|))
    && (p != INIT && pr.pc.Scan? ==> NoZombieBelow(s, p, pr.pc.k))
    && (p != INIT && AsleepInWait(pr) ==> NoZombieBelow(s, p, |s.procs|))
  }

  ghost predicate Inv(s: State) {
    && Shape(s) && LocksOk(s)
    && (forall p :: 0 <= p < |s.procs| ==> LocalOk(p, s.procs[p]))
    && (forall p :: 0 <= p < |s.procs| ==> ParentOk(s, p))
    && (forall p :: 0 <= p < |s.procs| ==> ChildrenOk(s, p))
  }

  // ---------------------------------------------------------------------
  // The locks

  /** Process p moves on without taking or dropping a lock. */
  lemma LocksSame(s: State, p: nat, pr: Proc)
    requires Shape(s) && LocksOk(s) && p < |s.procs|
    requires forall x :: 0 <= x < |s.procs| ==> Holds(p, pr.pc, x) == Holds(p, s.procs[p].pc, x)
    ensures LocksOk(SetProc(s, p, pr))
  {
  }

  lemma LocksTake(s: State, p: nat, pr: Proc, y: nat)
    requires Shape(s) && LocksOk(s) && p < |s.procs| && y < |s.procs| && s.lock[y] == NONE
    requires forall x :: 0 <= x < |s.procs| ==> Holds(p, pr.pc, x) == (x == y || Holds(p, s.procs[p].pc, x))
    ensures LocksOk(SetLock(SetProc(s, p, pr), y, p))
  {
  }

  lemma LocksDrop(s: State, p: nat, pr: Proc, y: nat)
    requires Shape(s) && LocksOk(s) && p < |s.procs| && y < |s.procs|
    requires Holds(p, s.procs[p].pc, y)
    requires forall x :: 0 <= x < |s.procs| ==> Holds(p, pr.pc, x) == (x != y && Holds(p, s.procs[p].pc, x))
    ensures LocksOk(SetLock(SetProc(s, p, pr), y, NONE))
  {
    assert s.lock[y] == p;
  }

  lemma LookLocks(s: State, p: nat, copyFails: bool)
    requires Shape(s) && LocksOk(s) && Enabled(s, WaitLook(p, copyFails))
    requires var k := s.procs[p].pc.k; Free(s, k) && s.procs[k].state == ZOMBIE ==> s.procs[k].pc == Dead
    ensures LocksOk(NextLook(s, p, copyFails))
  {
    var k := s.procs[p].pc.k;
    var pr := s.procs[p].(pc := Outside);
    if s.procs[k].parent == p && s.procs[k].state == ZOMBIE {
      LocksDrop(s, p, pr, p);
      if !copyFails { LocksSame(SetLock(SetProc(s, p, pr), p, NONE), k, FREE_PROC); }
    } else {
      LocksSame(s, p, NextLook(s, p, copyFails).procs[p]);
    }
  }

  lemma ReparentLocks(s: State, p: nat)
    requires Shape(s) && LocksOk(s) && Enabled(s, ExitReparent(p))
    ensures LocksOk(NextReparent(s, p))
  {
    var k := s.procs[p].pc.k;
    if s.procs[k].parent == p {
      var s1 := SetProc(s, k, s.procs[k].(parent := INIT));
      LocksSame(s, k, s1.procs[k]);
      LocksSame(s1, p, NextReparent(s, p).procs[p]);
    } else {
      LocksSame(s, p, NextReparent(s, p).procs[p]);
    }
  }

  predicate InExit(ev: Event) {
    || ev.ExitWakeInit? || ev.ExitLockParent? || ev.ExitLockSelf? || ev.ExitReparent? || ev.ExitZombie?
    || ev.ExitRelease? || ev.ExitSwitch?
  }

  /** The two steps of exit that wake somebody up. */
  lemma WakeLocks(s: State, ev: Event)
    requires Inv(s) && Enabled(s, ev) && (ev.ExitWakeInit? || ev.ExitZombie?)
    ensures Shape(Next(s, ev)) && LocksOk(Next(s, ev))
  {
    var p := ev.p;
    assert LocalOk(p, s.procs[p]) && ParentOk(s, p);
    var q: nat := if ev.ExitWakeInit? then INIT else s.procs[p].pc.orig;
    LocksSame(s, q, Wakeup1(s.procs[q]));
    LocksSame(SetProc(s, q, Wakeup1(s.procs[q])), p, Next(s, ev).procs[p]);
  }

  lemma ExitLocks(s: State, ev: Event)
    requires Inv(s) && Enabled(s, ev) && InExit(ev)
    ensures Shape(Next(s, ev)) && LocksOk(Next(s, ev))
  {
    var p := ev.p;
    var pr := s.procs[p];
    assert LocalOk(p, pr) && ParentOk(s, p);
    if ev.ExitWakeInit? || ev.ExitZombie? {
      WakeLocks(s, ev);
    } else if ev.ExitLockParent? {
      LocksTake(s, p, Next(s, ev).procs[p], pr.pc.orig);
    } else if ev.ExitLockSelf? {
      LocksTake(s, p, Next(s, ev).procs[p], p);
    } else if ev.ExitReparent? {
      ReparentLocks(s, p);
    } else if ev.ExitRelease? {
      LocksDrop(s, p, Next(s, ev).procs[p], pr.pc.orig);
    } else {
      LocksDrop(s, p, Next(s, ev).procs[p], p);
    }
  }

  lemma WaitLocks(s: State, ev: Event)
    requires Inv(s) && Enabled(s, ev) && (ev.WaitEnter? || ev.WaitLook? || ev.WaitEnd?)
    ensures Shape(Next(s, ev)) && LocksOk(Next(s, ev))
  {
    var p := ev.p;
    var pr := s.procs[p];
    assert LocalOk(p, pr) && ParentOk(s, p);
    if ev.WaitEnter? {
      LocksTake(s, p, pr.(pc := Scan(0, false)), p);
    } else if ev.WaitLook? {
      assert LocalOk(pr.pc.k, s.procs[pr.pc.k]);
      LookLocks(s, p, ev.copyFails);
    } else {
      LocksDrop(s, p, Next(s, ev).procs[p], p);
    }
  }

  lemma StepLocks(s: State, ev: Event)
    requires Inv(s) && Enabled(s, ev)
    ensures Shape(Next(s, ev)) && LocksOk(Next(s, ev))
  {
    var p := ev.p;
    var pr := s.procs[p];
    assert LocalOk(p, pr) && ParentOk(s, p);
    if ev.WaitEnter? || ev.WaitLook? || ev.WaitEnd? {
      WaitLocks(s, ev);
    } else if InExit(ev) {
      ExitLocks(s, ev);
    } else if ev.Fork? {
      assert LocalOk(ev.np, s.procs[ev.np]);
      LocksSame(s, ev.np, Next(s, ev).procs[ev.np]);
    } else if ev.Schedule? && pr.pc == Asleep {
      LocksTake(s, p, Next(s, ev).procs[p], p);
    } else {
      LocksSame(s, p, Next(s, ev).procs[p]);
    }
  }

  // ---------------------------------------------------------------------
  // Processes, parents and children

  lemma ExitLocal(s: State, ev: Event, q: nat)
    requires Shape(s) && Enabled(s, ev) && q < |s.procs| && InExit(ev)
    requires LocalOk(ev.p, s.procs[ev.p]) && LocalOk(q, s.procs[q]) && LocalOk(INIT, s.procs[INIT])
    ensures |Next(s, ev).procs| == |s.procs| && LocalOk(q, Next(s, ev).procs[q])
  {
  }

  lemma StepLocal(s: State, ev: Event, q: nat)
    requires Shape(s) && Enabled(s, ev) && q < |s.procs|
    requires LocalOk(ev.p, s.procs[ev.p]) && LocalOk(q, s.procs[q]) && LocalOk(INIT, s.procs[INIT])
    ensures |Next(s, ev).procs| == |s.procs| && LocalOk(q, Next(s, ev).procs[q])
  {
    if InExit(ev) { ExitLocal(s, ev, q); }
  }

  /** No parent pointer changes, no zombie appears and no slot is taken or given back. */
  ghost predicate Quiet(s: State, s': State) {
    && |s'.procs| == |s.procs|
    && (forall j :: 0 <= j < |s.procs| ==>
          && s'.procs[j].parent == s.procs[j].parent
          && (s'.procs[j].state == ZOMBIE <==> s.procs[j].state == ZOMBIE)
          && (s'.procs[j].state == UNUSED <==> s.procs[j].state == UNUSED))
  }

  predicate Loud(s: State, ev: Event)
    requires Shape(s) && Enabled(s, ev)
  {
    ev.Fork? || ev.WaitLook? || ev.ExitReparent? || ev.ExitZombie?
  }

  lemma QuietStep(s: State, ev: Event)
    requires Inv(s) && Enabled(s, ev) && !Loud(s, ev)
    ensures Shape(Next(s, ev)) && Quiet(s, Next(s, ev))
  {
    assert LocalOk(ev.p, s.procs[ev.p]);
  }

  lemma SameFamily(s: State, s': State, p: int, n: int)
    requires Quiet(s, s')
    ensures NoChildBelow(s', p, n) == NoChildBelow(s, p, n)
    ensures NoZombieBelow(s', p, n) == NoZombieBelow(s, p, n)
  {
  }

  /** A quiet step starts a scan or leaves it where it is, and wait sleeps only after a full scan. */
  predicate ScansOk(pr: Proc, pr': Proc, n: nat) {
    && (pr'.pc.Reparent? ==> pr'.pc.k == 0 || pr'.pc == pr.pc)
    && (pr'.pc.Scan? ==> pr'.pc.k == 0 || pr'.pc == pr.pc)
    && (AsleepInWait(pr') ==> AsleepInWait(pr) || (pr.pc.Scan? && pr.pc.k == n))
  }

  lemma QuietScans(s: State, ev: Event, q: nat)
    requires Shape(s) && Enabled(s, ev) && !Loud(s, ev) && q < |s.procs|
    ensures |Next(s, ev).procs| == |s.procs| && ScansOk(s.procs[q], Next(s, ev).procs[q], |s.procs|)
  {
  }

  /** What q knows of its children after a quiet step is what it knew before. */
  lemma QuietChildren(s: State, s': State, q: nat)
    requires Shape(s) && Shape(s') && Quiet(s, s') && q < |s.procs|
    requires ChildrenOk(s, q) && ScansOk(s.procs[q], s'.procs[q], |s.procs|)
    ensures ChildrenOk(s', q)
  {
    SameFamily(s, s', q, |s.procs|);
    if s.procs[q].pc.Scan? || s.procs[q].pc.Reparent? { SameFamily(s, s', q, s.procs[q].pc.k); }
  }

  lemma QuietParent(s: State, ev: Event, q: nat)
    requires Inv(s) && Enabled(s, ev) && !Loud(s, ev) && q < |s.procs|
    ensures Shape(Next(s, ev)) && |Next(s, ev).procs| == |s.procs| && ParentOk(Next(s, ev), q)
  {
    QuietStep(s, ev);
    assert LocalOk(q, s.procs[q]) && ParentOk(s, q);
    assert LocalOk(INIT, s.procs[INIT]);
  }

  lemma OneMoreSlot(s: State, p: int, k: nat)
    requires NoZombieBelow(s, p, k) && k < |s.procs| && (s.procs[k].parent == p ==> s.procs[k].state != ZOMBIE)
    ensures NoZombieBelow(s, p, k + 1)
  {
  }

  /** wait moves on to the next slot, having seen that this one is not a zombie child. */
  lemma SkipStep(s: State, p: nat, copyFails: bool, q: nat)
    requires Inv(s) && Enabled(s, WaitLook(p, copyFails)) && q < |s.procs|
    requires var k := s.procs[p].pc.k; s.procs[k].parent == p ==> s.procs[k].state != ZOMBIE
    ensures ParentOk(NextLook(s, p, copyFails), q) && ChildrenOk(NextLook(s, p, copyFails), q)
  {
    var s' := NextLook(s, p, copyFails);
    assert Quiet(s, s') && ParentOk(s, q) && ChildrenOk(s, q);
    if q == p {
      var k := s.procs[p].pc.k;
      if p != INIT { OneMoreSlot(s, p, k); }
      SameFamily(s, s', p, k + 1);
    } else {
      QuietChildren(s, s', q);
    }
  }

  /** wait gives back the slot of a zombie child, which has no children of its own. */
  lemma ReapStep(s: State, p: nat, copyFails: bool, q: nat)
    requires Inv(s) && Enabled(s, WaitLook(p, copyFails)) && q < |s.procs|
    requires var k := s.procs[p].pc.k; s.procs[k].parent == p && s.procs[k].state == ZOMBIE
    ensures ParentOk(Next(s, WaitLook(p, copyFails)), q) && ChildrenOk(Next(s, WaitLook(p, copyFails)), q)
  {
    var k := s.procs[p].pc.k;
    assert ParentOk(s, q) && ChildrenOk(s, q) && ChildrenOk(s, k) && ParentOk(s, k);
  }

  lemma ReparentParent(s: State, p: nat, q: nat)
    requires Inv(s) && Enabled(s, ExitReparent(p)) && q < |s.procs|
    ensures ParentOk(Next(s, ExitReparent(p)), q)
  {
    assert LocalOk(p, s.procs[p]) && LocalOk(INIT, s.procs[INIT]) && LocalOk(q, s.procs[q]) && ParentOk(s, q);
  }

  lemma ReparentStep(s: State, p: nat, q: nat)
    requires Inv(s) && Enabled(s, ExitReparent(p)) && q < |s.procs|
    ensures ParentOk(Next(s, ExitReparent(p)), q) && ChildrenOk(Next(s, ExitReparent(p)), q)
  {
    ReparentParent(s, p, q);
    assert LocalOk(p, s.procs[p]) && LocalOk(INIT, s.procs[INIT]) && LocalOk(q, s.procs[q]);
    assert ParentOk(s, q) && ChildrenOk(s, q);
  }

  lemma ForkStep(s: State, p: nat, np: nat, q: nat)
    requires Inv(s) && Enabled(s, Fork(p, np)) && q < |s.procs|
    ensures ParentOk(Next(s, Fork(p, np)), q) && ChildrenOk(Next(s, Fork(p, np)), q)
  {
    assert LocalOk(np, s.procs[np]) && LocalOk(q, s.procs[q]) && ParentOk(s, q) && ChildrenOk(s, q);
    assert ChildrenOk(s, np);
  }

  /** exit makes a zombie holding the lock of the parent it read, so no parent but init can be mid-scan or asleep. */
  lemma ZombieStep(s: State, p: nat, q: nat)
    requires Inv(s) && Enabled(s, ExitZombie(p)) && q < |s.procs|
    ensures ParentOk(Next(s, ExitZombie(p)), q) && ChildrenOk(Next(s, ExitZombie(p)), q)
  {
    var orig := s.procs[p].pc.orig;
    assert ParentOk(s, p) && ChildrenOk(s, p) && LocalOk(p, s.procs[p]);
    assert ParentOk(s, q) && ChildrenOk(s, q) && LocalOk(q, s.procs[q]);
    assert s.lock[orig] == p by { assert Holds(p, s.procs[p].pc, orig); }
    if s.procs[q].pc.Scan? {
      assert Holds(q, s.procs[q].pc, q);
      assert q != orig;
    }
  }

  lemma QuietFamily(s: State, ev: Event, q: nat)
    requires Inv(s) && Enabled(s, ev) && q < |s.procs| && !Loud(s, ev)
    ensures Shape(Next(s, ev)) && |Next(s, ev).procs| == |s.procs|
    ensures ParentOk(Next(s, ev), q) && ChildrenOk(Next(s, ev), q)
  {
    QuietStep(s, ev);
    QuietParent(s, ev, q);
    QuietScans(s, ev, q);
    QuietChildren(s, Next(s, ev), q);
  }

  lemma StepFamily(s: State, ev: Event, q: nat)
    requires Inv(s) && Enabled(s, ev) && q < |s.procs|
    ensures Shape(Next(s, ev)) && |Next(s, ev).procs| == |s.procs|
    ensures ParentOk(Next(s, ev), q) && ChildrenOk(Next(s, ev), q)
  {
    if ev.Fork? {
      ForkStep(s, ev.p, ev.np, q);
    } else if ev.WaitLook? {
      var k := s.procs[ev.p].pc.k;
      if s.procs[k].parent == ev.p && s.procs[k].state == ZOMBIE { ReapStep(s, ev.p, ev.copyFails, q); }
      else { SkipStep(s, ev.p, ev.copyFails, q); }
    } else if ev.ExitReparent? {
      ReparentStep(s, ev.p, q);
    } else if ev.ExitZombie? {
      ZombieStep(s, ev.p, q);
    } else {
      QuietFamily(s, ev, q);
    }
  }

  lemma StepKeeps(s: State, ev: Event)
    requires Inv(s) && Enabled(s, ev)
    ensures Inv(Next(s, ev))
  {
    StepLocks(s, ev);
    var s' := Next(s, ev);
    forall q | 0 <= q < |s.procs|
      ensures |s'.procs| == |s.procs| && LocalOk(q, s'.procs[q]) && ParentOk(s', q) && ChildrenOk(s', q)
    {
      StepLocal(s, ev, q);
      StepFamily(s, ev, q);
    }
  }

  // ---------------------------------------------------------------------
  // Whole runs

  /** A run: the state it starts in and the events it takes. */
  datatype History = Start(state: State) | Then(before: History, ev: Event)

  /** After userinit: init alone, runnable, in slot 0. */
  ghost predicate Boot(s: State) {
    && Shape(s)
    && s.procs[INIT] == Proc(RUNNABLE, NONE, Nothing, false, Outside)
    && (forall p :: 0 < p < |s.procs| ==> s.procs[p] == FREE_PROC)
    && (forall x :: 0 <= x < |s.procs| ==> s.lock[x] == NONE)
  }

  /** The history starts after boot, takes only enabled events, and ends in state s. */
  ghost predicate Leads(h: History, s: State) {
    match h
    case Start(s0) => s == s0 && Boot(s0)
    case Then(before, ev) => exists t :: Leads(before, t) && Shape(t) && Enabled(t, ev) && s == Next(t, ev)
  }

  lemma {:induction false} RunKeeps(h: History, s: State)
    requires Leads(h, s)
    ensures Inv(s)
  {
    match h
    case Start(_) =>
    case Then(before, ev) =>
      var t :| Leads(before, t) && Shape(t) && Enabled(t, ev) && s == Next(t, ev);
      RunKeeps(before, t);
      StepKeeps(t, ev);
  }

  /** A parent other than init is never asleep in wait while one of its children is a zombie. */
  lemma NoMissedExit(h: History, s: State, parent: nat, child: nat)
    requires Leads(h, s) && parent < |s.procs| && child < |s.procs| && parent != INIT
    requires s.procs[child].parent == parent && s.procs[child].state == ZOMBIE
    ensures Shape(s) && !AsleepInWait(s.procs[parent])
  {
    RunKeeps(h, s);
    assert ChildrenOk(s, parent);
  }

  /** Every live process but init has a parent, and it is a process that has not exited: a zombie or a
      slot given back is nobody's parent. */
  lemma NoOrphans(h: History, s: State, p: nat)
    requires Leads(h, s) && p < |s.procs| && p != INIT && s.procs[p].state != UNUSED
    ensures var par := s.procs[p].parent;
      IsSlot(s, par) && par != p && s.procs[par].state != UNUSED && s.procs[par].state != ZOMBIE
  {
    RunKeeps(h, s);
    assert ParentOk(s, p) && ChildrenOk(s, s.procs[p].parent);
  }

  // ---------------------------------------------------------------------
  // Init

  /** What every other parent is promised, said of init. */
  predicate InitSees(s: State)
    requires Shape(s)
  {
    var init := s.procs[INIT];
    && (init.pc.Scan? ==> NoZombieBelow(s, INIT, init.pc.k))
    && (AsleepInWait(init) ==> NoZombieBelow(s, INIT, |s.procs|))
  }

  /** Init will not look at slot c again before something wakes it or it starts another scan. */
  predicate Passed(s: State, c: int)
    requires Shape(s)
  {
    var init := s.procs[INIT];
    AsleepInWait(init) || (init.pc.Scan? && c < init.pc.k)
  }

  /** The two ways a zombie reaches init unannounced: it is a zombie when its parent's exit hands it over, or
      it read another parent before the handover and wakes that one. */
  predicate Unannounced(s: State, ev: Event)
    requires Shape(s) && Enabled(s, ev)
  {
    var pr := s.procs[ev.p];
    match ev
    case ExitReparent(p) =>
      s.procs[pr.pc.k].parent == p && s.procs[pr.pc.k].state == ZOMBIE && Passed(s, pr.pc.k)
    case ExitZombie(p) => pr.parent == INIT && pr.pc.orig != INIT && Passed(s, p)
    case _ => false
  }

  lemma InitZombieStep(s: State, p: nat)
    requires Inv(s) && Enabled(s, ExitZombie(p)) && InitSees(s)
    ensures InitSees(NextZombie(s, p)) <==> !Unannounced(s, ExitZombie(p))
  {
    var s' := NextZombie(s, p);
    var orig := s.procs[p].pc.orig;
    assert LocalOk(p, s.procs[p]) && LocalOk(INIT, s.procs[INIT]) && ParentOk(s, p);
    assert s.lock[orig] == p by { assert Holds(p, s.procs[p].pc, orig); }
    if s.procs[INIT].pc.Scan? { assert Holds(INIT, s.procs[INIT].pc, INIT); }
    assert s'.procs[p].parent == s.procs[p].parent && s'.procs[p].state == ZOMBIE;
  }

  lemma InitReparentStep(s: State, p: nat)
    requires Inv(s) && Enabled(s, ExitReparent(p)) && InitSees(s)
    ensures InitSees(NextReparent(s, p)) <==> !Unannounced(s, ExitReparent(p))
  {
    var s' := NextReparent(s, p);
    var k := s.procs[p].pc.k;
    assert LocalOk(p, s.procs[p]) && LocalOk(INIT, s.procs[INIT]) && ParentOk(s, p);
    assert forall j :: 0 <= j < |s.procs| ==> s'.procs[j].state == s.procs[j].state;
    assert forall j :: 0 <= j < |s.procs| && j != k ==> s'.procs[j].parent == s.procs[j].parent;
    assert s'.procs[k].parent == if s.procs[k].parent == p then INIT else s.procs[k].parent;
  }

  lemma InitLookStep(s: State, p: nat, copyFails: bool)
    requires Inv(s) && Enabled(s, WaitLook(p, copyFails)) && InitSees(s)
    ensures InitSees(NextLook(s, p, copyFails))
  {
    assert LocalOk(p, s.procs[p]) && LocalOk(INIT, s.procs[INIT]);
  }

  lemma InitForkStep(s: State, p: nat, np: nat)
    requires Inv(s) && Enabled(s, Fork(p, np)) && InitSees(s)
    ensures InitSees(Next(s, Fork(p, np)))
  {
    assert LocalOk(INIT, s.procs[INIT]);
  }

  lemma InitQuietStep(s: State, ev: Event)
    requires Inv(s) && Enabled(s, ev) && InitSees(s) && !Loud(s, ev)
    ensures Shape(Next(s, ev)) && InitSees(Next(s, ev))
  {
    QuietStep(s, ev);
    QuietScans(s, ev, INIT);
    var s' := Next(s, ev);
    SameFamily(s, s', INIT, |s.procs|);
    if s.procs[INIT].pc.Scan? { SameFamily(s, s', INIT, s.procs[INIT].pc.k); }
  }

  /** Init keeps the promise through every step but those two, and loses it exactly there. */
  lemma InitStep(s: State, ev: Event)
    requires Inv(s) && Enabled(s, ev) && InitSees(s)
    ensures Shape(Next(s, ev))
    ensures InitSees(Next(s, ev)) <==> !Unannounced(s, ev)
  {
    if ev.ExitZombie? {
      InitZombieStep(s, ev.p);
    } else if ev.WaitLook? {
      InitLookStep(s, ev.p, ev.copyFails);
    } else if ev.Fork? {
      InitForkStep(s, ev.p, ev.np);
    } else if ev.ExitReparent? {
      InitReparentStep(s, ev.p);
    } else {
      InitQuietStep(s, ev);
    }
  }

  /** A run none of whose steps hands init a zombie unannounced. */
  ghost predicate LeadsAnnounced(h: History, s: State) {
    match h
    case Start(s0) => s == s0 && Boot(s0)
    case Then(before, ev) =>
      exists t :: LeadsAnnounced(before, t) && Shape(t) && Enabled(t, ev) && !Unannounced(t, ev) && s == Next(t, ev)
  }

  /** In every such run init is promised what every other parent is. */
  lemma {:induction false} InitNeverMisses(h: History, s: State)
    requires LeadsAnnounced(h, s)
    ensures Inv(s) && InitSees(s)
  {
    match h
    case Start(_) =>
    case Then(before, ev) =>
      var t :| LeadsAnnounced(before, t) && Shape(t) && Enabled(t, ev) && !Unannounced(t, ev) && s == Next(t, ev);
      InitNeverMisses(before, t);
      StepKeeps(t, ev);
      InitStep(t, ev);
  }

  // ---------------------------------------------------------------------
  // A run of three processes at whose end init sleeps although its child, slot 2, is a zombie

  function Of(state: ProcState, parent: int, chan: Chan, pc: Pc): Proc { Proc(state, parent, chan, false, pc) }

  const SLEEPER := Of(SLEEPING, NONE, Itself, Asleep)

  /** A run leads to s, which has three slots. */
  ghost predicate At(h: History, s: State, a: Proc, b: Proc, c: Proc, la: int, lb: int, lc: int) {
    && Leads(h, s) && |s.procs| == 3 && |s.lock| == 3
    && s.procs[0] == a && s.procs[1] == b && s.procs[2] == c && s.lock[0] == la && s.lock[1] == lb && s.lock[2] == lc
  }

  lemma Go(h: History, s: State, ev: Event) returns (h': History, s': State)
    requires Leads(h, s) && Shape(s) && Enabled(s, ev)
    ensures Leads(h', s') && s' == Next(s, ev)
  {
    h', s' := Then(h, ev), Next(s, ev);
  }

  /** Init forks slot 1 and calls wait. */
  lemma ForkAndWait() returns (h: History, s: State)
    ensures At(h, s, Of(RUNNING, NONE, Nothing, Scan(0, false)), Of(RUNNABLE, 0, Nothing, Outside), FREE_PROC,
               0, NONE, NONE)
  {
    s := State([Of(RUNNABLE, NONE, Nothing, Outside), FREE_PROC, FREE_PROC], [NONE, NONE, NONE]);
    h := Start(s);
    assert At(h, s, Of(RUNNABLE, NONE, Nothing, Outside), FREE_PROC, FREE_PROC, NONE, NONE, NONE);
    h, s := Go(h, s, Schedule(0));
    h, s := Go(h, s, Fork(0, 1));
    h, s := Go(h, s, WaitEnter(0));
  }

  /** Init scans the three slots, finds a child and no zombie of its own, and sleeps. */
  lemma ScanAndSleep(h0: History, s0: State, b: Proc, c: Proc) returns (h: History, s: State)
    requires At(h0, s0, Of(RUNNING, NONE, Nothing, Scan(0, false)), b, c, 0, NONE, NONE)
    requires b.parent == 0 && b.state != ZOMBIE && c.parent != 0
    ensures At(h, s, SLEEPER, b, c, NONE, NONE, NONE)
  {
    h, s := Go(h0, s0, WaitLook(0, false));
    h, s := Go(h, s, WaitLook(0, false));
    h, s := Go(h, s, WaitLook(0, false));
    h, s := Go(h, s, WaitEnd(0));
  }

  /** Slot 1 forks slot 2, which begins to exit and wakes init. */
  lemma ChildExits(h0: History, s0: State) returns (h: History, s: State)
    requires At(h0, s0, SLEEPER, Of(RUNNABLE, 0, Nothing, Outside), FREE_PROC, NONE, NONE, NONE)
    ensures At(h, s, SLEEPER.(state := RUNNABLE), Of(RUNNING, 0, Nothing, Outside), Of(RUNNING, 1, Nothing, ReadParent),
               NONE, NONE, NONE)
  {
    h, s := Go(h0, s0, Schedule(1));
    h, s := Go(h, s, Fork(1, 2));
    h, s := Go(h, s, Schedule(2));
    h, s := Go(h, s, ExitWakeInit(2));
  }

  lemma ChildLocks(h0: History, s0: State, a: Proc) returns (h: History, s: State)
    requires At(h0, s0, a, Of(RUNNING, 0, Nothing, Outside), Of(RUNNING, 1, Nothing, ReadParent), NONE, NONE, NONE)
    ensures At(h, s, a, Of(RUNNING, 0, Nothing, Outside), Of(RUNNING, 1, Nothing, Reparent(1, 0)), NONE, 2, 2)
  {
    h, s := Go(h0, s0, ExitRead(2));
    h, s := Go(h, s, ExitLockParent(2));
    h, s := Go(h, s, ExitLockSelf(2));
  }

  lemma ChildGone(h0: History, s0: State, a: Proc) returns (h: History, s: State)
    requires At(h0, s0, a, Of(RUNNING, 0, Nothing, Outside), Of(RUNNING, 1, Nothing, Reparent(1, 0)), NONE, 2, 2)
    requires a.parent == NONE
    ensures At(h, s, a, Of(RUNNING, 0, Nothing, Outside), Of(ZOMBIE, 1, Nothing, ReleaseParent(1)), NONE, 2, 2)
  {
    h, s := Go(h0, s0, ExitReparent(2));
    h, s := Go(h, s, ExitReparent(2));
    h, s := Go(h, s, ExitReparent(2));
    h, s := Go(h, s, ExitZombie(2));
  }

  lemma ChildSwitches(h0: History, s0: State, a: Proc) returns (h: History, s: State)
    requires At(h0, s0, a, Of(RUNNING, 0, Nothing, Outside), Of(ZOMBIE, 1, Nothing, ReleaseParent(1)), NONE, 2, 2)
    ensures At(h, s, a, Of(RUNNING, 0, Nothing, Outside), Of(ZOMBIE, 1, Nothing, Dead), NONE, NONE, NONE)
  {
    h, s := Go(h0, s0, ExitRelease(2));
    h, s := Go(h, s, ExitSwitch(2));
  }

  /** Slot 1 begins to exit, after its child; init runs and scans again. */
  lemma ParentExits(h0: History, s0: State, c: Proc) returns (h: History, s: State)
    requires At(h0, s0, SLEEPER.(state := RUNNABLE), Of(RUNNING, 0, Nothing, Outside), c, NONE, NONE, NONE)
    ensures At(h, s, Of(RUNNING, NONE, Nothing, Scan(0, false)), Of(RUNNING, 0, Nothing, ReadParent), c, 0, NONE, NONE)
  {
    h, s := Go(h0, s0, ExitWakeInit(1));
    h, s := Go(h, s, Schedule(0));
  }

  lemma ParentLocks(h0: History, s0: State, c: Proc) returns (h: History, s: State)
    requires At(h0, s0, SLEEPER, Of(RUNNING, 0, Nothing, ReadParent), c, NONE, NONE, NONE)
    ensures At(h, s, SLEEPER, Of(RUNNING, 0, Nothing, Reparent(0, 0)), c, 1, 1, NONE)
  {
    h, s := Go(h0, s0, ExitRead(1));
    h, s := Go(h, s, ExitLockParent(1));
    h, s := Go(h, s, ExitLockSelf(1));
  }

  /** Slot 1, with init asleep again, hands its zombie child to init. */
  lemma HandOver(h0: History, s0: State) returns (h: History, s: State)
    requires At(h0, s0, SLEEPER, Of(RUNNING, 0, Nothing, Reparent(0, 0)), Of(ZOMBIE, 1, Nothing, Dead), 1, 1, NONE)
    ensures At(h, s, SLEEPER, Of(RUNNING, 0, Nothing, Reparent(0, 3)), Of(ZOMBIE, 0, Nothing, Dead), 1, 1, NONE)
  {
    h, s := Go(h0, s0, ExitReparent(1));
    h, s := Go(h, s, ExitReparent(1));
    h, s := Go(h, s, ExitReparent(1));
  }

  /** There is a run after which init sleeps in wait with a zombie child. */
  lemma InitCanMiss() returns (h: History, s: State)
    ensures Leads(h, s) && |s.procs| == 3 && AsleepInWait(s.procs[INIT])
    ensures s.procs[2].parent == INIT && s.procs[2].state == ZOMBIE
  {
    h, s := ForkAndWait();
    h, s := ScanAndSleep(h, s, Of(RUNNABLE, 0, Nothing, Outside), FREE_PROC);
    h, s := ChildExits(h, s);
    h, s := ChildLocks(h, s, SLEEPER.(state := RUNNABLE));
    h, s := ChildGone(h, s, SLEEPER.(state := RUNNABLE));
    h, s := ChildSwitches(h, s, SLEEPER.(state := RUNNABLE));
    h, s := ParentExits(h, s, Of(ZOMBIE, 1, Nothing, Dead));
    h, s := ScanAndSleep(h, s, Of(RUNNING, 0, Nothing, ReadParent), Of(ZOMBIE, 1, Nothing, Dead));
    h, s := ParentLocks(h, s, Of(ZOMBIE, 1, Nothing, Dead));
    h, s := HandOver(h, s);
  }
}
