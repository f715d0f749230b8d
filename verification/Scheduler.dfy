/** The hand-over of a process between the CPUs' schedulers in kernel/proc.c, for any number of CPUs and
    processes.  Spinlocks belong to CPUs, as in kernel/spinlock.c; a step runs between two points where
    another CPU could notice the difference. */
module Scheduler {
  const NONE := -1

  datatype ProcState = UNUSED | SLEEPING | RUNNABLE | RUNNING | ZOMBIE

  /** saved: the context holds a switch away (or a fresh start) that nobody has resumed. */
  datatype Proc = Proc(state: ProcState, saved: bool)

  datatype Cpu =
    | Idle                // in scheduler, or in an interrupt handler taken there; c->proc is 0
    | Looking(p: nat)     // in scheduler, holds p's lock; c->proc is 0
    | Running(p: nat)     // executes p, in user space or in the kernel
    | Entering(p: nat)    // executes p, in yield, sleep or exit, past taking p's lock
    | Leaving(p: nat)     // executes p, whose state is set; on its way to swtch in sched
    | Back(p: nat)        // in scheduler, just switched away from p; c->proc is still p

  /** lock[p] is the CPU holding p's lock, or NONE. */
  datatype State = State(procs: seq<Proc>, lock: seq<int>, cpus: seq<Cpu>)

  datatype Event =
    | Look(c: nat, x: nat) | Skip(c: nat) | Resume(c: nat) | DropBack(c: nat)
    | Acquire(c: nat, x: nat) | Release(c: nat, x: nat)
    | Enter(c: nat) | Park(c: nat, state: ProcState) | Swtch(c: nat)
    | Wake(c: nat, x: nat) | Alloc(c: nat, x: nat) | Reap(c: nat, x: nat)

  predicate Shape(s: State) { |s.lock| == |s.procs| }

  /** c->proc */
  predicate Current(s: State, c: nat, p: nat)
    requires c < |s.cpus|
  {
    var m := s.cpus[c];
    (m.Running? || m.Entering? || m.Leaving? || m.Back?) && m.p == p
  }

  predicate HoldsOnly(s: State, c: nat, p: nat) {
    forall x :: 0 <= x < |s.lock| && s.lock[x] == c ==> x == p
  }

  predicate HoldsNone(s: State, c: nat) {
    forall x :: 0 <= x < |s.lock| ==> s.lock[x] != c
  }

  // ---------------------------------------------------------------------
  // Steps

  predicate Enabled(s: State, ev: Event)
    requires Shape(s)
  {
    && ev.c < |s.cpus|
    && (ev.Look? || ev.Acquire? || ev.Release? || ev.Wake? || ev.Alloc? || ev.Reap? ==> ev.x < |s.procs|)
    && var m := s.cpus[ev.c];
    && (m.Idle? || m.p < |s.procs|)
    && match ev
       case Look(c, x) => m.Idle? && s.lock[x] == NONE && HoldsNone(s, c)
       case Skip(c) => m.Looking? && s.procs[m.p].state != RUNNABLE
       case Resume(c) => m.Looking? && s.procs[m.p].state == RUNNABLE
       case DropBack(c) => m.Back?
       // kernel code of the current process, or an interrupt handler
       case Acquire(c, x) => (m.Running? || m.Entering? || m.Idle?) && s.lock[x] == NONE
       case Release(c, x) => s.lock[x] == c && (m.Running? || m.Idle? || ((m.Entering? || m.Leaving?) && x != m.p))
       // yield, sleep and exit take p's lock; wait holds it already when it calls sleep
       case Enter(c) => m.Running? && (s.lock[m.p] == NONE || s.lock[m.p] == c)
       // and then set the state
       case Park(c, st) => m.Entering? && (st == RUNNABLE || st == SLEEPING || st == ZOMBIE)
       // sched insists that p's lock is the only one
       case Swtch(c) => m.Leaving? && HoldsOnly(s, c, m.p)
       // wakeup, wakeup1 and kill
       case Wake(c, x) => (m.Running? || m.Entering? || m.Idle?) && s.lock[x] == c && s.procs[x].state == SLEEPING
       // fork and freeproc
       case Alloc(c, x) => m.Running? && s.lock[x] == c && s.procs[x].state == UNUSED
       case Reap(c, x) => m.Running? && s.lock[x] == c && s.procs[x].state == ZOMBIE
  }

  function SetProc(s: State, p: nat, pr: Proc): State
    requires p < |s.procs|
  {
    State(s.procs[p := pr], s.lock, s.cpus)
  }

  function SetLock(s: State, x: nat, h: int): State
    requires x < |s.lock|
  {
    State(s.procs, s.lock[x := h], s.cpus)
  }

  function SetCpu(s: State, c: nat, m: Cpu): State
    requires c < |s.cpus|
  {
    State(s.procs, s.lock, s.cpus[c := m])
  }

  function Next(s: State, ev: Event): State
    requires Shape(s) && Enabled(s, ev)
  {
    var c := ev.c;
    var m := s.cpus[c];
    match ev
    case Look(_, x) => SetCpu(SetLock(s, x, c), c, Looking(x))
    case Skip(_) => SetCpu(SetLock(s, m.p, NONE), c, Idle)
    case Resume(_) => SetCpu(SetProc(s, m.p, Proc(RUNNING, false)), c, Running(m.p))
    case DropBack(_) => SetCpu(SetLock(s, m.p, NONE), c, Idle)
    case Acquire(_, x) => SetLock(s, x, c)
    case Release(_, x) => SetLock(s, x, NONE)
    case Enter(_) => SetCpu(SetLock(s, m.p, c), c, Entering(m.p))
    case Park(_, st) => SetCpu(SetProc(s, m.p, s.procs[m.p].(state := st)), c, Leaving(m.p))
    case Swtch(_) => SetCpu(SetProc(s, m.p, s.procs[m.p].(saved := true)), c, Back(m.p))
    case Wake(_, x) => SetProc(s, x, s.procs[x].(state := RUNNABLE))
    case Alloc(_, x) => SetProc(s, x, Proc(RUNNABLE, true))
    case Reap(_, x) => SetProc(s, x, s.procs[x].(state := UNUSED))
  }

  // ---------------------------------------------------------------------
  // The invariant

  /** A CPU that has hold of a process in the middle of a switch holds its lock, and the process is in
      the state that goes with it. */
  predicate CpuOk(s: State, c: nat)
    requires Shape(s) && c < |s.cpus|
  {
    match s.cpus[c]
    case Idle => true
    case Looking(p) => p < |s.procs| && s.lock[p] == c
    case Running(p) => p < |s.procs| && s.procs[p].state == RUNNING && !s.procs[p].saved
    case Entering(p) => p < |s.procs| && s.lock[p] == c && s.procs[p].state == RUNNING && !s.procs[p].saved
    case Leaving(p) => p < |s.procs| && s.lock[p] == c && !s.procs[p].saved
                       && s.procs[p].state != RUNNING && s.procs[p].state != UNUSED
    case Back(p) => p < |s.procs| && s.lock[p] == c && s.procs[p].saved
                    && s.procs[p].state != RUNNING && s.procs[p].state != UNUSED
  }

  predicate Executes(s: State, c: nat, p: nat)
    requires c < |s.cpus|
  {
    s.cpus[c] == Running(p) || s.cpus[c] == Entering(p) || s.cpus[c] == Leaving(p)
  }

  /** A live process whose context is not saved is being executed. */
  ghost predicate ProcOk(s: State, p: nat)
    requires Shape(s) && p < |s.procs|
  {
    var pr := s.procs[p];
    && (pr.state == RUNNING ==> !pr.saved)
    && (pr.state != UNUSED && !pr.saved ==> exists c: nat :: c < |s.cpus| && Executes(s, c, p))
  }

  ghost predicate Inv(s: State) {
    && Shape(s)
    && (forall c: nat :: c < |s.cpus| ==> CpuOk(s, c))
    && (forall p: nat :: p < |s.procs| ==> ProcOk(s, p))
    && (forall c: nat, d: nat, p: nat ::
          c < |s.cpus| && d < |s.cpus| && Current(s, c, p) && Current(s, d, p) ==> c == d)
  }

  lemma StepCpu(s: State, ev: Event, d: nat)
    requires Inv(s) && Enabled(s, ev) && d < |s.cpus|
    ensures Shape(Next(s, ev)) && |Next(s, ev).cpus| == |s.cpus| && CpuOk(Next(s, ev), d)
  {
    assert CpuOk(s, d) && CpuOk(s, ev.c);
    if !s.cpus[ev.c].Idle? {
      var p := s.cpus[ev.c].p;
      assert Current(s, ev.c, p) && Current(s, d, p) ==> ev.c == d;
      assert ProcOk(s, p);
    }
  }

  lemma StepProc(s: State, ev: Event, q: nat)
    requires Inv(s) && Enabled(s, ev) && q < |s.procs|
    ensures Shape(Next(s, ev)) && |Next(s, ev).procs| == |s.procs| && ProcOk(Next(s, ev), q)
  {
    var s' := Next(s, ev);
    assert CpuOk(s, ev.c) && ProcOk(s, q);
    if s.procs[q].state != UNUSED && !s.procs[q].saved {
      var d: nat :| d < |s.cpus| && Executes(s, d, q);
      assert d != ev.c || !ev.Swtch? ==> Executes(s', d, q);
    }
    if ev.Resume? || ev.Enter? || ev.Park? { assert Executes(s', ev.c, s.cpus[ev.c].p); }
  }

  /** The scheduler picks up only a process that is current nowhere. */
  lemma ResumeFresh(s: State, c: nat, d: nat)
    requires Inv(s) && Enabled(s, Resume(c)) && d < |s.cpus|
    ensures !Current(s, d, s.cpus[c].p) && s.procs[s.cpus[c].p].saved
  {
    assert CpuOk(s, c) && CpuOk(s, d) && ProcOk(s, s.cpus[c].p);
    forall e: nat | e < |s.cpus| ensures !Executes(s, e, s.cpus[c].p) { assert CpuOk(s, e); }
  }

  lemma StepUnique(s: State, ev: Event, c: nat, d: nat, p: nat)
    requires Inv(s) && Enabled(s, ev) && c < |s.cpus| && d < |s.cpus|
    requires |Next(s, ev).cpus| == |s.cpus| && Current(Next(s, ev), c, p) && Current(Next(s, ev), d, p)
    ensures c == d
  {
    if ev.Resume? {
      ResumeFresh(s, ev.c, c);
      ResumeFresh(s, ev.c, d);
      assert c != ev.c ==> Current(s, c, p);
      assert d != ev.c ==> Current(s, d, p);
    } else {
      assert Current(s, c, p) && Current(s, d, p);
    }
  }

  lemma StepKeeps(s: State, ev: Event)
    requires Inv(s) && Enabled(s, ev)
    ensures Inv(Next(s, ev))
  {
    var s' := Next(s, ev);
    assert Shape(s') && |s'.cpus| == |s.cpus| && |s'.procs| == |s.procs|;
    forall d: nat | d < |s.cpus| ensures CpuOk(s', d) { StepCpu(s, ev, d); }
    forall p: nat | p < |s.procs| ensures ProcOk(s', p) { StepProc(s, ev, p); }
    forall c: nat, d: nat, p: nat | c < |s.cpus| && d < |s.cpus| && Current(s', c, p) && Current(s', d, p)
      ensures c == d
    {
      StepUnique(s, ev, c, d, p);
    }
  }

  // ---------------------------------------------------------------------
  // Whole runs

  datatype History = Start(state: State) | Then(before: History, ev: Event)

  /** Every CPU in its scheduler, no lock held, and init runnable with a fresh context in slot 0. */
  ghost predicate Boot(s: State) {
    && Shape(s) && 0 < |s.procs|
    && s.procs[0] == Proc(RUNNABLE, true)
    && (forall p :: 0 < p < |s.procs| ==> s.procs[p].state == UNUSED)
    && (forall p :: 0 <= p < |s.lock| ==> s.lock[p] == NONE)
    && (forall c :: 0 <= c < |s.cpus| ==> s.cpus[c] == Idle)
  }

  /** The history starts after boot, takes only enabled events, and ends in state s. */
  ghost predicate Leads(h: History, s: State) {
    match h
    case Start(s0) => s == s0 && Boot(s0)
    case Then(before, ev) => exists t :: Leads(before, t) && Shape(t) && Enabled(t, ev) && s == Next(t, ev)
  }

  lemma {:induction false} RunKeeps(h: History, s: State)
    requires Leads(h, s)
    ensures Inv(s)
  {
    match h
    case Start(_) =>
    case Then(before, ev) =>
      var t :| Leads(before, t) && Shape(t) && Enabled(t, ev) && s == Next(t, ev);
      RunKeeps(before, t);
      StepKeeps(t, ev);
  }

  /** No process is the current process of two CPUs. */
  lemma Exclusive(h: History, s: State, c: nat, d: nat, p: nat)
    requires Leads(h, s) && c < |s.cpus| && d < |s.cpus| && Current(s, c, p) && Current(s, d, p)
    ensures c == d
  {
    RunKeeps(h, s);
  }

  /** A process is RUNNING exactly when some CPU is executing it and has not yet set it aside. */
  lemma RunningIsExecuted(h: History, s: State, p: nat)
    requires Leads(h, s) && p < |s.procs|
    ensures s.procs[p].state == RUNNING <==>
              exists c: nat :: c < |s.cpus| && (s.cpus[c] == Running(p) || s.cpus[c] == Entering(p))
  {
    RunKeeps(h, s);
    assert ProcOk(s, p);
    if s.procs[p].state == RUNNING {
      var c: nat :| c < |s.cpus| && Executes(s, c, p);
      assert CpuOk(s, c);
    }
    if c: nat :| c < |s.cpus| && (s.cpus[c] == Running(p) || s.cpus[c] == Entering(p)) { assert CpuOk(s, c); }
  }

  /** When scheduler switches to a process, the process is current nowhere else and the context it switches to
      was left by a completed switch away, or made by allocproc, and not resumed since. */
  lemma ResumeIsSafe(h: History, s: State, c: nat)
    requires Leads(h, s) && Enabled(s, Resume(c))
    ensures s.procs[s.cpus[c].p].saved && s.lock[s.cpus[c].p] == c
    ensures forall d: nat :: d < |s.cpus| ==> !Current(s, d, s.cpus[c].p)
  {
    RunKeeps(h, s);
    assert CpuOk(s, c);
    forall d: nat | d < |s.cpus| ensures !Current(s, d, s.cpus[c].p) { ResumeFresh(s, c, d); }
    ResumeFresh(s, c, c);
  }

  /** At the switch in sched the process holds its own lock and is no longer RUNNING, so those two panics of
      sched cannot happen. */
  lemma SchedChecks(h: History, s: State, c: nat)
    requires Leads(h, s) && c < |s.cpus| && s.cpus[c].Leaving?
    ensures var p := s.cpus[c].p; p < |s.procs| && s.lock[p] == c && s.procs[p].state != RUNNING
  {
    RunKeeps(h, s);
    assert CpuOk(s, c);
  }
}
