/** sleep and wakeup of kernel/proc.c around one channel and the spinlock lk that guards what the sleepers
    wait for.  Process p waits until cond(p, data) holds.  Whoever makes a change that lets some sleeper go on
    does so holding lk, and calls wakeup before releasing it.  Steps are cut at lock operations. */
module SleepWakeup {
  import opened Param

  const NONE := -1

  datatype ProcState = SLEEPING | RUNNABLE | RUNNING

  datatype Pc =
    | Outside               // does not hold lk
    | Inside                // holds lk
    | TookOwn               // sleep: holds lk and its own lock
    | GaveLk                // sleep: holds its own lock only
    | Marked                // sleep: chan and SLEEPING set, holds its own lock until scheduler drops it
    | Switched              // sleep: another process has the CPU
    | Resumed               // sleep: back from sched with its own lock
    | Reenter               // sleep: own lock dropped, wants lk
    | Waking(k: nat)        // wakeup: holds lk, about to look at process k

  datatype Proc = Proc(state: ProcState, onChan: bool, pc: Pc)

  /** lk and own[p] name the process holding that lock, or NONE.  debt: a sleeper's condition was made true
      since lk was taken and wakeup has not finished since. */
  datatype State<D> = State(data: D, debt: bool, lk: int, procs: seq<Proc>, own: seq<int>)

  datatype Event<D> =
    | Acquire(p: nat) | Release(p: nat) | Modify(p: nat, to: D) | Adjust(p: nat, to: D)
    | SleepTake(p: nat) | SleepGive(p: nat) | SleepMark(p: nat) | SleepSwitch(p: nat)
    | Schedule(p: nat) | SleepDrop(p: nat) | SleepReturn(p: nat)
    | WakeStart(p: nat) | WakeLook(p: nat) | WakeEnd(p: nat)
    | Kill(p: nat)

  ghost predicate Shape<D(!new)>(s: State<D>) { |s.own| == |s.procs| }

  /** The change lets some process go on that could not before. */
  ghost predicate Enables<D(!new)>(cond: (nat, D) -> bool, from: D, to: D) {
    exists q: nat :: !cond(q, from) && cond(q, to)
  }

  // ---------------------------------------------------------------------
  // Steps

  ghost predicate Enabled<D(!new)>(cond: (nat, D) -> bool, s: State<D>, ev: Event<D>)
    requires Shape(s)
  {
    && ev.p < |s.procs|
    && var p := ev.p; var pr := s.procs[p];
    match ev
    case Acquire(_) => pr.pc == Outside && pr.state == RUNNING && s.lk == NONE
    case Release(_) => pr.pc == Inside && !s.debt
    case Modify(_, _) => pr.pc == Inside
    // a change made without lk may let nobody go on
    case Adjust(_, to) => pr.pc == Outside && pr.state == RUNNING && !Enables(cond, s.data, to)
    // the caller's loop: sleep only while the condition is false
    case SleepTake(_) => pr.pc == Inside && !s.debt && !cond(p, s.data) && s.own[p] == NONE
    case SleepGive(_) => pr.pc == TookOwn
    case SleepMark(_) => pr.pc == GaveLk
    case SleepSwitch(_) => pr.pc == Marked
    case Schedule(_) => pr.state == RUNNABLE && s.own[p] == NONE
    case SleepDrop(_) => pr.pc == Resumed
    case SleepReturn(_) => pr.pc == Reenter && s.lk == NONE
    case WakeStart(_) => pr.pc == Inside
    case WakeLook(_) => pr.pc.Waking? && pr.pc.k < |s.procs| && s.own[pr.pc.k] == NONE
    case WakeEnd(_) => pr.pc.Waking? && pr.pc.k == |s.procs|
    // kill of a process asleep, or a wakeup of this channel by code outside the discipline
    case Kill(_) => s.own[p] == NONE && pr.state == SLEEPING
  }

  function SetPc<D>(s: State<D>, p: nat, pc: Pc): State<D>
    requires p < |s.procs|
  {
    s.(procs := s.procs[p := s.procs[p].(pc := pc)])
  }

  function Look(pr: Proc): Proc {
    if pr.state == SLEEPING && pr.onChan then pr.(state := RUNNABLE) else pr
  }

  ghost function Next<D(!new)>(cond: (nat, D) -> bool, s: State<D>, ev: Event<D>): State<D>
    requires Shape(s) && Enabled(cond, s, ev)
  {
    var p := ev.p;
    var pr := s.procs[p];
    match ev
    case Acquire(_) => SetPc(s, p, Inside).(lk := p)
    case Release(_) => SetPc(s, p, Outside).(lk := NONE)
    case Modify(_, to) => s.(data := to, debt := s.debt || Enables(cond, s.data, to))
    case Adjust(_, to) => s.(data := to)
    case SleepTake(_) => SetPc(s, p, TookOwn).(own := s.own[p := p])
    case SleepGive(_) => SetPc(s, p, GaveLk).(lk := NONE)
    case SleepMark(_) => s.(procs := s.procs[p := Proc(SLEEPING, true, Marked)])
    case SleepSwitch(_) => SetPc(s, p, Switched).(own := s.own[p := NONE])
    case Schedule(_) => s.(procs := s.procs[p := pr.(state := RUNNING, pc := Resumed)], own := s.own[p := p])
    case SleepDrop(_) => s.(procs := s.procs[p := pr.(onChan := false, pc := Reenter)], own := s.own[p := NONE])
    case SleepReturn(_) => SetPc(s, p, Inside).(lk := p)
    case WakeStart(_) => SetPc(s, p, Waking(0))
    case WakeLook(_) =>
      var k := pr.pc.k;
      SetPc(s.(procs := s.procs[k := Look(s.procs[k])]), p, Waking(k + 1))
    case WakeEnd(_) => SetPc(s, p, Inside).(debt := false)
    case Kill(_) => s.(procs := s.procs[p := pr.(state := RUNNABLE)])
  }

  // ---------------------------------------------------------------------
  // The invariant

  predicate HasLk(pc: Pc) { pc == Inside || pc == TookOwn || pc.Waking? }

  predicate HasOwn(pc: Pc) { pc == TookOwn || pc == GaveLk || pc == Marked || pc == Resumed }

  predicate LocalOk<D(!new)>(s: State<D>, p: nat)
    requires |s.own| == |s.procs| && p < |s.procs|
  {
    var pr := s.procs[p];
    && (HasLk(pr.pc) <==> s.lk == p)
    && s.own[p] == (if HasOwn(pr.pc) then p else NONE)
    && (pr.pc != Marked && pr.pc != Switched ==> pr.state == RUNNING)
    && (pr.pc == Marked ==> pr.state == SLEEPING)
    && (pr.pc == Switched ==> pr.state != RUNNING)
    && (pr.state == SLEEPING ==> pr.onChan)
  }

  /** The holder of lk has yet to come by process p with wakeup. */
  predicate WillWake<D(!new)>(s: State<D>, p: nat) {
    && s.debt && 0 <= s.lk < |s.procs|
    && var pc := s.procs[s.lk].pc;
    pc == Inside || (pc.Waking? && pc.k <= p)
  }

  /** p has given lk up to sleep and nothing has woken it. */
  predicate Committed(pr: Proc) { pr.pc == GaveLk || pr.state == SLEEPING }

  predicate SleeperOk<D(!new)>(cond: (nat, D) -> bool, s: State<D>, p: nat)
    requires p < |s.procs|
  {
    var pr := s.procs[p];
    && (pr.pc == TookOwn ==> !cond(p, s.data) && !s.debt)
    && (Committed(pr) && cond(p, s.data) ==> WillWake(s, p))
  }

  ghost predicate Inv<D(!new)>(cond: (nat, D) -> bool, s: State<D>) {
    && Shape(s)
    && (s.lk == NONE ==> !s.debt)
    && (s.lk == NONE || 0 <= s.lk < |s.procs|)
    && (forall p: nat :: p < |s.procs| ==> LocalOk(s, p))
    && (forall p: nat :: p < |s.procs| ==> SleeperOk(cond, s, p))
  }

  lemma MoverLocal<D(!new)>(cond: (nat, D) -> bool, s: State<D>, ev: Event<D>)
    requires Shape(s) && Enabled(cond, s, ev) && LocalOk(s, ev.p)
    ensures Shape(Next(cond, s, ev)) && |Next(cond, s, ev).procs| == |s.procs| && LocalOk(Next(cond, s, ev), ev.p)
  {
  }

  lemma StepLocal<D(!new)>(cond: (nat, D) -> bool, s: State<D>, ev: Event<D>, q: nat)
    requires Shape(s) && Enabled(cond, s, ev) && q < |s.procs| && LocalOk(s, q) && LocalOk(s, ev.p)
    ensures Shape(Next(cond, s, ev)) && |Next(cond, s, ev).procs| == |s.procs| && LocalOk(Next(cond, s, ev), q)
  {
    if q == ev.p { MoverLocal(cond, s, ev); }
  }

  lemma StepSleeper<D(!new)>(cond: (nat, D) -> bool, s: State<D>, ev: Event<D>, q: nat)
    requires Inv(cond, s) && Enabled(cond, s, ev) && q < |s.procs|
    ensures |Next(cond, s, ev).procs| == |s.procs| && SleeperOk(cond, Next(cond, s, ev), q)
  {
    assert LocalOk(s, q) && LocalOk(s, ev.p) && SleeperOk(cond, s, q) && SleeperOk(cond, s, ev.p);
  }

  lemma StepKeeps<D(!new)>(cond: (nat, D) -> bool, s: State<D>, ev: Event<D>)
    requires Inv(cond, s) && Enabled(cond, s, ev)
    ensures Inv(cond, Next(cond, s, ev))
  {
    var s' := Next(cond, s, ev);
    assert LocalOk(s, ev.p) && SleeperOk(cond, s, ev.p);
    forall q: nat | q < |s.procs|
      ensures |s'.procs| == |s.procs| && Shape(s') && LocalOk(s', q) && SleeperOk(cond, s', q)
    {
      StepLocal(cond, s, ev, q);
      StepSleeper(cond, s, ev, q);
    }
  }

  // ---------------------------------------------------------------------
  // Whole runs

  datatype History<D> = Start(state: State<D>) | Then(before: History<D>, ev: Event<D>)

  ghost predicate Boot<D(!new)>(s: State<D>) {
    && Shape(s) && s.lk == NONE && !s.debt
    && (forall p: nat :: p < |s.procs| ==> s.procs[p] == Proc(RUNNING, false, Outside) && s.own[p] == NONE)
  }

  /** The history starts with nobody asleep, takes only enabled events, and ends in state s. */
  ghost predicate Leads<D(!new)>(cond: (nat, D) -> bool, h: History<D>, s: State<D>) {
    match h
    case Start(s0) => s == s0 && Boot(s0)
    case Then(before, ev) =>
      exists t :: Leads(cond, before, t) && Shape(t) && Enabled(cond, t, ev) && s == Next(cond, t, ev)
  }

  lemma {:induction false} RunKeeps<D(!new)>(cond: (nat, D) -> bool, h: History<D>, s: State<D>)
    requires Leads(cond, h, s)
    ensures Inv(cond, s)
  {
    match h
    case Start(_) =>
    case Then(before, ev) =>
      var t :| Leads(cond, before, t) && Shape(t) && Enabled(cond, t, ev) && s == Next(cond, t, ev);
      RunKeeps(cond, before, t);
      StepKeeps(cond, t, ev);
  }

  /** With lk and p's lock free, p does not sleep on what has already happened. */
  lemma NoLostWakeup<D(!new)>(cond: (nat, D) -> bool, h: History<D>, s: State<D>, p: nat)
    requires Leads(cond, h, s) && Shape(s) && p < |s.procs|
    requires s.lk == NONE && s.own[p] == NONE
    requires s.procs[p].state == SLEEPING
    ensures !cond(p, s.data)
  {
    RunKeeps(cond, h, s);
    assert SleeperOk(cond, s, p);
  }

  /** While lk is held, a sleeper whose condition holds is one that the holder's wakeup has yet to reach. */
  lemma SleeperWillWake<D(!new)>(cond: (nat, D) -> bool, h: History<D>, s: State<D>, p: nat)
    requires Leads(cond, h, s) && p < |s.procs| && s.procs[p].state == SLEEPING && cond(p, s.data)
    ensures WillWake(s, p)
  {
    RunKeeps(cond, h, s);
    assert SleeperOk(cond, s, p);
  }

  // ---------------------------------------------------------------------
  // Sleep locks (kernel/sleeplock.c)

  datatype SleepLock = Unlocked | Locked(pid: nat)

  function Available(): (nat, SleepLock) -> bool { (p: nat, l: SleepLock) => l.Unlocked? }

  /** acquiresleep sets locked once it has found it clear; releasesleep, called by the holder, clears it. */
  predicate Client(s: State<SleepLock>, ev: Event<SleepLock>) {
    match ev
    case Modify(p, to) => if to.Locked? then s.data.Unlocked? && to.pid == p else s.data == Locked(p)
    case Adjust(_, _) => false
    case _ => true
  }

  ghost predicate LeadsLocking(h: History<SleepLock>, s: State<SleepLock>) {
    match h
    case Start(s0) => s == s0 && Boot(s0) && s0.data == Unlocked
    case Then(before, ev) =>
      exists t :: LeadsLocking(before, t) && Shape(t) && Enabled(Available(), t, ev) && Client(t, ev)
                  && s == Next(Available(), t, ev)
  }

  /** The processes past the point where acquiresleep sets locked and not yet past where releasesleep clears it. */
  ghost function Owners(h: History<SleepLock>): set<nat> {
    match h
    case Start(_) => {}
    case Then(before, Modify(p, to)) => if to.Locked? then Owners(before) + {p} else Owners(before) - {p}
    case Then(before, _) => Owners(before)
  }

  lemma {:induction false} LockingRun(h: History<SleepLock>, s: State<SleepLock>)
    requires LeadsLocking(h, s)
    ensures Leads(Available(), h, s)
    ensures Owners(h) == if s.data.Locked? then {s.data.pid} else {}
  {
    match h
    case Start(_) =>
    case Then(before, ev) =>
      var t :| LeadsLocking(before, t) && Shape(t) && Enabled(Available(), t, ev) && Client(t, ev)
               && s == Next(Available(), t, ev);
      LockingRun(before, t);
  }

  /** At most one process owns a sleep lock, and nobody is left asleep on one that is free. */
  lemma SleepLockSafe(h: History<SleepLock>, s: State<SleepLock>, p: nat)
    requires LeadsLocking(h, s) && Shape(s) && p < |s.procs|
    ensures |Owners(h)| <= 1
    ensures s.lk == NONE && s.own[p] == NONE && s.procs[p].state == SLEEPING ==> |Owners(h)| == 1
  {
    LockingRun(h, s);
    if s.lk == NONE && s.own[p] == NONE && s.procs[p].state == SLEEPING {
      NoLostWakeup(Available(), h, s, p);
    }
  }

  // ---------------------------------------------------------------------
  // The log (begin_op and end_op of kernel/log.c)

  /** What begin_op's loop looks at. */
  datatype LogData = LogData(committing: bool, n: int, outstanding: int)

  predicate LogBusy(d: LogData) {
    d.committing || d.n + (d.outstanding + 1) * MAXOPBLOCKS > LOGSIZE
  }

  function LogFree(): (nat, LogData) -> bool { (p: nat, d: LogData) => !LogBusy(d) }

  /** begin_op counts itself in; log_write appends; end_op counts itself out, and the last one starts a commit
      in the same critical section or, having committed, ends it.  commit empties the list without the lock. */
  predicate LogClient(s: State<LogData>, ev: Event<LogData>) {
    var d := s.data;
    match ev
    case Modify(_, to) =>
      || (!LogBusy(d) && to == d.(outstanding := d.outstanding + 1))
      || (d.outstanding > 0 && !d.committing && to == d.(n := d.n + 1))
      || (d.outstanding > 0 && !d.committing
          && to == d.(outstanding := d.outstanding - 1, committing := d.outstanding == 1))
      || (d.committing && d.n == 0 && to == d.(committing := false))
    case Adjust(_, to) => d.committing && to == d.(n := 0)
    case _ => true
  }

  ghost predicate LeadsLogging(h: History<LogData>, s: State<LogData>) {
    match h
    case Start(s0) => s == s0 && Boot(s0) && s0.data == LogData(false, 0, 0)
    case Then(before, ev) =>
      exists t :: LeadsLogging(before, t) && Shape(t) && Enabled(LogFree(), t, ev) && LogClient(t, ev)
                  && s == Next(LogFree(), t, ev)
  }

  predicate LogOk(d: LogData) {
    d.n >= 0 && d.outstanding >= 0 && (d.outstanding == 0 && !d.committing ==> d.n == 0)
  }

  lemma LogDataKeeps(s: State<LogData>, ev: Event<LogData>)
    requires Shape(s) && Enabled(LogFree(), s, ev) && LogClient(s, ev) && LogOk(s.data)
    ensures LogOk(Next(LogFree(), s, ev).data)
  {
  }

  lemma {:induction false} LoggingRun(h: History<LogData>, s: State<LogData>)
    requires LeadsLogging(h, s)
    ensures Leads(LogFree(), h, s) && LogOk(s.data)
  {
    match h
    case Start(_) =>
    case Then(before, ev) =>
      var t :| LeadsLogging(before, t) && Shape(t) && Enabled(LogFree(), t, ev) && LogClient(t, ev)
               && s == Next(LogFree(), t, ev);
      LoggingRun(before, t);
      LogDataKeeps(t, ev);
  }

  /** With log.lock and its own lock free, a process asleep in begin_op still has to wait, and a commit or an
      operation is under way whose end_op will wake it. */
  lemma LogSleepersWait(h: History<LogData>, s: State<LogData>, p: nat)
    requires LeadsLogging(h, s) && Shape(s) && p < |s.procs|
    requires s.lk == NONE && s.own[p] == NONE && s.procs[p].state == SLEEPING
    ensures LogBusy(s.data) && (s.data.committing || s.data.outstanding > 0)
  {
    LoggingRun(h, s);
    NoLostWakeup(LogFree(), h, s, p);
  }

  /** Emptying the list without the lock is harmless: while a commit runs it lets nobody go on. */
  lemma ClearEnablesNobody(d: LogData)
    requires d.committing
    ensures !Enables(LogFree(), d, d.(n := 0))
  {
  }
}
