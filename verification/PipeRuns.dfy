/** Who sleeps on a pipe.  A step is one critical section of any process; sleep gives the lock up and falls
    asleep in one step, which SleepWakeup.NoLostWakeup justifies. */
module PipeRuns {
  import opened PipeModel

  /** writers and readers: the processes asleep on &pi->nwrite and on &pi->nread. */
  datatype State = State(v: View, writers: set<nat>, readers: set<nat>)

  /** A call with what is known when it is made: the bytes wanted, how many copyin can read or copyout store,
      and whether the caller has been killed. */
  datatype Event =
    | WriteTo(p: nat, want: nat, readable: nat, killed: bool)
    | ReadFrom(p: nat, want: nat, room: nat, killed: bool)
    | Close(writable: bool)
    | Kill(p: nat)

  predicate Enabled(s: State, ev: Event) {
    match ev
    case WriteTo(p, want, readable, _) => p !in s.writers && p !in s.readers && readable <= want
    case ReadFrom(p, _, _, _) => p !in s.writers && p !in s.readers
    case _ => true
  }

  function Next(s: State, ev: Event): State
    requires s.v.size <= PIPESIZE
  {
    match ev
    case WriteTo(p, want, readable, killed) =>
      var e := WriteEnds(s.v, killed, want, readable);
      State(s.v.(size := s.v.size + PutCount(s.v, readable)),
            if e == Sleeps then s.writers + {p} else s.writers,
            if e == Fails then s.readers else {})
    case ReadFrom(p, want, room, killed) =>
      var e := ReadEnds(s.v, killed);
      State(s.v.(size := s.v.size - TakeCount(s.v, killed, want, room)),
            if e == Returns then {} else s.writers,
            if e == Sleeps then s.readers + {p} else s.readers)
    case Close(writable) =>
      State(Closed(s.v, writable), if writable then s.writers else {}, if writable then {} else s.readers)
    case Kill(p) => State(s.v, s.writers - {p}, s.readers - {p})
  }

  datatype History = Start | Then(before: History, ev: Event)

  ghost predicate Leads(h: History, s: State) {
    match h
    case Start => s == State(View(0, true, true), {}, {})
    case Then(before, ev) =>
      exists t :: Leads(before, t) && t.v.size <= PIPESIZE && Enabled(t, ev) && s == Next(t, ev)
  }

  /** In every run the pipe is never overfull, and a sleeping writer has a full pipe with its read end open in
      front of it. */
  lemma {:induction false} WriterSleepsOnFull(h: History, s: State)
    requires Leads(h, s)
    ensures s.v.size <= PIPESIZE
    ensures s.writers != {} ==> s.v.size == PIPESIZE && s.v.readopen
  {
    match h
    case Start =>
    case Then(before, ev) =>
      var t :| Leads(before, t) && t.v.size <= PIPESIZE && Enabled(t, ev) && s == Next(t, ev);
      WriterSleepsOnFull(before, t);
  }

  predicate ReadersWaitForCause(s: State) {
    s.readers != {} ==> s.v.size == 0 && s.v.writeopen
  }

  /** With readers asleep, a writer that has been killed, or whose reader has closed, asks for more than the
      pipe has room for, and copyin can read enough to fill it. */
  predicate FailsSilently(s: State, ev: Event) {
    && ev.WriteTo? && s.readers != {} && (ev.killed || !s.v.readopen)
    && 0 < Space(s.v) < ev.want && Space(s.v) <= ev.readable
  }

  /** The readers' side of it holds through every step but that one, and is lost exactly there. */
  lemma ReaderStep(s: State, ev: Event)
    requires s.v.size <= PIPESIZE && Enabled(s, ev) && ReadersWaitForCause(s)
    ensures ReadersWaitForCause(Next(s, ev)) <==> !FailsSilently(s, ev)
  {
  }

  /** Such a step exists: a killed process writes more than an empty pipe with a sleeping reader can take. */
  lemma ReaderCanBeLeft() returns (h: History, s: State)
    ensures Leads(h, s) && s.readers != {} && s.v.size == PIPESIZE && s.v.writeopen
  {
    var s0 := State(View(0, true, true), {}, {});
    var read, write := ReadFrom(1, 1, 1, false), WriteTo(2, PIPESIZE + 1, PIPESIZE + 1, true);
    var s1 := Next(s0, read);
    s := Next(s1, write);
    h := Then(Then(Start, read), write);
    assert Leads(Start, s0);
    assert Leads(Then(Start, read), s1);
  }

  /** A run in which no write fails that way. */
  ghost predicate LeadsLoudly(h: History, s: State) {
    match h
    case Start => s == State(View(0, true, true), {}, {})
    case Then(before, ev) =>
      exists t :: && LeadsLoudly(before, t) && t.v.size <= PIPESIZE && Enabled(t, ev)
                  && !FailsSilently(t, ev) && s == Next(t, ev)
  }

  /** In every such run a sleeping reader has an empty pipe with its write end open in front of it. */
  lemma {:induction false} ReaderSleepsOnEmpty(h: History, s: State)
    requires LeadsLoudly(h, s)
    ensures ReadersWaitForCause(s)
  {
    match h
    case Start =>
    case Then(before, ev) =>
      var t :| && LeadsLoudly(before, t) && t.v.size <= PIPESIZE && Enabled(t, ev)
               && !FailsSilently(t, ev) && s == Next(t, ev);
      ReaderSleepsOnEmpty(before, t);
      ReaderStep(t, ev);
  }
}
