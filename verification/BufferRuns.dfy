/** What callers see of the buffer cache of kernel/bio.c.  mem is the disk as callers have last written it;
    a caller may change a buffer's data while it holds the buffer's sleep lock, and before brelse it must have
    called bwrite, or log_write, which pins the buffer until install_trans has written it home. */
module BufferRuns {
  import opened BufferRing
  import opened BufferCache

  datatype Key = Key(dev: nat, blockno: nat)

  /** A buffer with its data, the process holding its sleep lock or NONE, the processes between bget's count
      and its lock and between brelse's unlock and its count, and the pins. */
  datatype Cell = Cell(buf: Buf, data: int, holder: int, waiting: nat, dropping: nat, pins: nat)

  const NONE := -1

  datatype State = State(cells: seq<Cell>, disk: imap<Key, int>, mem: imap<Key, int>)

  function KeyOf(c: Cell): Key { Key(c.buf.dev, c.buf.blockno) }

  datatype Event =
    | Hit(i: nat, k: Key) | Miss(i: nat, k: Key) | Take(i: nat, p: nat) | Fill(i: nat, p: nat)
    | Modify(i: nat, p: nat, v: int) | Bwrite(i: nat, p: nat) | Pin(i: nat, p: nat) | Unpin(i: nat, p: nat)
    | Unlock(i: nat, p: nat) | Drop(i: nat)

  ghost predicate Shape(s: State) {
    |s.cells| == NBUF && (forall k: Key :: k in s.disk) && (forall k: Key :: k in s.mem)
  }

  // ---------------------------------------------------------------------
  // Steps

  ghost predicate Enabled(s: State, ev: Event)
    requires Shape(s)
  {
    && ev.i < NBUF
    && var c := s.cells[ev.i];
    match ev
    case Hit(_, k) => KeyOf(c) == k
    case Miss(_, k) => c.buf.refcnt == 0 && forall j :: 0 <= j < NBUF ==> KeyOf(s.cells[j]) != k
    case Take(_, _) => c.waiting > 0 && c.holder == NONE
    case Fill(_, p) => c.holder == p && !c.buf.valid
    case Modify(_, p, _) => c.holder == p && c.buf.valid
    case Bwrite(_, p) => c.holder == p && c.buf.valid
    case Pin(_, p) => c.holder == p && c.buf.valid
    case Unpin(_, p) => c.holder == p && c.pins > 0 && c.data == s.disk[KeyOf(c)]
    case Unlock(_, p) => c.holder == p && (c.pins > 0 || c.data == s.disk[KeyOf(c)])
    case Drop(_) => c.dropping > 0
  }

  function Counted(b: Buf, n: int): Buf
    requires b.refcnt + n >= 0
  {
    b.(refcnt := b.refcnt + n)
  }

  ghost function NextCell(s: State, ev: Event): Cell
    requires Shape(s) && Enabled(s, ev) && (ev.Unpin? || ev.Drop? ==> s.cells[ev.i].buf.refcnt > 0)
  {
    var c := s.cells[ev.i];
    match ev
    case Hit(_, _) => c.(buf := Counted(c.buf, 1), waiting := c.waiting + 1)
    case Miss(_, k) => c.(buf := Buf(false, k.dev, k.blockno, 1), waiting := c.waiting + 1)
    case Take(_, p) => c.(waiting := c.waiting - 1, holder := p)
    case Fill(_, _) => c.(buf := c.buf.(valid := true), data := s.disk[KeyOf(c)])
    case Modify(_, _, v) => c.(data := v)
    case Bwrite(_, _) => c
    case Pin(_, _) => c.(buf := Counted(c.buf, 1), pins := c.pins + 1)
    case Unpin(_, _) => c.(buf := Counted(c.buf, -1), pins := c.pins - 1)
    case Unlock(_, _) => c.(holder := NONE, dropping := c.dropping + 1)
    case Drop(_) => c.(buf := Counted(c.buf, -1), dropping := c.dropping - 1)
  }

  ghost function Next(s: State, ev: Event): State
    requires Shape(s) && Enabled(s, ev) && (ev.Unpin? || ev.Drop? ==> s.cells[ev.i].buf.refcnt > 0)
  {
    var k := KeyOf(s.cells[ev.i]);
    State(s.cells[ev.i := NextCell(s, ev)],
          if ev.Bwrite? then s.disk[k := s.cells[ev.i].data] else s.disk,
          if ev.Modify? then s.mem[k := ev.v] else s.mem)
  }

  // ---------------------------------------------------------------------
  // The steps are those of the cache's methods

  ghost function Bufs(s: State): seq<Buf> { seq(|s.cells|, i requires 0 <= i < |s.cells| => s.cells[i].buf) }

  /** bget has a hit to take or a buffer to recycle exactly if it does not panic, and what it picks by the list is
      one of them. */
  lemma BgetSteps(s: State, order: seq<nat>, k: Key)
    requires Shape(s) && AllBuffers(order)
    ensures forall j: nat :: FirstHolder(Bufs(s), order, k.dev, k.blockno, j) ==> Enabled(s, Hit(order[j], k))
    ensures NoHolder(Bufs(s), k.dev, k.blockno) ==>
              forall j: nat :: LastUnused(Bufs(s), order, j) ==> Enabled(s, Miss(order[j], k))
    ensures NoHolder(Bufs(s), k.dev, k.blockno) && (forall b :: 0 <= b < NBUF ==> Bufs(s)[b].refcnt > 0) <==>
              forall i: nat :: i < NBUF ==> !Enabled(s, Hit(i, k)) && !Enabled(s, Miss(i, k))
  {
    assert forall b :: 0 <= b < NBUF ==> Bufs(s)[b] == s.cells[b].buf;
    if NoHolder(Bufs(s), k.dev, k.blockno) {
      forall b | 0 <= b < NBUF ensures KeyOf(s.cells[b]) != k { assert !Holds(Bufs(s)[b], k.dev, k.blockno); }
      forall i: nat | i < NBUF && Bufs(s)[i].refcnt == 0 ensures Enabled(s, Miss(i, k)) {}
    } else {
      var i: nat :| i < NBUF && Holds(Bufs(s)[i], k.dev, k.blockno);
      assert Enabled(s, Hit(i, k));
    }
  }

  /** Each step changes the identities and counts as the method it stands for does. */
  lemma StepBufs(s: State, ev: Event)
    requires Shape(s) && Enabled(s, ev) && (ev.Unpin? || ev.Drop? ==> s.cells[ev.i].buf.refcnt > 0)
    ensures var bufs := Bufs(Next(s, ev));
      match ev
      case Hit(i, _) => bufs == AddRef(Bufs(s), i)
      case Miss(i, k) => bufs == Bufs(s)[i := Buf(false, k.dev, k.blockno, 1)]
      case Pin(i, _) => bufs == AddRef(Bufs(s), i)
      case Unpin(i, _) => bufs == DropRef(Bufs(s), i)
      case Drop(i) => bufs == DropRef(Bufs(s), i)
      case Fill(i, _) => bufs == Bufs(s)[i := Bufs(s)[i].(valid := true)]
      case _ => bufs == Bufs(s)
  {
    var s' := Next(s, ev);
    assert forall b :: 0 <= b < NBUF && b != ev.i ==> Bufs(s')[b] == Bufs(s)[b];
    assert Bufs(s')[ev.i] == NextCell(s, ev).buf && Bufs(s)[ev.i] == s.cells[ev.i].buf;
  }

  // ---------------------------------------------------------------------
  // The invariant

  /** The count is the references there are. */
  predicate CountOk(c: Cell) {
    c.buf.refcnt == c.waiting + (if c.holder == NONE then 0 else 1) + c.dropping + c.pins
  }

  /** A buffer's data is what was last written, and unless somebody holds or pins it the disk has it too.
      Device 0 is left out: before its first use every buffer carries the identity (0, 0). */
  ghost predicate DataOk(s: State, c: Cell)
    requires Shape(s)
  {
    var k := KeyOf(c);
    k.dev != 0 ==>
      && (c.buf.valid ==> c.data == s.mem[k])
      && (!c.buf.valid ==> c.pins == 0)
      && (!c.buf.valid || (c.holder == NONE && c.pins == 0) ==> s.disk[k] == s.mem[k])
  }

  ghost predicate Unique(s: State)
    requires Shape(s)
  {
    forall i, j :: 0 <= i < j < NBUF && KeyOf(s.cells[i]).dev != 0 ==> KeyOf(s.cells[i]) != KeyOf(s.cells[j])
  }

  ghost predicate Cached(s: State, k: Key) { exists i :: 0 <= i < |s.cells| && KeyOf(s.cells[i]) == k }

  ghost predicate Inv(s: State) {
    && Shape(s) && Unique(s)
    && (forall i :: 0 <= i < NBUF ==> CountOk(s.cells[i]))
    && (forall i :: 0 <= i < NBUF ==> DataOk(s, s.cells[i]))
    && (forall k: Key :: k.dev != 0 && !Cached(s, k) ==> s.disk[k] == s.mem[k])
  }

  /** brelse's and bunpin's count never goes below zero. */
  lemma CountPositive(s: State, ev: Event)
    requires Inv(s) && Enabled(s, ev)
    ensures ev.Unpin? || ev.Drop? ==> s.cells[ev.i].buf.refcnt > 0
  {
    assert CountOk(s.cells[ev.i]);
  }

  lemma SameKeyData(s: State, ev: Event, j: nat)
    requires Inv(s) && Enabled(s, ev) && !ev.Miss? && (ev.Unpin? || ev.Drop? ==> s.cells[ev.i].buf.refcnt > 0)
    requires j < NBUF
    ensures Shape(Next(s, ev)) && DataOk(Next(s, ev), Next(s, ev).cells[j])
  {
    assert DataOk(s, s.cells[ev.i]) && DataOk(s, s.cells[j]);
  }

  lemma SameKeyCounts(s: State, ev: Event, j: nat)
    requires Inv(s) && Enabled(s, ev) && !ev.Miss? && (ev.Unpin? || ev.Drop? ==> s.cells[ev.i].buf.refcnt > 0)
    requires j < NBUF
    ensures CountOk(Next(s, ev).cells[j]) && KeyOf(Next(s, ev).cells[j]) == KeyOf(s.cells[j])
  {
    assert CountOk(s.cells[ev.i]) && CountOk(s.cells[j]);
  }

  lemma SameKeyStep(s: State, ev: Event)
    requires Inv(s) && Enabled(s, ev) && !ev.Miss? && (ev.Unpin? || ev.Drop? ==> s.cells[ev.i].buf.refcnt > 0)
    ensures Inv(Next(s, ev))
  {
    var s' := Next(s, ev);
    forall j: nat | j < NBUF
      ensures CountOk(s'.cells[j]) && KeyOf(s'.cells[j]) == KeyOf(s.cells[j]) && DataOk(s', s'.cells[j])
    {
      SameKeyCounts(s, ev, j);
      SameKeyData(s, ev, j);
    }
    forall k: Key | k.dev != 0 && !Cached(s', k) ensures s'.disk[k] == s'.mem[k] {
      assert KeyOf(s'.cells[ev.i]) == KeyOf(s.cells[ev.i]);
      assert !Cached(s, k);
    }
  }

  lemma MissStep(s: State, i: nat, k: Key)
    requires Inv(s) && Enabled(s, Miss(i, k))
    ensures Inv(Next(s, Miss(i, k)))
  {
    var s' := Next(s, Miss(i, k));
    var c := s.cells[i];
    assert CountOk(c) && DataOk(s, c);
    assert !Cached(s, k);
    forall j | 0 <= j < NBUF ensures DataOk(s', s'.cells[j]) {
      assert DataOk(s, s.cells[j]);
    }
    forall n: Key | n.dev != 0 && !Cached(s', n) ensures s'.disk[n] == s'.mem[n] {
      if Cached(s, n) {
        var j :| 0 <= j < NBUF && KeyOf(s.cells[j]) == n;
        assert KeyOf(s'.cells[j]) == n || j == i;
      }
    }
  }

  lemma StepKeeps(s: State, ev: Event)
    requires Inv(s) && Enabled(s, ev)
    ensures ev.Unpin? || ev.Drop? ==> s.cells[ev.i].buf.refcnt > 0
    ensures Inv(Next(s, ev))
  {
    CountPositive(s, ev);
    if ev.Miss? { MissStep(s, ev.i, ev.k); } else { SameKeyStep(s, ev); }
  }

  // ---------------------------------------------------------------------
  // Whole runs

  datatype History = Start(state: State) | Then(before: History, ev: Event)

  /** After binit, with nothing written yet. */
  ghost predicate Boot(s: State) {
    && Shape(s) && s.mem == s.disk
    && (forall i :: 0 <= i < NBUF ==> s.cells[i] == Cell(Buf(false, 0, 0, 0), s.cells[i].data, NONE, 0, 0, 0))
  }

  ghost predicate Leads(h: History, s: State) {
    match h
    case Start(s0) => s == s0 && Boot(s0)
    case Then(before, ev) =>
      exists t :: Leads(before, t) && Shape(t) && Enabled(t, ev)
                  && (ev.Unpin? || ev.Drop? ==> t.cells[ev.i].buf.refcnt > 0) && s == Next(t, ev)
  }

  lemma {:induction false} RunKeeps(h: History, s: State)
    requires Leads(h, s)
    ensures Inv(s)
  {
    match h
    case Start(_) =>
    case Then(before, ev) =>
      var t :| Leads(before, t) && Shape(t) && Enabled(t, ev)
               && (ev.Unpin? || ev.Drop? ==> t.cells[ev.i].buf.refcnt > 0) && s == Next(t, ev);
      RunKeeps(before, t);
      StepKeeps(t, ev);
  }

  /** The cache is a plain disk to its callers: in every run, what bread returns is what was last written. */
  lemma ReadsLatest(h: History, s: State, i: nat)
    requires Leads(h, s) && i < |s.cells| && s.cells[i].buf.valid && s.cells[i].buf.dev != 0
    ensures Shape(s) && s.cells[i].data == s.mem[KeyOf(s.cells[i])]
  {
    RunKeeps(h, s);
    assert DataOk(s, s.cells[i]);
  }

  /** In every run at most one buffer holds a block. */
  lemma OneBufferEach(h: History, s: State, i: nat, j: nat)
    requires Leads(h, s) && i < |s.cells| && j < |s.cells|
    requires KeyOf(s.cells[i]) == KeyOf(s.cells[j]) && s.cells[i].buf.dev != 0
    ensures i == j
  {
    RunKeeps(h, s);
  }

  /** In every run a buffer that is pinned, held, waited for or not yet counted down stays with its block, and
      only its holder changes its data: what log_write pinned is there when write_log reads it. */
  lemma PinnedStays(h: History, s: State, ev: Event, i: nat)
    requires Leads(h, s) && Shape(s) && Enabled(s, ev) && i < NBUF
    requires s.cells[i].pins > 0 || s.cells[i].holder != NONE || s.cells[i].waiting > 0 || s.cells[i].dropping > 0
    ensures ev.Unpin? || ev.Drop? ==> s.cells[ev.i].buf.refcnt > 0
    ensures var c := Next(s, ev).cells[i];
      && KeyOf(c) == KeyOf(s.cells[i]) && (s.cells[i].buf.valid ==> c.buf.valid)
      && (c.data != s.cells[i].data ==> ev.i == i && (ev.Modify? || ev.Fill?) && s.cells[i].holder == ev.p)
  {
    RunKeeps(h, s);
    CountPositive(s, ev);
    assert CountOk(s.cells[i]);
  }
}
