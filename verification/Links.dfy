/** Link counts of files under link, unlink, create and the last iput (kernel/sysfile.c, kernel/fs.c), with any
    number of processes at any point of those calls.  entries are the directory entries that name files; those
    that name directories, "." and ".." among them, are not in it. */
module Links {
  import opened Basics

  const MAX_NLINK := 32767 // nlink is a short

  datatype Kind = Free | File | Dir

  /** An inode, its reference count, and how many processes have a reference and are about to do what with it. */
  datatype Inode = Inode(kind: Kind, nlink: int, ref: int,
                         linking: nat,    // sys_link has looked the file up
                         adding: nat,     // sys_link has counted the new name, which is not there yet
                         newborn: nat,    // create has the inode from ialloc
                         creating: nat,   // create has set nlink to 1, and the name is not there yet
                         removing: nat,   // sys_unlink has erased the name and not yet counted it off
                         putting: nat,    // about to call iput
                         freeing: nat,    // iput has found the last reference to a file without links
                         dying: nat,      // iput has freed the inode and not yet dropped its reference
                         opens: nat)      // open files and anything else that keeps a reference

  datatype Slot = Slot(dir: nat, name: string)

  datatype State = State(inodes: seq<Inode>, entries: map<Slot, nat>)

  datatype Event =
    | LinkLookup(slot: Slot) | LinkCount(x: nat) | LinkEnter(x: nat, slot: Slot) | LinkBad(x: nat)
    | UnlinkErase(slot: Slot) | UnlinkCount(x: nat)
    | CreateAlloc(x: nat) | CreateCount(x: nat) | CreateEnter(x: nat, slot: Slot)
    | OpenName(slot: Slot) | Dup(x: nat) | Close(x: nat)
    | PutTest(x: nat) | PutFree(x: nat) | PutDrop(x: nat) | DyingDrop(x: nat)
    | MakeDir(x: nat) | DropDir(x: nat)

  predicate IsInode(s: State, x: nat) { 0 < x < |s.inodes| }

  predicate IsDir(s: State, x: nat) { x < |s.inodes| && s.inodes[x].kind == Dir }

  /** The inode an event is about. */
  predicate About(s: State, ev: Event, x: nat) {
    match ev
    case LinkLookup(slot) => slot in s.entries && s.entries[slot] == x
    case UnlinkErase(slot) => slot in s.entries && s.entries[slot] == x
    case OpenName(slot) => slot in s.entries && s.entries[slot] == x
    case _ => ev.x == x
  }

  // ---------------------------------------------------------------------
  // Steps

  /** What the step asks of the inode it is about. */
  predicate Ready(i: Inode, ev: Event) {
    match ev
    case LinkLookup(_) => true
    case LinkCount(_) => i.linking > 0 && i.kind != Dir && i.nlink < MAX_NLINK
    case LinkEnter(_, _) => i.adding > 0
    case LinkBad(_) => i.adding > 0
    case UnlinkErase(_) => true
    case UnlinkCount(_) => i.removing > 0
    case CreateAlloc(_) => i.kind == Free
    case CreateCount(_) => i.newborn > 0
    case CreateEnter(_, _) => i.creating > 0
    case OpenName(_) => true
    case Dup(_) => i.opens > 0
    case Close(_) => i.opens > 0
    // under icache.lock; the file is truncated and freed after its release
    case PutTest(_) => i.putting > 0 && i.ref == 1 && i.nlink == 0
    case PutFree(_) => i.freeing > 0
    case PutDrop(_) => i.putting > 0
    case DyingDrop(_) => i.dying > 0
    case MakeDir(_) => i.kind == Free
    case DropDir(_) => i.kind == Dir
  }

  predicate Enabled(s: State, ev: Event, x: nat) {
    && IsInode(s, x) && About(s, ev, x) && Ready(s.inodes[x], ev)
    && (ev.LinkEnter? || ev.CreateEnter? ==> ev.slot !in s.entries && IsDir(s, ev.slot.dir))
  }

  function NextInode(i: Inode, ev: Event): Inode
    requires Ready(i, ev)
  {
    match ev
    case LinkLookup(_) => i.(ref := i.ref + 1, linking := i.linking + 1)
    case LinkCount(_) => i.(nlink := i.nlink + 1, linking := i.linking - 1, adding := i.adding + 1)
    case LinkEnter(_, _) => i.(adding := i.adding - 1, putting := i.putting + 1)
    case LinkBad(_) => i.(nlink := i.nlink - 1, adding := i.adding - 1, putting := i.putting + 1)
    case UnlinkErase(_) => i.(ref := i.ref + 1, removing := i.removing + 1)
    case UnlinkCount(_) => i.(nlink := i.nlink - 1, removing := i.removing - 1, putting := i.putting + 1)
    case CreateAlloc(_) => i.(kind := File, nlink := 0, ref := i.ref + 1, newborn := i.newborn + 1)
    case CreateCount(_) => i.(nlink := 1, newborn := i.newborn - 1, creating := i.creating + 1)
    case CreateEnter(_, _) => i.(creating := i.creating - 1, opens := i.opens + 1)
    case OpenName(_) => i.(ref := i.ref + 1, opens := i.opens + 1)
    case Dup(_) => i.(ref := i.ref + 1, opens := i.opens + 1)
    case Close(_) => i.(opens := i.opens - 1, putting := i.putting + 1)
    case PutTest(_) => i.(putting := i.putting - 1, freeing := i.freeing + 1)
    case PutFree(_) => i.(kind := Free, freeing := i.freeing - 1, dying := i.dying + 1)
    case PutDrop(_) => i.(ref := i.ref - 1, putting := i.putting - 1)
    case DyingDrop(_) => i.(ref := i.ref - 1, dying := i.dying - 1)
    case MakeDir(_) => i.(kind := Dir)
    case DropDir(_) => i.(kind := Free)
  }

  function NextEntries(s: State, ev: Event): map<Slot, nat> {
    match ev
    case LinkEnter(x, slot) => s.entries[slot := x]
    case CreateEnter(x, slot) => s.entries[slot := x]
    case UnlinkErase(slot) => s.entries - {slot}
    // the directory's contents go with it
    case DropDir(x) => map k | k in s.entries && k.dir != x :: s.entries[k]
    case _ => s.entries
  }

  function Next(s: State, ev: Event, x: nat): State
    requires Enabled(s, ev, x)
  {
    State(s.inodes[x := NextInode(s.inodes[x], ev)], NextEntries(s, ev))
  }

  // ---------------------------------------------------------------------
  // The invariant

  ghost function Naming(entries: map<Slot, nat>, x: nat): set<Slot> { set k | k in entries && entries[k] == x }

  /** Nobody but create, with its new inode, and a process inside iput, past its test, can have a reference. */
  predicate Unreached(i: Inode) {
    i.linking == 0 && i.adding == 0 && i.creating == 0 && i.removing == 0 && i.putting == 0 && i.opens == 0
  }

  predicate RefOk(i: Inode) {
    i.ref - i.putting - i.freeing - i.dying == i.linking + i.adding + i.newborn + i.creating + i.removing + i.opens
  }

  /** names is how many entries name the file. */
  predicate CountOk(i: Inode, names: nat) {
    && RefOk(i)
    && (i.kind == File ==> i.nlink >= names + i.adding + i.creating + i.removing)
    && (i.kind != File ==> names == 0 && Unreached(i) && i.newborn == 0 && i.freeing == 0)
    && (i.newborn > 0 ==> names == 0 && Unreached(i) && i.newborn == 1 && i.freeing == 0)
    && (i.freeing > 0 ==> names == 0 && Unreached(i) && i.newborn == 0 && i.freeing == 1 && i.dying == 0)
  }

  ghost predicate Inv(s: State) {
    && (forall k :: k in s.entries ==> IsInode(s, s.entries[k]))
    && (forall x: nat :: IsInode(s, x) ==> CountOk(s.inodes[x], |Naming(s.entries, x)|))
  }

  lemma NamingAdd(entries: map<Slot, nat>, slot: Slot, x: nat, y: nat)
    requires slot !in entries
    ensures |Naming(entries[slot := x], y)| == |Naming(entries, y)| + (if x == y then 1 else 0)
  {
    if x == y {
      assert Naming(entries[slot := x], y) == Naming(entries, y) + {slot};
    } else {
      assert Naming(entries[slot := x], y) == Naming(entries, y);
    }
  }

  lemma NamingErase(entries: map<Slot, nat>, slot: Slot, y: nat)
    requires slot in entries
    ensures |Naming(entries - {slot}, y)| == |Naming(entries, y)| - (if entries[slot] == y then 1 else 0)
  {
    if entries[slot] == y {
      assert Naming(entries, y) == Naming(entries - {slot}, y) + {slot};
    } else {
      assert Naming(entries, y) == Naming(entries - {slot}, y);
    }
  }

  /** How many entries name y after the step. */
  function NamesAfter(ev: Event, x: nat, y: nat, names: nat): int {
    if x != y then names
    else match ev
         case LinkEnter(_, _) => names + 1
         case CreateEnter(_, _) => names + 1
         case UnlinkErase(_) => names - 1
         case _ => names
  }

  lemma NamesStep(s: State, ev: Event, x: nat, y: nat)
    requires Enabled(s, ev, x)
    ensures !ev.DropDir? ==> |Naming(NextEntries(s, ev), y)| == NamesAfter(ev, x, y, |Naming(s.entries, y)|)
    ensures |Naming(NextEntries(s, ev), y)| <= NamesAfter(ev, x, y, |Naming(s.entries, y)|)
  {
    match ev
    case LinkEnter(_, slot) => NamingAdd(s.entries, slot, x, y);
    case CreateEnter(_, slot) => NamingAdd(s.entries, slot, x, y);
    case UnlinkErase(slot) => NamingErase(s.entries, slot, y);
    case DropDir(_) => SubsetCard(Naming(NextEntries(s, ev), y), Naming(s.entries, y));
    case _ =>
  }

  /** A file named by an entry has it counted. */
  lemma NamedIsCounted(s: State, slot: Slot)
    requires Inv(s) && slot in s.entries
    ensures var x := s.entries[slot];
      IsInode(s, x) && s.inodes[x].kind == File && s.inodes[x].nlink >= 1 && s.inodes[x].newborn == 0
  {
    var x := s.entries[slot];
    assert slot in Naming(s.entries, x);
  }

  lemma CountStep(i: Inode, ev: Event, names: nat, names': nat)
    requires CountOk(i, names) && Ready(i, ev)
    requires ev.LinkLookup? || ev.OpenName? || ev.UnlinkErase? ==> names > 0
    requires names' <= NamesAfter(ev, 1, 1, names)
    ensures CountOk(NextInode(i, ev), names')
  {
  }

  lemma StepAt(s: State, ev: Event, x: nat, y: nat)
    requires Inv(s) && Enabled(s, ev, x) && IsInode(s, y)
    ensures CountOk(Next(s, ev, x).inodes[y], |Naming(NextEntries(s, ev), y)|)
  {
    NamesStep(s, ev, x, y);
    assert CountOk(s.inodes[y], |Naming(s.entries, y)|);
    if x == y {
      if ev.LinkLookup? || ev.OpenName? || ev.UnlinkErase? { assert ev.slot in Naming(s.entries, x); }
      CountStep(s.inodes[x], ev, |Naming(s.entries, x)|, |Naming(NextEntries(s, ev), x)|);
    }
  }

  lemma StepKeeps(s: State, ev: Event, x: nat)
    requires Inv(s) && Enabled(s, ev, x)
    ensures Inv(Next(s, ev, x))
  {
    var s' := Next(s, ev, x);
    forall y: nat | IsInode(s', y) ensures CountOk(s'.inodes[y], |Naming(s'.entries, y)|) {
      StepAt(s, ev, x, y);
    }
  }

  // ---------------------------------------------------------------------
  // Whole runs

  datatype History = Start(state: State) | Then(before: History, ev: Event, x: nat)

  /** A consistent file system that nobody is using: a file's count is the number of entries that name it. */
  ghost predicate Boot(s: State) {
    && (forall k :: k in s.entries ==> IsInode(s, s.entries[k]) && s.inodes[s.entries[k]].kind == File)
    && (forall x: nat :: IsInode(s, x) ==> s.inodes[x].ref == 0 && s.inodes[x].freeing == 0 && s.inodes[x].dying == 0
                                             && s.inodes[x].newborn == 0 && Unreached(s.inodes[x]))
    && (forall x: nat :: IsInode(s, x) && s.inodes[x].kind == File ==> s.inodes[x].nlink == |Naming(s.entries, x)|)
  }

  ghost predicate Leads(h: History, s: State) {
    match h
    case Start(s0) => s == s0 && Boot(s0)
    case Then(before, ev, x) => exists t :: Leads(before, t) && Enabled(t, ev, x) && s == Next(t, ev, x)
  }

  lemma BootOk(s: State)
    requires Boot(s)
    ensures Inv(s)
  {
    forall x: nat | IsInode(s, x) && s.inodes[x].kind != File ensures |Naming(s.entries, x)| == 0 {
      assert Naming(s.entries, x) == {};
    }
  }

  lemma {:induction false} RunKeeps(h: History, s: State)
    requires Leads(h, s)
    ensures Inv(s)
  {
    match h
    case Start(_) => BootOk(s);
    case Then(before, ev, x) =>
      var t :| Leads(before, t) && Enabled(t, ev, x) && s == Next(t, ev, x);
      RunKeeps(before, t);
      StepKeeps(t, ev, x);
  }

  /** In every run a file's link count is at least the number of entries that name it and of names being added. */
  lemma LinksCovered(h: History, s: State, x: nat)
    requires Leads(h, s) && IsInode(s, x) && s.inodes[x].kind == File
    ensures s.inodes[x].nlink >= |Naming(s.entries, x)| + s.inodes[x].adding + s.inodes[x].creating
  {
    RunKeeps(h, s);
  }

  /** A process in iput passes its test, or has passed it. */
  predicate InIput(i: Inode) { i.freeing > 0 || (i.putting > 0 && i.ref == 1 && i.nlink == 0) }

  /** The only reference is that of that process. */
  predicate OnlyIput(i: Inode) {
    && i.putting == (if i.freeing == 0 then 1 else 0) && i.freeing <= 1 && i.dying == 0 && i.linking == 0
    && i.adding == 0 && i.newborn == 0 && i.creating == 0 && i.removing == 0 && i.opens == 0
  }

  lemma LastReference(i: Inode, names: nat)
    requires CountOk(i, names) && InIput(i)
    ensures i.kind == File && names == 0 && OnlyIput(i)
  {
  }

  lemma NoNames(entries: map<Slot, nat>, x: nat, slot: Slot)
    requires |Naming(entries, x)| == 0 && slot in entries
    ensures slot !in Naming(entries, x) && entries[slot] != x
  {
    assert entries[slot] == x ==> slot in Naming(entries, x);
  }

  lemma FreedInode(s: State, x: nat)
    requires Inv(s) && IsInode(s, x) && InIput(s.inodes[x])
    ensures s.inodes[x].kind == File && |Naming(s.entries, x)| == 0 && OnlyIput(s.inodes[x])
  {
    LastReference(s.inodes[x], |Naming(s.entries, x)|);
  }

  lemma FreedUnnamed(s: State, x: nat, slot: Slot)
    requires Inv(s) && IsInode(s, x) && InIput(s.inodes[x])
    ensures slot in s.entries ==> s.entries[slot] != x
  {
    FreedInode(s, x);
    if slot in s.entries { NoNames(s.entries, x, slot); }
  }

  /** In every run, from iput's test to the moment it frees the inode, that is a file that no directory entry names
      and nobody else refers to: nobody can reach it meanwhile. */
  lemma FreedIsUnnamed(h: History, s: State, x: nat, slot: Slot)
    requires Leads(h, s) && IsInode(s, x) && InIput(s.inodes[x])
    ensures s.inodes[x].kind == File && OnlyIput(s.inodes[x])
    ensures slot in s.entries ==> s.entries[slot] != x
  {
    RunKeeps(h, s);
    FreedInode(s, x);
    FreedUnnamed(s, x, slot);
  }

  /** In every run an entry names a file that is allocated and counted, so unlink's panic cannot happen. */
  lemma EntryNamesFile(h: History, s: State, slot: Slot)
    requires Leads(h, s) && slot in s.entries
    ensures var x := s.entries[slot]; IsInode(s, x) && s.inodes[x].kind == File && s.inodes[x].nlink >= 1
  {
    RunKeeps(h, s);
    NamedIsCounted(s, slot);
  }
}
