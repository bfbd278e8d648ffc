/** Safety of the cache over every interleaving of any number of processes, purge_file included: what the
    processes at each point hold and may rely on, and that no file is unlinked under another's lock. */
module CacheSafety {
  import opened Wrappers
  import opened Cache

  /** Two locks on the same file, one of them exclusive, are one lock. */
  predicate Exclusive(locks: LockTable) {
    forall k, l :: k in locks && l in locks && k.ino == l.ino && locks[k] == Wr ==> k == l
  }

  /** The lock on the info file that a process holds at that point. */
  function CacheHeld(pc: Pc): Option<Mode> {
    match pc
    case Idle => None
    case WantCache(_) => None
    case HaveCache(op) => Some(CacheMode(op))
    case WantFile(use, _, _) => Some(FileMode(use))
    case HaveFile(use, _, _) => Some(FileMode(use))
    case Leaving(held) => held
    case Reading(_) => Some(Rd)
    case LateWrite(_) => None
    case _ => Some(Wr)
  }

  datatype FileLock = FileLock(ino: Ino, mode: Mode)

  /** The lock on a cached file that the operation has taken and not released yet. */
  function FileHeld(pc: Pc): Option<FileLock> {
    match pc
    case HaveFile(use, _, ino) => Some(FileLock(ino, FileMode(use)))
    case Unlinking(_, _, ino) => Some(FileLock(ino, Wr))
    case Closing(_, _, ino) => Some(FileLock(ino, Wr))
    case Discarding(ino, _) => Some(FileLock(ino, Wr))
    case _ => None
  }

  datatype Ref = Ref(name: Name, ino: Ino)

  /** The directory entry the operation has opened and counts on. */
  function RefersTo(pc: Pc): Option<Ref> {
    match pc
    case WantFile(_, name, ino) => Some(Ref(name, ino))
    case HaveFile(_, name, ino) => Some(Ref(name, ino))
    case Unlinking(_, name, ino) => Some(Ref(name, ino))
    case _ => None
  }

  predicate ProcOk(s: State, p: Pid)
    requires p in s.pcs
  {
    var pc := s.pcs[p];
    LockOf(s.locks, p, INFO) == CacheHeld(pc) &&
    (FileHeld(pc).Some? ==>
       FileHeld(pc).value.ino != INFO && LockOf(s.locks, p, FileHeld(pc).value.ino) == Some(FileHeld(pc).value.mode)) &&
    (RefersTo(pc).Some? ==>
       RefersTo(pc).value.name in s.dir && s.dir[RefersTo(pc).value.name] == RefersTo(pc).value.ino) &&
    (pc.WantFile? && pc.use.Create? ==> forall k :: k in s.locks ==> k.ino != pc.ino)
  }

  /** Every entry of the directory is a file of its own. */
  predicate DirOk(s: State) {
    INFO < s.next &&
    (forall n :: n in s.dir ==> INFO < s.dir[n] < s.next && s.dir[n] in s.size) &&
    (forall m, n :: m in s.dir && n in s.dir && s.dir[m] == s.dir[n] ==> m == n)
  }

  predicate LocksOk(s: State) {
    Exclusive(s.locks) && forall k :: k in s.locks ==> k.pid in s.pcs && k.ino < s.next
  }

  predicate Safe(s: State) {
    LocksOk(s) && DirOk(s) && forall p :: p in s.pcs ==> ProcOk(s, p)
  }

  lemma SetKeepsExclusive(locks: LockTable, p: Pid, i: Ino, m: Mode)
    requires Exclusive(locks) && Grantable(locks, p, i, m)
    ensures Exclusive(SetLock(locks, p, i, m))
  {
    var locks' := SetLock(locks, p, i, m);
    assert forall k :: k in locks' && k != LockKey(p, i) ==> k in locks && locks'[k] == locks[k];
    assert forall k :: k in locks && k.ino == i && k != LockKey(p, i) ==> k.pid != p;
  }

  /** How one process may change the lock table: by one lock of its own. */
  ghost predicate OwnLock(before: LockTable, after: LockTable, p: Pid) {
    forall k: LockKey :: k.pid != p ==> (k in after <==> k in before) && (k in after ==> after[k] == before[k])
  }

  /** The part of a step that other processes may rely on. */
  ghost predicate Fair(s: State, s': State, p: Pid) {
    p in s.pcs && s'.pcs.Keys == s.pcs.Keys && (forall q :: q in s.pcs && q != p ==> s'.pcs[q] == s.pcs[q]) &&
    OwnLock(s.locks, s'.locks, p) && s.next <= s'.next &&
    (s'.dir == s.dir || LockOf(s.locks, p, INFO) == Some(Wr)) &&
    (forall k :: k in s'.locks && k !in s.locks ==> k.ino == INFO || LockOf(s.locks, p, INFO).Some?)
  }

  lemma OthersUnharmed(s: State, s': State, p: Pid, q: Pid)
    requires Safe(s) && Fair(s, s', p) && q in s.pcs && q != p
    ensures ProcOk(s', q)
  {
    var pc := s.pcs[q];
    assert ProcOk(s, q) && ProcOk(s, p);
    assert LockOf(s'.locks, q, INFO) == LockOf(s.locks, q, INFO);
    if FileHeld(pc).Some? {
      assert LockOf(s'.locks, q, FileHeld(pc).value.ino) == LockOf(s.locks, q, FileHeld(pc).value.ino);
    }
    OnlyOneHolds(s, p, q);
    OnlyOneHolds(s, q, p);
    forall k | pc.WantFile? && pc.use.Create? && k in s'.locks ensures k.ino != pc.ino {
      assert INFO < pc.ino;
    }
  }

  /** Nobody has the cache lock beside a process that has it for writing. */
  lemma OnlyOneHolds(s: State, p: Pid, q: Pid)
    requires Exclusive(s.locks) && p != q
    ensures LockOf(s.locks, p, INFO) == Some(Wr) ==> LockOf(s.locks, q, INFO) == None
  {
    assert LockKey(p, INFO) != LockKey(q, INFO);
  }

  lemma FairStepIsSafe(s: State, s': State, p: Pid)
    requires Safe(s) && Fair(s, s', p) && LocksOk(s') && DirOk(s') && ProcOk(s', p)
    ensures Safe(s')
  {
    forall q | q in s'.pcs ensures ProcOk(s', q) {
      if q != p { OthersUnharmed(s, s', p, q); }
    }
  }

  // ---------------------------------------------------------------------------------------------
  // Every step
  // ---------------------------------------------------------------------------------------------

  lemma SetIsFair(s: State, s': State, p: Pid, i: Ino, m: Mode)
    requires Safe(s) && p in s.pcs && s'.pcs.Keys == s.pcs.Keys && s'.pcs == s.pcs[p := s'.pcs[p]]
    requires s'.dir == s.dir && s'.next == s.next && s'.locks == SetLock(s.locks, p, i, m)
    requires i == INFO || LockOf(s.locks, p, INFO).Some? || LockKey(p, i) in s.locks
    requires Grantable(s.locks, p, i, m) && i < s.next
    ensures Fair(s, s', p) && LocksOk(s')
  {
    SetKeepsExclusive(s.locks, p, i, m);
  }

  lemma DropIsFair(s: State, s': State, p: Pid, i: Ino)
    requires Safe(s) && p in s.pcs && s'.pcs.Keys == s.pcs.Keys && s'.pcs == s.pcs[p := s'.pcs[p]]
    requires s'.dir == s.dir && s'.next == s.next && s'.locks == DropLock(s.locks, p, i)
    ensures Fair(s, s', p) && LocksOk(s')
  {}

  lemma KeepIsFair(s: State, s': State, p: Pid)
    requires Safe(s) && p in s.pcs && s'.pcs.Keys == s.pcs.Keys && s'.pcs == s.pcs[p := s'.pcs[p]]
    requires s'.dir == s.dir || LockOf(s.locks, p, INFO) == Some(Wr)
    requires s.next <= s'.next && s'.locks == s.locks
    ensures Fair(s, s', p) && LocksOk(s')
  {}

  /** A process that holds the lock for writing, or any lock at all, can have it shared at once. */
  lemma SharingIsGranted(s: State, p: Pid, i: Ino)
    requires Exclusive(s.locks) && LockKey(p, i) in s.locks
    ensures Grantable(s.locks, p, i, Rd)
  {}

  /** The steps of a process outside any operation. */
  lemma IdleStepIsSafe(r: Rules, s: State, p: Pid, a: Action)
    requires Safe(s) && Enabled(r, s, p, a) && s.pcs[p].Idle?
    ensures Safe(Next(r, s, p, a))
  {
    var s' := Next(r, s, p, a);
    assert ProcOk(s, p);
    match a
    case Begin(op) => KeepIsFair(s, s', p); FairStepIsSafe(s, s', p);
    case ExclusiveToShared(i) =>
      SharingIsGranted(s, p, i);
      SetIsFair(s, s', p, i, Rd);
      FairStepIsSafe(s, s', p);
    case UnlockAndClose(i) => DropIsFair(s, s', p, i); FairStepIsSafe(s, s', p);
    case Grow(_, _) => KeepIsFair(s, s', p); FairStepIsSafe(s, s', p);
    case _ =>
  }

  // The kinds of change a step makes, each with the point of the operation it leads to.

  /** A step to another point of the operation where no file is at stake. */
  lemma PlainMoveIsSafe(s: State, p: Pid, pc: Pc)
    requires Safe(s) && p in s.pcs && CacheHeld(pc) == CacheHeld(s.pcs[p])
    requires FileHeld(pc) == None && RefersTo(pc) == None && !pc.WantFile?
    ensures Safe(At(s, p, pc))
  {
    assert ProcOk(s, p);
    KeepIsFair(s, At(s, p, pc), p);
    FairStepIsSafe(s, At(s, p, pc), p);
  }

  lemma SetMoveIsSafe(s: State, p: Pid, pc: Pc, i: Ino, m: Mode)
    requires Safe(s) && p in s.pcs && Grantable(s.locks, p, i, m) && i < s.next
    requires i == INFO || LockOf(s.locks, p, INFO).Some?
    requires CacheHeld(pc) == if i == INFO then Some(m) else CacheHeld(s.pcs[p])
    requires FileHeld(pc) == None || FileHeld(pc) == Some(FileLock(i, m))
    requires FileHeld(pc).Some? ==> i != INFO
    requires RefersTo(pc).Some? ==> RefersTo(pc).value.name in s.dir && s.dir[RefersTo(pc).value.name] == RefersTo(pc).value.ino
    requires !pc.WantFile?
    ensures Safe(At(s, p, pc).(locks := SetLock(s.locks, p, i, m)))
  {
    var s' := At(s, p, pc).(locks := SetLock(s.locks, p, i, m));
    assert ProcOk(s, p);
    SetIsFair(s, s', p, i, m);
    FairStepIsSafe(s, s', p);
  }

  lemma DropMoveIsSafe(s: State, p: Pid, pc: Pc, i: Ino)
    requires Safe(s) && p in s.pcs
    requires CacheHeld(pc) == if i == INFO then None else CacheHeld(s.pcs[p])
    requires FileHeld(pc) == None && RefersTo(pc) == None && !pc.WantFile?
    ensures Safe(At(s, p, pc).(locks := DropLock(s.locks, p, i)))
  {
    var s' := At(s, p, pc).(locks := DropLock(s.locks, p, i));
    assert ProcOk(s, p);
    DropIsFair(s, s', p, i);
    FairStepIsSafe(s, s', p);
  }

  lemma UnlinkMoveIsSafe(s: State, p: Pid, pc: Pc, name: Name)
    requires Safe(s) && p in s.pcs && CacheHeld(s.pcs[p]) == Some(Wr) && CacheHeld(pc) == Some(Wr)
    requires FileHeld(pc) == FileHeld(s.pcs[p]) && RefersTo(pc) == None && !pc.WantFile?
    ensures Safe(At(s, p, pc).(dir := s.dir - {name}))
  {
    var s' := At(s, p, pc).(dir := s.dir - {name});
    assert ProcOk(s, p);
    KeepIsFair(s, s', p);
    FairStepIsSafe(s, s', p);
  }

  /** Opening a file that the directory has. */
  lemma OpenMoveIsSafe(s: State, p: Pid, use: Use, name: Name)
    requires Safe(s) && p in s.pcs && CacheHeld(s.pcs[p]) == Some(FileMode(use)) && !use.Create? && name in s.dir
    ensures Safe(At(s, p, WantFile(use, name, s.dir[name])))
  {
    assert ProcOk(s, p);
    KeepIsFair(s, At(s, p, WantFile(use, name, s.dir[name])), p);
    FairStepIsSafe(s, At(s, p, WantFile(use, name, s.dir[name])), p);
  }

  lemma CreateMoveIsSafe(s: State, p: Pid, name: Name)
    requires Safe(s) && p in s.pcs && CacheHeld(s.pcs[p]) == Some(Wr) && name !in s.dir
    ensures Safe(At(s, p, WantFile(Create, name, s.next)).(
                 dir := s.dir[name := s.next], size := s.size[s.next := 0], next := s.next + 1))
  {
    var s' := At(s, p, WantFile(Create, name, s.next)).(
              dir := s.dir[name := s.next], size := s.size[s.next := 0], next := s.next + 1);
    assert ProcOk(s, p);
    KeepIsFair(s, s', p);
    NewEntryIsOk(s, s', name);
    FairStepIsSafe(s, s', p);
  }

  lemma NewEntryIsOk(s: State, s': State, name: Name)
    requires DirOk(s) && name !in s.dir
    requires s'.dir == s.dir[name := s.next] && s'.size == s.size[s.next := 0] && s'.next == s.next + 1
    ensures DirOk(s')
  {}

  lemma SameButCounters(s: State, s': State)
    requires Safe(s) && s'.locks == s.locks && s'.dir == s.dir && s'.size == s.size && s'.next == s.next && s'.pcs == s.pcs
    ensures Safe(s')
  {
    forall p | p in s'.pcs ensures ProcOk(s', p) { assert ProcOk(s, p); }
  }

  lemma EnteredToOpenIsSafe(s: State, p: Pid, name: Name, use: Use)
    requires Safe(s) && p in s.pcs && !use.Create?
    requires s.pcs[p] == HaveCache(if use.Get? then GetReadLock(name) else PurgeFile(name))
    ensures Safe(Entered(s, p, s.pcs[p].op))
  {
    if name in s.dir {
      OpenMoveIsSafe(s, p, use, name);
    } else {
      PlainMoveIsSafe(s, p, Leaving(Some(FileMode(use))));
    }
  }

  lemma EnteredToCreateIsSafe(s: State, p: Pid, name: Name)
    requires Safe(s) && p in s.pcs && s.pcs[p] == HaveCache(CreateAndLock(name))
    ensures Safe(Entered(s, p, s.pcs[p].op))
  {
    if name in s.dir {
      PlainMoveIsSafe(s, p, Leaving(Some(Wr)));
    } else {
      CreateMoveIsSafe(s, p, name);
    }
  }

  lemma EnteredToCountIsSafe(s: State, p: Pid)
    requires Safe(s) && p in s.pcs && s.pcs[p].HaveCache?
    requires s.pcs[p].op.UpdateCacheInfo? || s.pcs[p].op.UpdateAndPurge? || s.pcs[p].op.GetCacheSize?
    ensures Safe(Entered(s, p, s.pcs[p].op))
  {
    var pc := Entered(s, p, s.pcs[p].op).pcs[p];
    assert Entered(s, p, s.pcs[p].op) == At(s, p, pc);
    PlainMoveIsSafe(s, p, pc);
  }

  lemma EnteredIsSafe(s: State, p: Pid)
    requires Safe(s) && p in s.pcs && s.pcs[p].HaveCache?
    ensures Safe(Entered(s, p, s.pcs[p].op))
  {
    match s.pcs[p].op
    case GetReadLock(name) => EnteredToOpenIsSafe(s, p, name, Get);
    case CreateAndLock(name) => EnteredToCreateIsSafe(s, p, name);
    case PurgeFile(name) => EnteredToOpenIsSafe(s, p, name, Discard);
    case _ => EnteredToCountIsSafe(s, p);
  }

  /** The steps that take a lock. */
  lemma TakingIsSafe(r: Rules, s: State, p: Pid)
    requires Safe(s) && Enabled(r, s, p, Advance)
    requires s.pcs[p].WantCache? || s.pcs[p].WantFile? || s.pcs[p].Asking?
    ensures Safe(Advanced(r, s, p))
  {
    assert ProcOk(s, p);
    match s.pcs[p]
    case WantCache(op) => SetMoveIsSafe(s, p, HaveCache(op), INFO, CacheMode(op));
    case WantFile(use, name, ino) => SetMoveIsSafe(s, p, HaveFile(use, name, ino), ino, FileMode(use));
    case Asking(size) => SharingIsGranted(s, p, INFO); SetMoveIsSafe(s, p, Reading(size), INFO, Rd);
  }

  /** The steps that drop one. */
  lemma DroppingFileIsSafe(r: Rules, s: State, p: Pid)
    requires Safe(s) && Enabled(r, s, p, Advance) && (s.pcs[p].Closing? || s.pcs[p].Discarding?)
    ensures Safe(Advanced(r, s, p))
  {
    DropMoveIsSafe(s, p, Advanced(r, s, p).pcs[p], s.pcs[p].ino);
  }

  lemma DroppingCacheIsSafe(r: Rules, s: State, p: Pid)
    requires Safe(s) && Enabled(r, s, p, Advance)
    requires s.pcs[p].Leaving? || s.pcs[p].Reading? || (s.pcs[p].HaveFile? && !s.pcs[p].use.Discard?)
    ensures Safe(Advanced(r, s, p))
  {
    DropMoveIsSafe(s, p, Advanced(r, s, p).pcs[p], INFO);
  }

  /** The steps that unlink a file. */
  lemma UnlinkingIsSafe(r: Rules, s: State, p: Pid)
    requires Safe(s) && Enabled(r, s, p, Advance)
    requires s.pcs[p].Unlinking? || (s.pcs[p].HaveFile? && s.pcs[p].use.Discard?)
    ensures Safe(Advanced(r, s, p))
  {
    var pc := Advanced(r, s, p).pcs[p];
    UnlinkMoveIsSafe(s, p, pc, if s.pcs[p].Unlinking? then s.pcs[p].victim else s.pcs[p].name);
  }

  lemma ScanningIsSafe(r: Rules, s: State, p: Pid)
    requires Safe(s) && Enabled(r, s, p, Advance) && s.pcs[p].Scanning?
    ensures Safe(Advanced(r, s, p))
  {
    var pc := Advanced(r, s, p).pcs[p];
    assert Advanced(r, s, p) == At(s, p, pc);
    PlainMoveIsSafe(s, p, pc);
  }

  lemma PurgingIsSafe(r: Rules, s: State, p: Pid)
    requires Safe(s) && Enabled(r, s, p, Advance) && s.pcs[p].Purging?
    ensures Safe(Advanced(r, s, p))
  {
    var pc := Advanced(r, s, p).pcs[p];
    assert Advanced(r, s, p) == At(s, p, pc);
    PlainMoveIsSafe(s, p, pc);
  }

  lemma WritingIsSafe(r: Rules, s: State, p: Pid)
    requires Safe(s) && Enabled(r, s, p, Advance) && (s.pcs[p].Writing? || s.pcs[p].LateWrite?)
    ensures Safe(Advanced(r, s, p))
  {
    var s' := Advanced(r, s, p);
    PlainMoveIsSafe(s, p, s'.pcs[p]);
    SameButCounters(At(s, p, s'.pcs[p]), s');
  }

  lemma PickIsSafe(r: Rules, s: State, p: Pid, name: Name)
    requires Safe(s) && Enabled(r, s, p, Pick(name))
    ensures Safe(Next(r, s, p, Pick(name)))
  {
    if s.pcs[p].Scanning? {
      PlainMoveIsSafe(s, p, Scanned(s, p, name).pcs[p]);
    } else {
      SweepIsSafe(s, p, name);
    }
  }

  lemma SweepIsSafe(s: State, p: Pid, name: Name)
    requires Safe(s) && p in s.pcs && s.pcs[p].Purging?
    ensures Safe(Swept(s, p, name))
  {
    assert ProcOk(s, p);
    var sweep := s.pcs[p].sweep;
    var sweep' := sweep.(left := sweep.left - {name});
    if name == sweep.keep || name !in s.dir {
      PlainMoveIsSafe(s, p, Purging(sweep'));
    } else if Grantable(s.locks, p, s.dir[name], Wr) {
      SetMoveIsSafe(s, p, Unlinking(sweep', name, s.dir[name]), s.dir[name], Wr);
    } else {
      DropMoveIsSafe(s, p, Purging(sweep'), s.dir[name]);
    }
  }

  /** Every step of every process keeps the invariant. */
  lemma StepIsSafe(r: Rules, s: State, p: Pid, a: Action)
    requires Safe(s) && Enabled(r, s, p, a)
    ensures Safe(Next(r, s, p, a))
  {
    if s.pcs[p].Idle? {
      IdleStepIsSafe(r, s, p, a);
    } else if a.Pick? {
      PickIsSafe(r, s, p, a.name);
    } else {
      match s.pcs[p]
      case WantCache(_) => TakingIsSafe(r, s, p);
      case HaveCache(_) => EnteredIsSafe(s, p);
      case WantFile(_, _, _) => TakingIsSafe(r, s, p);
      case HaveFile(use, _, _) => if use.Discard? { UnlinkingIsSafe(r, s, p); } else { DroppingCacheIsSafe(r, s, p); }
      case Closing(_, _, _) => DroppingFileIsSafe(r, s, p);
      case Leaving(_) => DroppingCacheIsSafe(r, s, p);
      case Discarding(_, _) => DroppingFileIsSafe(r, s, p);
      case Asking(_) => TakingIsSafe(r, s, p);
      case Reading(_) => DroppingCacheIsSafe(r, s, p);
      case Unlinking(_, _, _) => UnlinkingIsSafe(r, s, p);
      case Scanning(_, _, _, _) => ScanningIsSafe(r, s, p);
      case Purging(_) => PurgingIsSafe(r, s, p);
      case Writing(_, _, _, _) => WritingIsSafe(r, s, p);
      case LateWrite(_) => WritingIsSafe(r, s, p);
    }
  }

  lemma InitialIsSafe(s: State)
    requires Initial(s)
    ensures Safe(s)
  {}

  lemma {:induction false} RunIsSafe(r: Rules, s: State, ms: seq<Move>)
    requires Safe(s) && Runs(r, s, ms)
    ensures Safe(Final(r, s, ms))
    decreases |ms|
  {
    if ms != [] {
      StepIsSafe(r, s, ms[0].pid, ms[0].action);
      RunIsSafe(r, Next(r, s, ms[0].pid, ms[0].action), ms[1..]);
    }
  }

  // ---------------------------------------------------------------------------------------------
  // What it is good for
  // ---------------------------------------------------------------------------------------------

  /** In every run: when a step takes a file out of the directory, no other process has a lock on it, and
      the process itself has it exclusively. */
  lemma NoUnlinkUnderLock(r: Rules, s: State, ms: seq<Move>, p: Pid, a: Action, name: Name)
    requires Initial(s) && Runs(r, s, ms)
    requires var t := Final(r, s, ms); Enabled(r, t, p, a) && name in t.dir && name !in Next(r, t, p, a).dir
    ensures var t := Final(r, s, ms);
            LockOf(t.locks, p, t.dir[name]) == Some(Wr) &&
            forall q :: q != p ==> LockOf(t.locks, q, t.dir[name]) == None
  {
    InitialIsSafe(s);
    RunIsSafe(r, s, ms);
    var t := Final(r, s, ms);
    assert ProcOk(t, p);
    var k := LockKey(p, t.dir[name]);
    assert k in t.locks && t.locks[k] == Wr by {
      UnlinkNeedsLock(r, t, p, a, name);
    }
    forall q | q != p ensures LockOf(t.locks, q, t.dir[name]) == None {
      assert LockKey(q, t.dir[name]) != k;
    }
  }

  lemma UnlinkNeedsLock(r: Rules, t: State, p: Pid, a: Action, name: Name)
    requires Safe(t) && Enabled(r, t, p, a) && name in t.dir && name !in Next(r, t, p, a).dir
    ensures LockOf(t.locks, p, t.dir[name]) == Some(Wr)
  {
    assert ProcOk(t, p);
    assert a.Advance? && (t.pcs[p].Unlinking? || t.pcs[p].HaveFile?);
  }

  /** In every run: when get_read_lock or create_and_lock returns with a lock, the file is in the directory,
      under the name asked for, and the lock is there. */
  lemma ReturnedLockIsLive(r: Rules, s: State, ms: seq<Move>, p: Pid)
    requires Initial(s) && Runs(r, s, ms)
    requires var t := Final(r, s, ms);
             Enabled(r, t, p, Advance) && t.pcs[p].HaveFile? && !t.pcs[p].use.Discard?
    ensures var t := Final(r, s, ms); var pc, t' := t.pcs[p], Next(r, t, p, Advance);
            t'.pcs[p].Idle? && pc.name in t'.dir && t'.dir[pc.name] == pc.ino &&
            LockOf(t'.locks, p, pc.ino) == Some(FileMode(pc.use))
  {
    InitialIsSafe(s);
    RunIsSafe(r, s, ms);
    assert ProcOk(Final(r, s, ms), p);
  }

  /** The lock on a new file is always there for the taking. */
  lemma CreateNeverBlocks(r: Rules, s: State, ms: seq<Move>, p: Pid)
    requires Initial(s) && Runs(r, s, ms)
    requires var t := Final(r, s, ms); p in t.pcs && t.pcs[p].WantFile? && t.pcs[p].use.Create?
    ensures Enabled(r, Final(r, s, ms), p, Advance)
  {
    InitialIsSafe(s);
    RunIsSafe(r, s, ms);
    assert ProcOk(Final(r, s, ms), p);
  }

  /** A process loses a lock it was given only by its own doing: it closes the file, an operation it has
      begun lets the lock go, or its own purge tries the file. The last is the surprise: the attempt drops
      the lock when another process has one too, and overrides it otherwise. */
  lemma OthersKeepMyLocks(r: Rules, s: State, p: Pid, a: Action, q: Pid, i: Ino)
    requires Safe(s) && Enabled(r, s, p, a) && q != p
    ensures LockOf(Next(r, s, p, a).locks, q, i) == LockOf(s.locks, q, i)
  {
    if a.Advance? { OwnLocksOnly(r, s, p, q, i); }
  }

  lemma OwnLocksOnly(r: Rules, s: State, p: Pid, q: Pid, i: Ino)
    requires p in s.pcs && q != p
    ensures LockOf(Advanced(r, s, p).locks, q, i) == LockOf(s.locks, q, i)
  {}

  lemma EnteringMovesOne(s: State, p: Pid, op: Op, q: Pid)
    requires p in s.pcs && q != p
    ensures q in Entered(s, p, op).pcs <==> q in s.pcs
    ensures q in s.pcs ==> Entered(s, p, op).pcs[q] == s.pcs[q]
  {}

  lemma AdvancingMovesOne(r: Rules, s: State, p: Pid, q: Pid)
    requires p in s.pcs && q != p
    ensures q in Advanced(r, s, p).pcs <==> q in s.pcs
    ensures q in s.pcs ==> Advanced(r, s, p).pcs[q] == s.pcs[q]
  {
    match s.pcs[p]
    case HaveCache(op) => EnteringMovesOne(s, p, op, q);
    case _ =>
  }

  lemma OthersStayPut(r: Rules, s: State, p: Pid, a: Action, q: Pid)
    requires Enabled(r, s, p, a) && q != p
    ensures q in Next(r, s, p, a).pcs <==> q in s.pcs
    ensures q in s.pcs ==> Next(r, s, p, a).pcs[q] == s.pcs[q]
  {
    match a
    case Advance => AdvancingMovesOne(r, s, p, q);
    case _ =>
  }

  /** What a round of the purge loop does to a shared lock that the purging process itself has on the file:
      the file is removed under it exactly when nobody else has a lock, the lock is silently gone exactly
      when somebody has, and only the file named as new is left alone. */
  lemma OwnLockInPurge(r: Rules, s: State, p: Pid, name: Name)
    requires Safe(s) && Enabled(r, s, p, Pick(name)) && s.pcs[p].Purging?
    requires name in s.dir && LockOf(s.locks, p, s.dir[name]) == Some(Rd)
    ensures var s', i := Next(r, s, p, Pick(name)), s.dir[name];
            (s'.pcs[p].Unlinking? <==>
               name != s.pcs[p].sweep.keep && forall q :: q != p ==> LockOf(s.locks, q, i) == None) &&
            (LockOf(s'.locks, p, i) == None <==>
               name != s.pcs[p].sweep.keep && exists q :: q != p && LockOf(s.locks, q, i) != None)
  {
    var i := s.dir[name];
    if !Grantable(s.locks, p, i, Wr) {
      var k :| k in s.locks && k.ino == i && k.pid != p;
      assert LockOf(s.locks, k.pid, i) != None;
    }
    forall q | q != p && Grantable(s.locks, p, i, Wr) ensures LockOf(s.locks, q, i) == None {
      assert LockKey(q, i) !in s.locks;
    }
  }
}
