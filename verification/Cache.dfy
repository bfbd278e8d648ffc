/** The file cache that several processes share: the directory, the info file with the recorded size, the
    advisory locks on both, and every operation as the system calls it makes, one step each. */
module Cache {
  import opened Wrappers

  type Pid = nat
  type Ino = nat
  type Name = nat

  datatype Mode = Rd | Wr

  datatype LockKey = LockKey(pid: Pid, ino: Ino)

  /** A process has at most one lock on a file, whatever number of descriptors it has for it. */
  type LockTable = map<LockKey, Mode>

  /** The inode of the cache info file. */
  const INFO: Ino := 0

  /** What a call with a target is about to do with the file. */
  datatype Use = Get | Create | Discard

  datatype Op =
    | GetReadLock(name: Name)
    | CreateAndLock(name: Name)
    | UpdateCacheInfo(name: Name)
    | UpdateAndPurge(keep: Name)
    | GetCacheSize
    | PurgeFile(name: Name)

  /** The purge loop: the files still to be looked at, the sizes that the scan found of the files not removed
      since, the inodes among them that nobody was writing, and the running total. */
  datatype Sweep = Sweep(keep: Name, left: set<Name>, sizes: map<Name, nat>, counted: set<Ino>, total: nat)

  /** Where a process is. Outside any operation it may write to the file it has just created. */
  datatype Pc =
    | Idle
    | WantCache(op: Op)
    | HaveCache(op: Op)
    | WantFile(use: Use, name: Name, ino: Ino)
    | HaveFile(use: Use, name: Name, ino: Ino)
    | Scanning(keep: Name, todo: set<Name>, sizes: map<Name, nat>, counted: set<Ino>)
    | Purging(sweep: Sweep)
    | Unlinking(sweep: Sweep, victim: Name, ino: Ino)
    | Closing(sweep: Sweep, victim: Name, ino: Ino)
    | Writing(value: nat, kept: map<Name, nat>, counted: set<Ino>, purged: bool)
    | Leaving(held: Option<Mode>)
    | Discarding(ino: Ino, size: nat)
    | Asking(size: nat)
    | Reading(size: nat)
    | LateWrite(value: nat)

  /** The directory, the inodes' sizes, the lock table, the recorded size and the processes. An inode is
      completed once update_cache_info or a purge has counted it while nobody had it locked for writing. */
  datatype State = State(
    dir: map<Name, Ino>,
    size: map<Ino, nat>,
    next: Ino,
    locks: LockTable,
    counter: nat,
    completed: set<Ino>,
    pcs: map<Pid, Pc>)

  /** The configured sizes, and what the callers are held to: to have no file locked for writing when an
      operation begins, and not to use purge_file. */
  datatype Rules = Rules(max: nat, target: nat, disciplined: bool, discards: bool)

  datatype Action =
    | Begin(op: Op)
    | Advance
    | Pick(name: Name)
    | ExclusiveToShared(ino: Ino)
    | UnlockAndClose(ino: Ino)
    | Grow(ino: Ino, more: nat)

  // ---------------------------------------------------------------------------------------------
  // fcntl locks
  // ---------------------------------------------------------------------------------------------

  function LockOf(locks: LockTable, p: Pid, i: Ino): Option<Mode> {
    if LockKey(p, i) in locks then Some(locks[LockKey(p, i)]) else None
  }

  /** Locks of other processes stand in the way; one's own lock is replaced. */
  predicate Grantable(locks: LockTable, p: Pid, i: Ino, m: Mode) {
    forall k :: k in locks && k.ino == i && k.pid != p ==> m == Rd && locks[k] == Rd
  }

  function SetLock(locks: LockTable, p: Pid, i: Ino, m: Mode): LockTable {
    locks[LockKey(p, i) := m]
  }

  /** Unlocking a file, or closing any descriptor of it, drops the process's lock. */
  function DropLock(locks: LockTable, p: Pid, i: Ino): LockTable {
    locks - {LockKey(p, i)}
  }

  function CacheMode(op: Op): Mode {
    if op.GetReadLock? || op.GetCacheSize? then Rd else Wr
  }

  function FileMode(use: Use): Mode {
    if use.Get? then Rd else Wr
  }

  predicate HoldsForWriting(locks: LockTable, p: Pid) {
    exists k :: k in locks && k.pid == p && k.ino != INFO && locks[k] == Wr
  }

  predicate BeingWritten(locks: LockTable, i: Ino) {
    exists k :: k in locks && k.ino == i && locks[k] == Wr
  }

  // ---------------------------------------------------------------------------------------------
  // Steps
  // ---------------------------------------------------------------------------------------------

  /** May the process take that step now? Only the two kinds of waiting can keep it from advancing. */
  predicate Enabled(r: Rules, s: State, p: Pid, a: Action) {
    p in s.pcs &&
    match a
    case Begin(op) =>
      s.pcs[p].Idle? && (r.disciplined ==> !HoldsForWriting(s.locks, p)) && (op.PurgeFile? ==> r.discards)
    case Advance =>
      (match s.pcs[p]
       case Idle => false
       case WantCache(op) => Grantable(s.locks, p, INFO, CacheMode(op))
       case WantFile(use, _, ino) => Grantable(s.locks, p, ino, FileMode(use))
       case Scanning(_, todo, _, _) => todo == {}
       case Purging(sweep) => sweep.left == {} || sweep.total <= r.target
       case _ => true)
    case Pick(name) =>
      (match s.pcs[p]
       case Scanning(_, todo, _, _) => name in todo
       case Purging(sweep) => name in sweep.left && sweep.total > r.target
       case _ => false)
    case ExclusiveToShared(ino) => s.pcs[p].Idle? && ino != INFO && LockKey(p, ino) in s.locks
    case UnlockAndClose(ino) => s.pcs[p].Idle? && ino != INFO
    case Grow(ino, _) => s.pcs[p].Idle? && ino != INFO && LockOf(s.locks, p, ino) == Some(Wr) && ino in s.size
  }

  function At(s: State, p: Pid, pc: Pc): State {
    s.(pcs := s.pcs[p := pc])
  }

  ghost function Next(r: Rules, s: State, p: Pid, a: Action): State
    requires Enabled(r, s, p, a)
  {
    match a
    case Begin(op) => At(s, p, WantCache(op))
    case Advance => Advanced(r, s, p)
    case Pick(name) => if s.pcs[p].Scanning? then Scanned(s, p, name) else Swept(s, p, name)
    case ExclusiveToShared(ino) => s.(locks := SetLock(s.locks, p, ino, Rd))
    case UnlockAndClose(ino) => s.(locks := DropLock(s.locks, p, ino))
    case Grow(ino, more) => s.(size := s.size[ino := s.size[ino] + more])
  }

  ghost function Advanced(r: Rules, s: State, p: Pid): State
    requires p in s.pcs
  {
    match s.pcs[p]
    case Idle => s
    case WantCache(op) => At(s, p, HaveCache(op)).(locks := SetLock(s.locks, p, INFO, CacheMode(op)))
    case HaveCache(op) => Entered(s, p, op)
    case WantFile(use, name, ino) =>
      At(s, p, HaveFile(use, name, ino)).(locks := SetLock(s.locks, p, ino, FileMode(use)))
    case HaveFile(use, name, ino) =>
      if use.Discard? then
        At(s, p, Discarding(ino, if ino in s.size then s.size[ino] else 0)).(dir := s.dir - {name})
      else At(s, p, Idle).(locks := DropLock(s.locks, p, INFO))
    case Scanning(keep, todo, sizes, counted) =>
      var total := Sum(sizes.Keys, sizes);
      if total > r.max then At(s, p, Purging(Sweep(keep, sizes.Keys, sizes, counted, total)))
      else At(s, p, Writing(total, sizes, counted, true))
    case Purging(sweep) => At(s, p, Writing(sweep.total, sweep.sizes, sweep.counted, true))
    case Unlinking(sweep, victim, ino) => At(s, p, Closing(sweep, victim, ino)).(dir := s.dir - {victim})
    case Closing(sweep, victim, ino) =>
      var size := if victim in sweep.sizes then sweep.sizes[victim] else 0;
      At(s, p, Purging(sweep.(sizes := sweep.sizes - {victim}, total := Minus(sweep.total, size))))
        .(locks := DropLock(s.locks, p, ino))
    case Writing(value, _, counted, _) =>
      At(s, p, Leaving(Some(Wr))).(counter := value, completed := s.completed + counted)
    case Leaving(_) => At(s, p, Idle).(locks := DropLock(s.locks, p, INFO))
    case Discarding(ino, size) => At(s, p, Asking(size)).(locks := DropLock(s.locks, p, ino))
    case Asking(size) => At(s, p, Reading(size)).(locks := SetLock(s.locks, p, INFO, Rd))
    case Reading(size) =>
      At(s, p, LateWrite(Minus(s.counter, size))).(locks := DropLock(s.locks, p, INFO))
    case LateWrite(value) => At(s, p, Leaving(None)).(counter := value)
  }

  /** The first thing an operation does once it has the cache lock. */
  function Entered(s: State, p: Pid, op: Op): State
    requires p in s.pcs
  {
    match op
    case GetReadLock(name) =>
      At(s, p, if name in s.dir then WantFile(Get, name, s.dir[name]) else Leaving(Some(Rd)))
    case CreateAndLock(name) =>
      if name in s.dir then At(s, p, Leaving(Some(Wr)))
      else At(s, p, WantFile(Create, name, s.next)).(
           dir := s.dir[name := s.next], size := s.size[s.next := 0], next := s.next + 1)
    case UpdateCacheInfo(name) =>
      if name in s.dir && s.dir[name] in s.size then
        var i := s.dir[name];
        At(s, p, Writing(s.counter + s.size[i], map[], if BeingWritten(s.locks, i) then {} else {i}, false))
      else At(s, p, Leaving(Some(Wr)))
    case UpdateAndPurge(keep) => At(s, p, Scanning(keep, s.dir.Keys, map[], {}))
    case GetCacheSize => At(s, p, Leaving(Some(Rd)))
    case PurgeFile(name) =>
      At(s, p, if name in s.dir then WantFile(Discard, name, s.dir[name]) else Leaving(Some(Wr)))
  }

  /** Subtraction of 64-bit unsigned numbers. */
  function Minus(a: nat, b: nat): nat {
    if b <= a then a - b else (a - b) % 0x1_0000_0000_0000_0000
  }

  /** stat of one file of the directory; one that is gone is passed over. */
  function Scanned(s: State, p: Pid, name: Name): State
    requires p in s.pcs && s.pcs[p].Scanning?
  {
    var pc := s.pcs[p].(todo := s.pcs[p].todo - {name});
    if name !in s.dir || s.dir[name] !in s.size then At(s, p, pc)
    else
      var i := s.dir[name];
      At(s, p, pc.(sizes := pc.sizes[name := s.size[i]],
                   counted := if BeingWritten(s.locks, i) then pc.counted else pc.counted + {i}))
  }

  /** One round of the purge loop. The attempt to lock the file opens it, and closes it again if it fails,
      which drops a lock that this process has on the file itself. */
  function Swept(s: State, p: Pid, name: Name): State
    requires p in s.pcs && s.pcs[p].Purging?
  {
    var sweep := s.pcs[p].sweep;
    var sweep' := sweep.(left := sweep.left - {name});
    if name == sweep.keep || name !in s.dir then At(s, p, Purging(sweep'))
    else if Grantable(s.locks, p, s.dir[name], Wr) then
      At(s, p, Unlinking(sweep', name, s.dir[name])).(locks := SetLock(s.locks, p, s.dir[name], Wr))
    else At(s, p, Purging(sweep')).(locks := DropLock(s.locks, p, s.dir[name]))
  }

  // ---------------------------------------------------------------------------------------------
  // Runs
  // ---------------------------------------------------------------------------------------------

  /** A new cache: no files, and every process outside any operation. */
  predicate Initial(s: State) {
    s.dir == map[] && s.size == map[] && s.next == INFO + 1 && s.locks == map[] && s.counter == 0 &&
    s.completed == {} && forall p :: p in s.pcs ==> s.pcs[p].Idle?
  }

  datatype Move = Move(pid: Pid, action: Action)

  /** Can the moves be made one after the other? */
  ghost predicate Runs(r: Rules, s: State, ms: seq<Move>)
    decreases |ms|
  {
    ms == [] || (Enabled(r, s, ms[0].pid, ms[0].action) && Runs(r, Next(r, s, ms[0].pid, ms[0].action), ms[1..]))
  }

  ghost function Final(r: Rules, s: State, ms: seq<Move>): State
    requires Runs(r, s, ms)
    decreases |ms|
  {
    if ms == [] then s else Final(r, Next(r, s, ms[0].pid, ms[0].action), ms[1..])
  }

  // ---------------------------------------------------------------------------------------------
  // Totals
  // ---------------------------------------------------------------------------------------------

  /** The sum of f over a set of names, taken in any order. */
  ghost function Sum(ns: set<Name>, f: map<Name, nat>): nat {
    if ns == {} then 0 else
    var n :| n in ns;
    At0(f, n) + Sum(ns - {n}, f)
  }

  function At0(f: map<Name, nat>, n: Name): nat {
    if n in f then f[n] else 0
  }

  lemma {:induction false} SumApart(ns: set<Name>, f: map<Name, nat>, n: Name)
    requires n in ns
    ensures Sum(ns, f) == At0(f, n) + Sum(ns - {n}, f)
    decreases |ns|
  {
    var m :| m in ns && Sum(ns, f) == At0(f, m) + Sum(ns - {m}, f);
    if m != n {
      SumApart(ns - {m}, f, n);
      SumApart(ns - {n}, f, m);
      assert ns - {m} - {n} == ns - {n} - {m};
    }
  }

  /** More names and larger sizes make no smaller sum. */
  lemma {:induction false} SumGrows(ms: set<Name>, f: map<Name, nat>, ns: set<Name>, g: map<Name, nat>)
    requires ms <= ns && forall n :: n in ms ==> At0(f, n) <= At0(g, n)
    ensures Sum(ms, f) <= Sum(ns, g)
    decreases |ns|
  {
    if ns != {} {
      var n :| n in ns;
      SumApart(ns, g, n);
      if n in ms {
        SumApart(ms, f, n);
        SumGrows(ms - {n}, f, ns - {n}, g);
      } else {
        SumGrows(ms, f, ns - {n}, g);
      }
    }
  }

  lemma SumSame(ns: set<Name>, f: map<Name, nat>, g: map<Name, nat>)
    requires forall n :: n in ns ==> At0(f, n) == At0(g, n)
    ensures Sum(ns, f) == Sum(ns, g)
  {
    SumGrows(ns, f, ns, g);
    SumGrows(ns, g, ns, f);
  }
}
