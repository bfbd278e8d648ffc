/** Deadlock freedom of the cache, for callers that have no file locked for writing when an operation begins
    and do not use purge_file; and why neither can be dropped. */
module CacheProgress {
  import opened Wrappers
  import opened Cache
  import opened CacheSafety

  /** The lock a process is waiting for, or about to ask for. */
  function Wants(pc: Pc): Option<FileLock> {
    match pc
    case WantCache(op) => Some(FileLock(INFO, CacheMode(op)))
    case WantFile(use, _, ino) => Some(FileLock(ino, FileMode(use)))
    case _ => None
  }

  /** p cannot go on because of a lock that q has. */
  predicate WaitsFor(s: State, p: Pid, q: Pid) {
    p in s.pcs && q in s.pcs && p != q && Wants(s.pcs[p]).Some? &&
    var want := Wants(s.pcs[p]).value;
    LockOf(s.locks, q, want.ino).Some? && (want.mode == Wr || LockOf(s.locks, q, want.ino).value == Wr)
  }

  function Rank(pc: Pc): nat {
    if pc.WantCache? then 2 else if pc.WantFile? then 1 else 0
  }

  /** Is the operation purge_file? */
  predicate IsDiscard(pc: Pc) {
    match pc
    case WantCache(op) => op.PurgeFile?
    case HaveCache(op) => op.PurgeFile?
    case WantFile(use, _, _) => use.Discard?
    case HaveFile(use, _, _) => use.Discard?
    case Discarding(_, _) => true
    case Asking(_) => true
    case Reading(_) => true
    case LateWrite(_) => true
    case _ => false
  }

  /** Within an operation, the only file locked for writing is the one the operation has locked itself. */
  predicate OrderlyAt(s: State, p: Pid, i: Ino)
    requires p in s.pcs
  {
    i != INFO && LockOf(s.locks, p, i) == Some(Wr) && !s.pcs[p].Idle? ==>
      FileHeld(s.pcs[p]) == Some(FileLock(i, Wr))
  }

  ghost predicate Orderly(s: State) {
    (forall p :: p in s.pcs ==> !IsDiscard(s.pcs[p])) && (forall p, i :: p in s.pcs ==> OrderlyAt(s, p, i))
  }

  lemma AdvanceIsOrderly(r: Rules, s: State, p: Pid, i: Ino)
    requires Enabled(r, s, p, Advance) && ProcOk(s, p) && OrderlyAt(s, p, i) && !IsDiscard(s.pcs[p])
    ensures OrderlyAt(Advanced(r, s, p), p, i) && !IsDiscard(Advanced(r, s, p).pcs[p])
  {}

  lemma PickIsOrderly(r: Rules, s: State, p: Pid, name: Name, i: Ino)
    requires Enabled(r, s, p, Pick(name)) && ProcOk(s, p) && OrderlyAt(s, p, i) && !IsDiscard(s.pcs[p])
    ensures OrderlyAt(Next(r, s, p, Pick(name)), p, i) && !IsDiscard(Next(r, s, p, Pick(name)).pcs[p])
  {}

  lemma BeginIsOrderly(s: State, p: Pid, op: Op, i: Ino)
    requires p in s.pcs && s.pcs[p].Idle? && !HoldsForWriting(s.locks, p) && !op.PurgeFile?
    ensures OrderlyAt(At(s, p, WantCache(op)), p, i)
  {
    assert LockKey(p, i) in s.locks ==> i == INFO || s.locks[LockKey(p, i)] != Wr;
  }

  lemma OwnStepIsOrderly(r: Rules, s: State, p: Pid, a: Action, i: Ino)
    requires Enabled(r, s, p, a) && r.disciplined && !r.discards
    requires ProcOk(s, p) && OrderlyAt(s, p, i) && !IsDiscard(s.pcs[p])
    ensures p in Next(r, s, p, a).pcs && OrderlyAt(Next(r, s, p, a), p, i) && !IsDiscard(Next(r, s, p, a).pcs[p])
  {
    match a
    case Begin(op) => BeginIsOrderly(s, p, op, i);
    case Advance => AdvanceIsOrderly(r, s, p, i);
    case Pick(name) => PickIsOrderly(r, s, p, name, i);
    case _ =>
  }

  lemma OthersStayOrderly(r: Rules, s: State, p: Pid, a: Action, q: Pid, i: Ino)
    requires Safe(s) && Enabled(r, s, p, a) && q != p && q in s.pcs && OrderlyAt(s, q, i)
    ensures q in Next(r, s, p, a).pcs && OrderlyAt(Next(r, s, p, a), q, i)
  {
    OthersKeepMyLocks(r, s, p, a, q, i);
    OthersStayPut(r, s, p, a, q);
  }

  lemma StepIsOrderlyAt(r: Rules, s: State, p: Pid, a: Action, q: Pid, i: Ino)
    requires Safe(s) && Orderly(s) && Enabled(r, s, p, a) && r.disciplined && !r.discards
    requires q in Next(r, s, p, a).pcs
    ensures !IsDiscard(Next(r, s, p, a).pcs[q]) && OrderlyAt(Next(r, s, p, a), q, i)
  {
    if q == p {
      assert OrderlyAt(s, p, i) && ProcOk(s, p);
      OwnStepIsOrderly(r, s, p, a, i);
    } else {
      OthersStayPut(r, s, p, a, q);
      assert OrderlyAt(s, q, i);
      OthersStayOrderly(r, s, p, a, q, i);
    }
  }

  lemma StepIsOrderly(r: Rules, s: State, p: Pid, a: Action, s': State)
    requires Safe(s) && Orderly(s) && Enabled(r, s, p, a) && r.disciplined && !r.discards
    requires s' == Next(r, s, p, a)
    ensures Orderly(s')
  {
    forall q | q in s'.pcs ensures !IsDiscard(s'.pcs[q]) {
      StepIsOrderlyAt(r, s, p, a, q, INFO);
    }
    forall q, i | q in s'.pcs ensures OrderlyAt(s', q, i) {
      StepIsOrderlyAt(r, s, p, a, q, i);
    }
  }

  lemma {:induction false} RunIsOrderly(r: Rules, s: State, ms: seq<Move>)
    requires Safe(s) && Orderly(s) && Runs(r, s, ms) && r.disciplined && !r.discards
    ensures Safe(Final(r, s, ms)) && Orderly(Final(r, s, ms))
    decreases |ms|
  {
    if ms != [] {
      StepIsSafe(r, s, ms[0].pid, ms[0].action);
      StepIsOrderly(r, s, ms[0].pid, ms[0].action, Next(r, s, ms[0].pid, ms[0].action));
      RunIsOrderly(r, Next(r, s, ms[0].pid, ms[0].action), ms[1..]);
    }
  }

  // ---------------------------------------------------------------------------------------------
  // No deadlock
  // ---------------------------------------------------------------------------------------------

  /** A process only ever waits for one of lower rank: one that waits for the cache, for one that has it;
      one that has it and waits for a file, for one that waits for nothing. So no circle can close. */
  lemma WaitersAreRanked(s: State, p: Pid, q: Pid)
    requires Safe(s) && Orderly(s) && WaitsFor(s, p, q)
    ensures Rank(s.pcs[q]) < Rank(s.pcs[p])
  {
    assert ProcOk(s, p) && ProcOk(s, q);
    assert OrderlyAt(s, q, Wants(s.pcs[p]).value.ino);
    match s.pcs[p]
    case WantFile(use, _, ino) => assert LockKey(q, ino) in s.locks;
    case _ =>
  }

  /** A process that cannot get its lock waits for somebody. */
  lemma BlockedWaits(s: State, p: Pid) returns (q: Pid)
    requires Safe(s) && p in s.pcs && Wants(s.pcs[p]).Some?
    requires !Grantable(s.locks, p, Wants(s.pcs[p]).value.ino, Wants(s.pcs[p]).value.mode)
    ensures WaitsFor(s, p, q)
  {
    var want := Wants(s.pcs[p]).value;
    var k :| k in s.locks && k.ino == want.ino && k.pid != p && !(want.mode == Rd && s.locks[k] == Rd);
    assert k == LockKey(k.pid, want.ino);
    q := k.pid;
  }

  /** What keeps a process going that is not waiting: its next step, or for the creator of a file sharing it. */
  predicate Moves(r: Rules, s: State, q: Pid, a: Action) {
    Enabled(r, s, q, a) && !a.Begin? && (s.pcs[q].Idle? ==> a.ExclusiveToShared? && HoldsForWriting(s.locks, q))
  }

  lemma {:induction false} SomebodyMoves(r: Rules, s: State, p: Pid) returns (q: Pid, a: Action)
    requires Safe(s) && Orderly(s) && p in s.pcs && !s.pcs[p].Idle?
    ensures Moves(r, s, q, a)
    decreases Rank(s.pcs[p])
  {
    var pc := s.pcs[p];
    if Wants(pc).Some? && !Grantable(s.locks, p, Wants(pc).value.ino, Wants(pc).value.mode) {
      q := BlockedWaits(s, p);
      WaitersAreRanked(s, p, q);
      if s.pcs[q].Idle? {
        a := ExclusiveToShared(Wants(pc).value.ino);
        IdleHolderWrites(s, p, q);
      } else {
        q, a := SomebodyMoves(r, s, q);
      }
    } else if pc.Scanning? && pc.todo != {} {
      var name :| name in pc.todo;
      q, a := p, Pick(name);
    } else if pc.Purging? && pc.sweep.left != {} && pc.sweep.total > r.target {
      var name :| name in pc.sweep.left;
      q, a := p, Pick(name);
    } else {
      q, a := p, Advance;
    }
  }

  /** Whoever keeps another waiting from outside any operation is writing the file it has created. */
  lemma IdleHolderWrites(s: State, p: Pid, q: Pid)
    requires Safe(s) && Orderly(s) && WaitsFor(s, p, q) && s.pcs[q].Idle?
    ensures Wants(s.pcs[p]).value.ino != INFO && LockOf(s.locks, q, Wants(s.pcs[p]).value.ino) == Some(Wr)
    ensures HoldsForWriting(s.locks, q)
  {
    assert ProcOk(s, p) && ProcOk(s, q);
    var k := LockKey(q, Wants(s.pcs[p]).value.ino);
    assert k in s.locks;
  }

  /** In every reachable state with an operation pending, some process can go on: one within an operation,
      or one that has a new file to share. */
  lemma NoDeadlock(r: Rules, s: State, ms: seq<Move>, p: Pid) returns (q: Pid, a: Action)
    requires Initial(s) && Runs(r, s, ms) && r.disciplined && !r.discards
    requires var t := Final(r, s, ms); p in t.pcs && !t.pcs[p].Idle?
    ensures Moves(r, Final(r, s, ms), q, a)
  {
    InitialIsSafe(s);
    RunIsOrderly(r, s, ms);
    q, a := SomebodyMoves(r, Final(r, s, ms), p);
  }

  /** And the waiting is acyclic: no process waits for itself through others. */
  lemma {:induction false} WaitingIsAcyclic(r: Rules, s: State, ms: seq<Move>, chain: seq<Pid>)
    requires Initial(s) && Runs(r, s, ms) && r.disciplined && !r.discards && |chain| > 1
    requires forall i :: 0 < i < |chain| ==> WaitsFor(Final(r, s, ms), chain[i - 1], chain[i])
    ensures chain[0] != chain[|chain| - 1] && |chain| <= 3
  {
    InitialIsSafe(s);
    RunIsOrderly(r, s, ms);
    RanksFall(Final(r, s, ms), chain);
  }

  lemma {:induction false} RanksFall(s: State, chain: seq<Pid>)
    requires Safe(s) && Orderly(s) && |chain| > 0
    requires forall i :: 0 < i < |chain| ==> WaitsFor(s, chain[i - 1], chain[i])
    ensures |chain| > 1 ==>
              chain[0] in s.pcs && chain[|chain| - 1] in s.pcs &&
              Rank(s.pcs[chain[|chain| - 1]]) + |chain| - 1 <= Rank(s.pcs[chain[0]]) <= 2
    decreases |chain|
  {
    if |chain| > 1 {
      var front := chain[..|chain| - 1];
      forall i | 0 < i < |front| ensures WaitsFor(s, front[i - 1], front[i]) {
        assert WaitsFor(s, chain[i - 1], chain[i]);
      }
      RanksFall(s, front);
      assert WaitsFor(s, chain[|chain| - 1 - 1], chain[|chain| - 1]);
      WaitersAreRanked(s, front[|front| - 1], chain[|chain| - 1]);
    }
  }

  // ---------------------------------------------------------------------------------------------
  // Why neither requirement can be dropped
  // ---------------------------------------------------------------------------------------------

  const FILE: Name := 5
  const OTHER: Name := 6

  /** Two processes and an empty cache. */
  const EMPTY: State := State(map[], map[], 1, map[], 0, {}, map[1 := Idle, 2 := Idle])

  /** The first process has created a file and is about to write it. */
  const CREATED: State :=
    State(map[FILE := 1], map[1 := 0], 2, map[LockKey(1, 1) := Wr], 0, {}, map[1 := Idle, 2 := Idle])

  lemma OneMore(r: Rules, s: State, m: Move, ms: seq<Move>)
    requires Enabled(r, s, m.pid, m.action) && Runs(r, Next(r, s, m.pid, m.action), ms)
    ensures Runs(r, s, [m] + ms) && Final(r, s, [m] + ms) == Final(r, Next(r, s, m.pid, m.action), ms)
  {
    assert ([m] + ms)[1..] == ms;
  }

  /** Doing one thing first, and then what leads on from there. */
  lemma Then(r: Rules, s: State, p: Pid, a: Action, s': State, ms: seq<Move>) returns (ns: seq<Move>)
    requires Enabled(r, s, p, a) && Next(r, s, p, a) == s' && Runs(r, s', ms)
    ensures Runs(r, s, ns) && Final(r, s, ns) == Final(r, s', ms)
  {
    OneMore(r, s, Move(p, a), ms);
    ns := [Move(p, a)] + ms;
  }

  /** The first process has the cache locked, and goes on to create the file. */
  const CREATING: State :=
    EMPTY.(pcs := map[1 := HaveCache(CreateAndLock(FILE)), 2 := Idle], locks := map[LockKey(1, INFO) := Wr])

  const NAMED: State :=
    CREATED.(pcs := map[1 := WantFile(Create, FILE, 1), 2 := Idle], locks := map[LockKey(1, INFO) := Wr])

  const LOCKED: State :=
    CREATED.(pcs := map[1 := HaveFile(Create, FILE, 1), 2 := Idle],
             locks := map[LockKey(1, INFO) := Wr, LockKey(1, 1) := Wr])

  lemma CreateSteps(r: Rules)
    ensures Enabled(r, CREATING, 1, Advance) && Next(r, CREATING, 1, Advance) == NAMED
    ensures Enabled(r, NAMED, 1, Advance) && Next(r, NAMED, 1, Advance) == LOCKED
  {}

  lemma ReturnStep(r: Rules)
    ensures Enabled(r, LOCKED, 1, Advance) && Next(r, LOCKED, 1, Advance) == CREATED
  {
    assert DropLock(LOCKED.locks, 1, INFO) == CREATED.locks;
  }

  lemma CreateRunEnds(r: Rules, ms: seq<Move>) returns (ns: seq<Move>)
    requires Runs(r, CREATED, ms)
    ensures Runs(r, CREATING, ns) && Final(r, CREATING, ns) == Final(r, CREATED, ms)
  {
    CreateSteps(r);
    ReturnStep(r);
    ns := Then(r, LOCKED, 1, Advance, CREATED, ms);
    ns := Then(r, NAMED, 1, Advance, LOCKED, ns);
    ns := Then(r, CREATING, 1, Advance, NAMED, ns);
  }

  lemma CreateRun(r: Rules, ms: seq<Move>) returns (ns: seq<Move>)
    requires Runs(r, CREATED, ms)
    ensures Runs(r, EMPTY, ns) && Final(r, EMPTY, ns) == Final(r, CREATED, ms)
  {
    var op := CreateAndLock(FILE);
    var s1 := EMPTY.(pcs := map[1 := WantCache(op), 2 := Idle]);
    ns := CreateRunEnds(r, ms);
    assert Next(r, s1, 1, Advance) == CREATING;
    ns := Then(r, s1, 1, Advance, CREATING, ns);
    ns := Then(r, EMPTY, 1, Begin(op), s1, ns);
  }

  /** Nobody can do anything, and two are waiting. */
  ghost predicate Deadlocked(r: Rules, s: State) {
    s.pcs.Keys == {1, 2} && WaitsFor(s, 1, 2) && WaitsFor(s, 2, 1) && forall q, a :: !Enabled(r, s, q, a)
  }

  /** The second process has the cache locked, to read the file or to purge it. */
  function Entering(op: Op, file: Mode): State {
    CREATED.(pcs := map[1 := Idle, 2 := HaveCache(op)],
             locks := map[LockKey(1, 1) := file, LockKey(2, INFO) := CacheMode(op)])
  }

  lemma EnterStep(r: Rules, op: Op, file: Mode)
    ensures var s := CREATED.(pcs := map[1 := Idle, 2 := WantCache(op)], locks := map[LockKey(1, 1) := file]);
            Enabled(r, s, 2, Advance) && Next(r, s, 2, Advance) == Entering(op, file)
  {}

  lemma EnterRun(r: Rules, op: Op, file: Mode, ms: seq<Move>) returns (ns: seq<Move>)
    requires op.PurgeFile? ==> r.discards
    requires Runs(r, Entering(op, file), ms)
    ensures var s := CREATED.(locks := map[LockKey(1, 1) := file]);
            Runs(r, s, ns) && Final(r, s, ns) == Final(r, Entering(op, file), ms)
  {
    var s := CREATED.(locks := map[LockKey(1, 1) := file]);
    var s1 := s.(pcs := map[1 := Idle, 2 := WantCache(op)]);
    EnterStep(r, op, file);
    ns := Then(r, s1, 2, Advance, Entering(op, file), ms);
    ns := Then(r, s, 2, Begin(op), s1, ns);
  }

  /** Where both processes wait. */
  function Collided(op: Op, use: Use, file: Mode, other: Op): State {
    Entering(op, file).(pcs := map[1 := WantCache(other), 2 := WantFile(use, FILE, 1)])
  }

  lemma CollisionIsDeadlock(r: Rules, op: Op, use: Use, file: Mode, other: Op)
    requires CacheMode(op) == FileMode(use) && CacheMode(other) == Wr && (FileMode(use) == Wr || file == Wr)
    ensures Deadlocked(r, Collided(op, use, file, other))
  {
    var s := Collided(op, use, file, other);
    assert LockKey(1, 1) in s.locks && LockKey(2, INFO) in s.locks;
  }

  lemma OpenStep(r: Rules, op: Op, use: Use, file: Mode)
    requires op == (if use.Get? then GetReadLock(FILE) else PurgeFile(FILE)) && !use.Create?
    ensures var s := Entering(op, file);
            Enabled(r, s, 2, Advance) &&
            Next(r, s, 2, Advance) == s.(pcs := map[1 := Idle, 2 := WantFile(use, FILE, 1)])
  {}

  /** Then it waits for the file, and the first process begins an operation. */
  lemma CollideRun(r: Rules, op: Op, use: Use, file: Mode, other: Op) returns (ms: seq<Move>)
    requires op == (if use.Get? then GetReadLock(FILE) else PurgeFile(FILE)) && !use.Create?
    requires !other.PurgeFile? && CacheMode(other) == Wr && (r.disciplined ==> file == Rd)
    requires FileMode(use) == Wr || file == Wr
    ensures Runs(r, Entering(op, file), ms) && Deadlocked(r, Final(r, Entering(op, file), ms))
  {
    var s := Entering(op, file);
    var s1 := s.(pcs := map[1 := Idle, 2 := WantFile(use, FILE, 1)]);
    var s2 := Collided(op, use, file, other);
    CollisionIsDeadlock(r, op, use, file, other);
    ms := Then(r, s1, 1, Begin(other), s2, []);
    OpenStep(r, op, use, file);
    ms := Then(r, s, 2, Advance, s1, ms);
  }

  /** A creator that begins another operation with the new file still locked can meet a reader that has the
      cache and waits for the file. */
  lemma DeadlockWithoutDiscipline(r: Rules) returns (ms: seq<Move>)
    requires !r.disciplined
    ensures Initial(EMPTY) && Runs(r, EMPTY, ms) && Deadlocked(r, Final(r, EMPTY, ms))
  {
    ms := CollideRun(r, GetReadLock(FILE), Get, Wr, CreateAndLock(OTHER));
    ms := EnterRun(r, GetReadLock(FILE), Wr, ms);
    assert CREATED.(locks := map[LockKey(1, 1) := Wr]) == CREATED;
    ms := CreateRun(r, ms);
  }

  /** purge_file has the cache locked while it waits for a file, and so can meet a process that keeps the
      file locked for reading, as it may, and waits for the cache. */
  lemma DeadlockWithPurgeFile(r: Rules) returns (ms: seq<Move>)
    requires r.discards
    ensures Initial(EMPTY) && Runs(r, EMPTY, ms) && Deadlocked(r, Final(r, EMPTY, ms))
  {
    ms := CollideRun(r, PurgeFile(FILE), Discard, Rd, UpdateCacheInfo(FILE));
    ms := EnterRun(r, PurgeFile(FILE), Rd, ms);
    ms := ShareRun(r, ms);
    ms := CreateRun(r, ms);
  }

  /** The first process has written its file, and keeps it locked for reading. */
  lemma ShareRun(r: Rules, ms: seq<Move>) returns (ns: seq<Move>)
    requires Runs(r, CREATED.(locks := map[LockKey(1, 1) := Rd]), ms)
    ensures var s := CREATED.(locks := map[LockKey(1, 1) := Rd]);
      Runs(r, CREATED, ns) && Final(r, CREATED, ns) == Final(r, s, ms)
  {
    var s := CREATED.(locks := map[LockKey(1, 1) := Rd]);
    assert Next(r, CREATED, 1, ExclusiveToShared(1)) == s;
    ns := Then(r, CREATED, 1, ExclusiveToShared(1), s, ms);
  }
}
