/** What the recorded size is exactly, without purge_file: an update adds the size of its file and nothing else
    touches the number meanwhile; and when each file is counted once, after it has been written, the number is the
    total of the files counted. */
module CacheLedger {
  import opened Wrappers
  import opened Cache
  import opened CacheSafety
  import opened CacheProgress
  import opened CacheCounter
  import opened CacheExact

  // ---------------------------------------------------------------------------------------------
  // One update
  // ---------------------------------------------------------------------------------------------

  /** Other processes do not write the number while one has the cache to itself. */
  lemma OthersKeepCounter(r: Rules, s: State, q: Pid, a: Action, p: Pid)
    requires Safe(s) && Enabled(r, s, q, a) && q != p && !IsDiscard(s.pcs[q])
    requires LockOf(s.locks, p, INFO) == Some(Wr)
    ensures Next(r, s, q, a).counter == s.counter
  {
    OnlyOneHolds(s, p, q);
    assert ProcOk(s, q);
    assert LockKey(p, INFO) in s.locks;
    assert s.pcs[q].Idle? || s.pcs[q].Leaving?;
    SameCounter(r, s, q, a);
  }

  predicate NotBy(ms: seq<Move>, p: Pid) {
    forall i :: 0 <= i < |ms| ==> ms[i].pid != p
  }

  lemma {:induction false} OthersKeepWriting(r: Rules, s: State, ms: seq<Move>, p: Pid)
    requires Safe(s) && Counts(s) && Runs(r, s, ms) && !r.discards && NotBy(ms, p)
    requires p in s.pcs && s.pcs[p].Writing?
    ensures var t := Final(r, s, ms); p in t.pcs && t.pcs[p] == s.pcs[p] && t.counter == s.counter
    decreases |ms|
  {
    if ms != [] {
      var q, a := ms[0].pid, ms[0].action;
      var s' := Next(r, s, q, a);
      assert ProcOk(s, p);
      StepIsSafe(r, s, q, a);
      StepCounts(r, s, q, a, s');
      OthersStayPut(r, s, q, a, p);
      OthersKeepCounter(r, s, q, a, p);
      OthersKeepWriting(r, s', ms[1..], p);
    }
  }

  /** From the moment an update_cache_info has the cache until it has written, whatever the others do: the number
      stays, and then it is more by just the size of the file. */
  lemma UpdateAddsSize(r: Rules, s: State, ms: seq<Move>, p: Pid, name: Name, ns: seq<Move>)
    requires Initial(s) && Runs(r, s, ms) && !r.discards
    requires var t := Final(r, s, ms); p in t.pcs && t.pcs[p] == HaveCache(UpdateCacheInfo(name)) && name in t.dir
    requires NotBy(ns, p) && Runs(r, Next(r, Final(r, s, ms), p, Advance), ns)
    ensures var t := Final(r, s, ms); var u := Final(r, Next(r, t, p, Advance), ns);
      Enabled(r, u, p, Advance) && u.counter == t.counter && t.dir[name] in t.size &&
      Next(r, u, p, Advance).counter == t.counter + t.size[t.dir[name]]
  {
    InitialIsSafe(s);
    InitialCounts(s);
    RunCounts(r, s, ms);
    var t := Final(r, s, ms);
    var t' := Next(r, t, p, Advance);
    StepIsSafe(r, t, p, Advance);
    StepCounts(r, t, p, Advance, t');
    OthersKeepWriting(r, t', ns, p);
  }

  // ---------------------------------------------------------------------------------------------
  // A whole run
  // ---------------------------------------------------------------------------------------------

  /** A file is counted when nobody has it locked for writing, and by update_cache_info only once. */
  ghost predicate Tidy(s: State, p: Pid, a: Action)
    requires p in s.pcs
  {
    match s.pcs[p]
    case HaveCache(op) =>
      a.Advance? && op.UpdateCacheInfo? && op.name in s.dir ==>
        !BeingWritten(s.locks, s.dir[op.name]) && s.dir[op.name] !in s.completed
    case Scanning(_, _, _, _) => a.Pick? && a.name in s.dir ==> !BeingWritten(s.locks, s.dir[a.name])
    case _ => true
  }

  ghost predicate TidyRun(r: Rules, s: State, ms: seq<Move>)
    requires Runs(r, s, ms)
    decreases |ms|
  {
    ms == [] || (Tidy(s, ms[0].pid, ms[0].action) && TidyRun(r, Next(r, s, ms[0].pid, ms[0].action), ms[1..]))
  }

  predicate InPurge(pc: Pc) {
    pc.Scanning? || pc.Purging? || pc.Unlinking? || pc.Closing? || (pc.Writing? && pc.purged)
  }

  /** What an operation in progress has found out. */
  ghost predicate ExactAt(s: State, pc: Pc) {
    match pc
    case Scanning(_, _, sizes, c) => forall n :: n in sizes && n in s.dir ==> s.dir[n] in c
    case Purging(w) => AllCounted(s, w.counted)
    case Unlinking(w, _, _) => AllCounted(s, w.counted)
    case Closing(w, _, _) => AllCounted(s, w.counted)
    case Writing(value, _, c, purged) => if purged then AllCounted(s, c) else value == Known(s, s.completed + c)
    case _ => true
  }

  ghost predicate Exact(s: State) {
    (forall p :: p in s.pcs ==> ExactAt(s, s.pcs[p])) &&
    ((forall p :: p in s.pcs ==> !InPurge(s.pcs[p])) ==> s.counter == Known(s, s.completed))
  }

  /** The same files of the same sizes. */
  lemma SameKnown(s: State, s': State, done: set<Ino>)
    requires NamesIn(s', done) == NamesIn(s, done)
    requires forall n :: n in NamesIn(s, done) ==> At0(SizeMap(s), n) == At0(SizeMap(s'), n)
    ensures Known(s', done) == Known(s, done)
  {
    SumSame(NamesIn(s, done), SizeMap(s), SizeMap(s'));
  }

  lemma QuietSameKnown(s: State, s': State, done: set<Ino>)
    requires DirOk(s) && Quiet(s, s') && AllSettled(s, done)
    ensures Known(s', done) == Known(s, done)
  {
    forall n | n in NamesIn(s, done) ensures At0(SizeMap(s), n) == At0(SizeMap(s'), n) {
      QuietKeepsSize(s, s', s.dir[n]);
    }
    SameKnown(s, s', done);
  }

  /** What another process has found out stays true. */
  lemma OthersStayExact(r: Rules, s: State, p: Pid, a: Action, s': State, q: Pid)
    requires Safe(s) && Counts(s) && Enabled(r, s, p, a) && s' == Next(r, s, p, a)
    requires q != p && q in s.pcs && ExactAt(s, s.pcs[q])
    ensures ExactAt(s', s.pcs[q])
  {
    if CacheHeld(s.pcs[q]) == Some(Wr) {
      assert ProcOk(s, q) && CountOk(s, s.pcs[q]);
      OthersAreQuiet(r, s, p, a, s', q);
      match s.pcs[q]
      case Writing(_, _, c, purged) =>
        assert AllSettled(s, s.completed + c);
        QuietSameKnown(s, s', s.completed + c);
      case _ =>
    }
  }

  /** Counting one more file raises the total by its size. */
  lemma KnownPlusJustOne(s: State, done: set<Ino>, name: Name)
    requires DirOk(s) && name in s.dir && s.dir[name] !in done
    ensures Known(s, done + {s.dir[name]}) == Known(s, done) + s.size[s.dir[name]]
  {
    var more := NamesIn(s, done + {s.dir[name]});
    SumApart(more, SizeMap(s), name);
    assert more - {name} == NamesIn(s, done);
  }

  lemma UpdateIsExact(r: Rules, s: State, p: Pid, s': State)
    requires Safe(s) && Counts(s) && Exact(s) && Enabled(r, s, p, Advance) && s' == Next(r, s, p, Advance)
    requires s.pcs[p].HaveCache? && s.pcs[p].op.UpdateCacheInfo? && Tidy(s, p, Advance)
    ensures p in s'.pcs && ExactAt(s', s'.pcs[p])
  {
    var name := s.pcs[p].op.name;
    if name in s.dir {
      KnownPlusJustOne(s, s.completed, name);
      NobodyElsePurges(s, p);
      SameTotals(s, s', s.completed + {s.dir[name]});
    }
  }

  /** Only one process at a time has the cache for writing. */
  lemma NobodyElsePurges(s: State, p: Pid)
    requires Safe(s) && p in s.pcs && CacheHeld(s.pcs[p]) == Some(Wr)
    ensures forall q :: q in s.pcs && q != p ==> !InPurge(s.pcs[q])
  {
    assert ProcOk(s, p);
    forall q | q in s.pcs && q != p ensures !InPurge(s.pcs[q]) {
      assert ProcOk(s, q);
      OnlyOneHolds(s, p, q);
    }
  }

  lemma ScanStaysExact(s: State, p: Pid, name: Name)
    requires Safe(s) && p in s.pcs && s.pcs[p].Scanning? && ExactAt(s, s.pcs[p])
    requires name in s.dir ==> !BeingWritten(s.locks, s.dir[name])
    ensures ExactAt(Scanned(s, p, name), Scanned(s, p, name).pcs[p])
  {}

  lemma ScanEndIsExact(r: Rules, s: State, p: Pid, s': State)
    requires Safe(s) && Counts(s) && Enabled(r, s, p, Advance) && s' == Next(r, s, p, Advance)
    requires s.pcs[p].Scanning? && ExactAt(s, s.pcs[p])
    ensures ExactAt(s', s'.pcs[p])
  {
    var pc := s.pcs[p];
    assert CountOk(s, pc);
    assert pc.sizes.Keys == s.dir.Keys;
    assert AllCounted(s, pc.counted);
  }

  lemma SweepStaysExact(s: State, p: Pid, name: Name)
    requires p in s.pcs && s.pcs[p].Purging? && ExactAt(s, s.pcs[p])
    ensures ExactAt(Swept(s, p, name), Swept(s, p, name).pcs[p])
  {}

  lemma SweepAdvanceIsExact(r: Rules, s: State, p: Pid, s': State)
    requires Enabled(r, s, p, Advance) && s' == Next(r, s, p, Advance) && ExactAt(s, s.pcs[p])
    requires s.pcs[p].Purging? || s.pcs[p].Unlinking? || s.pcs[p].Closing?
    ensures p in s'.pcs && ExactAt(s', s'.pcs[p])
  {}

  /** The points at which something has been found out. */
  predicate Knows(pc: Pc) {
    pc.Scanning? || pc.Purging? || pc.Unlinking? || pc.Closing? || pc.Writing?
  }

  lemma NothingKnown(s: State, pc: Pc)
    requires !Knows(pc)
    ensures ExactAt(s, pc)
  {}

  lemma NothingScanned(s: State, pc: Pc)
    requires pc.Scanning? && pc.sizes == map[]
    ensures ExactAt(s, pc)
  {}

  lemma EnteringKnowsNothing(r: Rules, s: State, p: Pid)
    requires p in s.pcs && s.pcs[p].HaveCache? && !s.pcs[p].op.UpdateCacheInfo?
    ensures var s' := Advanced(r, s, p);
      p in s'.pcs && (!Knows(s'.pcs[p]) || (s'.pcs[p].Scanning? && s'.pcs[p].sizes == map[]))
  {}

  lemma PlainAdvanceKnowsNothing(r: Rules, s: State, p: Pid)
    requires p in s.pcs && !s.pcs[p].HaveCache? && (!Knows(s.pcs[p]) || s.pcs[p].Writing?)
    ensures var s' := Advanced(r, s, p); p in s'.pcs && !Knows(s'.pcs[p])
  {
    var pc := Advanced(r, s, p).pcs[p];
    match s.pcs[p]
    case Idle => assert pc == Idle;
    case WantCache(_) => assert pc.HaveCache?;
    case WantFile(_, _, _) => assert pc.HaveFile?;
    case HaveFile(_, _, _) => assert pc.Idle? || pc.Discarding?;
    case Writing(_, _, _, _) => assert pc.Leaving?;
    case Leaving(_) => assert pc.Idle?;
    case Discarding(_, _) => assert pc.Asking?;
    case Asking(_) => assert pc.Reading?;
    case Reading(_) => assert pc.LateWrite?;
    case LateWrite(_) => assert pc.Leaving?;
  }

  lemma OwnAdvanceIsExact(r: Rules, s: State, p: Pid, s': State)
    requires Safe(s) && Counts(s) && Exact(s) && Enabled(r, s, p, Advance) && s' == Next(r, s, p, Advance)
    requires Tidy(s, p, Advance)
    ensures p in s'.pcs && ExactAt(s', s'.pcs[p])
  {
    var pc := s.pcs[p];
    if pc.Scanning? {
      ScanEndIsExact(r, s, p, s');
    } else if pc.HaveCache? && pc.op.UpdateCacheInfo? {
      UpdateIsExact(r, s, p, s');
    } else if pc.Purging? || pc.Unlinking? || pc.Closing? {
      SweepAdvanceIsExact(r, s, p, s');
    } else {
      if pc.HaveCache? { EnteringKnowsNothing(r, s, p); } else { PlainAdvanceKnowsNothing(r, s, p); }
      if Knows(s'.pcs[p]) { NothingScanned(s', s'.pcs[p]); } else { NothingKnown(s', s'.pcs[p]); }
    }
  }

  lemma OwnStepIsExact(r: Rules, s: State, p: Pid, a: Action, s': State)
    requires Safe(s) && Counts(s) && Exact(s) && Enabled(r, s, p, a) && s' == Next(r, s, p, a) && Tidy(s, p, a)
    ensures p in s'.pcs && ExactAt(s', s'.pcs[p])
  {
    assert ExactAt(s, s.pcs[p]);
    match a
    case Advance => OwnAdvanceIsExact(r, s, p, s');
    case Pick(name) =>
      if s.pcs[p].Scanning? { ScanStaysExact(s, p, name); } else { SweepStaysExact(s, p, name); }
    case _ => IdleIsExact(r, s, p, a, s');
  }

  lemma IdleIsExact(r: Rules, s: State, p: Pid, a: Action, s': State)
    requires Enabled(r, s, p, a) && s' == Next(r, s, p, a) && !a.Advance? && !a.Pick?
    ensures p in s'.pcs && ExactAt(s', s'.pcs[p])
  {
    NothingKnown(s', s'.pcs[p]);
  }

  /** Outside a purge no counted file leaves the directory. */
  lemma CountedFilesKept(r: Rules, s: State, p: Pid, a: Action, s': State, n: Name)
    requires Safe(s) && Counts(s) && Enabled(r, s, p, a) && s' == Next(r, s, p, a)
    requires !InPurge(s.pcs[p]) && n in s.dir
    ensures n in s'.dir && s'.dir[n] == s.dir[n]
  {
    assert !IsDiscard(s.pcs[p]);
  }

  lemma StepKeepsKnown(r: Rules, s: State, p: Pid, a: Action, s': State)
    requires Safe(s) && Counts(s) && Enabled(r, s, p, a) && s' == Next(r, s, p, a) && !InPurge(s.pcs[p])
    ensures Known(s', s.completed) == Known(s, s.completed)
  {
    forall n | n in NamesIn(s, s.completed) ensures n in NamesIn(s', s.completed) {
      CountedFilesKept(r, s, p, a, s', n);
    }
    forall n | n in NamesIn(s', s.completed)
      ensures n in NamesIn(s, s.completed) && At0(SizeMap(s), n) == At0(SizeMap(s'), n)
    {
      CountedFilesStay(r, s, p, a, s', n);
    }
    SameKnown(s, s', s.completed);
  }

  lemma PurgeEndsExact(r: Rules, s: State, p: Pid, s': State)
    requires Safe(s) && Counts(s) && Exact(s) && Enabled(r, s, p, Advance) && s' == Next(r, s, p, Advance)
    requires s.pcs[p].Writing? && s.pcs[p].purged
    ensures s'.counter == Known(s', s'.completed)
  {
    assert ExactAt(s, s.pcs[p]);
    PurgeBounds(r, s, p);
    AllCompleted(s');
  }

  lemma UpdateEndsExact(r: Rules, s: State, p: Pid, s': State)
    requires Safe(s) && Counts(s) && Exact(s) && Enabled(r, s, p, Advance) && s' == Next(r, s, p, Advance)
    requires s.pcs[p].Writing? && !s.pcs[p].purged
    ensures s'.counter == Known(s', s'.completed)
  {
    assert ExactAt(s, s.pcs[p]);
    SameTotals(s, s', s.completed + s.pcs[p].counted);
  }

  lemma StaysInPurge(r: Rules, s: State, p: Pid, a: Action)
    requires Enabled(r, s, p, a) && InPurge(s.pcs[p]) && !(a.Advance? && s.pcs[p].Writing?)
    ensures p in Next(r, s, p, a).pcs && InPurge(Next(r, s, p, a).pcs[p])
  {}

  lemma CounterIsKnown(r: Rules, s: State, p: Pid, a: Action, s': State)
    requires Safe(s) && Counts(s) && Exact(s) && Enabled(r, s, p, a) && s' == Next(r, s, p, a)
    requires forall q :: q in s'.pcs ==> !InPurge(s'.pcs[q])
    ensures s'.counter == Known(s', s'.completed)
  {
    if a.Advance? && s.pcs[p].Writing? {
      if s.pcs[p].purged { PurgeEndsExact(r, s, p, s'); } else { UpdateEndsExact(r, s, p, s'); }
    } else {
      if InPurge(s.pcs[p]) { StaysInPurge(r, s, p, a); }
      forall q | q in s.pcs && q != p ensures !InPurge(s.pcs[q]) { OthersStayPut(r, s, p, a, q); }
      assert !IsDiscard(s.pcs[p]);
      SameCounter(r, s, p, a);
      StepKeepsKnown(r, s, p, a, s');
    }
  }

  lemma StepIsExact(r: Rules, s: State, p: Pid, a: Action, s': State)
    requires Safe(s) && Counts(s) && Exact(s) && Enabled(r, s, p, a) && s' == Next(r, s, p, a) && Tidy(s, p, a)
    ensures Exact(s')
  {
    OwnStepIsExact(r, s, p, a, s');
    forall q | q in s'.pcs ensures ExactAt(s', s'.pcs[q]) {
      if q != p {
        OthersStayPut(r, s, p, a, q);
        OthersStayExact(r, s, p, a, s', q);
      }
    }
    if forall q :: q in s'.pcs ==> !InPurge(s'.pcs[q]) { CounterIsKnown(r, s, p, a, s'); }
  }

  lemma {:induction false} RunIsExact(r: Rules, s: State, ms: seq<Move>)
    requires Safe(s) && Counts(s) && Exact(s) && Runs(r, s, ms) && !r.discards && TidyRun(r, s, ms)
    ensures Exact(Final(r, s, ms))
    decreases |ms|
  {
    if ms != [] {
      var p, a := ms[0].pid, ms[0].action;
      var s' := Next(r, s, p, a);
      StepIsSafe(r, s, p, a);
      StepCounts(r, s, p, a, s');
      StepIsExact(r, s, p, a, s');
      RunIsExact(r, s', ms[1..]);
    }
  }

  /** In every run without purge_file in which each file is counted when its writer is done with it, and only once:
      outside a purge the recorded size is the total of the files that have been counted and are still there; so it is
      that of the directory when all of them have been. */
  lemma CounterIsExact(r: Rules, s: State, ms: seq<Move>)
    requires Initial(s) && Runs(r, s, ms) && !r.discards && TidyRun(r, s, ms)
    requires forall p :: p in Final(r, s, ms).pcs ==> !InPurge(Final(r, s, ms).pcs[p])
    ensures var t := Final(r, s, ms);
      t.counter == Known(t, t.completed) &&
      ((forall n :: n in t.dir ==> t.dir[n] in t.completed) ==> t.counter == DirTotal(t))
  {
    InitialIsSafe(s);
    InitialCounts(s);
    assert NamesIn(s, s.completed) == {};
    RunIsExact(r, s, ms);
    AllCompleted(Final(r, s, ms));
  }

  // ---------------------------------------------------------------------------------------------
  // purge_file
  // ---------------------------------------------------------------------------------------------

  lemma DiscardSteps(r: Rules, s: State, p: Pid, name: Name, i: Ino)
    requires p in s.pcs && s.pcs[p] == HaveFile(Discard, name, i) && i in s.size
    ensures var t := Advanced(r, Advanced(r, s, p), p);
      t == s.(dir := s.dir - {name}, pcs := s.pcs[p := Asking(s.size[i])], locks := DropLock(s.locks, p, i))
  {
    var t := Advanced(r, s, p);
    assert t == s.(dir := s.dir - {name}, pcs := s.pcs[p := Discarding(i, s.size[i])]);
    assert t.pcs[p := Asking(s.size[i])] == s.pcs[p := Asking(s.size[i])];
  }

  lemma LateSteps(r: Rules, s: State, p: Pid, size: nat)
    requires p in s.pcs && s.pcs[p] == Asking(size)
    ensures var t := Advanced(r, Advanced(r, Advanced(r, s, p), p), p);
      t.dir == s.dir && t.size == s.size && p in t.pcs && t.pcs[p] == Leaving(None) &&
      t.counter == Minus(s.counter, size) && t.locks == DropLock(s.locks, p, INFO)
  {
    var t := Advanced(r, s, p);
    assert t == s.(pcs := s.pcs[p := Reading(size)], locks := SetLock(s.locks, p, INFO, Rd));
    var u := Advanced(r, t, p);
    assert u == t.(pcs := t.pcs[p := LateWrite(Minus(s.counter, size))], locks := DropLock(t.locks, p, INFO));
    assert DropLock(SetLock(s.locks, p, INFO, Rd), p, INFO) == DropLock(s.locks, p, INFO);
  }

  /** purge_file undisturbed: the file is gone and its size has been taken off the recorded one. */
  lemma PurgeFileAlone(r: Rules, s: State, p: Pid, name: Name, i: Ino)
    requires p in s.pcs && s.pcs[p] == HaveFile(Discard, name, i) && i in s.size && s.size[i] <= s.counter
    ensures var t := Advanced(r, Advanced(r, Advanced(r, Advanced(r, Advanced(r, s, p), p), p), p), p);
      t.dir == s.dir - {name} && p in t.pcs && t.pcs[p] == Leaving(None) && t.counter == s.counter - s.size[i] &&
      LockOf(t.locks, p, i) == None && LockOf(t.locks, p, INFO) == None
  {
    DiscardSteps(r, s, p, name, i);
    LateSteps(r, Advanced(r, Advanced(r, s, p), p), p, s.size[i]);
  }

  /** Disturbed it need not be: what another process has written since it gave the cache up is overwritten. */
  lemma LateWriteOverwrites(r: Rules, s: State, p: Pid, other: nat)
    requires p in s.pcs && s.pcs[p].LateWrite?
    ensures Advanced(r, s.(counter := other), p) == Advanced(r, s, p)
  {}
}
