/** When a purge records exactly what is in the directory: if and only if no file left has grown since the scan
    looked at it, and so whenever nobody is writing a file as the purge begins; and a run in which somebody is. */
module CacheExact {
  import opened Wrappers
  import opened Cache
  import opened CacheSafety
  import opened CacheProgress
  import opened CacheCounter

  // ---------------------------------------------------------------------------------------------
  // Exactly when no file has grown
  // ---------------------------------------------------------------------------------------------

  /** Sums of sizes none of which is larger are equal only if the sizes are. */
  lemma {:induction false} EqualSumsIff(ns: set<Name>, f: map<Name, nat>, g: map<Name, nat>)
    requires forall n :: n in ns ==> At0(f, n) <= At0(g, n)
    ensures Sum(ns, f) == Sum(ns, g) <==> forall n :: n in ns ==> At0(f, n) == At0(g, n)
    decreases |ns|
  {
    if ns != {} {
      var n :| n in ns;
      SumApart(ns, f, n);
      SumApart(ns, g, n);
      EqualSumsIff(ns - {n}, f, g);
      SumGrows(ns - {n}, f, ns - {n}, g);
    }
  }

  /** The write of a purge records the total of the directory exactly when each file left has the size that the
      scan found. Sizes only grow. */
  lemma ExactIff(r: Rules, s: State, ms: seq<Move>, p: Pid)
    requires Initial(s) && Runs(r, s, ms) && !r.discards
    requires var t := Final(r, s, ms); Enabled(r, t, p, Advance) && t.pcs[p].Writing? && t.pcs[p].purged
    ensures var t := Final(r, s, ms); var kept, t' := t.pcs[p].kept, Next(r, t, p, Advance);
            kept.Keys == t'.dir.Keys && (forall n :: n in t'.dir ==> t'.dir[n] in t'.size && kept[n] <= t'.size[t'.dir[n]]) &&
            (t'.counter == DirTotal(t') <==> forall n :: n in t'.dir ==> kept[n] == t'.size[t'.dir[n]])
  {
    InitialIsSafe(s);
    InitialCounts(s);
    RunCounts(r, s, ms);
    KeptIff(Final(r, s, ms), p);
  }

  lemma KeptIff(t: State, p: Pid)
    requires Safe(t) && Counts(t) && p in t.pcs && t.pcs[p].Writing? && t.pcs[p].purged
    ensures var kept := t.pcs[p].kept;
            kept.Keys == t.dir.Keys && (forall n :: n in t.dir ==> t.dir[n] in t.size && kept[n] <= t.size[t.dir[n]]) &&
            (t.pcs[p].value == DirTotal(t) <==> forall n :: n in t.dir ==> kept[n] == t.size[t.dir[n]])
  {
    var pc := t.pcs[p];
    assert CountOk(t, pc);
    forall n | n in t.dir ensures t.dir[n] in t.size && pc.kept[n] <= t.size[t.dir[n]] {
      assert AccurateFor(t, pc.kept[n], pc.counted, t.dir[n]);
    }
    forall n | n in t.dir.Keys ensures At0(pc.kept, n) == pc.kept[n] && At0(SizeMap(t), n) == t.size[t.dir[n]] {}
    EqualSumsIff(t.dir.Keys, pc.kept, SizeMap(t));
  }

  // ---------------------------------------------------------------------------------------------
  // When nobody is writing
  // ---------------------------------------------------------------------------------------------

  /** No file in the directory is locked for writing. */
  ghost predicate Unwritten(s: State) {
    forall n :: n in s.dir ==> !BeingWritten(s.locks, s.dir[n])
  }

  ghost predicate AllCounted(s: State, c: set<Ino>) {
    forall n :: n in s.dir ==> s.dir[n] in c
  }

  /** A purge that began with nobody writing, at any of its points, or after its end. */
  ghost predicate Watched(s: State, p: Pid) {
    p in s.pcs &&
    match s.pcs[p]
    case HaveCache(op) => op.UpdateAndPurge? && Unwritten(s)
    case Scanning(_, _, sizes, c) => Unwritten(s) && forall n :: n in sizes && n in s.dir ==> s.dir[n] in c
    case Purging(w) => AllCounted(s, w.counted)
    case Unlinking(w, _, _) => AllCounted(s, w.counted)
    case Closing(w, _, _) => AllCounted(s, w.counted)
    case Writing(_, _, c, purged) => purged && AllCounted(s, c)
    case Leaving(_) => true
    case Idle => true
    case _ => false
  }

  /** The purge's own steps. */
  lemma ScanStepIsWatched(r: Rules, s: State, p: Pid, name: Name)
    requires Safe(s) && Counts(s) && Watched(s, p) && Enabled(r, s, p, Pick(name)) && s.pcs[p].Scanning?
    ensures Watched(Next(r, s, p, Pick(name)), p)
  {}

  lemma SweepStepIsWatched(r: Rules, s: State, p: Pid, name: Name)
    requires Watched(s, p) && Enabled(r, s, p, Pick(name)) && s.pcs[p].Purging?
    ensures Watched(Next(r, s, p, Pick(name)), p)
  {}

  lemma ScanEndIsWatched(r: Rules, s: State, p: Pid)
    requires Safe(s) && Counts(s) && Watched(s, p) && Enabled(r, s, p, Advance) && s.pcs[p].Scanning?
    ensures Watched(Advanced(r, s, p), p)
  {
    var pc := s.pcs[p];
    assert CountOk(s, pc);
    assert pc.sizes.Keys == s.dir.Keys;
    assert AllCounted(s, pc.counted);
  }

  lemma AdvanceIsWatched(r: Rules, s: State, p: Pid)
    requires Safe(s) && Counts(s) && Watched(s, p) && Enabled(r, s, p, Advance)
    ensures Watched(Advanced(r, s, p), p)
  {
    if s.pcs[p].Scanning? { ScanEndIsWatched(r, s, p); }
  }

  lemma OwnStepIsWatched(r: Rules, s: State, p: Pid, a: Action)
    requires Safe(s) && Counts(s) && Watched(s, p) && Enabled(r, s, p, a) && !a.Begin?
    ensures Watched(Next(r, s, p, a), p)
  {
    match a
    case Advance => AdvanceIsWatched(r, s, p);
    case Pick(name) =>
      if s.pcs[p].Scanning? { ScanStepIsWatched(r, s, p, name); } else { SweepStepIsWatched(r, s, p, name); }
    case _ =>
  }

  /** While one process has the cache to itself, nobody else comes to lock a cached file for writing. */
  lemma NoNewWriter(r: Rules, s: State, p: Pid, a: Action, q: Pid, k: LockKey)
    requires Safe(s) && Enabled(r, s, p, a) && !IsDiscard(s.pcs[p])
    requires q != p && LockOf(s.locks, q, INFO) == Some(Wr)
    requires k in Next(r, s, p, a).locks && Next(r, s, p, a).locks[k] == Wr && k.ino != INFO
    ensures k in s.locks && s.locks[k] == Wr
  {
    OnlyOneHolds(s, q, p);
    assert ProcOk(s, p);
    assert LockKey(q, INFO) in s.locks;
    assert s.pcs[p].Idle? || s.pcs[p].Leaving?;
  }

  lemma StaysUnwritten(r: Rules, s: State, p: Pid, a: Action, s': State, q: Pid)
    requires Safe(s) && Enabled(r, s, p, a) && s' == Next(r, s, p, a) && !IsDiscard(s.pcs[p])
    requires q != p && LockOf(s.locks, q, INFO) == Some(Wr)
    requires s'.dir == s.dir && Unwritten(s)
    ensures Unwritten(s')
  {
    forall n | n in s'.dir ensures !BeingWritten(s'.locks, s'.dir[n]) {
      if k :| k in s'.locks && k.ino == s'.dir[n] && s'.locks[k] == Wr {
        NoNewWriter(r, s, p, a, q, k);
        assert BeingWritten(s.locks, s.dir[n]);
      }
    }
  }

  lemma OtherStepIsWatched(r: Rules, s: State, q: Pid, a: Action, p: Pid)
    requires Safe(s) && Counts(s) && Watched(s, p) && Enabled(r, s, q, a) && q != p
    ensures Watched(Next(r, s, q, a), p)
  {
    var s' := Next(r, s, q, a);
    OthersStayPut(r, s, q, a, p);
    if CacheHeld(s.pcs[p]) == Some(Wr) && !s.pcs[p].Leaving? {
      assert ProcOk(s, p);
      OthersAreQuiet(r, s, q, a, s', p);
      if Unwritten(s) { StaysUnwritten(r, s, q, a, s', p); }
    }
  }

  lemma {:induction false} RunIsWatched(r: Rules, s: State, ms: seq<Move>, p: Pid)
    requires Safe(s) && Counts(s) && Runs(r, s, ms) && !r.discards && Watched(s, p)
    requires forall i :: 0 <= i < |ms| && ms[i].pid == p ==> !ms[i].action.Begin?
    ensures Safe(Final(r, s, ms)) && Counts(Final(r, s, ms)) && Watched(Final(r, s, ms), p)
    decreases |ms|
  {
    if ms != [] {
      var s' := Next(r, s, ms[0].pid, ms[0].action);
      StepIsSafe(r, s, ms[0].pid, ms[0].action);
      StepCounts(r, s, ms[0].pid, ms[0].action, s');
      if ms[0].pid == p {
        OwnStepIsWatched(r, s, p, ms[0].action);
      } else {
        OtherStepIsWatched(r, s, ms[0].pid, ms[0].action, p);
      }
      RunIsWatched(r, s', ms[1..], p);
    }
  }

  /** If no file in the directory is locked for writing when a purge has got the cache, then what that purge
      writes, whatever the other processes do in between, is the total of the directory. */
  lemma ExactWhenNobodyWrites(r: Rules, s: State, ms: seq<Move>, p: Pid, ns: seq<Move>)
    requires Initial(s) && Runs(r, s, ms) && !r.discards
    requires var t := Final(r, s, ms); p in t.pcs && t.pcs[p].HaveCache? && t.pcs[p].op.UpdateAndPurge? && Unwritten(t)
    requires Runs(r, Final(r, s, ms), ns) && forall i :: 0 <= i < |ns| && ns[i].pid == p ==> !ns[i].action.Begin?
    requires var u := Final(r, Final(r, s, ms), ns); p in u.pcs && u.pcs[p].Writing?
    ensures var t' := Next(r, Final(r, Final(r, s, ms), ns), p, Advance);
            t'.counter == DirTotal(t')
  {
    InitialIsSafe(s);
    InitialCounts(s);
    RunCounts(r, s, ms);
    var t := Final(r, s, ms);
    RunIsWatched(r, t, ns, p);
    var u := Final(r, t, ns);
    var t' := Next(r, u, p, Advance);
    PurgeBounds(r, u, p);
    assert forall n :: n in t'.dir ==> t'.dir[n] in t'.completed;
  }

  // ---------------------------------------------------------------------------------------------
  // When somebody is
  // ---------------------------------------------------------------------------------------------

  const PURGE := UpdateAndPurge(OTHER)

  /** The second process scans the directory while the first is writing its file. */
  function ScanningAt(pc: Pc, written: nat): State {
    State(map[FILE := 1], map[1 := written], 2, map[LockKey(1, 1) := Wr, LockKey(2, INFO) := Wr], 0, {},
          map[1 := Idle, 2 := pc])
  }

  const SCANNED: Pc := Scanning(OTHER, {}, map[FILE := 0], {})

  lemma ScanSteps(r: Rules)
    ensures var s := Entering(PURGE, Wr); var pc := Scanning(OTHER, {FILE}, map[], {});
            Enabled(r, s, 2, Advance) && Next(r, s, 2, Advance) == ScanningAt(pc, 0)
    ensures var s := ScanningAt(Scanning(OTHER, {FILE}, map[], {}), 0);
            Enabled(r, s, 2, Pick(FILE)) && Next(r, s, 2, Pick(FILE)) == ScanningAt(SCANNED, 0)
  {
    var s := Entering(PURGE, Wr);
    assert s.dir.Keys == {FILE};
    assert LockKey(1, 1) in s.locks && BeingWritten(s.locks, 1);
    assert {FILE} - {FILE} == {};
  }

  lemma GrowStep(r: Rules)
    ensures var s := ScanningAt(SCANNED, 0);
            Enabled(r, s, 1, Grow(1, 5)) && Next(r, s, 1, Grow(1, 5)) == ScanningAt(SCANNED, 5)
  {}

  lemma SumOfOne(size: nat)
    ensures Sum({FILE}, map[FILE := size]) == size
  {
    SumApart({FILE}, map[FILE := size], FILE);
    assert {FILE} - {FILE} == {};
  }

  const WRITING: Pc := Writing(0, map[FILE := 0], {}, true)

  lemma WriteSteps(r: Rules)
    ensures var s := ScanningAt(SCANNED, 5);
            Enabled(r, s, 2, Advance) && Next(r, s, 2, Advance) == ScanningAt(WRITING, 5)
    ensures var s := ScanningAt(WRITING, 5);
            Enabled(r, s, 2, Advance) && Next(r, s, 2, Advance) == ScanningAt(Leaving(Some(Wr)), 5)
  {
    SumOfOne(0);
    assert map[FILE := 0].Keys == {FILE};
  }

  /** A run, under any rules, at the end of which a purge has just recorded less than the directory holds: the
      file of another process has grown between the scan and the write. */
  lemma PurgeMissesGrowth(r: Rules) returns (ms: seq<Move>)
    ensures Initial(EMPTY) && Runs(r, EMPTY, ms)
    ensures var t := Final(r, EMPTY, ms); t == ScanningAt(Leaving(Some(Wr)), 5) && t.counter < DirTotal(t)
  {
    ScanSteps(r);
    GrowStep(r);
    WriteSteps(r);
    ms := Then(r, ScanningAt(WRITING, 5), 2, Advance, ScanningAt(Leaving(Some(Wr)), 5), []);
    ms := Then(r, ScanningAt(SCANNED, 5), 2, Advance, ScanningAt(WRITING, 5), ms);
    ms := Then(r, ScanningAt(SCANNED, 0), 1, Grow(1, 5), ScanningAt(SCANNED, 5), ms);
    ms := Then(r, ScanningAt(Scanning(OTHER, {FILE}, map[], {}), 0), 2, Pick(FILE), ScanningAt(SCANNED, 0), ms);
    ms := Then(r, Entering(PURGE, Wr), 2, Advance, ScanningAt(Scanning(OTHER, {FILE}, map[], {}), 0), ms);
    ms := EnterRun(r, PURGE, Wr, ms);
    assert CREATED.(locks := map[LockKey(1, 1) := Wr]) == CREATED;
    ms := CreateRun(r, ms);
    MissingTotal();
  }

  lemma MissingTotal()
    ensures DirTotal(ScanningAt(Leaving(Some(Wr)), 5)) == 5
  {
    var t := ScanningAt(Leaving(Some(Wr)), 5);
    assert t.dir.Keys == {FILE} && SizeMap(t) == map[FILE := 5];
    SumOfOne(5);
  }
}
