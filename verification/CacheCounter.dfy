/** The recorded size over every interleaving of the operations without purge_file: it never falls below the
    total of the completed files, and what a purge records lies between that and the total of the directory. */
module CacheCounter {
  import opened Wrappers
  import opened Cache
  import opened CacheSafety
  import opened CacheProgress

  /** The sizes of the files in the directory, by name. */
  function SizeMap(s: State): map<Name, nat> {
    map n | n in s.dir && s.dir[n] in s.size :: s.size[s.dir[n]]
  }

  function NamesIn(s: State, done: set<Ino>): set<Name> {
    set n | n in s.dir && s.dir[n] in done
  }

  /** The total of the files in the directory that are in the set. */
  ghost function Known(s: State, done: set<Ino>): nat {
    Sum(NamesIn(s, done), SizeMap(s))
  }

  ghost function DirTotal(s: State): nat {
    Sum(s.dir.Keys, SizeMap(s))
  }

  predicate IsPurging(pc: Pc, i: Ino) {
    (pc.Unlinking? || pc.Closing?) && pc.ino == i
  }

  /** Nobody can write to the file any more: whoever has it locked for writing is about to remove it. */
  predicate Settled(s: State, i: Ino) {
    forall k :: k in s.locks && k.ino == i && s.locks[k] == Wr ==> k.pid in s.pcs && IsPurging(s.pcs[k.pid], i)
  }

  predicate AllSettled(s: State, c: set<Ino>) {
    forall i :: i in c ==> INFO < i < s.next && Settled(s, i)
  }

  /** The sizes found by a scan are those of the files, but for files that were being written. */
  predicate Accurate(s: State, sizes: map<Name, nat>, c: set<Ino>) {
    AllSettled(s, c) &&
    forall n :: n in sizes && n in s.dir && s.dir[n] in s.size ==> AccurateFor(s, sizes[n], c, s.dir[n])
  }

  predicate AccurateFor(s: State, size: nat, c: set<Ino>, i: Ino) {
    i in s.size && size <= s.size[i] && (i in s.completed || i in c ==> size == s.size[i])
  }

  ghost predicate SweepOk(s: State, w: Sweep, keys: set<Name>) {
    w.sizes.Keys == keys && w.total == Sum(w.sizes.Keys, w.sizes) && Accurate(s, w.sizes, w.counted)
  }

  /** What an operation in progress knows about the sizes. */
  ghost predicate CountOk(s: State, pc: Pc) {
    match pc
    case WantFile(use, _, i) => use.Create? ==> i !in s.completed
    case Scanning(_, todo, sizes, c) => sizes.Keys + todo == s.dir.Keys && Accurate(s, sizes, c)
    case Purging(w) => SweepOk(s, w, s.dir.Keys)
    case Unlinking(w, _, _) => SweepOk(s, w, s.dir.Keys)
    case Closing(w, victim, _) => victim in w.sizes && victim !in s.dir && SweepOk(s, w, s.dir.Keys + {victim})
    case Writing(value, sizes, c, purged) =>
      AllSettled(s, c) && Known(s, s.completed + c) <= value &&
      (purged ==> SweepOk(s, Sweep(0, {}, sizes, c, value), s.dir.Keys))
    case _ => true
  }

  ghost predicate Counts(s: State) {
    AllSettled(s, s.completed) && Known(s, s.completed) <= s.counter &&
    forall p :: p in s.pcs ==> !IsDiscard(s.pcs[p]) && CountOk(s, s.pcs[p])
  }

  // ---------------------------------------------------------------------------------------------
  // Settled files stay settled
  // ---------------------------------------------------------------------------------------------

  lemma OwnAdvanceSettles(r: Rules, s: State, p: Pid, i: Ino)
    requires Enabled(r, s, p, Advance) && ProcOk(s, p) && !IsDiscard(s.pcs[p]) && i != INFO
    requires !(s.pcs[p].WantFile? && s.pcs[p].use.Create? && s.pcs[p].ino == i)
    requires LockOf(s.locks, p, i) == Some(Wr) ==> IsPurging(s.pcs[p], i)
    ensures LockOf(Advanced(r, s, p).locks, p, i) == Some(Wr) ==> IsPurging(Advanced(r, s, p).pcs[p], i)
  {}

  lemma OwnStepSettles(r: Rules, s: State, p: Pid, a: Action, i: Ino)
    requires Enabled(r, s, p, a) && ProcOk(s, p) && !IsDiscard(s.pcs[p]) && i != INFO
    requires !(s.pcs[p].WantFile? && s.pcs[p].use.Create? && s.pcs[p].ino == i)
    requires LockOf(s.locks, p, i) == Some(Wr) ==> IsPurging(s.pcs[p], i)
    ensures p in Next(r, s, p, a).pcs
    ensures LockOf(Next(r, s, p, a).locks, p, i) == Some(Wr) ==> IsPurging(Next(r, s, p, a).pcs[p], i)
  {
    if a.Advance? { OwnAdvanceSettles(r, s, p, i); }
  }

  lemma StepKeepsSettled(r: Rules, s: State, p: Pid, a: Action, s': State, i: Ino)
    requires Safe(s) && Enabled(r, s, p, a) && s' == Next(r, s, p, a) && !IsDiscard(s.pcs[p])
    requires i != INFO && Settled(s, i)
    requires !(s.pcs[p].WantFile? && s.pcs[p].use.Create? && s.pcs[p].ino == i)
    ensures Settled(s', i)
  {
    forall k | k in s'.locks && k.ino == i && s'.locks[k] == Wr ensures k.pid in s'.pcs && IsPurging(s'.pcs[k.pid], i) {
      assert k == LockKey(k.pid, i) && LockOf(s'.locks, k.pid, i) == Some(Wr);
      if k.pid == p {
        assert ProcOk(s, p);
        OwnStepSettles(r, s, p, a, i);
      } else {
        OthersKeepMyLocks(r, s, p, a, k.pid, i);
        OthersStayPut(r, s, p, a, k.pid);
      }
    }
  }

  // ---------------------------------------------------------------------------------------------
  // Totals
  // ---------------------------------------------------------------------------------------------

  lemma KnownShrinks(s: State, s': State, done: set<Ino>)
    requires forall n :: n in NamesIn(s', done) ==>
               n in s.dir && s.dir[n] == s'.dir[n] && s.dir[n] in s.size && s'.dir[n] in s'.size &&
               s'.size[s'.dir[n]] == s.size[s.dir[n]]
    ensures Known(s', done) <= Known(s, done)
  {
    SumGrows(NamesIn(s', done), SizeMap(s'), NamesIn(s, done), SizeMap(s));
  }

  /** Counting one more file raises the total by its size at most. */
  lemma KnownPlusOne(s: State, done: set<Ino>, name: Name)
    requires DirOk(s) && name in s.dir
    ensures Known(s, done + {s.dir[name]}) <= Known(s, done) + s.size[s.dir[name]]
  {
    var more := NamesIn(s, done + {s.dir[name]});
    SumApart(more, SizeMap(s), name);
    SumGrows(more - {name}, SizeMap(s), NamesIn(s, done), SizeMap(s));
  }

  /** The total of the scanned sizes lies between that of the completed files and that of all. */
  lemma ScanIsBetween(s: State, sizes: map<Name, nat>, c: set<Ino>)
    requires DirOk(s) && sizes.Keys == s.dir.Keys && Accurate(s, sizes, c)
    ensures Known(s, s.completed + c) <= Sum(sizes.Keys, sizes) <= DirTotal(s)
  {
    SumGrows(NamesIn(s, s.completed + c), SizeMap(s), sizes.Keys, sizes);
    SumGrows(sizes.Keys, sizes, s.dir.Keys, SizeMap(s));
  }

  // ---------------------------------------------------------------------------------------------
  // While one process has the cache to itself, the others change nothing that it counts on
  // ---------------------------------------------------------------------------------------------

  ghost predicate Quiet(s: State, s': State) {
    s'.dir == s.dir && s'.completed == s.completed && s'.next == s.next &&
    (forall i :: INFO < i && Settled(s, i) ==> Settled(s', i)) &&
    (forall i :: i in s.size ==> i in s'.size && s.size[i] <= s'.size[i] && (Settled(s, i) ==> s'.size[i] == s.size[i]))
  }

  lemma QuietKeepsSettled(s: State, s': State, c: set<Ino>)
    requires Quiet(s, s') && AllSettled(s, c)
    ensures AllSettled(s', c)
  {
    forall i | i in c ensures INFO < i < s'.next && Settled(s', i) {
      assert Settled(s, i);
    }
  }

  lemma QuietKeepsSize(s: State, s': State, i: Ino)
    requires Quiet(s, s') && i in s.size
    ensures i in s'.size && s.size[i] <= s'.size[i]
    ensures Settled(s, i) ==> s'.size[i] == s.size[i]
  {}

  lemma QuietKeepsAccurateFor(s: State, s': State, size: nat, c: set<Ino>, i: Ino)
    requires AllSettled(s, s.completed) && AllSettled(s, c) && Quiet(s, s') && AccurateFor(s, size, c, i)
    ensures AccurateFor(s', size, c, i)
  {
    QuietKeepsSize(s, s', i);
  }

  lemma QuietKeepsAccurate(s: State, s': State, sizes: map<Name, nat>, c: set<Ino>)
    requires DirOk(s) && AllSettled(s, s.completed) && Quiet(s, s') && Accurate(s, sizes, c)
    ensures Accurate(s', sizes, c)
  {
    QuietKeepsSettled(s, s', c);
    forall n | n in sizes && n in s'.dir && s'.dir[n] in s'.size ensures AccurateFor(s', sizes[n], c, s'.dir[n]) {
      assert AccurateFor(s, sizes[n], c, s.dir[n]);
      QuietKeepsAccurateFor(s, s', sizes[n], c, s.dir[n]);
    }
  }

  lemma QuietKeepsKnown(s: State, s': State, done: set<Ino>)
    requires DirOk(s) && Quiet(s, s') && AllSettled(s, done)
    ensures Known(s', done) <= Known(s, done)
  {
    forall n | n in NamesIn(s', done)
      ensures n in s.dir && s.dir[n] == s'.dir[n] && s.dir[n] in s.size && s'.dir[n] in s'.size &&
              s'.size[s'.dir[n]] == s.size[s.dir[n]]
    {
      QuietKeepsSize(s, s', s.dir[n]);
    }
    KnownShrinks(s, s', done);
  }

  lemma QuietKeepsWriting(s: State, s': State, pc: Pc)
    requires DirOk(s) && AllSettled(s, s.completed) && Quiet(s, s') && pc.Writing? && CountOk(s, pc)
    ensures CountOk(s', pc)
  {
    QuietKeepsSettled(s, s', pc.counted);
    assert AllSettled(s, s.completed + pc.counted);
    QuietKeepsKnown(s, s', s.completed + pc.counted);
    if pc.purged { QuietKeepsAccurate(s, s', pc.kept, pc.counted); }
  }

  lemma QuietKeepsCount(s: State, s': State, pc: Pc)
    requires DirOk(s) && AllSettled(s, s.completed) && Quiet(s, s') && CountOk(s, pc)
    ensures CountOk(s', pc)
  {
    match pc
    case Scanning(_, _, sizes, c) => QuietKeepsAccurate(s, s', sizes, c);
    case Purging(w) => QuietKeepsAccurate(s, s', w.sizes, w.counted);
    case Unlinking(w, _, _) => QuietKeepsAccurate(s, s', w.sizes, w.counted);
    case Closing(w, _, _) => QuietKeepsAccurate(s, s', w.sizes, w.counted);
    case Writing(_, _, _, _) => QuietKeepsWriting(s, s', pc);
    case _ =>
  }

  /** A file that is growing is not settled. */
  lemma GrowingIsUnsettled(s: State, p: Pid, i: Ino)
    requires p in s.pcs && s.pcs[p].Idle? && LockOf(s.locks, p, i) == Some(Wr)
    ensures !Settled(s, i)
  {
    assert LockKey(p, i) in s.locks;
  }

  lemma OthersAreQuiet(r: Rules, s: State, p: Pid, a: Action, s': State, q: Pid)
    requires Safe(s) && Enabled(r, s, p, a) && s' == Next(r, s, p, a) && !IsDiscard(s.pcs[p])
    requires q != p && LockOf(s.locks, q, INFO) == Some(Wr)
    ensures Quiet(s, s')
  {
    OnlyOneHolds(s, q, p);
    assert ProcOk(s, p);
    assert LockKey(q, INFO) in s.locks;
    assert s.pcs[p].Idle? || s.pcs[p].Leaving?;
    forall i | INFO < i && Settled(s, i) ensures Settled(s', i) { StepKeepsSettled(r, s, p, a, s', i); }
    if a.Grow? { GrowingIsUnsettled(s, p, a.ino); }
  }

  /** Only an operation with the cache locked for writing knows anything about the sizes. */
  lemma OnlyWritersCount(s: State, pc: Pc)
    requires CacheHeld(pc) != Some(Wr)
    ensures CountOk(s, pc)
  {}

  lemma OthersStillCount(r: Rules, s: State, p: Pid, a: Action, s': State, q: Pid)
    requires Safe(s) && Counts(s) && Enabled(r, s, p, a) && s' == Next(r, s, p, a)
    requires q != p && q in s.pcs
    ensures CountOk(s', s.pcs[q])
  {
    if CacheHeld(s.pcs[q]) == Some(Wr) {
      assert ProcOk(s, q);
      OthersAreQuiet(r, s, p, a, s', q);
      QuietKeepsCount(s, s', s.pcs[q]);
    } else {
      OnlyWritersCount(s', s.pcs[q]);
    }
  }

  // ---------------------------------------------------------------------------------------------
  // The steps of the counting operations themselves
  // ---------------------------------------------------------------------------------------------

  lemma UpdateCounts(s: State, p: Pid, name: Name)
    requires Safe(s) && Counts(s) && p in s.pcs
    ensures CountOk(s, Entered(s, p, UpdateCacheInfo(name)).pcs[p])
  {
    if name in s.dir {
      var i := s.dir[name];
      KnownPlusOne(s, s.completed, name);
      assert s.completed + {} == s.completed;
      assert !BeingWritten(s.locks, i) ==> Settled(s, i);
    }
  }

  lemma ScanCounts(s: State, p: Pid, name: Name)
    requires Safe(s) && Counts(s) && p in s.pcs && s.pcs[p].Scanning? && name in s.pcs[p].todo
    ensures CountOk(s, Scanned(s, p, name).pcs[p])
  {
    var pc, pc' := s.pcs[p], Scanned(s, p, name).pcs[p];
    assert CountOk(s, pc);
    var i := s.dir[name];
    assert !BeingWritten(s.locks, i) ==> Settled(s, i);
    forall n | n in pc'.sizes && n in s.dir && s.dir[n] in s.size
      ensures AccurateFor(s, pc'.sizes[n], pc'.counted, s.dir[n])
    {
      if n != name {
        assert pc'.sizes[n] == pc.sizes[n] && s.dir[n] != i;
        assert AccurateFor(s, pc.sizes[n], pc.counted, s.dir[n]);
      }
    }
  }

  /** The scan is over. */
  lemma ScannedCounts(r: Rules, s: State, p: Pid)
    requires Safe(s) && Counts(s) && Enabled(r, s, p, Advance) && s.pcs[p].Scanning?
    ensures CountOk(s, Advanced(r, s, p).pcs[p])
  {
    var pc := s.pcs[p];
    assert CountOk(s, pc);
    assert pc.sizes.Keys == s.dir.Keys;
    ScanIsBetween(s, pc.sizes, pc.counted);
  }

  /** The loop is over. */
  lemma PurgedCounts(s: State, w: Sweep)
    requires Safe(s) && Counts(s) && SweepOk(s, w, s.dir.Keys)
    ensures CountOk(s, Writing(w.total, w.sizes, w.counted, true))
  {
    ScanIsBetween(s, w.sizes, w.counted);
  }

  /** Taking the size of the file that has been removed off the total: it does not go below zero. */
  lemma ClosingCounts(s: State, w: Sweep, victim: Name)
    requires victim in w.sizes && victim !in s.dir && SweepOk(s, w, s.dir.Keys + {victim})
    ensures w.sizes[victim] <= w.total
    ensures SweepOk(s, w.(sizes := w.sizes - {victim}, total := Minus(w.total, w.sizes[victim])), s.dir.Keys)
  {
    SumApart(w.sizes.Keys, w.sizes, victim);
    var rest := w.sizes - {victim};
    assert rest.Keys == w.sizes.Keys - {victim};
    SumSame(rest.Keys, rest, w.sizes);
  }

  /** Unlinking the victim leaves the sweep with one file more than the directory. */
  lemma UnlinkingCounts(s: State, s': State, w: Sweep, victim: Name)
    requires SweepOk(s, w, s.dir.Keys) && victim in s.dir
    requires s'.dir == s.dir - {victim} && s'.size == s.size && s'.completed == s.completed && s'.next == s.next
    requires AllSettled(s', w.counted)
    ensures victim in w.sizes && victim !in s'.dir && SweepOk(s', w, s'.dir.Keys + {victim})
  {
    assert s'.dir.Keys + {victim} == s.dir.Keys;
  }

  lemma ThroughAdvance(r: Rules, s: State, p: Pid, s': State, c: set<Ino>)
    requires Safe(s) && Enabled(r, s, p, Advance) && s' == Next(r, s, p, Advance) && !IsDiscard(s.pcs[p])
    requires AllSettled(s, c) && !s.pcs[p].WantFile? && s.next <= s'.next
    ensures AllSettled(s', c)
  {
    forall i | i in c ensures INFO < i < s'.next && Settled(s', i) {
      StepKeepsSettled(r, s, p, Advance, s', i);
    }
  }

  lemma OwnUnlinkCounts(r: Rules, s: State, p: Pid)
    requires Safe(s) && Counts(s) && Enabled(r, s, p, Advance) && s.pcs[p].Unlinking?
    ensures CountOk(Next(r, s, p, Advance), Next(r, s, p, Advance).pcs[p])
  {
    var pc, s' := s.pcs[p], Next(r, s, p, Advance);
    assert CountOk(s, pc) && ProcOk(s, p);
    ThroughAdvance(r, s, p, s', pc.sweep.counted);
    UnlinkingCounts(s, s', pc.sweep, pc.victim);
  }

  /** Nothing that is counted depends on the lock dropped or on where the process is. */
  lemma SameFiles(s: State, s': State, w: Sweep, keys: set<Name>)
    requires SweepOk(s, w, keys) && AllSettled(s', w.counted)
    requires s'.dir == s.dir && s'.size == s.size && s'.completed == s.completed && s'.next == s.next
    ensures SweepOk(s', w, keys)
  {}

  lemma OwnCloseCounts(r: Rules, s: State, p: Pid)
    requires Safe(s) && Counts(s) && Enabled(r, s, p, Advance) && s.pcs[p].Closing?
    ensures CountOk(Next(r, s, p, Advance), Next(r, s, p, Advance).pcs[p])
  {
    var pc, s' := s.pcs[p], Next(r, s, p, Advance);
    assert CountOk(s, pc);
    ClosingCounts(s, pc.sweep, pc.victim);
    ThroughAdvance(r, s, p, s', pc.sweep.counted);
    SameFiles(s, s', s'.pcs[p].sweep, s.dir.Keys);
  }

  lemma OwnPickCounts(r: Rules, s: State, p: Pid, name: Name)
    requires Safe(s) && Counts(s) && Enabled(r, s, p, Pick(name)) && s.pcs[p].Purging?
    ensures CountOk(Next(r, s, p, Pick(name)), Next(r, s, p, Pick(name)).pcs[p])
  {
    var pc, s' := s.pcs[p], Next(r, s, p, Pick(name));
    assert CountOk(s, pc);
    forall i | i in pc.sweep.counted ensures INFO < i < s'.next && Settled(s', i) {
      StepKeepsSettled(r, s, p, Pick(name), s', i);
    }
    SameFiles(s, s', s'.pcs[p].sweep, s.dir.Keys);
  }

  function CountedBy(pc: Pc): set<Ino> {
    match pc
    case Scanning(_, _, _, c) => c
    case Purging(w) => w.counted
    case Unlinking(w, _, _) => w.counted
    case Closing(w, _, _) => w.counted
    case Writing(_, _, c, _) => c
    case _ => {}
  }

  /** What an operation knows does not depend on the locks, but for the files being settled. */
  lemma CountTransfers(s: State, s': State, pc: Pc)
    requires CountOk(s, pc) && AllSettled(s', CountedBy(pc))
    requires s'.dir == s.dir && s'.size == s.size && s'.completed == s.completed && s'.next == s.next
    ensures CountOk(s', pc)
  {
    match pc
    case Purging(w) => SameFiles(s, s', w, s.dir.Keys);
    case Unlinking(w, _, _) => SameFiles(s, s', w, s.dir.Keys);
    case Closing(w, victim, _) => SameFiles(s, s', w, s.dir.Keys + {victim});
    case Writing(value, sizes, c, purged) =>
      SameTotals(s, s', s.completed + c);
      if purged { SameFiles(s, s', Sweep(0, {}, sizes, c, value), s.dir.Keys); }
    case _ =>
  }

  lemma SameTotals(s: State, s': State, done: set<Ino>)
    requires s'.dir == s.dir && s'.size == s.size
    ensures Known(s', done) == Known(s, done) && DirTotal(s') == DirTotal(s)
  {
    assert SizeMap(s') == SizeMap(s) && NamesIn(s', done) == NamesIn(s, done);
  }

  lemma EnteringCounts(r: Rules, s: State, p: Pid)
    requires Safe(s) && Counts(s) && Enabled(r, s, p, Advance) && s.pcs[p].HaveCache?
    ensures CountOk(Next(r, s, p, Advance), Next(r, s, p, Advance).pcs[p])
  {
    var s' := Next(r, s, p, Advance);
    if s.pcs[p].op.UpdateCacheInfo? {
      UpdateCounts(s, p, s.pcs[p].op.name);
      ThroughAdvance(r, s, p, s', CountedBy(s'.pcs[p]));
      CountTransfers(s, s', s'.pcs[p]);
    }
  }

  lemma ScanEndStep(r: Rules, s: State, p: Pid)
    requires Enabled(r, s, p, Advance) && s.pcs[p].Scanning?
    ensures var s' := Next(r, s, p, Advance);
      p in s'.pcs && s' == At(s, p, s'.pcs[p]) && CountedBy(s'.pcs[p]) == s.pcs[p].counted
  {}

  lemma ScanSettles(s: State, p: Pid)
    requires Counts(s) && p in s.pcs && s.pcs[p].Scanning?
    ensures AllSettled(s, s.pcs[p].counted)
  {
    assert CountOk(s, s.pcs[p]);
  }

  lemma ScanEndCounts(r: Rules, s: State, p: Pid)
    requires Safe(s) && Counts(s) && Enabled(r, s, p, Advance) && s.pcs[p].Scanning?
    ensures CountOk(Next(r, s, p, Advance), Next(r, s, p, Advance).pcs[p])
  {
    var s' := Next(r, s, p, Advance);
    ScannedCounts(r, s, p);
    ScanEndStep(r, s, p);
    ScanSettles(s, p);
    ThroughAdvance(r, s, p, s', s.pcs[p].counted);
    CountTransfers(s, s', s'.pcs[p]);
  }

  lemma LoopEndCounts(r: Rules, s: State, p: Pid)
    requires Safe(s) && Counts(s) && Enabled(r, s, p, Advance) && s.pcs[p].Purging?
    ensures CountOk(Next(r, s, p, Advance), Next(r, s, p, Advance).pcs[p])
  {
    var w, s' := s.pcs[p].sweep, Next(r, s, p, Advance);
    assert CountOk(s, s.pcs[p]);
    PurgedCounts(s, w);
    ThroughAdvance(r, s, p, s', w.counted);
    CountTransfers(s, s', Writing(w.total, w.sizes, w.counted, true));
  }

  lemma StatCounts(r: Rules, s: State, p: Pid, name: Name)
    requires Safe(s) && Counts(s) && Enabled(r, s, p, Pick(name)) && s.pcs[p].Scanning?
    ensures CountOk(Next(r, s, p, Pick(name)), Next(r, s, p, Pick(name)).pcs[p])
  {
    var s' := Next(r, s, p, Pick(name));
    ScanCounts(s, p, name);
    var c := CountedBy(s'.pcs[p]);
    assert AllSettled(s, c);
    forall i | i in c ensures INFO < i < s'.next && Settled(s', i) {
      StepKeepsSettled(r, s, p, Pick(name), s', i);
    }
    CountTransfers(s, s', s'.pcs[p]);
  }

  lemma OwnStepCounts(r: Rules, s: State, p: Pid, a: Action, s': State)
    requires Safe(s) && Counts(s) && Enabled(r, s, p, a) && s' == Next(r, s, p, a) && p in s'.pcs
    ensures CountOk(s', s'.pcs[p])
  {
    match a
    case Pick(name) =>
      if s.pcs[p].Scanning? { StatCounts(r, s, p, name); } else { OwnPickCounts(r, s, p, name); }
    case Advance =>
      if s.pcs[p].HaveCache? { EnteringCounts(r, s, p); }
      if s.pcs[p].Scanning? { ScanEndCounts(r, s, p); }
      if s.pcs[p].Purging? { LoopEndCounts(r, s, p); }
      if s.pcs[p].Unlinking? { OwnUnlinkCounts(r, s, p); }
      if s.pcs[p].Closing? { OwnCloseCounts(r, s, p); }
    case _ =>
  }

  // ---------------------------------------------------------------------------------------------
  // Every step
  // ---------------------------------------------------------------------------------------------

  /** A step adds at most the next inode, and changes no size but that of a file it writes to. */
  lemma StepOnFiles(r: Rules, s: State, p: Pid, a: Action, n: Name, i: Ino)
    requires Enabled(r, s, p, a) && i < s.next
    ensures n in Next(r, s, p, a).dir ==>
              (n in s.dir && s.dir[n] == Next(r, s, p, a).dir[n]) || Next(r, s, p, a).dir[n] == s.next
    ensures i in s.size && !(a.Grow? && a.ino == i) ==>
              i in Next(r, s, p, a).size && Next(r, s, p, a).size[i] == s.size[i]
  {
    if a.Advance? {
      if s.pcs[p].HaveCache? { EnteringOnFiles(s, p, s.pcs[p].op); } else { AdvanceOnFiles(r, s, p); }
    }
  }

  lemma EnteringOnFiles(s: State, p: Pid, op: Op)
    requires p in s.pcs
    ensures var t := Entered(s, p, op);
      (t.dir == s.dir && t.size == s.size) ||
      (op.CreateAndLock? && t.dir == s.dir[op.name := s.next] && t.size == s.size[s.next := 0])
  {}

  lemma AdvanceOnFiles(r: Rules, s: State, p: Pid)
    requires p in s.pcs && !s.pcs[p].HaveCache?
    ensures var t := Advanced(r, s, p); t.size == s.size && forall n :: n in t.dir ==> n in s.dir && t.dir[n] == s.dir[n]
  {}

  /** What a step does to the files that are counted: it removes one at most. */
  lemma CountedFilesStay(r: Rules, s: State, p: Pid, a: Action, s': State, n: Name)
    requires Safe(s) && Counts(s) && Enabled(r, s, p, a) && s' == Next(r, s, p, a)
    requires n in NamesIn(s', s.completed)
    ensures n in s.dir && s.dir[n] == s'.dir[n] && s.dir[n] in s.size && s'.dir[n] in s'.size &&
            s'.size[s'.dir[n]] == s.size[s.dir[n]]
  {
    var i := s'.dir[n];
    assert i < s.next && Settled(s, i);
    StepOnFiles(r, s, p, a, n, i);
    if a.Grow? { GrowingIsUnsettled(s, p, a.ino); }
  }

  lemma CompletedStaySettled(r: Rules, s: State, p: Pid, a: Action, s': State)
    requires Safe(s) && Counts(s) && Enabled(r, s, p, a) && s' == Next(r, s, p, a) && s.next <= s'.next
    ensures AllSettled(s', s.completed)
  {
    assert CountOk(s, s.pcs[p]);
    forall i | i in s.completed ensures INFO < i < s'.next && Settled(s', i) {
      StepKeepsSettled(r, s, p, a, s', i);
    }
  }

  lemma CounterHolds(r: Rules, s: State, p: Pid, a: Action, s': State)
    requires Safe(s) && Counts(s) && Enabled(r, s, p, a) && s' == Next(r, s, p, a) && s.next <= s'.next
    requires !(a.Advance? && s.pcs[p].Writing?)
    ensures s'.completed == s.completed && s'.counter == s.counter
    ensures AllSettled(s', s'.completed) && Known(s', s'.completed) <= s'.counter
  {
    SameCounter(r, s, p, a);
    CompletedStaySettled(r, s, p, a, s');
    forall n | n in NamesIn(s', s.completed)
      ensures n in s.dir && s.dir[n] == s'.dir[n] && s.dir[n] in s.size && s'.dir[n] in s'.size &&
              s'.size[s'.dir[n]] == s.size[s.dir[n]]
    {
      CountedFilesStay(r, s, p, a, s', n);
    }
    KnownShrinks(s, s', s.completed);
  }

  lemma SameCounter(r: Rules, s: State, p: Pid, a: Action)
    requires Enabled(r, s, p, a) && !(a.Advance? && (s.pcs[p].Writing? || s.pcs[p].LateWrite?))
    ensures Next(r, s, p, a).completed == s.completed && Next(r, s, p, a).counter == s.counter
  {}

  lemma WritingHolds(r: Rules, s: State, p: Pid, s': State)
    requires Safe(s) && Counts(s) && Enabled(r, s, p, Advance) && s' == Next(r, s, p, Advance) && s.pcs[p].Writing?
    ensures s'.counter == s.pcs[p].value && s'.completed == s.completed + s.pcs[p].counted
    ensures AllSettled(s', s'.completed) && Known(s', s'.completed) <= s'.counter
    ensures s.pcs[p].purged ==> s'.counter <= DirTotal(s')
  {
    var pc := s.pcs[p];
    assert CountOk(s, pc);
    CompletedStaySettled(r, s, p, Advance, s');
    ThroughAdvance(r, s, p, s', pc.counted);
    SameTotals(s, s', s.completed + pc.counted);
    if pc.purged { ScanIsBetween(s, pc.kept, pc.counted); }
  }

  lemma StepCounts(r: Rules, s: State, p: Pid, a: Action, s': State)
    requires Safe(s) && Counts(s) && Enabled(r, s, p, a) && s' == Next(r, s, p, a) && !r.discards
    ensures Counts(s')
  {
    NextGrows(r, s, p, a);
    if a.Advance? && s.pcs[p].Writing? { WritingHolds(r, s, p, s'); } else { CounterHolds(r, s, p, a, s'); }
    forall q | q in s'.pcs ensures !IsDiscard(s'.pcs[q]) && CountOk(s', s'.pcs[q]) {
      ProcessCounts(r, s, p, a, s', q);
    }
  }

  lemma NextGrows(r: Rules, s: State, p: Pid, a: Action)
    requires Enabled(r, s, p, a)
    ensures s.next <= Next(r, s, p, a).next
  {}

  lemma NoDiscardBegins(r: Rules, s: State, p: Pid, a: Action)
    requires Enabled(r, s, p, a) && ProcOk(s, p) && !IsDiscard(s.pcs[p]) && !r.discards
    ensures p in Next(r, s, p, a).pcs && !IsDiscard(Next(r, s, p, a).pcs[p])
  {
    match a
    case Advance => AdvanceIsOrderly(r, s, p, INFO);
    case Pick(name) => PickIsOrderly(r, s, p, name, INFO);
    case _ =>
  }

  lemma ProcessCounts(r: Rules, s: State, p: Pid, a: Action, s': State, q: Pid)
    requires Safe(s) && Counts(s) && Enabled(r, s, p, a) && s' == Next(r, s, p, a) && !r.discards && q in s'.pcs
    ensures !IsDiscard(s'.pcs[q]) && CountOk(s', s'.pcs[q])
  {
    if q == p {
      NoDiscardBegins(r, s, p, a);
      OwnStepCounts(r, s, p, a, s');
    } else {
      OthersStayPut(r, s, p, a, q);
      OthersStillCount(r, s, p, a, s', q);
    }
  }

  lemma InitialCounts(s: State)
    requires Initial(s)
    ensures Counts(s)
  {
    assert NamesIn(s, s.completed) == {};
  }

  lemma {:induction false} RunCounts(r: Rules, s: State, ms: seq<Move>)
    requires Safe(s) && Counts(s) && Runs(r, s, ms) && !r.discards
    ensures Safe(Final(r, s, ms)) && Counts(Final(r, s, ms))
    decreases |ms|
  {
    if ms != [] {
      var s' := Next(r, s, ms[0].pid, ms[0].action);
      StepIsSafe(r, s, ms[0].pid, ms[0].action);
      StepCounts(r, s, ms[0].pid, ms[0].action, s');
      RunCounts(r, s', ms[1..]);
    }
  }

  // ---------------------------------------------------------------------------------------------
  // The recorded size
  // ---------------------------------------------------------------------------------------------

  /** In every reachable state, the recorded size is at least the total of the completed files present. */
  lemma NeverUnderReports(r: Rules, s: State, ms: seq<Move>)
    requires Initial(s) && Runs(r, s, ms) && !r.discards
    ensures var t := Final(r, s, ms); Known(t, t.completed) <= t.counter
  {
    InitialIsSafe(s);
    InitialCounts(s);
    RunCounts(r, s, ms);
  }

  /** When a purge writes the recorded size, it lies between the total of the completed files and that of
      the whole directory; and it is both when all files left are completed. */
  lemma BoundsAfterPurge(r: Rules, s: State, ms: seq<Move>, p: Pid)
    requires Initial(s) && Runs(r, s, ms) && !r.discards
    requires var t := Final(r, s, ms); Enabled(r, t, p, Advance) && t.pcs[p].Writing? && t.pcs[p].purged
    ensures var t' := Next(r, Final(r, s, ms), p, Advance);
            Known(t', t'.completed) <= t'.counter <= DirTotal(t') &&
            ((forall n :: n in t'.dir ==> t'.dir[n] in t'.completed) ==> t'.counter == DirTotal(t'))
  {
    InitialIsSafe(s);
    InitialCounts(s);
    RunCounts(r, s, ms);
    PurgeBounds(r, Final(r, s, ms), p);
  }

  lemma PurgeBounds(r: Rules, t: State, p: Pid)
    requires Safe(t) && Counts(t) && Enabled(r, t, p, Advance) && t.pcs[p].Writing? && t.pcs[p].purged
    ensures var t' := Next(r, t, p, Advance);
            t'.completed == t.completed + t.pcs[p].counted && Known(t', t'.completed) <= t'.counter <= DirTotal(t') &&
            ((forall n :: n in t'.dir ==> t'.dir[n] in t'.completed) ==> t'.counter == DirTotal(t'))
  {
    var t' := Next(r, t, p, Advance);
    WritingHolds(r, t, p, t');
    AllCompleted(t');
  }

  lemma AllCompleted(s: State)
    ensures (forall n :: n in s.dir ==> s.dir[n] in s.completed) ==> Known(s, s.completed) == DirTotal(s)
  {
    if forall n :: n in s.dir ==> s.dir[n] in s.completed {
      assert NamesIn(s, s.completed) == s.dir.Keys;
    }
  }

  /** The purge loop never takes more off its total than is there. */
  lemma NoUnderflow(r: Rules, s: State, ms: seq<Move>, p: Pid)
    requires Initial(s) && Runs(r, s, ms) && !r.discards
    requires var t := Final(r, s, ms); p in t.pcs && t.pcs[p].Closing?
    ensures var pc := Final(r, s, ms).pcs[p];
            pc.victim in pc.sweep.sizes && pc.sweep.sizes[pc.victim] <= pc.sweep.total
  {
    InitialIsSafe(s);
    InitialCounts(s);
    RunCounts(r, s, ms);
    var t := Final(r, s, ms);
    assert CountOk(t, t.pcs[p]);
    ClosingCounts(t, t.pcs[p].sweep, t.pcs[p].victim);
  }
}
