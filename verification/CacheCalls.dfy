/** What each call on the cache waits for, and what it has done when it returns, nobody else moving meanwhile. */
module CacheCalls {
  import opened Wrappers
  import opened Cache
  import opened CacheSafety

  // ---------------------------------------------------------------------------------------------
  // Waiting
  // ---------------------------------------------------------------------------------------------

  /** Readers share the cache: a call that only reads waits while another process has it for writing, and any other
      call while another process has it at all. */
  lemma WaitsForCacheIff(r: Rules, s: State, p: Pid, op: Op)
    requires p in s.pcs && s.pcs[p] == WantCache(op)
    ensures Enabled(r, s, p, Advance) <==>
      forall q :: q != p ==> LockOf(s.locks, q, INFO) == None ||
                             ((op.GetReadLock? || op.GetCacheSize?) && LockOf(s.locks, q, INFO) == Some(Rd))
  {
    GrantableIff(s.locks, p, INFO, CacheMode(op));
  }

  lemma GrantableIff(locks: LockTable, p: Pid, i: Ino, m: Mode)
    ensures Grantable(locks, p, i, m) <==>
      forall q :: q != p ==> LockOf(locks, q, i) == None || (m == Rd && LockOf(locks, q, i) == Some(Rd))
  {
    if Grantable(locks, p, i, m) {
      forall q | q != p && LockOf(locks, q, i) != None ensures m == Rd && LockOf(locks, q, i) == Some(Rd) {
        assert LockKey(q, i) in locks;
      }
    } else {
      var k :| k in locks && k.ino == i && k.pid != p && !(m == Rd && locks[k] == Rd);
      assert LockOf(locks, k.pid, i) == Some(locks[k]);
    }
  }

  /** Readers share a file as well. */
  lemma WaitsForFileIff(r: Rules, s: State, p: Pid, use: Use, name: Name, i: Ino)
    requires p in s.pcs && s.pcs[p] == WantFile(use, name, i)
    ensures Enabled(r, s, p, Advance) <==>
      forall q :: q != p ==> LockOf(s.locks, q, i) == None || (use.Get? && LockOf(s.locks, q, i) == Some(Rd))
  {
    GrantableIff(s.locks, p, i, FileMode(use));
  }

  /** Everything else goes on at once, but a process outside any call has nothing to go on with. */
  lemma OthersDoNotWait(r: Rules, s: State, p: Pid)
    requires p in s.pcs && !s.pcs[p].WantCache? && !s.pcs[p].WantFile?
    requires !s.pcs[p].Scanning? && !s.pcs[p].Purging?
    ensures Enabled(r, s, p, Advance) <==> !s.pcs[p].Idle?
  {}

  // ---------------------------------------------------------------------------------------------
  // Whole calls
  // ---------------------------------------------------------------------------------------------

  function Moves(p: Pid, n: nat): seq<Move> {
    seq(n, _ => Move(p, Advance))
  }

  /** A call and n further steps of it. */
  function Call(p: Pid, op: Op, n: nat): seq<Move> {
    [Move(p, Begin(op))] + Moves(p, n)
  }

  lemma StepThenMoves(r: Rules, s: State, p: Pid, n: nat)
    requires n > 0 && Enabled(r, s, p, Advance)
    ensures Runs(r, s, Moves(p, n)) <==> Runs(r, Next(r, s, p, Advance), Moves(p, n - 1))
    ensures Runs(r, s, Moves(p, n)) ==> Final(r, s, Moves(p, n)) == Final(r, Next(r, s, p, Advance), Moves(p, n - 1))
  {
    assert Moves(p, n)[1..] == Moves(p, n - 1);
  }

  lemma NoMoves(r: Rules, s: State, p: Pid)
    ensures Runs(r, s, Moves(p, 0)) && Final(r, s, Moves(p, 0)) == s
  {}

  /** The call is made and gets the cache. */
  predicate Ready(r: Rules, s: State, p: Pid, op: Op) {
    Safe(s) && Enabled(r, s, p, Begin(op)) && Grantable(s.locks, p, INFO, CacheMode(op))
  }

  /** The state once the call has the cache lock. */
  function InCache(s: State, p: Pid, op: Op): State
    requires p in s.pcs
  {
    At(s, p, HaveCache(op)).(locks := SetLock(s.locks, p, INFO, CacheMode(op)))
  }

  lemma CallBegins(r: Rules, s: State, p: Pid, op: Op, n: nat)
    requires Ready(r, s, p, op)
    ensures Runs(r, s, Call(p, op, n + 1)) <==> Runs(r, InCache(s, p, op), Moves(p, n))
    ensures Runs(r, s, Call(p, op, n + 1)) ==> Final(r, s, Call(p, op, n + 1)) == Final(r, InCache(s, p, op), Moves(p, n))
  {
    var s' := At(s, p, WantCache(op));
    assert Call(p, op, n + 1)[1..] == Moves(p, n + 1);
    assert s'.pcs[p := HaveCache(op)] == s.pcs[p := HaveCache(op)];
    StepThenMoves(r, s', p, n + 1);
  }

  /** A process that has given up the cache lock is left with the locks it had. */
  lemma GivenUp(s: State, p: Pid, op: Op)
    requires Safe(s) && p in s.pcs && s.pcs[p].Idle?
    ensures DropLock(SetLock(s.locks, p, INFO, CacheMode(op)), p, INFO) == s.locks
    ensures s.pcs[p := Idle] == s.pcs
  {
    assert ProcOk(s, p);
    assert LockKey(p, INFO) !in s.locks;
  }

  /** The rest of a call that is about to give the cache up. */
  lemma CallLeaves(r: Rules, s: State, p: Pid, held: Option<Mode>)
    requires p in s.pcs && s.pcs[p] == Leaving(held)
    ensures Runs(r, s, Moves(p, 1))
    ensures Final(r, s, Moves(p, 1)) == s.(pcs := s.pcs[p := Idle], locks := DropLock(s.locks, p, INFO))
  {
    StepThenMoves(r, s, p, 1);
    NoMoves(r, Next(r, s, p, Advance), p);
  }

  /** The rest of a call that has opened a file. */
  lemma CallTakesFile(r: Rules, s: State, p: Pid, use: Use, name: Name, i: Ino)
    requires p in s.pcs && s.pcs[p] == WantFile(use, name, i) && !use.Discard?
    requires Grantable(s.locks, p, i, FileMode(use))
    ensures Runs(r, s, Moves(p, 2))
    ensures Final(r, s, Moves(p, 2)) ==
      s.(pcs := s.pcs[p := Idle], locks := DropLock(SetLock(s.locks, p, i, if use.Get? then Rd else Wr), p, INFO))
  {
    var t := At(s, p, HaveFile(use, name, i)).(locks := SetLock(s.locks, p, i, FileMode(use)));
    assert t == Next(r, s, p, Advance);
    assert t.pcs[p := Idle] == s.pcs[p := Idle];
    StepThenMoves(r, s, p, 2);
    StepThenMoves(r, t, p, 1);
    NoMoves(r, Next(r, t, p, Advance), p);
  }

  lemma FileLockRemains(s: State, p: Pid, op: Op, i: Ino, m: Mode)
    requires Safe(s) && p in s.pcs && s.pcs[p].Idle? && i != INFO
    ensures DropLock(SetLock(SetLock(s.locks, p, INFO, CacheMode(op)), p, i, m), p, INFO) == s.locks[LockKey(p, i) := m]
  {
    assert ProcOk(s, p);
    assert LockKey(p, INFO) !in s.locks;
  }

  /** A call once it has looked at the directory. */
  lemma CallEnters(r: Rules, s: State, p: Pid, op: Op, n: nat)
    requires Ready(r, s, p, op)
    ensures var u, ms := Entered(InCache(s, p, op), p, op), Call(p, op, n + 2);
      (Runs(r, s, ms) <==> Runs(r, u, Moves(p, n))) && (Runs(r, s, ms) ==> Final(r, s, ms) == Final(r, u, Moves(p, n)))
  {
    CallBegins(r, s, p, op, n + 1);
    StepThenMoves(r, InCache(s, p, op), p, n + 1);
  }

  /** A call that finds nothing to do. */
  lemma CallReturns(r: Rules, s: State, p: Pid, op: Op)
    requires Ready(r, s, p, op)
    requires Entered(InCache(s, p, op), p, op) == At(InCache(s, p, op), p, Leaving(Some(CacheMode(op))))
    ensures Runs(r, s, Call(p, op, 3)) && Final(r, s, Call(p, op, 3)) == s
  {
    var u := At(InCache(s, p, op), p, Leaving(Some(CacheMode(op))));
    CallEnters(r, s, p, op, 1);
    CallLeaves(r, u, p, Some(CacheMode(op)));
    GivenUp(s, p, op);
    assert u.pcs[p := Idle] == s.pcs;
  }

  /** A call that gets a file. The directory may have a new one by then. */
  lemma CallOpens(r: Rules, s: State, p: Pid, op: Op, use: Use, name: Name, i: Ino, now: State)
    requires Ready(r, s, p, op) && i != INFO && !use.Discard? && now.locks == s.locks && now.pcs == s.pcs
    requires Entered(InCache(s, p, op), p, op) ==
             At(now, p, WantFile(use, name, i)).(locks := SetLock(s.locks, p, INFO, CacheMode(op)))
    requires Grantable(s.locks, p, i, FileMode(use))
    ensures Runs(r, s, Call(p, op, 4))
    ensures Final(r, s, Call(p, op, 4)) == now.(locks := s.locks[LockKey(p, i) := if use.Get? then Rd else Wr])
  {
    var u := At(now, p, WantFile(use, name, i)).(locks := SetLock(s.locks, p, INFO, CacheMode(op)));
    CallEnters(r, s, p, op, 2);
    FileLockIsLeft(s, p, op, use, name, i, now);
    CallTakesFile(r, u, p, use, name, i);
  }

  lemma FileLockIsLeft(s: State, p: Pid, op: Op, use: Use, name: Name, i: Ino, now: State)
    requires Safe(s) && p in s.pcs && s.pcs[p].Idle? && i != INFO && !use.Discard? && now.pcs == s.pcs
    requires Grantable(s.locks, p, i, FileMode(use))
    ensures var u := At(now, p, WantFile(use, name, i)).(locks := SetLock(s.locks, p, INFO, CacheMode(op)));
      Grantable(u.locks, p, i, FileMode(use)) && u.pcs[p := Idle] == s.pcs &&
      DropLock(SetLock(u.locks, p, i, if use.Get? then Rd else Wr), p, INFO) ==
        s.locks[LockKey(p, i) := if use.Get? then Rd else Wr]
  {
    StillGrantable(s.locks, p, op, i, FileMode(use));
    FileLockRemains(s, p, op, i, if use.Get? then Rd else Wr);
    GivenUp(s, p, op);
  }

  lemma StillGrantable(locks: LockTable, p: Pid, op: Op, i: Ino, m: Mode)
    requires i != INFO
    ensures Grantable(locks, p, i, m) <==> Grantable(SetLock(locks, p, INFO, CacheMode(op)), p, i, m)
  {
    var locks' := SetLock(locks, p, INFO, CacheMode(op));
    assert forall k: LockKey :: k.ino == i ==> ((k in locks' <==> k in locks) && (k in locks ==> locks'[k] == locks[k]));
  }

  /** get_read_lock: the file is locked for reading and nothing else has changed; a file that is not there leaves
      everything as it was. */
  lemma GetReadLockAlone(r: Rules, s: State, p: Pid, name: Name)
    requires Ready(r, s, p, GetReadLock(name)) && (name in s.dir ==> Grantable(s.locks, p, s.dir[name], Rd))
    ensures var ms := Call(p, GetReadLock(name), if name in s.dir then 4 else 3);
      Runs(r, s, ms) && Final(r, s, ms) == if name in s.dir then s.(locks := s.locks[LockKey(p, s.dir[name]) := Rd]) else s
  {
    var op := GetReadLock(name);
    if name in s.dir {
      assert InCache(s, p, op).pcs[p := WantFile(Get, name, s.dir[name])] == s.pcs[p := WantFile(Get, name, s.dir[name])];
      CallOpens(r, s, p, op, Get, name, s.dir[name], s);
    } else {
      CallReturns(r, s, p, op);
    }
  }

  /** create_and_lock: there is a new empty file, locked for writing, and nothing else has changed; a file that is
      there already leaves everything as it was. */
  lemma CreateAndLockAlone(r: Rules, s: State, p: Pid, name: Name)
    requires Ready(r, s, p, CreateAndLock(name))
    ensures var ms := Call(p, CreateAndLock(name), if name in s.dir then 3 else 4);
      Runs(r, s, ms) &&
      Final(r, s, ms) ==
        if name in s.dir then s
        else s.(dir := s.dir[name := s.next], size := s.size[s.next := 0], next := s.next + 1,
                locks := s.locks[LockKey(p, s.next) := Wr])
  {
    var op := CreateAndLock(name);
    if name in s.dir {
      CallReturns(r, s, p, op);
    } else {
      var pc := WantFile(Create, name, s.next);
      var now := s.(dir := s.dir[name := s.next], size := s.size[s.next := 0], next := s.next + 1);
      assert InCache(s, p, op).pcs[p := pc] == s.pcs[p := pc];
      assert forall k :: k in s.locks ==> k.ino != s.next;
      CallOpens(r, s, p, op, Create, name, s.next, now);
    }
  }

  /** The rest of a call that is about to write the recorded size. */
  lemma CallWrites(r: Rules, s: State, p: Pid, value: nat, c: set<Ino>)
    requires p in s.pcs && s.pcs[p] == Writing(value, map[], c, false)
    ensures Runs(r, s, Moves(p, 2))
    ensures Final(r, s, Moves(p, 2)) ==
      s.(pcs := s.pcs[p := Idle], locks := DropLock(s.locks, p, INFO), counter := value, completed := s.completed + c)
  {
    var v := s.(pcs := s.pcs[p := Leaving(Some(Wr))], counter := value, completed := s.completed + c);
    assert v == Next(r, s, p, Advance);
    assert v.pcs[p := Idle] == s.pcs[p := Idle];
    StepThenMoves(r, s, p, 2);
    CallLeaves(r, v, p, Some(Wr));
  }

  /** update_cache_info: the size of the file has been added to the recorded one, and the file has been counted if
      nobody is writing to it; nothing else has changed. */
  lemma UpdateCacheInfoAlone(r: Rules, s: State, p: Pid, name: Name, i: Ino)
    requires Ready(r, s, p, UpdateCacheInfo(name)) && name in s.dir && s.dir[name] == i
    ensures i in s.size && Runs(r, s, Call(p, UpdateCacheInfo(name), 4))
    ensures Final(r, s, Call(p, UpdateCacheInfo(name), 4)) ==
      s.(counter := s.counter + s.size[i], completed := s.completed + if BeingWritten(s.locks, i) then {} else {i})
  {
    StillWritten(s.locks, p, UpdateCacheInfo(name), i);
    CallCounts(r, s, p, UpdateCacheInfo(name), s.counter + s.size[i], if BeingWritten(s.locks, i) then {} else {i});
  }

  /** A call that has found out what to write as the recorded size. */
  lemma CallCounts(r: Rules, s: State, p: Pid, op: Op, value: nat, c: set<Ino>)
    requires Ready(r, s, p, op)
    requires Entered(InCache(s, p, op), p, op) == At(InCache(s, p, op), p, Writing(value, map[], c, false))
    ensures Runs(r, s, Call(p, op, 4))
    ensures Final(r, s, Call(p, op, 4)) == s.(counter := value, completed := s.completed + c)
  {
    var u := At(InCache(s, p, op), p, Writing(value, map[], c, false));
    CallEnters(r, s, p, op, 2);
    CallWrites(r, u, p, value, c);
    GivenUp(s, p, op);
    assert u.pcs[p := Idle] == s.pcs;
  }

  lemma StillWritten(locks: LockTable, p: Pid, op: Op, i: Ino)
    requires i != INFO
    ensures BeingWritten(SetLock(locks, p, INFO, CacheMode(op)), i) <==> BeingWritten(locks, i)
  {
    var locks' := SetLock(locks, p, INFO, CacheMode(op));
    if k :| k in locks' && k.ino == i && locks'[k] == Wr {
      assert k in locks && locks[k] == Wr;
    }
    if k :| k in locks && k.ino == i && locks[k] == Wr {
      assert k in locks' && locks'[k] == Wr;
    }
  }

  /** get_cache_size changes nothing. */
  lemma GetCacheSizeAlone(r: Rules, s: State, p: Pid)
    requires Ready(r, s, p, GetCacheSize)
    ensures Runs(r, s, Call(p, GetCacheSize, 3)) && Final(r, s, Call(p, GetCacheSize, 3)) == s
  {
    CallReturns(r, s, p, GetCacheSize);
  }

  /** exclusive_to_shared_lock leaves a process with a lock for reading on that file, which nobody has for writing
      then; unlock_and_close leaves it with none. Neither touches anything else. */
  lemma DowngradeAndUnlock(r: Rules, s: State, p: Pid, i: Ino)
    requires Safe(s) && Enabled(r, s, p, ExclusiveToShared(i))
    ensures var t := Next(r, s, p, ExclusiveToShared(i));
      t == s.(locks := s.locks[LockKey(p, i) := Rd]) && forall q :: LockOf(t.locks, q, i) in {None, Some(Rd)}
    ensures var u := Next(r, s, p, UnlockAndClose(i));
      u == s.(locks := s.locks - {LockKey(p, i)}) && LockOf(u.locks, p, i) == None
  {
    var t := Next(r, s, p, ExclusiveToShared(i));
    assert LocksOk(s) && LockKey(p, i) in s.locks;
    forall q ensures LockOf(t.locks, q, i) in {None, Some(Rd)} {
      if q != p && LockKey(q, i) in s.locks {
        assert LockKey(q, i) != LockKey(p, i);
      }
    }
  }

  // ---------------------------------------------------------------------------------------------
  // update_and_purge
  // ---------------------------------------------------------------------------------------------

  /** The purge begins when the total that the scan has found exceeds the limit, and otherwise that total is what will
      be recorded. */
  lemma PurgeBeginsIff(r: Rules, s: State, p: Pid, keep: Name, sizes: map<Name, nat>, counted: set<Ino>)
    requires p in s.pcs && s.pcs[p] == Scanning(keep, {}, sizes, counted)
    ensures Enabled(r, s, p, Advance)
    ensures var pc := Next(r, s, p, Advance).pcs[p];
      if Sum(sizes.Keys, sizes) > r.max then pc == Purging(Sweep(keep, sizes.Keys, sizes, counted, Sum(sizes.Keys, sizes)))
      else pc == Writing(Sum(sizes.Keys, sizes), sizes, counted, true)
  {}

  /** It ends when the target is met or there is no file left to try; until then it cannot end. */
  lemma PurgeEndsIff(r: Rules, s: State, p: Pid, w: Sweep)
    requires p in s.pcs && s.pcs[p] == Purging(w)
    ensures Enabled(r, s, p, Advance) <==> w.total <= r.target || w.left == {}
    ensures forall n: Name :: n in w.left && w.total > r.target <==> Enabled(r, s, p, Pick(n))
    ensures Enabled(r, s, p, Advance) ==>
      Next(r, s, p, Advance).pcs[p] == Writing(w.total, w.sizes, w.counted, true)
  {}

  /** A file is removed in its round exactly when it is not the new one, is still there, and no other process has it
      locked; one that is not removed keeps its size in the total. */
  lemma RemovedIff(r: Rules, s: State, p: Pid, w: Sweep, name: Name)
    requires p in s.pcs && s.pcs[p] == Purging(w) && Enabled(r, s, p, Pick(name))
    ensures var s' := Next(r, s, p, Pick(name)); var w' := w.(left := w.left - {name});
      s'.dir == s.dir &&
      if name != w.keep && name in s.dir && forall q :: q != p ==> LockOf(s.locks, q, s.dir[name]) == None
      then s'.pcs[p] == Unlinking(w', name, s.dir[name]) else s'.pcs[p] == Purging(w')
  {
    if name in s.dir { GrantableIff(s.locks, p, s.dir[name], Wr); }
  }

  /** Removing it takes it out of the directory, its size off the total, and its lock out of the table. */
  lemma RemovalAlone(r: Rules, s: State, p: Pid, w: Sweep, name: Name, i: Ino)
    requires p in s.pcs && s.pcs[p] == Unlinking(w, name, i) && name in w.sizes && w.sizes[name] <= w.total
    ensures Runs(r, s, Moves(p, 2))
    ensures Final(r, s, Moves(p, 2)) ==
      s.(dir := s.dir - {name}, locks := s.locks - {LockKey(p, i)},
         pcs := s.pcs[p := Purging(w.(sizes := w.sizes - {name}, total := w.total - w.sizes[name]))])
  {
    var t := At(s, p, Closing(w, name, i)).(dir := s.dir - {name});
    assert t == Next(r, s, p, Advance);
    var pc := Purging(w.(sizes := w.sizes - {name}, total := w.total - w.sizes[name]));
    assert t.pcs[p := pc] == s.pcs[p := pc];
    StepThenMoves(r, s, p, 2);
    StepThenMoves(r, t, p, 1);
    NoMoves(r, Next(r, t, p, Advance), p);
  }
}
