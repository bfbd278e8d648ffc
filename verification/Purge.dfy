/** update_and_purge as one process sees it, the cache lock in its hands: which files go, in what order, and
    what is written as the new size. */
module Purge {
  /** A file of the cache directory. */
  datatype Entry = Entry(name: string, size: nat, time: int)

  function Total(es: seq<Entry>): nat {
    if es == [] then 0 else es[0].size + Total(es[1..])
  }

  lemma {:induction false} TotalOfConcat(a: seq<Entry>, b: seq<Entry>)
    ensures Total(a + b) == Total(a) + Total(b)
  {
    if a == [] {
      assert a + b == b;
    } else {
      assert (a + b)[1..] == a[1..] + b;
      TotalOfConcat(a[1..], b);
    }
  }

  predicate HasPrefix(e: Entry, prefix: string) {
    prefix <= e.name
  }

  /** The files the cache counts as its own. */
  function Cached(es: seq<Entry>, prefix: string): seq<Entry> {
    if es == [] then []
    else if HasPrefix(es[0], prefix) then [es[0]] + Cached(es[1..], prefix) else Cached(es[1..], prefix)
  }

  predicate Distinct(es: seq<Entry>) {
    forall i, j :: 0 <= i < j < |es| ==> es[i].name != es[j].name
  }

  // ---------------------------------------------------------------------------------------------
  // Sorting by access time
  // ---------------------------------------------------------------------------------------------

  predicate Ordered(es: seq<Entry>) {
    forall i, j :: 0 <= i < j < |es| ==> es[i].time <= es[j].time
  }

  /** Before the first entry that was used later. */
  function Insert(e: Entry, es: seq<Entry>): seq<Entry> {
    if es == [] || e.time <= es[0].time then [e] + es else [es[0]] + Insert(e, es[1..])
  }

  /** Oldest first; entries of the same time keep their order. */
  function SortByTime(es: seq<Entry>): seq<Entry> {
    if es == [] then [] else Insert(es[0], SortByTime(es[1..]))
  }

  lemma {:induction false} InsertKeeps(e: Entry, es: seq<Entry>)
    ensures multiset(Insert(e, es)) == multiset(es) + multiset{e}
    ensures Total(Insert(e, es)) == Total(es) + e.size
  {
    if es == [] || e.time <= es[0].time {
      assert ([e] + es)[1..] == es;
    } else {
      InsertKeeps(e, es[1..]);
      assert es == [es[0]] + es[1..] && ([es[0]] + Insert(e, es[1..]))[1..] == Insert(e, es[1..]);
    }
  }

  /** A bound on the times of all entries. */
  predicate NotBefore(es: seq<Entry>, time: int) {
    forall i :: 0 <= i < |es| ==> time <= es[i].time
  }

  lemma {:induction false} InsertIsOrdered(e: Entry, es: seq<Entry>, time: int)
    requires Ordered(es) && NotBefore(es, time) && time <= e.time
    ensures Ordered(Insert(e, es)) && NotBefore(Insert(e, es), time)
  {
    if es != [] && e.time > es[0].time {
      InsertIsOrdered(e, es[1..], es[0].time);
      var rest, all := Insert(e, es[1..]), Insert(e, es);
      assert forall i :: 0 < i < |all| ==> all[i] == rest[i - 1];
    }
  }

  lemma {:induction false} SortKeeps(es: seq<Entry>)
    ensures multiset(SortByTime(es)) == multiset(es) && Total(SortByTime(es)) == Total(es)
  {
    if es != [] {
      SortKeeps(es[1..]);
      InsertKeeps(es[0], SortByTime(es[1..]));
      assert es == [es[0]] + es[1..];
    }
  }

  /** Sorting orders the files by time and loses none of them. */
  lemma {:induction false} SortIsOrdered(es: seq<Entry>)
    ensures Ordered(SortByTime(es))
    ensures multiset(SortByTime(es)) == multiset(es) && Total(SortByTime(es)) == Total(es)
  {
    SortKeeps(es);
    if es != [] {
      SortIsOrdered(es[1..]);
      var rest := SortByTime(es[1..]);
      InsertIsOrdered(es[0], rest, if rest == [] || es[0].time < rest[0].time then es[0].time else rest[0].time);
    }
  }

  /** The entries of one time. */
  function OfTime(es: seq<Entry>, time: int): seq<Entry> {
    if es == [] then [] else if es[0].time == time then [es[0]] + OfTime(es[1..], time) else OfTime(es[1..], time)
  }

  /** Files last used at the same time stay in the order of the directory. */
  lemma {:induction false} SortIsStable(es: seq<Entry>, time: int)
    ensures OfTime(SortByTime(es), time) == OfTime(es, time)
  {
    if es != [] {
      SortIsStable(es[1..], time);
      SortIsOrdered(es[1..]);
      InsertIsStable(es[0], SortByTime(es[1..]), time);
    }
  }

  lemma {:induction false} InsertIsStable(e: Entry, es: seq<Entry>, time: int)
    requires Ordered(es)
    ensures OfTime(Insert(e, es), time) == (if e.time == time then [e] else []) + OfTime(es, time)
  {
    if es == [] || e.time <= es[0].time {
      assert ([e] + es)[1..] == es;
    } else {
      InsertIsStable(e, es[1..], time);
      assert ([es[0]] + Insert(e, es[1..]))[1..] == Insert(e, es[1..]);
      if e.time == time && es[0].time < time { assert OfTime(es, time) == OfTime(es[1..], time); }
    }
  }

  // ---------------------------------------------------------------------------------------------
  // Purging
  // ---------------------------------------------------------------------------------------------

  /** May this process remove the file: not the one it has just added, and not locked by another? */
  predicate Eligible(e: Entry, newFile: string, busy: set<string>) {
    e.name != newFile && e.name !in busy
  }

  function EligibleOnly(es: seq<Entry>, newFile: string, busy: set<string>): seq<Entry> {
    if es == [] then []
    else if Eligible(es[0], newFile, busy) then [es[0]] + EligibleOnly(es[1..], newFile, busy)
    else EligibleOnly(es[1..], newFile, busy)
  }

  /** The directory without the files of those names. */
  function Without(es: seq<Entry>, names: set<string>): seq<Entry> {
    if es == [] then []
    else if es[0].name in names then Without(es[1..], names) else [es[0]] + Without(es[1..], names)
  }

  function Names(es: seq<Entry>): set<string> {
    set e | e in es :: e.name
  }

  lemma {:induction false} EligibleApart(a: seq<Entry>, e: Entry, newFile: string, busy: set<string>)
    ensures EligibleOnly(a + [e], newFile, busy) ==
            EligibleOnly(a, newFile, busy) + if Eligible(e, newFile, busy) then [e] else []
  {
    if a == [] {
      assert [e][1..] == [] && a + [e] == [e];
    } else {
      assert (a + [e])[1..] == a[1..] + [e];
      EligibleApart(a[1..], e, newFile, busy);
    }
  }

  lemma {:induction false} WithoutTwice(es: seq<Entry>, a: set<string>, b: set<string>)
    ensures Without(Without(es, a), b) == Without(es, a + b)
  {
    if es != [] {
      WithoutTwice(es[1..], a, b);
      if es[0].name !in a { assert ([es[0]] + Without(es[1..], a))[1..] == Without(es[1..], a); }
    }
  }

  lemma {:induction false} WithoutNone(es: seq<Entry>)
    ensures Without(es, {}) == es
  {
    if es != [] { WithoutNone(es[1..]); }
  }

  lemma {:induction false} WithoutOther(es: seq<Entry>, name: string)
    requires forall i :: 0 <= i < |es| ==> es[i].name != name
    ensures Without(es, {name}) == es
  {
    if es != [] { WithoutOther(es[1..], name); }
  }

  /** Removing one file of the cache takes its size off the total. */
  lemma {:induction false} TotalWithoutOne(es: seq<Entry>, e: Entry, prefix: string)
    requires Distinct(es) && e in es && HasPrefix(e, prefix)
    ensures Total(Cached(Without(es, {e.name}), prefix)) + e.size == Total(Cached(es, prefix))
  {
    var rest := es[1..];
    TotalOfConcat([es[0]], Cached(rest, prefix));
    if es[0] == e {
      assert forall i :: 0 <= i < |rest| ==> rest[i] == es[i + 1];
      WithoutOther(rest, e.name);
      assert ([es[0]] + Cached(rest, prefix))[1..] == Cached(rest, prefix);
    } else {
      assert e in rest && es[0].name != e.name;
      TotalWithoutOne(rest, e, prefix);
      var kept := Without(rest, {e.name});
      assert ([es[0]] + kept)[1..] == kept;
      TotalOfConcat([es[0]], Cached(kept, prefix));
    }
  }

  lemma {:induction false} MembersOfCached(es: seq<Entry>, e: Entry, prefix: string)
    ensures e in Cached(es, prefix) <==> e in es && HasPrefix(e, prefix)
  {
    if es != [] { MembersOfCached(es[1..], e, prefix); }
  }

  lemma {:induction false} MembersOfWithout(es: seq<Entry>, e: Entry, names: set<string>)
    ensures e in Without(es, names) <==> e in es && e.name !in names
  {
    if es != [] { MembersOfWithout(es[1..], e, names); }
  }

  lemma {:induction false} MembersOfEligible(es: seq<Entry>, e: Entry, newFile: string, busy: set<string>)
    ensures e in EligibleOnly(es, newFile, busy) <==> e in es && Eligible(e, newFile, busy)
  {
    if es != [] { MembersOfEligible(es[1..], e, newFile, busy); }
  }

  lemma MembersOfSorted(es: seq<Entry>, e: Entry)
    ensures e in SortByTime(es) <==> e in es
  {
    SortIsOrdered(es);
    assert e in SortByTime(es) <==> e in multiset(SortByTime(es));
    assert e in es <==> e in multiset(es);
  }

  lemma {:induction false} WithoutIsDistinct(es: seq<Entry>, names: set<string>)
    requires Distinct(es)
    ensures Distinct(Without(es, names))
  {
    if es != [] {
      var rest := es[1..];
      assert forall i :: 0 <= i < |rest| ==> rest[i] == es[i + 1];
      WithoutIsDistinct(rest, names);
      forall e | e in Without(rest, names) ensures e.name != es[0].name { MembersOfWithout(rest, e, names); }
    }
  }

  // ---------------------------------------------------------------------------------------------
  // What a purge comes to
  // ---------------------------------------------------------------------------------------------

  /** A file that the purge may remove: of the cache, not the new one, and locked by no other process. */
  predicate Removable(e: Entry, prefix: string, newFile: string, busy: set<string>) {
    prefix <= e.name && e.name != newFile && e.name !in busy
  }

  /** Only such files go, and of two of them the one used longer ago goes first. */
  ghost predicate OldestFirst(before: seq<Entry>, after: seq<Entry>, prefix: string, newFile: string, busy: set<string>) {
    (forall e :: e in before && e !in after ==> Removable(e, prefix, newFile, busy)) &&
    (forall e, f :: e in before && e !in after && f in before && Removable(f, prefix, newFile, busy) && f.time < e.time ==>
       f !in after)
  }

  /** No file goes while the cache is within its limit; otherwise the target is met unless nothing removable is
      left, and the last file to go was needed: with it the target was still exceeded. */
  ghost predicate JustEnough(before: seq<Entry>, after: seq<Entry>, prefix: string, newFile: string, busy: set<string>,
                             max: nat, target: nat)
  {
    var left := Total(Cached(after, prefix));
    (Total(Cached(before, prefix)) <= max ==> after == before) &&
    (Total(Cached(before, prefix)) > max ==>
       left <= target || forall e :: e in after ==> !Removable(e, prefix, newFile, busy)) &&
    (after != before ==> exists e :: e in before && e !in after && left + e.size > target)
  }

  predicate Absent(es: seq<Entry>, name: string) {
    forall i :: 0 <= i < |es| ==> es[i].name != name
  }

  lemma {:induction false} InsertIsDistinct(e: Entry, es: seq<Entry>, name: string)
    requires Distinct(es) && Absent(es, e.name)
    ensures Distinct(Insert(e, es))
    ensures Absent(es, name) && name != e.name ==> Absent(Insert(e, es), name)
  {
    if es == [] || e.time <= es[0].time {
    } else {
      var tail, rest, all := es[1..], Insert(e, es[1..]), Insert(e, es);
      assert forall i :: 0 <= i < |tail| ==> tail[i] == es[i + 1];
      InsertIsDistinct(e, tail, es[0].name);
      InsertIsDistinct(e, tail, name);
      assert Absent(rest, es[0].name);
      assert forall i :: 0 < i < |all| ==> all[i] == rest[i - 1];
    }
  }

  lemma {:induction false} SortIsDistinct(es: seq<Entry>)
    requires Distinct(es)
    ensures Distinct(SortByTime(es))
  {
    if es != [] {
      var rest := SortByTime(es[1..]);
      assert forall i :: 0 <= i < |es[1..]| ==> es[1..][i] == es[i + 1];
      SortIsDistinct(es[1..]);
      forall j | 0 <= j < |rest| ensures es[0].name != rest[j].name {
        MembersOfSorted(es[1..], rest[j]);
      }
      InsertIsDistinct(es[0], rest, "");
    }
  }

  lemma {:induction false} CachedIsDistinct(es: seq<Entry>, prefix: string)
    requires Distinct(es)
    ensures Distinct(Cached(es, prefix))
  {
    if es != [] {
      var rest := Cached(es[1..], prefix);
      assert forall i :: 0 <= i < |es[1..]| ==> es[1..][i] == es[i + 1];
      CachedIsDistinct(es[1..], prefix);
      forall j | 0 <= j < |rest| ensures es[0].name != rest[j].name {
        MembersOfCached(es[1..], rest[j], prefix);
      }
    }
  }

  /** Does the loop over the sorted files end after the first k? The cache was too big to begin with; before
      each of the k it was still above the target; and after them it no longer is, or there are no more. */
  predicate StopsAt(sorted: seq<Entry>, newFile: string, busy: set<string>, max: nat, target: nat, k: nat) {
    k <= |sorted| &&
    (Total(sorted) <= max ==> k == 0) &&
    Above(sorted, newFile, busy, target, k) &&
    (Total(sorted) > max ==> k == |sorted| || Remaining(sorted, newFile, busy, k) <= target)
  }

  predicate Above(sorted: seq<Entry>, newFile: string, busy: set<string>, target: nat, k: nat)
    requires k <= |sorted|
  {
    forall j :: 0 <= j < k ==> Remaining(sorted, newFile, busy, j) > target
  }

  /** What the cache holds once the eligible files among the first j have gone. */
  function Remaining(sorted: seq<Entry>, newFile: string, busy: set<string>, j: nat): int
    requires j <= |sorted|
  {
    Total(sorted) - Total(EligibleOnly(sorted[..j], newFile, busy))
  }

  /** There is one such k: the purge goes as far as it must, and no further. */
  lemma StopsOnce(sorted: seq<Entry>, newFile: string, busy: set<string>, max: nat, target: nat, k: nat, l: nat)
    requires StopsAt(sorted, newFile, busy, max, target, k) && StopsAt(sorted, newFile, busy, max, target, l)
    ensures k == l
  {
    var atK, atL := Remaining(sorted, newFile, busy, k), Remaining(sorted, newFile, busy, l);
    assert Total(sorted) > max && k < |sorted| ==> atK <= target;
    assert Total(sorted) > max && l < |sorted| ==> atL <= target;
  }

  /** The cache directory, with what the info file records. */
  class CacheDirectory {
    const prefix: string
    const maxSize: nat
    const targetSize: nat
    var files: seq<Entry>
    var recorded: nat

    constructor (prefix: string, maxSize: nat, targetSize: nat)
      ensures this.prefix == prefix && this.maxSize == maxSize && this.targetSize == targetSize
      ensures files == [] && recorded == 0
    {
      this.prefix, this.maxSize, this.targetSize := prefix, maxSize, targetSize;
      files, recorded := [], 0;
    }

    /** m_collect_cache_dir_info */
    method Collect() returns (contents: seq<Entry>, currentSize: nat)
      ensures contents == SortByTime(Cached(files, prefix)) && currentSize == Total(contents)
    {
      var names: seq<Entry> := [];
      currentSize := 0;
      var i := 0;
      while i < |files|
        invariant i <= |files| && names + Cached(files[i..], prefix) == Cached(files, prefix)
        invariant currentSize == Total(names)
      {
        var rest := files[i + 1..];
        assert files[i..][0] == files[i] && files[i..][1..] == rest;
        if HasPrefix(files[i], prefix) {
          TotalOfConcat(names, [files[i]]);
          assert names + ([files[i]] + Cached(rest, prefix)) == (names + [files[i]]) + Cached(rest, prefix);
          names := names + [files[i]];
          currentSize := currentSize + files[i].size;
        }
        i := i + 1;
      }
      assert names + [] == names;
      SortIsOrdered(names);
      contents := SortByTime(names);
    }

    /** The loop of update_and_purge: from the oldest file on, until the target is reached. */
    method RemoveOldest(contents: seq<Entry>, currentSize: nat, newFile: string, busy: set<string>, ghost before: seq<Entry>)
      returns (computedSize: nat, k: nat)
      requires InLoop(before, files, prefix, contents, newFile, busy, targetSize, 0, currentSize)
      modifies this`files
      ensures InLoop(before, files, prefix, contents, newFile, busy, targetSize, k, computedSize)
      ensures k == |contents| || computedSize <= targetSize
    {
      k, computedSize := 0, currentSize;
      while k < |contents| && computedSize > targetSize
        invariant InLoop(before, files, prefix, contents, newFile, busy, targetSize, k, computedSize)
      {
        var i := contents[k];
        SweepOne(before, files, prefix, contents, newFile, busy, targetSize, k, computedSize);
        k := k + 1;
        if i.name != newFile && i.name !in busy {
          files := Without(files, {i.name});
          computedSize := computedSize - i.size;
        }
      }
    }

    /** update_and_purge. The number of sorted files that the loop has looked at is returned. */
    method UpdateAndPurge(newFile: string, busy: set<string>) returns (k: nat)
      requires Distinct(files)
      modifies this
      ensures var sorted := SortByTime(Cached(old(files), prefix));
              StopsAt(sorted, newFile, busy, maxSize, targetSize, k) &&
              files == Without(old(files), Names(EligibleOnly(sorted[..k], newFile, busy)))
      ensures Distinct(files) && recorded == Total(Cached(files, prefix))
      ensures OldestFirst(old(files), files, prefix, newFile, busy)
      ensures JustEnough(old(files), files, prefix, newFile, busy, maxSize, targetSize)
    {
      var contents, computedSize := Collect();
      ghost var before := files;
      k := 0;
      PrepareLoop(before, prefix, newFile, busy);
      if computedSize > maxSize {
        assert InLoop(before, files, prefix, contents, newFile, busy, targetSize, k, computedSize);
        computedSize, k := RemoveOldest(contents, computedSize, newFile, busy, before);
      }
      recorded := computedSize;
      assert contents[..0] == [];
      WithoutIsDistinct(before, Names(EligibleOnly(contents[..k], newFile, busy)));
      PurgedOldestFirst(before, files, prefix, contents, newFile, busy, k);
      PurgedJustEnough(before, files, prefix, contents, newFile, busy, maxSize, targetSize, k);
    }
  }

  /** The directory after the first k of the sorted files have been seen to. */
  predicate SweptTo(before: seq<Entry>, after: seq<Entry>, prefix: string, sorted: seq<Entry>, newFile: string,
                    busy: set<string>, k: nat)
  {
    k <= |sorted| && sorted == SortByTime(Cached(before, prefix)) &&
    after == Without(before, Names(EligibleOnly(sorted[..k], newFile, busy)))
  }

  lemma PrepareLoop(before: seq<Entry>, prefix: string, newFile: string, busy: set<string>)
    requires Distinct(before)
    ensures SweptTo(before, before, prefix, SortByTime(Cached(before, prefix)), newFile, busy, 0)
    ensures Total(SortByTime(Cached(before, prefix))) == Total(Cached(before, prefix))
  {
    SortKeeps(Cached(before, prefix));
    WithoutNone(before);
    assert Names([]) == {};
  }

  /** What holds each time round the loop. */
  predicate InLoop(before: seq<Entry>, after: seq<Entry>, prefix: string, sorted: seq<Entry>, newFile: string,
                   busy: set<string>, target: nat, k: nat, computed: nat)
  {
    Distinct(before) && SweptTo(before, after, prefix, sorted, newFile, busy, k) &&
    Above(sorted, newFile, busy, target, k) &&
    computed == Total(Cached(after, prefix)) && computed == Remaining(sorted, newFile, busy, k)
  }

  /** The next file is still in the directory, and what removing it does. */
  lemma SweepOne(before: seq<Entry>, after: seq<Entry>, prefix: string, sorted: seq<Entry>, newFile: string,
                 busy: set<string>, target: nat, k: nat, computed: nat)
    requires InLoop(before, after, prefix, sorted, newFile, busy, target, k, computed) && k < |sorted| && computed > target
    ensures var e := sorted[k];
            if e.name != newFile && e.name !in busy then
              e.size <= computed &&
              InLoop(before, Without(after, {e.name}), prefix, sorted, newFile, busy, target, k + 1, computed - e.size)
            else InLoop(before, after, prefix, sorted, newFile, busy, target, k + 1, computed)
  {
    var e, gone := sorted[k], EligibleOnly(sorted[..k], newFile, busy);
    assert sorted[..k + 1] == sorted[..k] + [e];
    EligibleApart(sorted[..k], e, newFile, busy);
    if Eligible(e, newFile, busy) {
      assert Names(gone + [e]) == Names(gone) + {e.name};
      WithoutTwice(before, Names(gone), {e.name});
      WithoutIsDistinct(before, Names(gone));
      StillThere(before, after, prefix, sorted, newFile, busy, k);
      TotalWithoutOne(after, e, prefix);
      TotalOfConcat(gone, [e]);
    } else {
      assert gone + [] == gone;
    }
  }

  lemma StillThere(before: seq<Entry>, after: seq<Entry>, prefix: string, sorted: seq<Entry>, newFile: string,
                   busy: set<string>, k: nat)
    requires Distinct(before) && SweptTo(before, after, prefix, sorted, newFile, busy, k) && k < |sorted|
    ensures sorted[k] in after && HasPrefix(sorted[k], prefix)
  {
    var e, gone := sorted[k], EligibleOnly(sorted[..k], newFile, busy);
    CachedIsDistinct(before, prefix);
    SortIsDistinct(Cached(before, prefix));
    MembersOfSorted(Cached(before, prefix), e);
    MembersOfCached(before, e, prefix);
    forall x | x in gone ensures x.name != e.name {
      MembersOfEligible(sorted[..k], x, newFile, busy);
      var j :| 0 <= j < k && sorted[j] == x;
    }
    MembersOfWithout(before, e, Names(gone));
  }

  /** What has gone are the removable ones among the first k. */
  lemma GoneIff(before: seq<Entry>, after: seq<Entry>, prefix: string, sorted: seq<Entry>, newFile: string,
                busy: set<string>, k: nat, e: Entry)
    requires Distinct(before) && SweptTo(before, after, prefix, sorted, newFile, busy, k) && e in before
    ensures e !in after <==> e in sorted[..k] && e.name != newFile && e.name !in busy
    ensures e in sorted <==> prefix <= e.name
  {
    var gone := EligibleOnly(sorted[..k], newFile, busy);
    MembersOfSorted(Cached(before, prefix), e);
    MembersOfCached(before, e, prefix);
    MembersOfWithout(before, e, Names(gone));
    MembersOfEligible(sorted[..k], e, newFile, busy);
    forall x | x in gone && x.name == e.name ensures x == e {
      MembersOfEligible(sorted[..k], x, newFile, busy);
      MembersOfSorted(Cached(before, prefix), x);
      MembersOfCached(before, x, prefix);
    }
  }

  lemma PurgedOldestFirst(before: seq<Entry>, after: seq<Entry>, prefix: string, sorted: seq<Entry>, newFile: string,
                          busy: set<string>, k: nat)
    requires Distinct(before) && SweptTo(before, after, prefix, sorted, newFile, busy, k)
    ensures OldestFirst(before, after, prefix, newFile, busy)
  {
    forall e | e in before && e !in after ensures Removable(e, prefix, newFile, busy) {
      GoneIff(before, after, prefix, sorted, newFile, busy, k, e);
      assert e in sorted;
    }
    forall e, f | e in before && e !in after && f in before && Removable(f, prefix, newFile, busy) && f.time < e.time
      ensures f !in after
    {
      GoneIff(before, after, prefix, sorted, newFile, busy, k, e);
      GoneIff(before, after, prefix, sorted, newFile, busy, k, f);
      SortIsOrdered(Cached(before, prefix));
      OlderIsAmongFirst(sorted, k, e, f);
    }
  }

  lemma OlderIsAmongFirst(sorted: seq<Entry>, k: nat, e: Entry, f: Entry)
    requires Ordered(sorted) && k <= |sorted| && e in sorted[..k] && f in sorted && f.time < e.time
    ensures f in sorted[..k]
  {
    var i :| 0 <= i < k && sorted[..k][i] == e;
    var j :| 0 <= j < |sorted| && sorted[j] == f;
    assert sorted[i] == e && j < i && sorted[..k][j] == f;
  }

  lemma PurgedJustEnough(before: seq<Entry>, after: seq<Entry>, prefix: string, sorted: seq<Entry>, newFile: string,
                         busy: set<string>, max: nat, target: nat, k: nat)
    requires Distinct(before) && SweptTo(before, after, prefix, sorted, newFile, busy, k)
    requires StopsAt(sorted, newFile, busy, max, target, k)
    requires Total(Cached(after, prefix)) == Remaining(sorted, newFile, busy, k)
    ensures JustEnough(before, after, prefix, newFile, busy, max, target)
  {
    SortKeeps(Cached(before, prefix));
    WithoutNone(before);
    forall e | e in before ensures e !in after <==> e in sorted[..k] && e.name != newFile && e.name !in busy
                           ensures e in sorted <==> prefix <= e.name
    {
      GoneIff(before, after, prefix, sorted, newFile, busy, k, e);
    }
    if k == |sorted| {
      assert sorted[..k] == sorted;
      forall e | e in after ensures e in before { MembersOfWithout(before, e, Names(EligibleOnly(sorted, newFile, busy))); }
    }
    if after != before {
      LastGone(before, sorted, newFile, busy, target, k);
      var j :| 0 <= j < k && Eligible(sorted[j], newFile, busy) &&
               Remaining(sorted, newFile, busy, k) + sorted[j].size > target;
      var e := sorted[j];
      MembersOfSorted(Cached(before, prefix), e);
      MembersOfCached(before, e, prefix);
      assert sorted[..k][j] == e;
    }
  }

  /** The last of them to go. */
  lemma {:induction false} LastGone(before: seq<Entry>, sorted: seq<Entry>, newFile: string, busy: set<string>, target: nat,
                                    k: nat)
    requires k <= |sorted| && Above(sorted, newFile, busy, target, k)
    requires Without(before, Names(EligibleOnly(sorted[..k], newFile, busy))) != before
    ensures exists j :: 0 <= j < k && Eligible(sorted[j], newFile, busy) &&
                        Remaining(sorted, newFile, busy, k) + sorted[j].size > target
  {
    if k == 0 {
      assert Names([]) == {};
      WithoutNone(before);
    } else {
      var e := sorted[k - 1];
      assert sorted[..k] == sorted[..k - 1] + [e];
      EligibleApart(sorted[..k - 1], e, newFile, busy);
      var gone := EligibleOnly(sorted[..k - 1], newFile, busy);
      assert Remaining(sorted, newFile, busy, k - 1) > target;
      if Eligible(e, newFile, busy) {
        TotalOfConcat(gone, [e]);
      } else {
        assert gone + [] == gone;
        LastGone(before, sorted, newFile, busy, target, k - 1);
      }
    }
  }
}
