/** Putting variables into the current projection: which flags mark and mark_all set. */
module Marking {
  import opened Wrappers
  import opened Text
  import opened Types
  import opened Variables
  import opened Lookup
  import opened Erasure
  import opened Finder
  import Printer = DdxPrinter
  import Machine = DdxMachine
  import RoundTrip = DdxRoundTrip

  /** set_send_p of a variable: its flag and those of everything in it. */
  function MarkTree(v: Var, state: bool): Var {
    v.(send := state, kids := MarkTrees(v.kids, state))
  }

  function MarkTrees(vs: seq<Var>, state: bool): (r: seq<Var>)
    ensures |r| == |vs|
  {
    if vs == [] then [] else [MarkTree(vs[0], state)] + MarkTrees(vs[1..], state)
  }

  /** The tree with the variable at that path replaced. */
  function Replaced(v: Var, rel: Path, w: Var): Var
    requires Below(v, rel).Some?
    decreases |rel|
  {
    if rel == [] then w else v.(kids := v.kids[rel[0] := Replaced(v.kids[rel[0]], rel[1..], w)])
  }

  /** The dataset's variables with the one at that path replaced. */
  function TopReplaced(vs: seq<Var>, p: Path, w: Var): seq<Var>
    requires TopBelow(vs, p).Some?
  {
    vs[p[0] := Replaced(vs[p[0]], p[1..], w)]
  }

  predicate Sent(vs: seq<Var>, q: Path) {
    TopBelow(vs, q).Some? && TopBelow(vs, q).value.send
  }

  predicate SentIn(v: Var, rel: Path) {
    Below(v, rel).Some? && Below(v, rel).value.send
  }

  lemma {:induction false} MarkedAt(vs: seq<Var>, i: nat, state: bool)
    requires i < |vs|
    ensures MarkTrees(vs, state)[i] == MarkTree(vs[i], state)
    decreases |vs|
  {
    if i > 0 { MarkedAt(vs[1..], i - 1, state); }
  }

  /** Marking a tree changes flags only, and all of them. */
  lemma {:induction false} MarkTreeErased(v: Var, state: bool)
    ensures Erased(MarkTree(v, state)) == Erased(v)
    decreases v
  {
    MarkTreesErased(v.kids, state);
  }

  lemma {:induction false} MarkTreesErased(vs: seq<Var>, state: bool)
    ensures AllErased(MarkTrees(vs, state)) == AllErased(vs)
    decreases vs
  {
    if vs != [] {
      MarkTreeErased(vs[0], state);
      MarkTreesErased(vs[1..], state);
      assert MarkTrees(vs, state)[1..] == MarkTrees(vs[1..], state);
    }
  }

  lemma {:induction false} MarkTreeSent(v: Var, rel: Path, state: bool)
    ensures Below(MarkTree(v, state), rel).Some? <==> Below(v, rel).Some?
    ensures SentIn(MarkTree(v, state), rel) <==> state && Below(v, rel).Some?
    decreases |rel|
  {
    if rel != [] && rel[0] < |v.kids| {
      MarkedAt(v.kids, rel[0], state);
      MarkTreeSent(v.kids[rel[0]], rel[1..], state);
    }
  }

  /** Replacing a variable changes the flags in it, and no other. */
  lemma {:induction false} ReplacedSent(v: Var, rel: Path, w: Var, q: Path)
    requires Below(v, rel).Some?
    ensures rel <= q ==> SentIn(Replaced(v, rel, w), q) == SentIn(w, q[|rel|..])
    ensures !(rel <= q) ==> SentIn(Replaced(v, rel, w), q) == SentIn(v, q)
    decreases |rel|
  {
    if rel != [] && q != [] && q[0] == rel[0] {
      ReplacedSent(v.kids[rel[0]], rel[1..], w, q[1..]);
      assert rel <= q <==> rel[1..] <= q[1..] by {
        if rel[1..] <= q[1..] { assert rel == [rel[0]] + rel[1..] && q == [q[0]] + q[1..]; }
      }
    }
  }

  lemma {:induction false} ReplacedErased(v: Var, rel: Path, w: Var)
    requires Below(v, rel).Some? && Erased(w) == Erased(Below(v, rel).value)
    ensures Erased(Replaced(v, rel, w)) == Erased(v)
    decreases |rel|
  {
    if rel != [] {
      ReplacedErased(v.kids[rel[0]], rel[1..], w);
      OneErased(v.kids, rel[0], Replaced(v.kids[rel[0]], rel[1..], w));
    }
  }

  lemma OneErased(vs: seq<Var>, i: nat, w: Var)
    requires i < |vs| && Erased(w) == Erased(vs[i])
    ensures AllErased(vs[i := w]) == AllErased(vs)
  {
    var us := vs[i := w];
    forall k | 0 <= k < |vs| ensures AllErased(us)[k] == AllErased(vs)[k] {
      ErasedAt(us, k);
      ErasedAt(vs, k);
    }
  }

  lemma TopReplacedSent(vs: seq<Var>, p: Path, w: Var, q: Path)
    requires TopBelow(vs, p).Some?
    ensures p <= q ==> Sent(TopReplaced(vs, p, w), q) == SentIn(w, q[|p|..])
    ensures !(p <= q) ==> Sent(TopReplaced(vs, p, w), q) == Sent(vs, q)
  {
    if q != [] && q[0] == p[0] {
      ReplacedSent(vs[p[0]], p[1..], w, q[1..]);
      assert p == [p[0]] + p[1..] && q == [q[0]] + q[1..];
      assert p <= q <==> p[1..] <= q[1..];
      assert p <= q ==> q[1..][|p[1..]|..] == q[|p|..];
    }
  }

  lemma TopReplacedErased(vs: seq<Var>, p: Path, w: Var)
    requires TopBelow(vs, p).Some? && Erased(w) == Erased(TopBelow(vs, p).value)
    ensures AllErased(TopReplaced(vs, p, w)) == AllErased(vs)
  {
    ReplacedErased(vs[p[0]], p[1..], w);
    OneErased(vs, p[0], Replaced(vs[p[0]], p[1..], w));
  }

  /** set_send_p(true) of the variable found. */
  lemma MarkedSent(vs: seq<Var>, p: Path)
    requires TopBelow(vs, p).Some?
    ensures var us := TopReplaced(vs, p, MarkTree(TopBelow(vs, p).value, true));
            AllErased(us) == AllErased(vs) &&
            forall q :: Sent(us, q) <==> Sent(vs, q) || (p <= q && TopBelow(vs, q).Some?)
  {
    var v := TopBelow(vs, p).value;
    MarkTreeErased(v, true);
    TopReplacedErased(vs, p, MarkTree(v, true));
    forall q ensures Sent(TopReplaced(vs, p, MarkTree(v, true)), q) <==>
                       Sent(vs, q) || (p <= q && TopBelow(vs, q).Some?) {
      TopReplacedSent(vs, p, MarkTree(v, true), q);
      if p <= q {
        MarkTreeSent(v, q[|p|..], true);
        assert q[1..] == p[1..] + q[|p|..];
        BelowApart(vs[p[0]], p[1..], q[|p|..]);
      }
    }
  }

  /** BaseType::set_send_p(true) of one variable on the path. */
  lemma FlaggedSent(vs: seq<Var>, p: Path)
    requires TopBelow(vs, p).Some?
    ensures var us := TopReplaced(vs, p, TopBelow(vs, p).value.(send := true));
            AllErased(us) == AllErased(vs) && forall q :: Sent(us, q) <==> Sent(vs, q) || q == p
  {
    var v := TopBelow(vs, p).value;
    TopReplacedErased(vs, p, v.(send := true));
    forall q ensures Sent(TopReplaced(vs, p, v.(send := true)), q) <==> Sent(vs, q) || q == p {
      TopReplacedSent(vs, p, v.(send := true), q);
      if p <= q {
        var rel := q[|p|..];
        assert q[1..] == p[1..] + rel;
        BelowApart(vs[p[0]], p[1..], rel);
        if rel != [] { assert Below(v.(send := true), rel) == Below(v, rel); }
        assert rel == [] <==> q == p;
      }
    }
  }

  lemma MarkTreesSent(vs: seq<Var>, state: bool, q: Path)
    ensures Sent(MarkTrees(vs, state), q) <==> state && TopBelow(vs, q).Some?
  {
    if q != [] && q[0] < |vs| {
      MarkedAt(vs, q[0], state);
      MarkTreeSent(vs[q[0]], q[1..], state);
    }
  }

  /** Does marking the variable at p put the one at q into the projection? It does so for the variable, its
      descendants and its ancestors; only an array whose template of simple type has been found is left out. */
  predicate Covers(vs: seq<Var>, p: Path, q: Path) {
    TopBelow(vs, q).Some? && (p <= q || (q < p && !(TopSimpleTemplate(vs, p) && |q| == |p| - 1)))
  }

  ghost predicate MarksExactly(before: seq<Var>, after: seq<Var>, p: Path) {
    AllErased(after) == AllErased(before) && forall q :: Sent(after, q) <==> Sent(before, q) || Covers(before, p, q)
  }

  /** Prefixes of a path lead to variables too. */
  lemma {:induction false} BelowPrefix(v: Var, rel: Path, q: Path)
    requires Below(v, rel).Some? && q <= rel
    ensures Below(v, q).Some?
    decreases |q|
  {
    if q != [] { BelowPrefix(v.kids[q[0]], rel[1..], q[1..]); }
  }

  lemma TopBelowPrefix(vs: seq<Var>, p: Path, q: Path)
    requires TopBelow(vs, p).Some? && q <= p && q != []
    ensures TopBelow(vs, q).Some?
  {
    BelowPrefix(vs[p[0]], p[1..], q[1..]);
  }

  /** The stack holds what the search promises: the ancestors that marking is to set. */
  lemma StackCovers(vs: seq<Var>, name: string, q: Path)
    requires AllWellFormed(vs) && AllUndotted(vs) && VarOf(vs, name).found.Some?
    ensures var r := VarOf(vs, name); var p := r.found.value.path;
            TopBelow(vs, p).Some? && (q in r.pushed ==> TopBelow(vs, q).Some?) &&
            (Covers(vs, p, q) <==> (p <= q && TopBelow(vs, q).Some?) || q in r.pushed)
  {
    StackIsAncestorsIff(vs, name);
    VarOfOk(vs, name);
    var r := VarOf(vs, name);
    var p := r.found.value.path;
    assert q in r.pushed <==> 1 <= |q| < (if TopSimpleTemplate(vs, p) then |p| - 1 else |p|) && q <= p;
    if q <= p && q != [] { TopBelowPrefix(vs, p, q); }
  }

  /** The dataset, whose variables marking updates in place. */
  class DDS {
    var vars: seq<Var>

    constructor (vars: seq<Var>)
      ensures this.vars == vars
    {
      this.vars := vars;
    }

    /** mark_all */
    method MarkAll(state: bool)
      modifies this
      ensures vars == MarkTrees(old(vars), state)
    {
      var i := 0;
      while i < |vars|
        invariant i <= |vars| == |old(vars)|
        invariant forall j :: 0 <= j < |vars| ==> vars[j] == if j < i then MarkTree(old(vars)[j], state) else old(vars)[j]
      {
        vars := vars[i := MarkTree(vars[i], state)];
        i := i + 1;
      }
      forall j | 0 <= j < |vars| ensures vars[j] == MarkTrees(old(vars), state)[j] { MarkedAt(old(vars), j, state); }
    }

    /** mark with the state true: find the variable, mark it with all that is in it, and then the variables on
        the path stack, one by one from its top. */
    method Mark(n: string) returns (ok: bool)
      requires AllWellFormed(vars) && AllUndotted(vars)
      modifies this
      ensures ok <==> VarOf(old(vars), Www2id(n, 0)).found.Some?
      ensures if ok then MarksExactly(old(vars), vars, VarOf(old(vars), Www2id(n, 0)).found.value.path)
              else vars == old(vars)
    {
      var s := new PathStack();
      var found := FindVar(vars, Www2id(n, 0), s);
      if found.None? { return false; }
      ghost var before, r := vars, VarOf(vars, Www2id(n, 0));
      forall q ensures Covers(before, r.found.value.path, q) <==>
                         (r.found.value.path <= q && TopBelow(before, q).Some?) || q in r.pushed
      {
        StackCovers(before, Www2id(n, 0), q);
      }
      StackIsAncestorsIff(vars, Www2id(n, 0));
      MarkedSent(vars, found.value.path);
      vars := TopReplaced(vars, found.value.path, MarkTree(found.value.v, true));
      assert s.items == r.pushed;
      UnwindStack(before, found.value.path, s, Www2id(n, 0));
      return true;
    }

    method UnwindStack(ghost before: seq<Var>, ghost p: Path, s: PathStack, ghost name: string)
      requires AllWellFormed(before) && AllUndotted(before) && VarOf(before, name).found.Some?
      requires p == VarOf(before, name).found.value.path && s.items == VarOf(before, name).pushed
      requires AllErased(vars) == AllErased(before)
      requires forall q :: Sent(vars, q) <==> Sent(before, q) || (p <= q && TopBelow(before, q).Some?)
      modifies this, s
      ensures AllErased(vars) == AllErased(before)
      ensures forall q :: Sent(vars, q) <==>
                Sent(before, q) || (p <= q && TopBelow(before, q).Some?) || q in old(s.items)
    {
      ghost var pushed := s.items;
      while s.items != []
        invariant |s.items| <= |pushed| && s.items == pushed[..|s.items|]
        invariant AllErased(vars) == AllErased(before)
        invariant SentDownTo(before, vars, p, pushed, |s.items|)
        decreases |s.items|
      {
        UnwindOne(before, vars, p, pushed, |s.items|, name);
        var top := s.Pop();
        vars := TopReplaced(vars, top, TopBelow(vars, top).value.(send := true));
      }
      assert pushed[0..] == pushed;
    }

    /** A constraint's projection: nothing is sent but what the names stand for. */
    method Project(names: seq<string>)
      requires AllWellFormed(vars) && AllUndotted(vars)
      modifies this
      ensures AllErased(vars) == AllErased(old(vars))
      ensures IsProjection(vars, PathsOf(old(vars), names))
      ensures AllPathsLead(vars, PathsOf(old(vars), names))
    {
      ghost var before := vars;
      MarkTreesErased(vars, false);
      MarkAll(false);
      forall q ensures !Sent(vars, q) { MarkTreesSent(before, false, q); }
      var i := 0;
      while i < |names|
        invariant i <= |names| && AllErased(vars) == AllErased(before)
        invariant AllPathsLead(vars, PathsOf(before, names[..i])) && IsProjection(vars, PathsOf(before, names[..i]))
      {
        AllErasedKeeps(vars, before);
        ghost var was := vars;
        ghost var paths := PathsOf(before, names[..i]);
        FlagsDoNotMatter(was, before, Www2id(names[i], 0));
        OneMoreName(before, names, i);
        var ok := Mark(names[i]);
        if ok {
          ghost var r := VarOf(was, Www2id(names[i], 0));
          StackCovers(was, Www2id(names[i], 0), []);
          OneMoreMarked(was, vars, paths, r.found.value.path);
        } else {
          assert paths + [] == paths;
        }
        i := i + 1;
      }
      assert names[..i] == names;
    }
  }

  /** The variable at p is marked, and the part of the stack from the n-th entry up has been taken off. */
  ghost predicate SentDownTo(before: seq<Var>, vs: seq<Var>, p: Path, pushed: seq<Path>, n: nat)
    requires n <= |pushed|
  {
    forall q :: Sent(vs, q) <==> Sent(before, q) || (p <= q && TopBelow(before, q).Some?) || q in pushed[n..]
  }

  lemma UnwindOne(before: seq<Var>, vs: seq<Var>, p: Path, pushed: seq<Path>, n: nat, name: string)
    requires AllWellFormed(before) && AllUndotted(before) && VarOf(before, name).found.Some?
    requires p == VarOf(before, name).found.value.path && pushed == VarOf(before, name).pushed
    requires AllErased(vs) == AllErased(before) && 0 < n <= |pushed| && SentDownTo(before, vs, p, pushed, n)
    ensures TopBelow(vs, pushed[n - 1]).Some?
    ensures var us := TopReplaced(vs, pushed[n - 1], TopBelow(vs, pushed[n - 1]).value.(send := true));
            AllErased(us) == AllErased(before) && SentDownTo(before, us, p, pushed, n - 1)
  {
    var top := pushed[n - 1];
    StackCovers(before, name, top);
    ErasedTopBelow(vs, before, top);
    FlaggedSent(vs, top);
    assert pushed[n - 1..] == [top] + pushed[n..];
  }

  /** Where the variables are that the names stand for; names that stand for none are passed over. */
  function PathsOf(vs: seq<Var>, names: seq<string>): seq<Path>
    requires AllWellFormed(vs)
  {
    if names == [] then []
    else
      var r := VarOf(vs, Www2id(names[0], 0));
      (if r.found.Some? then [r.found.value.path] else []) + PathsOf(vs, names[1..])
  }

  lemma {:induction false} PathsApart(vs: seq<Var>, a: seq<string>, b: seq<string>)
    requires AllWellFormed(vs)
    ensures PathsOf(vs, a + b) == PathsOf(vs, a) + PathsOf(vs, b)
    decreases |a|
  {
    if a == [] {
      assert a + b == b;
    } else {
      assert (a + b)[1..] == a[1..] + b;
      PathsApart(vs, a[1..], b);
    }
  }

  lemma OneMoreName(vs: seq<Var>, names: seq<string>, i: nat)
    requires AllWellFormed(vs) && i < |names|
    ensures var r := VarOf(vs, Www2id(names[i], 0));
            PathsOf(vs, names[..i + 1]) == PathsOf(vs, names[..i]) + if r.found.Some? then [r.found.value.path] else []
  {
    assert names[..i + 1] == names[..i] + [names[i]];
    PathsApart(vs, names[..i], [names[i]]);
    assert [names[i]][1..] == [];
  }

  predicate AllPathsLead(vs: seq<Var>, paths: seq<Path>) {
    forall k :: 0 <= k < |paths| ==> TopBelow(vs, paths[k]).Some?
  }

  /** The variables in the projection are those at the paths, their descendants and their ancestors. */
  ghost predicate IsProjection(vs: seq<Var>, paths: seq<Path>) {
    forall q :: Sent(vs, q) <==> exists i :: 0 <= i < |paths| && Covers(vs, paths[i], q)
  }

  lemma CoversErased(a: seq<Var>, b: seq<Var>, p: Path, q: Path)
    requires AllErased(a) == AllErased(b)
    ensures Covers(a, p, q) <==> Covers(b, p, q)
  {
    ErasedTopBelow(a, b, q);
    assert |a| == |AllErased(a)| == |b|;
    if p != [] && p[0] < |a| {
      ErasedAt(a, p[0]);
      ErasedAt(b, p[0]);
      ErasedTemplate(a[p[0]], b[p[0]], p[1..]);
    }
  }

  lemma {:induction false} ErasedTemplate(a: Var, b: Var, rel: Path)
    requires Erased(a) == Erased(b)
    ensures SimpleTemplate(a, rel) <==> SimpleTemplate(b, rel)
    decreases |rel|
  {
    assert |a.kids| == |AllErased(a.kids)| == |b.kids|;
    if rel != [] && rel[0] < |a.kids| {
      ErasedAt(a.kids, rel[0]);
      ErasedAt(b.kids, rel[0]);
      ErasedTemplate(a.kids[rel[0]], b.kids[rel[0]], rel[1..]);
    }
  }

  lemma OneMoreMarked(was: seq<Var>, vs: seq<Var>, paths: seq<Path>, p: Path)
    requires IsProjection(was, paths) && MarksExactly(was, vs, p) && TopBelow(was, p).Some?
    requires AllPathsLead(was, paths)
    ensures IsProjection(vs, paths + [p])
    ensures AllPathsLead(vs, paths + [p])
  {
    var all := paths + [p];
    forall k | 0 <= k < |all| ensures TopBelow(vs, all[k]).Some? { ErasedTopBelow(was, vs, all[k]); }
    forall q ensures Sent(vs, q) <==> exists i :: 0 <= i < |all| && Covers(vs, all[i], q) {
      CoversErased(was, vs, p, q);
      if Sent(was, q) {
        var i :| 0 <= i < |paths| && Covers(was, paths[i], q);
        CoversErased(was, vs, paths[i], q);
        assert all[i] == paths[i] && Covers(vs, all[i], q);
      }
      if Covers(was, p, q) { assert all[|paths|] == p && Covers(vs, all[|paths|], q); }
      if i :| 0 <= i < |all| && Covers(vs, all[i], q) {
        CoversErased(was, vs, all[i], q);
        if i < |paths| { assert Covers(was, paths[i], q); }
      }
    }
  }

  // ---------------------------------------------------------------------------------------------
  // A projection is fit for printing and parsing
  // ---------------------------------------------------------------------------------------------

  /** An array in the projection has its template there: whatever is marked below the array, is marked through
      the template. */
  lemma TemplateIsSent(vs: seq<Var>, paths: seq<Path>, q: Path)
    requires IsProjection(vs, paths) && RoundTrip.GoodVars(vs) && Sent(vs, q) && TopBelow(vs, q).value.ty.ArrayType?
    requires AllPathsLead(vs, paths)
    ensures Sent(vs, q + [0])
  {
    GoodBelow(vs, q);
    var v := TopBelow(vs, q).value;
    assert (q + [0])[1..] == q[1..] + [0];
    BelowApart(vs[q[0]], q[1..], [0]);
    assert Below(v, [0]) == Some(v.kids[0]) by { assert [0][1..] == []; }
    assert TopBelow(vs, q + [0]) == Some(v.kids[0]);
    var i :| 0 <= i < |paths| && Covers(vs, paths[i], q);
    var p := paths[i];
    if q < p {
      PathThroughTemplate(vs, p, q);
    }
    assert Covers(vs, p, q + [0]);
  }

  lemma PathThroughTemplate(vs: seq<Var>, p: Path, q: Path)
    requires RoundTrip.GoodVars(vs) && TopBelow(vs, p).Some? && q < p && TopBelow(vs, q).Some?
    requires TopBelow(vs, q).value.ty.ArrayType?
    ensures q + [0] <= p && TopBelow(vs, q + [0]).Some?
    ensures !(TopSimpleTemplate(vs, p) && |q + [0]| == |p| - 1)
  {
    GoodBelow(vs, q);
    var v := TopBelow(vs, q).value;
    OnwardPath(vs, q, p);
    var rel := p[|q|..];
    assert rel[0] < |v.kids| && rel[0] == 0;
    assert p == q + rel && q + [0] <= p;
    TopBelowPrefix(vs, p, q + [0]);
    if |rel| == 2 {
      assert !v.kids[0].ty.ArrayType?;
      assert rel[1..][0] == rel[1] && |rel[1..]| == 1;
      assert !SimpleTemplate(v.kids[0], rel[1..]);
      assert !SimpleTemplate(v, rel);
    }
  }

  lemma {:induction false} GoodIn(v: Var, rel: Path)
    requires RoundTrip.GoodVar(v) && Below(v, rel).Some?
    ensures RoundTrip.GoodVar(Below(v, rel).value)
    decreases |rel|
  {
    if rel != [] {
      GoodAt(v.kids, rel[0]);
      GoodIn(v.kids[rel[0]], rel[1..]);
    }
  }

  lemma {:induction false} GoodAt(vs: seq<Var>, i: nat)
    requires RoundTrip.GoodVars(vs) && i < |vs|
    ensures RoundTrip.GoodVar(vs[i])
    decreases |vs|
  {
    if i > 0 { GoodAt(vs[1..], i - 1); }
  }

  lemma GoodBelow(vs: seq<Var>, q: Path)
    requires RoundTrip.GoodVars(vs) && TopBelow(vs, q).Some?
    ensures RoundTrip.GoodVar(TopBelow(vs, q).value)
  {
    GoodAt(vs, q[0]);
    GoodIn(vs[q[0]], q[1..]);
  }

  /** The array at that place sends its template, if it is sent itself. */
  predicate SendsTemplate(v: Var, rel: Path) {
    Below(v, rel).Some? && Below(v, rel).value.ty.ArrayType? && Below(v, rel).value.send ==>
      forall i :: 0 <= i < |Below(v, rel).value.kids| ==> Below(v, rel).value.kids[i].send
  }

  lemma {:induction false} TemplatesSentByPath(v: Var)
    requires forall rel :: SendsTemplate(v, rel)
    ensures RoundTrip.TemplatesSent(v)
    decreases v
  {
    assert SendsTemplate(v, []);
    forall i, rel | 0 <= i < |v.kids| ensures SendsTemplate(v.kids[i], rel) {
      assert ([i] + rel)[1..] == rel && SendsTemplate(v, [i] + rel);
    }
    AllTemplatesSentByPath(v.kids);
  }

  lemma {:induction false} AllTemplatesSentByPath(vs: seq<Var>)
    requires forall i, rel :: 0 <= i < |vs| ==> SendsTemplate(vs[i], rel)
    ensures RoundTrip.AllTemplatesSent(vs)
    decreases vs
  {
    if vs != [] {
      TemplatesSentByPath(vs[0]);
      forall i, rel | 0 <= i < |vs[1..]| ensures SendsTemplate(vs[1..][i], rel) {
        assert SendsTemplate(vs[i + 1], rel);
      }
      AllTemplatesSentByPath(vs[1..]);
    }
  }

  lemma ProjectionSendsTemplates(vs: seq<Var>, paths: seq<Path>)
    requires IsProjection(vs, paths) && RoundTrip.GoodVars(vs)
    requires AllPathsLead(vs, paths)
    ensures RoundTrip.AllTemplatesSent(vs)
  {
    forall i, rel | 0 <= i < |vs| ensures SendsTemplate(vs[i], rel) {
      var q := [i] + rel;
      assert q[1..] == rel && TopBelow(vs, q) == Below(vs[i], rel);
      if Sent(vs, q) && TopBelow(vs, q).value.ty.ArrayType? {
        TemplateIsSent(vs, paths, q);
        GoodBelow(vs, q);
        assert (q + [0])[1..] == rel + [0];
        BelowApart(vs[i], rel, [0]);
        assert [0][1..] == [];
      }
    }
    AllTemplatesSentByPath(vs);
  }

  /** After mark_all(false) and any marks, the dataset printed under the constraint and parsed is the tree of
      the variables named, their descendants and their ancestors, the arrays cut down to their constraints. */
  lemma ProjectionRoundTrip(d: Printer.Dataset, paths: seq<Path>, version: Printer.Version, blob: string,
                            es: seq<Machine.Event>)
    requires RoundTrip.GoodDataset(d) && IsProjection(d.vars, paths)
    requires AllPathsLead(d.vars, paths)
    requires RoundTrip.Renders(Printer.PrintDataset(d, version, blob, true), es)
    ensures Machine.AcceptsDocument(es)
    ensures Machine.Result(Machine.Run(Machine.Initial(), es)) == RoundTrip.RereadDataset(Printer.ProjectedDataset(d))
  {
    ProjectionSendsTemplates(d.vars, paths);
    RoundTrip.ConstrainedRoundTrip(d, version, blob, es);
  }
}
