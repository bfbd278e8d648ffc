/** A dataset without its projection flags. Whatever is looked up in it by name, the flags do not matter. */
module Erasure {
  import opened Wrappers
  import opened Text
  import opened Types
  import opened Variables
  import opened Lookup

  /** The tree without its flags. */
  function Erased(v: Var): Var {
    v.(send := false, kids := AllErased(v.kids))
  }

  function AllErased(vs: seq<Var>): (r: seq<Var>)
    ensures |r| == |vs|
  {
    if vs == [] then [] else [Erased(vs[0])] + AllErased(vs[1..])
  }

  lemma {:induction false} ErasedAt(vs: seq<Var>, i: nat)
    requires i < |vs|
    ensures AllErased(vs)[i] == Erased(vs[i])
    decreases |vs|
  {
    if i > 0 { ErasedAt(vs[1..], i - 1); }
  }

  lemma {:induction false} ErasedKeeps(a: Var, b: Var)
    requires Erased(a) == Erased(b)
    ensures (WellFormed(a) <==> WellFormed(b)) && (Undotted(a) <==> Undotted(b))
    decreases a
  {
    assert |AllErased(a.kids)| == |AllErased(b.kids)|;
    AllErasedKeeps(a.kids, b.kids);
  }

  lemma {:induction false} AllErasedKeeps(a: seq<Var>, b: seq<Var>)
    requires AllErased(a) == AllErased(b)
    ensures (AllWellFormed(a) <==> AllWellFormed(b)) && (AllUndotted(a) <==> AllUndotted(b))
    decreases a
  {
    assert |a| == |AllErased(a)| == |b|;
    if a != [] {
      assert AllErased(a)[0] == Erased(a[0]) && AllErased(b)[0] == Erased(b[0]);
      assert AllErased(a)[1..] == AllErased(a[1..]) && AllErased(b)[1..] == AllErased(b[1..]);
      ErasedKeeps(a[0], b[0]);
      AllErasedKeeps(a[1..], b[1..]);
    }
  }

  /** Trees that differ in their flags only have their variables in the same places. */
  lemma {:induction false} ErasedBelow(a: Var, b: Var, rel: Path)
    requires Erased(a) == Erased(b)
    ensures Below(a, rel).Some? <==> Below(b, rel).Some?
    ensures Below(a, rel).Some? ==> Erased(Below(a, rel).value) == Erased(Below(b, rel).value)
    decreases |rel|
  {
    if rel != [] && rel[0] < |a.kids| {
      assert |a.kids| == |AllErased(a.kids)| == |b.kids|;
      ErasedAt(a.kids, rel[0]);
      ErasedAt(b.kids, rel[0]);
      ErasedBelow(a.kids[rel[0]], b.kids[rel[0]], rel[1..]);
    }
  }

  lemma ErasedTopBelow(a: seq<Var>, b: seq<Var>, p: Path)
    requires AllErased(a) == AllErased(b)
    ensures TopBelow(a, p).Some? <==> TopBelow(b, p).Some?
    ensures TopBelow(a, p).Some? ==> Erased(TopBelow(a, p).value) == Erased(TopBelow(b, p).value)
  {
    assert |a| == |AllErased(a)| == |b|;
    if p != [] && p[0] < |a| {
      ErasedAt(a, p[0]);
      ErasedAt(b, p[0]);
      ErasedBelow(a[p[0]], b[p[0]], p[1..]);
    }
  }

  // ---------------------------------------------------------------------------------------------
  // Searching
  // ---------------------------------------------------------------------------------------------

  /** The same place has been found, along the same path. */
  predicate SameSearch(a: Search, b: Search) {
    a.pushed == b.pushed && (a.found.Some? <==> b.found.Some?) &&
    (a.found.Some? && b.found.Some? ==>
       a.found.value.path == b.found.value.path && Erased(a.found.value.v) == Erased(b.found.value.v))
  }

  lemma KidsErased(a: Var, b: Var)
    requires Erased(a) == Erased(b)
    ensures a.ty == b.ty && a.name == b.name && AllErased(a.kids) == AllErased(b.kids)
  {}

  lemma {:induction false} SameFirst(a: seq<Var>, b: seq<Var>, name: string)
    requires AllErased(a) == AllErased(b)
    ensures |a| == |b| && FirstNamed(a, name) == FirstNamed(b, name)
  {
    assert |a| == |AllErased(a)| == |b|;
    var i, j := FirstNamed(a, name), FirstNamed(b, name);
    if i < |a| { KidErased(a, b, i); }
    if j < |b| { KidErased(a, b, j); }
  }

  lemma KidErased(a: seq<Var>, b: seq<Var>, i: nat)
    requires AllErased(a) == AllErased(b) && i < |a|
    ensures |a| == |b| && Erased(a[i]) == Erased(b[i]) && a[i].name == b[i].name && a[i].ty == b[i].ty
  {
    assert |a| == |AllErased(a)| == |b|;
    ErasedAt(a, i);
    ErasedAt(b, i);
    KidsErased(a[i], b[i]);
  }

  lemma {:induction false} SameVarIn(a: Var, b: Var, at: Path, name: string, exact: bool)
    requires Erased(a) == Erased(b) && WellFormed(a) && WellFormed(b)
    ensures SameSearch(VarIn(a, at, name, exact), VarIn(b, at, name, exact))
    decreases |name|, a, 2
  {
    KidsErased(a, b);
    if a.ty.ArrayType? {
      SameVectorVar(a, b, at, name, exact);
    } else if a.ty.Grid? {
      SameFirst(a.kids, b.kids, name);
      var i := FirstNamed(a.kids, name);
      if i < |a.kids| { KidErased(a.kids, b.kids, i); }
    } else if IsConstructor(a.ty) {
      if exact { SameExactMatch(a, b, at, name); } else { SameLeafMatch(a.kids, b.kids, 0, at, name); }
    }
  }

  lemma {:induction false} SameVectorVar(a: Var, b: Var, at: Path, name: string, exact: bool)
    requires Erased(a) == Erased(b) && WellFormed(a) && WellFormed(b) && a.ty.ArrayType? && b.ty.ArrayType?
    ensures SameSearch(VectorVar(a, at, name, exact), VectorVar(b, at, name, exact))
    decreases |name|, a, 1
  {
    KidsErased(a, b);
    KidErased(a.kids, b.kids, 0);
    WellFormedAt(a.kids, 0);
    WellFormedAt(b.kids, 0);
    if IsConstructor(a.kids[0].ty) && name != "" && a.kids[0].name != name {
      SameVarIn(a.kids[0], b.kids[0], at + [0], name, exact);
    }
  }

  lemma {:induction false} SameExactMatch(a: Var, b: Var, at: Path, name: string)
    requires Erased(a) == Erased(b) && WellFormed(a) && WellFormed(b)
    ensures SameSearch(ExactMatch(a, at, name), ExactMatch(b, at, name))
    decreases |name|, a, 1
  {
    KidsErased(a, b);
    var i, d := FirstNamed(a.kids, name), Dot(name);
    SameFirst(a.kids, b.kids, name);
    SameFirst(a.kids, b.kids, name[..d]);
    if i < |a.kids| {
      KidErased(a.kids, b.kids, i);
    } else if d < |name| {
      var j := FirstNamed(a.kids, name[..d]);
      if j < |a.kids| {
        KidErased(a.kids, b.kids, j);
        WellFormedAt(a.kids, j);
        WellFormedAt(b.kids, j);
        SameVarIn(a.kids[j], b.kids[j], at + [j], name[d + 1..], true);
      }
    }
  }

  lemma {:induction false} SameLeafMatch(a: seq<Var>, b: seq<Var>, i: nat, at: Path, name: string)
    requires AllErased(a) == AllErased(b) && AllWellFormed(a) && AllWellFormed(b) && i <= |a| == |b|
    ensures SameSearch(LeafMatch(a, i, at, name), LeafMatch(b, i, at, name))
    decreases |name|, a, 1, |a| - i
  {
    if i < |a| {
      KidErased(a, b, i);
      WellFormedAt(a, i);
      WellFormedAt(b, i);
      if a[i].name != name {
        if IsConstructor(a[i].ty) { SameVarIn(a[i], b[i], at + [i], name, false); }
        SameLeafMatch(a, b, i + 1, at, name);
      }
    }
  }

  lemma {:induction false} SameTopLeafMatch(a: seq<Var>, b: seq<Var>, i: nat, name: string)
    requires AllErased(a) == AllErased(b) && AllWellFormed(a) && AllWellFormed(b) && i <= |a| == |b|
    ensures SameSearch(TopLeafMatch(a, i, name), TopLeafMatch(b, i, name))
    decreases |a| - i
  {
    if i < |a| {
      KidErased(a, b, i);
      WellFormedAt(a, i);
      WellFormedAt(b, i);
      if a[i].name != name {
        if IsConstructor(a[i].ty) { SameVarIn(a[i], b[i], [i], name, false); }
        SameTopLeafMatch(a, b, i + 1, name);
      }
    }
  }

  lemma {:induction false} SameTopExactMatch(a: seq<Var>, b: seq<Var>, name: string)
    requires AllErased(a) == AllErased(b) && AllWellFormed(a) && AllWellFormed(b)
    ensures SameSearch(TopExactMatch(a, name), TopExactMatch(b, name))
    decreases |name|, 0
  {
    var i, d := FirstNamed(a, name), Dot(name);
    SameFirst(a, b, name);
    if i < |a| {
      KidErased(a, b, i);
    } else if d < |name| {
      FlagsDoNotMatter(a, b, name[..d]);
      var agg, bgg := VarOf(a, name[..d]), VarOf(b, name[..d]);
      if agg.found.Some? {
        SameVarIn(agg.found.value.v, bgg.found.value.v, agg.found.value.path, name[d + 1..], true);
      }
    }
  }

  /** A name stands for the same place, whatever has been marked. */
  lemma {:induction false} FlagsDoNotMatter(a: seq<Var>, b: seq<Var>, name: string)
    requires AllErased(a) == AllErased(b) && AllWellFormed(a) && AllWellFormed(b)
    ensures SameSearch(VarOf(a, name), VarOf(b, name))
    decreases |name|, 1
  {
    SameTopExactMatch(a, b, name);
    assert |a| == |AllErased(a)| == |b|;
    SameTopLeafMatch(a, b, 0, name);
  }
}
