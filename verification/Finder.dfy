/** The search as it is carried out: from variable to variable, recording the path on a stack that is handed
    on. It finds what the search functions say and records what they say. */
module Finder {
  import opened Wrappers
  import opened Text
  import opened Types
  import opened Variables
  import opened Lookup

  /** The path stack. Only its growth matters to the search. */
  class PathStack {
    var items: seq<Path>

    constructor ()
      ensures items == []
    {
      items := [];
    }

    method Push(p: Path)
      modifies this
      ensures items == old(items) + [p]
    {
      items := items + [p];
    }

    method Pop() returns (top: Path)
      requires items != []
      modifies this
      ensures old(items) == items + [top]
    {
      top := items[|items| - 1];
      items := items[..|items| - 1];
    }
  }

  /** The virtual function var. */
  method FindIn(v: Var, at: Path, name: string, exact: bool, s: PathStack) returns (found: Option<Hit>)
    requires WellFormed(v)
    modifies s
    ensures var r := VarIn(v, at, name, exact); found == r.found && s.items == old(s.items) + r.pushed
    decreases |name|, v, 2
  {
    if v.ty.ArrayType? {
      found := FindInVector(v, at, name, exact, s);
    } else if v.ty.Grid? {
      found := FindInGrid(v, at, name, s);
    } else if IsConstructor(v.ty) {
      if exact { found := MatchExactly(v, at, name, s); } else { found := MatchLeaf(v.kids, at, name, s); }
    } else {
      found := None;
    }
  }

  /** Vector::var */
  method FindInVector(v: Var, at: Path, name: string, exact: bool, s: PathStack) returns (found: Option<Hit>)
    requires WellFormed(v) && v.ty.ArrayType?
    modifies s
    ensures var r := VectorVar(v, at, name, exact); found == r.found && s.items == old(s.items) + r.pushed
    decreases |name|, v, 1
  {
    var t := v.kids[0];
    WellFormedAt(v.kids, 0);
    if !IsConstructor(t.ty) { return Some(Hit(at + [0], t)); }
    if name == "" || t.name == name {
      s.Push(at);
      return Some(Hit(at + [0], t));
    }
    found := FindIn(t, at + [0], name, exact, s);
    if found.Some? { s.Push(at); }
  }

  /** A loop over variables, up to the first of that name. */
  method FindNamed(vs: seq<Var>, name: string) returns (i: nat)
    ensures i == FirstNamed(vs, name)
  {
    i := 0;
    while i < |vs| && vs[i].name != name
      invariant i <= |vs| && forall j :: 0 <= j < i ==> vs[j].name != name
    {
      i := i + 1;
    }
  }

  /** string::find of a dot. */
  method FindDot(name: string) returns (d: nat)
    ensures d == Dot(name)
  {
    d := 0;
    while d < |name| && name[d] != '.'
      invariant d <= |name| && '.' !in name[..d]
    {
      d := d + 1;
    }
    FirstDot(name, d);
  }

  lemma FirstDot(name: string, d: nat)
    requires d <= |name| && '.' !in name[..d] && (d < |name| ==> name[d] == '.')
    ensures d == Dot(name)
  {
    forall i | 0 <= i < d ensures name[i] != '.' { assert name[..d][i] == name[i]; }
    forall i | 0 <= i < Dot(name) ensures name[i] != '.' { assert name[..Dot(name)][i] == name[i]; }
  }

  /** Grid::var */
  method FindInGrid(v: Var, at: Path, name: string, s: PathStack) returns (found: Option<Hit>)
    requires WellFormed(v)
    modifies s
    ensures var r := GridVar(v, at, name); found == r.found && s.items == old(s.items) + r.pushed
  {
    var i := FindNamed(v.kids, name);
    if i == |v.kids| { return None; }
    s.Push(at);
    return Some(Hit(at + [i], v.kids[i]));
  }

  /** Constructor::m_exact_match */
  method MatchExactly(v: Var, at: Path, name: string, s: PathStack) returns (found: Option<Hit>)
    requires WellFormed(v)
    modifies s
    ensures var r := ExactMatch(v, at, name); found == r.found && s.items == old(s.items) + r.pushed
    decreases |name|, v, 1
  {
    var i := FindNamed(v.kids, name);
    if i < |v.kids| {
      s.Push(at);
      return Some(Hit(at + [i], v.kids[i]));
    }
    var d := FindDot(name);
    if d == |name| { return None; }
    var j := FindNamed(v.kids, name[..d]);
    if j == |v.kids| { return None; }
    WellFormedAt(v.kids, j);
    Associates(s.items, [at], VarIn(v.kids[j], at + [j], name[d + 1..], true).pushed);
    s.Push(at);
    found := FindIn(v.kids[j], at + [j], name[d + 1..], true, s);
  }

  /** Constructor::m_leaf_match */
  method MatchLeaf(vs: seq<Var>, at: Path, name: string, s: PathStack) returns (found: Option<Hit>)
    requires AllWellFormed(vs)
    modifies s
    ensures var r := LeafMatch(vs, 0, at, name); found == r.found && s.items == old(s.items) + r.pushed
    decreases |name|, vs, 1
  {
    var i := 0;
    while i < |vs|
      invariant i <= |vs| && LeafMatch(vs, i, at, name).found == LeafMatch(vs, 0, at, name).found
      invariant s.items + LeafMatch(vs, i, at, name).pushed == old(s.items) + LeafMatch(vs, 0, at, name).pushed
    {
      WellFormedAt(vs, i);
      NextLeaf(vs, i, at, name, s.items);
      if vs[i].name == name {
        s.Push(at);
        return Some(Hit(at + [i], vs[i]));
      }
      if IsConstructor(vs[i].ty) {
        found := FindIn(vs[i], at + [i], name, false, s);
        if found.Some? {
          s.Push(at);
          return;
        }
      }
      i := i + 1;
    }
    return None;
  }

  /** One turn of the loop. */
  lemma NextLeaf(vs: seq<Var>, i: nat, at: Path, name: string, before: seq<Path>)
    requires AllWellFormed(vs) && i < |vs| && WellFormed(vs[i])
    ensures var r := if IsConstructor(vs[i].ty) then VarIn(vs[i], at + [i], name, false) else Search(None, []);
            var whole, rest := LeafMatch(vs, i, at, name), LeafMatch(vs, i + 1, at, name);
            if vs[i].name == name then whole == Search(Some(Hit(at + [i], vs[i])), [at])
            else if r.found.Some? then whole.found == r.found && before + whole.pushed == before + r.pushed + [at]
            else whole.found == rest.found && before + whole.pushed == before + r.pushed + rest.pushed
  {
    var r := if IsConstructor(vs[i].ty) then VarIn(vs[i], at + [i], name, false) else Search(None, []);
    Associates(before, r.pushed, [at]);
    Associates(before, r.pushed, LeafMatch(vs, i + 1, at, name).pushed);
  }

  lemma NextTopLeaf(vs: seq<Var>, i: nat, name: string, before: seq<Path>)
    requires AllWellFormed(vs) && i < |vs| && WellFormed(vs[i])
    ensures var r := if IsConstructor(vs[i].ty) then VarIn(vs[i], [i], name, false) else Search(None, []);
            var whole, rest := TopLeafMatch(vs, i, name), TopLeafMatch(vs, i + 1, name);
            if vs[i].name == name then whole == Search(Some(Hit([i], vs[i])), [])
            else if r.found.Some? then whole == r
            else whole.found == rest.found && before + whole.pushed == before + r.pushed + rest.pushed
  {
    var r := if IsConstructor(vs[i].ty) then VarIn(vs[i], [i], name, false) else Search(None, []);
    Associates(before, r.pushed, TopLeafMatch(vs, i + 1, name).pushed);
  }

  /** DDS::leaf_match */
  method TopMatchLeaf(vs: seq<Var>, name: string, s: PathStack) returns (found: Option<Hit>)
    requires AllWellFormed(vs)
    modifies s
    ensures var r := TopLeafMatch(vs, 0, name); found == r.found && s.items == old(s.items) + r.pushed
  {
    var i := 0;
    while i < |vs|
      invariant i <= |vs| && TopLeafMatch(vs, i, name).found == TopLeafMatch(vs, 0, name).found
      invariant s.items + TopLeafMatch(vs, i, name).pushed == old(s.items) + TopLeafMatch(vs, 0, name).pushed
    {
      WellFormedAt(vs, i);
      NextTopLeaf(vs, i, name, s.items);
      if vs[i].name == name { return Some(Hit([i], vs[i])); }
      if IsConstructor(vs[i].ty) {
        found := FindIn(vs[i], [i], name, false, s);
        if found.Some? { return; }
      }
      i := i + 1;
    }
    return None;
  }

  /** DDS::exact_match */
  method TopMatchExactly(vs: seq<Var>, name: string, s: PathStack) returns (found: Option<Hit>)
    requires AllWellFormed(vs)
    modifies s
    ensures var r := TopExactMatch(vs, name); found == r.found && s.items == old(s.items) + r.pushed
    decreases |name|, 0
  {
    var i := FindNamed(vs, name);
    if i < |vs| { return Some(Hit([i], vs[i])); }
    var d := FindDot(name);
    if d == |name| { return None; }
    OnFromAggregate(vs, name, s.items);
    var agg := FindVar(vs, name[..d], s);
    if agg.None? { return None; }
    found := FindIn(agg.value.v, agg.value.path, name[d + 1..], true, s);
  }

  /** The field of a qualified name is looked up in what its first part stands for. */
  lemma OnFromAggregate(vs: seq<Var>, name: string, before: seq<Path>)
    requires AllWellFormed(vs) && FirstNamed(vs, name) == |vs| && Dot(name) < |name|
    ensures var agg := VarOf(vs, name[..Dot(name)]);
            if agg.found.None? then TopExactMatch(vs, name) == agg
            else
              var r := VarIn(agg.found.value.v, agg.found.value.path, name[Dot(name) + 1..], true);
              TopExactMatch(vs, name).found == r.found &&
              before + TopExactMatch(vs, name).pushed == before + agg.pushed + r.pushed
  {
    var agg := VarOf(vs, name[..Dot(name)]);
    if agg.found.Some? {
      var r := VarIn(agg.found.value.v, agg.found.value.path, name[Dot(name) + 1..], true);
      Associates(before, agg.pushed, r.pushed);
    }
  }

  /** DDS::var, once the name has been decoded. */
  method FindVar(vs: seq<Var>, name: string, s: PathStack) returns (found: Option<Hit>)
    requires AllWellFormed(vs)
    modifies s
    ensures var r := VarOf(vs, name); found == r.found && s.items == old(s.items) + r.pushed
    decreases |name|, 1
  {
    Fallback(vs, name, s.items);
    found := TopMatchExactly(vs, name, s);
    if found.None? { found := TopMatchLeaf(vs, name, s); }
  }

  /** What an exact match that fails has pushed stays below what the leaf match pushes. */
  lemma Fallback(vs: seq<Var>, name: string, before: seq<Path>)
    requires AllWellFormed(vs)
    ensures var r, leaf := TopExactMatch(vs, name), TopLeafMatch(vs, 0, name);
            if r.found.Some? then VarOf(vs, name) == r
            else VarOf(vs, name).found == leaf.found && before + VarOf(vs, name).pushed == before + r.pushed + leaf.pushed
  {
    var r, leaf := TopExactMatch(vs, name), TopLeafMatch(vs, 0, name);
    Associates(before, r.pushed, leaf.pushed);
  }
}
