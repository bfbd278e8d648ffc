/** Which variable a name finds: the one that its parts lead to, one constructor after the other, or for a single
    name the first of that name in document order. */
module LookupExact {
  import opened Wrappers
  import opened Text
  import opened Types
  import opened Variables
  import opened Lookup

  // ---------------------------------------------------------------------------------------------
  // A single name: the first in document order
  // ---------------------------------------------------------------------------------------------

  /** The variables that a search for a leaf looks at, in document order, a constructor before its fields: those
      reached through constructors. It looks at the parts of a Grid, but not into them, and into no array. */
  function InOrder(vs: seq<Var>, i: nat, at: Path): seq<Hit>
    requires i <= |vs|
    decreases vs, 1, |vs| - i
  {
    if i == |vs| then [] else [Hit(at + [i], vs[i])] + Within(vs[i], at + [i]) + InOrder(vs, i + 1, at)
  }

  function Within(v: Var, at: Path): seq<Hit>
    decreases v, 0
  {
    if v.ty.Grid? then Parts(v.kids, 0, at)
    else if IsConstructor(v.ty) then InOrder(v.kids, 0, at)
    else []
  }

  function Parts(vs: seq<Var>, i: nat, at: Path): seq<Hit>
    requires i <= |vs|
    decreases |vs| - i
  {
    if i == |vs| then [] else [Hit(at + [i], vs[i])] + Parts(vs, i + 1, at)
  }

  /** The first of that name. */
  function FirstOf(hs: seq<Hit>, name: string): Option<Hit> {
    if hs == [] then None else if hs[0].v.name == name then Some(hs[0]) else FirstOf(hs[1..], name)
  }

  lemma {:induction false} FirstOfBoth(a: seq<Hit>, b: seq<Hit>, name: string)
    ensures FirstOf(a + b, name) == if FirstOf(a, name).Some? then FirstOf(a, name) else FirstOf(b, name)
  {
    if a == [] {
      assert a + b == b;
    } else {
      assert (a + b)[1..] == a[1..] + b;
      FirstOfBoth(a[1..], b, name);
    }
  }

  lemma {:induction false} FirstPart(vs: seq<Var>, i: nat, at: Path, name: string)
    requires i <= FirstNamed(vs, name)
    ensures var k := FirstNamed(vs, name);
      FirstOf(Parts(vs, i, at), name) == if k < |vs| then Some(Hit(at + [k], vs[k])) else None
    decreases |vs| - i
  {
    if i < FirstNamed(vs, name) {
      assert Parts(vs, i, at)[1..] == Parts(vs, i + 1, at);
      FirstPart(vs, i + 1, at, name);
    }
  }

  lemma GridFindsFirst(v: Var, at: Path, name: string)
    requires WellFormed(v)
    ensures GridVar(v, at, name).found == FirstOf(Parts(v.kids, 0, at), name)
  {
    FirstPart(v.kids, 0, at, name);
  }

  lemma NextInOrder(vs: seq<Var>, i: nat, at: Path, name: string)
    requires i < |vs|
    ensures FirstOf(InOrder(vs, i, at), name) ==
      if vs[i].name == name then Some(Hit(at + [i], vs[i]))
      else if FirstOf(Within(vs[i], at + [i]), name).Some? then FirstOf(Within(vs[i], at + [i]), name)
      else FirstOf(InOrder(vs, i + 1, at), name)
  {
    var h, w, rest := Hit(at + [i], vs[i]), Within(vs[i], at + [i]), InOrder(vs, i + 1, at);
    FirstOfBoth([h] + w, rest, name);
    FirstOfBoth([h], w, name);
    assert [h][1..] == [];
  }

  lemma {:induction false} LeafFindsFirst(vs: seq<Var>, i: nat, at: Path, name: string)
    requires AllWellFormed(vs) && i <= |vs|
    ensures LeafMatch(vs, i, at, name).found == FirstOf(InOrder(vs, i, at), name)
    decreases vs, 0, |vs| - i
  {
    if i < |vs| {
      WellFormedAt(vs, i);
      NextInOrder(vs, i, at, name);
      if IsConstructor(vs[i].ty) { InFindsFirst(vs[i], at + [i], name); }
      LeafFindsFirst(vs, i + 1, at, name);
    }
  }

  lemma {:induction false} InFindsFirst(v: Var, at: Path, name: string)
    requires WellFormed(v) && IsConstructor(v.ty)
    ensures VarIn(v, at, name, false).found == FirstOf(Within(v, at), name)
    decreases v, 1
  {
    if v.ty.Grid? { GridFindsFirst(v, at, name); } else { LeafFindsFirst(v.kids, 0, at, name); }
  }

  lemma {:induction false} TopLeafFindsFirst(vs: seq<Var>, i: nat, name: string)
    requires AllWellFormed(vs) && i <= |vs|
    ensures TopLeafMatch(vs, i, name).found == FirstOf(InOrder(vs, i, []), name)
    decreases |vs| - i
  {
    if i < |vs| {
      WellFormedAt(vs, i);
      NextInOrder(vs, i, [], name);
      assert [] + [i] == [i];
      if IsConstructor(vs[i].ty) { InFindsFirst(vs[i], [i], name); }
      TopLeafFindsFirst(vs, i + 1, name);
    }
  }

  /** A name without a dot finds the first top-level variable of that name, and if there is none the first variable
      of that name in document order: so any there is. */
  lemma LeafNameFinds(vs: seq<Var>, name: string)
    requires AllWellFormed(vs) && '.' !in name
    ensures VarOf(vs, name).found ==
      if exists i :: 0 <= i < |vs| && vs[i].name == name then Some(Hit([FirstNamed(vs, name)], vs[FirstNamed(vs, name)]))
      else FirstOf(InOrder(vs, 0, []), name)
  {
    OnePart(name);
    assert Dot(name) == |name|;
    TopLeafFindsFirst(vs, 0, name);
    var i := FirstNamed(vs, name);
    if i < |vs| { assert vs[i].name == name; }
  }

  lemma {:induction false} FirstOfAny(hs: seq<Hit>, name: string)
    ensures FirstOf(hs, name).Some? <==> exists k :: 0 <= k < |hs| && hs[k].v.name == name
  {
    if hs != [] {
      FirstOfAny(hs[1..], name);
      if k :| 0 <= k < |hs| && hs[k].v.name == name && k > 0 { assert hs[1..][k - 1] == hs[k]; }
      if k :| 0 <= k < |hs[1..]| && hs[1..][k].v.name == name { assert hs[k + 1] == hs[1..][k]; }
    }
  }

  // ---------------------------------------------------------------------------------------------
  // A dotted name: where its parts lead
  // ---------------------------------------------------------------------------------------------

  /** No two fields of a constructor have the same name. */
  predicate DistinctFields(v: Var)
    decreases v
  {
    DistinctVars(v.kids) && AllDistinctFields(v.kids)
  }

  predicate AllDistinctFields(vs: seq<Var>)
    decreases vs
  {
    vs == [] || (DistinctFields(vs[0]) && AllDistinctFields(vs[1..]))
  }

  predicate DistinctVars(vs: seq<Var>) {
    forall i, j :: 0 <= i < j < |vs| ==> vs[i].name != vs[j].name
  }

  lemma {:induction false} DistinctAt(vs: seq<Var>, i: nat)
    requires AllDistinctFields(vs) && i < |vs|
    ensures DistinctFields(vs[i])
    decreases |vs|
  {
    if i > 0 { DistinctAt(vs[1..], i - 1); }
  }

  /** Do the names lead from v along the path? Each names a field of where the names before it have led; an array
      of constructors is passed through to its template, or taken to be meant itself when its template has the last
      name, and an array of simple type is left at its template whatever the names. Only the last name can be that of
      a part of a Grid. */
  predicate Leads(v: Var, rel: Path, names: seq<string>)
    requires WellFormed(v) && names != []
    decreases |rel|
  {
    rel != [] && rel[0] < |v.kids| &&
    var next := v.kids[rel[0]];
    WellFormedAt(v.kids, rel[0]);
    if v.ty.ArrayType? then
      if !IsConstructor(next.ty) then |rel| == 1
      else if names == [""] || names == [next.name] then |rel| == 1
      else Leads(next, rel[1..], names)
    else if v.ty.Grid? || |names| == 1 then
      IsConstructor(v.ty) && |rel| == 1 && names == [next.name]
    else
      IsConstructor(v.ty) && next.name == names[0] && Leads(next, rel[1..], names[1..])
  }

  predicate AreNames(names: seq<string>) {
    names != [] && forall i :: 0 <= i < |names| ==> '.' !in names[i]
  }

  lemma JoinedIsDotted(names: seq<string>)
    requires AreNames(names)
    ensures '.' in Joined(names) <==> |names| > 1
    ensures |names| > 1 ==>
      var s := Joined(names); Dot(s) == |names[0]| && s[..Dot(s)] == names[0] && s[Dot(s) + 1..] == Joined(names[1..]) && Dot(s) < |s|
  {
    if |names| > 1 {
      DotOf(names[0], Joined(names[1..]));
      var s := Joined(names);
      assert s == names[0] + "." + Joined(names[1..]) && s[|names[0]|] == '.';
    }
  }

  lemma OnlyOneNamed(vs: seq<Var>, i: nat)
    requires DistinctVars(vs) && i < |vs|
    ensures FirstNamed(vs, vs[i].name) == i
  {}

  lemma DottedIsNoName(vs: seq<Var>, name: string)
    requires AllUndotted(vs) && '.' in name
    ensures FirstNamed(vs, name) == |vs|
  {
    var i := FirstNamed(vs, name);
    if i < |vs| { UndottedAt(vs, i); }
  }

  /** The search has found the variable at that path below v. */
  predicate FoundAt(r: Search, v: Var, at: Path, rel: Path) {
    Below(v, rel).Some? && r.found == Some(Hit(at + rel, Below(v, rel).value))
  }

  lemma BelowKid(v: Var, i: nat, rel: Path)
    requires rel != [] && rel[0] == i < |v.kids|
    ensures Below(v, rel) == Below(v.kids[i], rel[1..])
  {}

  lemma BehindPrefix(at: Path, i: nat, rel: Path)
    ensures at + [i] <= at + rel ==> rel != [] && rel[0] == i
  {
    if at + [i] <= at + rel {
      assert |rel| > 0 && (at + rel)[|at|] == rel[0] && (at + [i])[|at|] == i;
    }
  }

  /** What is found in a kid is found below v. */
  lemma FoundInKid(r: Search, v: Var, at: Path, i: nat, rel: Path)
    requires i < |v.kids| && SearchOk(v.kids[i], at + [i], r)
    ensures FoundAt(r, v, at, rel) <==> rel != [] && rel[0] == i && FoundAt(r, v.kids[i], at + [i], rel[1..])
  {
    if rel != [] && rel[0] == i {
      BelowKid(v, i, rel);
      assert rel == [i] + rel[1..] && at + rel == (at + [i]) + rel[1..];
    }
    BehindPrefix(at, i, rel);
  }

  lemma HitAt(v: Var, at: Path, i: nat, pushed: seq<Path>, rel: Path)
    requires i < |v.kids|
    ensures FoundAt(Search(Some(Hit(at + [i], v.kids[i])), pushed), v, at, rel) <==> rel == [i]
  {
    if rel == [i] {
      BelowKid(v, i, rel);
      assert rel[1..] == [];
    }
    SameSuffix(at, rel, [i]);
  }

  lemma SameSuffix(at: Path, a: Path, b: Path)
    ensures at + a == at + b <==> a == b
  {
    assert (at + a)[|at|..] == a && (at + b)[|at|..] == b;
  }

  lemma NotFound(v: Var, at: Path, pushed: seq<Path>, rel: Path)
    ensures !FoundAt(Search(None, pushed), v, at, rel)
  {}

  /** A field by its single name. */
  lemma FieldFound(v: Var, at: Path, name: string, rel: Path)
    requires WellFormed(v) && Undotted(v) && DistinctFields(v) && '.' !in name
    requires IsConstructor(v.ty)
    ensures FoundAt(VarIn(v, at, name, true), v, at, rel) <==> Leads(v, rel, [name])
  {
    OnePart(name);
    assert Dot(name) == |name|;
    var i := FirstNamed(v.kids, name);
    assert !v.ty.ArrayType?;
    if i < |v.kids| {
      HitAt(v, at, i, [at], rel);
      if rel != [] && rel[0] < |v.kids| && v.kids[rel[0]].name == name { OnlyOneNamed(v.kids, rel[0]); }
      assert |rel| == 1 ==> rel == [rel[0]];
    } else {
      NotFound(v, at, [], rel);
    }
  }

  lemma {:induction false} NamesLead(v: Var, at: Path, rel: Path, names: seq<string>)
    requires WellFormed(v) && Undotted(v) && DistinctFields(v) && AreNames(names)
    ensures FoundAt(VarIn(v, at, Joined(names), true), v, at, rel) <==> Leads(v, rel, names)
    decreases |names|, v
  {
    JoinedIsDotted(names);
    if v.ty.ArrayType? {
      ArrayLeads(v, at, rel, names);
    } else if !IsConstructor(v.ty) {
      NotFound(v, at, [], rel);
    } else if |names| == 1 {
      assert names == [names[0]] && Joined(names) == names[0];
      FieldFound(v, at, names[0], rel);
    } else if v.ty.Grid? {
      DottedIsNoName(v.kids, Joined(names));
      NotFound(v, at, [], rel);
    } else {
      FieldsLead(v, at, rel, names);
    }
  }

  lemma {:induction false} FieldsLead(v: Var, at: Path, rel: Path, names: seq<string>)
    requires WellFormed(v) && Undotted(v) && DistinctFields(v) && AreNames(names) && |names| > 1
    requires IsConstructor(v.ty) && !v.ty.Grid?
    ensures FoundAt(VarIn(v, at, Joined(names), true), v, at, rel) <==> Leads(v, rel, names)
    decreases |names|, v, 0
  {
    JoinedIsDotted(names);
    DottedIsNoName(v.kids, Joined(names));
    var j := FirstNamed(v.kids, names[0]);
    if j == |v.kids| {
      NotFound(v, at, [], rel);
    } else {
      WellFormedAt(v.kids, j);
      UndottedAt(v.kids, j);
      DistinctAt(v.kids, j);
      var r := VarIn(v.kids[j], at + [j], Joined(names[1..]), true);
      VarInOk(v.kids[j], at + [j], Joined(names[1..]), true);
      FoundInKid(r, v, at, j, rel);
      SamePlace(r, [at] + r.pushed, v, at, rel);
      assert AreNames(names[1..]);
      if rel != [] && rel[0] == j { NamesLead(v.kids[j], at + [j], rel[1..], names[1..]); }
      if rel != [] && rel[0] < |v.kids| && v.kids[rel[0]].name == names[0] { OnlyOneNamed(v.kids, rel[0]); }
    }
  }

  lemma SamePlace(r: Search, pushed: seq<Path>, v: Var, at: Path, rel: Path)
    ensures FoundAt(r.(pushed := pushed), v, at, rel) <==> FoundAt(r, v, at, rel)
  {}

  /** A joined name is that of the template only if it is a single one. */
  lemma JoinedIsName(names: seq<string>, name: string)
    requires AreNames(names) && '.' !in name
    ensures Joined(names) == name <==> names == [name]
  {
    JoinedIsDotted(names);
    assert |names| == 1 ==> names == [names[0]];
  }

  lemma {:induction false} ArrayLeads(v: Var, at: Path, rel: Path, names: seq<string>)
    requires WellFormed(v) && Undotted(v) && DistinctFields(v) && AreNames(names) && v.ty.ArrayType?
    ensures FoundAt(VarIn(v, at, Joined(names), true), v, at, rel) <==> Leads(v, rel, names)
    decreases |names|, v, 0
  {
    var t, name := v.kids[0], Joined(names);
    WellFormedAt(v.kids, 0);
    UndottedAt(v.kids, 0);
    DistinctAt(v.kids, 0);
    JoinedIsName(names, "");
    JoinedIsName(names, t.name);
    assert |rel| == 1 ==> rel == [rel[0]];
    if !IsConstructor(t.ty) {
      HitAt(v, at, 0, [], rel);
    } else if name == "" || name == t.name {
      HitAt(v, at, 0, [at], rel);
    } else {
      var r := VarIn(t, at + [0], name, true);
      VarInOk(t, at + [0], name, true);
      FoundInKid(r, v, at, 0, rel);
      SamePlace(r, r.pushed + [at], v, at, rel);
      if rel != [] && rel[0] == 0 { NamesLead(t, at + [0], rel[1..], names); }
    }
  }

  // ---------------------------------------------------------------------------------------------
  // From the top
  // ---------------------------------------------------------------------------------------------

  /** A dotted name, in a dataset without dots in names and with distinct names in each constructor, finds just the
      variable that the names behind the first lead to, from what the first finds; so nothing when they lead nowhere. */
  lemma DottedNameFinds(vs: seq<Var>, p: Path, names: seq<string>)
    requires AllWellFormed(vs) && AllUndotted(vs) && AllDistinctFields(vs) && AreNames(names) && |names| > 1
    ensures var first, r := VarOf(vs, names[0]).found, VarOf(vs, Joined(names)).found;
      TopBelow(vs, p).Some? ==>
        (r == Some(Hit(p, TopBelow(vs, p).value)) <==>
          first.Some? && first.value.path <= p && Leads(first.value.v, p[|first.value.path|..], names[1..]))
    ensures VarOf(vs, names[0]).found.None? ==> VarOf(vs, Joined(names)).found.None?
  {
    var name := Joined(names);
    JoinedIsDotted(names);
    DottedIsNoName(vs, name);
    TopLeafMatchOk(vs, 0, name);
    var first := VarOf(vs, names[0]).found;
    if first.Some? && TopBelow(vs, p).Some? { OnwardFinds(vs, p, names, first.value); }
  }

  lemma OnwardFinds(vs: seq<Var>, p: Path, names: seq<string>, first: Hit)
    requires AllWellFormed(vs) && AllUndotted(vs) && AllDistinctFields(vs) && AreNames(names) && |names| > 1
    requires VarOf(vs, names[0]).found == Some(first) && TopBelow(vs, p).Some?
    ensures var r := VarIn(first.v, first.path, Joined(names[1..]), true).found;
      r == Some(Hit(p, TopBelow(vs, p).value)) <==>
        first.path <= p && Leads(first.v, p[|first.path|..], names[1..])
  {
    var q, r := first.path, VarIn(first.v, first.path, Joined(names[1..]), true);
    VarOfOk(vs, names[0]);
    assert AreNames(names[1..]);
    DistinctBelow(vs, q);
    UndottedAtTop(vs, q);
    VarInOk(first.v, q, Joined(names[1..]), true);
    if q <= p {
      NamesLead(first.v, q, p[|q|..], names[1..]);
      SameFromHere(vs, q, p, r);
    }
  }

  lemma SameFromHere(vs: seq<Var>, q: Path, p: Path, r: Search)
    requires TopBelow(vs, q).Some? && TopBelow(vs, p).Some? && q <= p
    ensures r.found == Some(Hit(p, TopBelow(vs, p).value)) <==> FoundAt(r, TopBelow(vs, q).value, q, p[|q|..])
  {
    assert q + p[|q|..] == p;
    if q < p {
      OnwardPath(vs, q, p);
    } else {
      assert p == q && p[|q|..] == [];
    }
  }

  lemma {:induction false} DistinctDown(v: Var, rel: Path)
    requires DistinctFields(v) && Below(v, rel).Some?
    ensures DistinctFields(Below(v, rel).value)
    decreases |rel|
  {
    if rel != [] {
      DistinctAt(v.kids, rel[0]);
      DistinctDown(v.kids[rel[0]], rel[1..]);
    }
  }

  lemma DistinctBelow(vs: seq<Var>, p: Path)
    requires AllDistinctFields(vs) && TopBelow(vs, p).Some?
    ensures DistinctFields(TopBelow(vs, p).value)
  {
    DistinctAt(vs, p[0]);
    DistinctDown(vs[p[0]], p[1..]);
  }

  /** The names on the way to a variable through constructors other than Grids. */
  predicate Spells(vs: seq<Var>, p: Path, names: seq<string>)
    decreases |p|
  {
    |names| == |p| > 0 && p[0] < |vs| && vs[p[0]].name == names[0] &&
    (|p| > 1 ==> IsConstructor(vs[p[0]].ty) && !vs[p[0]].ty.Grid? && Spells(vs[p[0]].kids, p[1..], names[1..]))
  }

  lemma {:induction false} SpelledLeads(v: Var, rel: Path, names: seq<string>)
    requires WellFormed(v) && IsConstructor(v.ty) && !v.ty.Grid? && Spells(v.kids, rel, names)
    ensures Leads(v, rel, names) && Below(v, rel).Some?
    decreases |rel|
  {
    WellFormedAt(v.kids, rel[0]);
    if |rel| > 1 {
      SpelledLeads(v.kids[rel[0]], rel[1..], names[1..]);
    } else {
      assert names == [names[0]] && rel[1..] == [];
    }
  }

  /** The names of the constructors around a variable and its own, with dots between them, find just that variable. */
  lemma QualifiedNameFinds(vs: seq<Var>, p: Path, names: seq<string>)
    requires AllWellFormed(vs) && AllUndotted(vs) && AllDistinctFields(vs) && DistinctVars(vs) && AreNames(names)
    requires Spells(vs, p, names)
    ensures TopBelow(vs, p).Some? && VarOf(vs, Joined(names)).found == Some(Hit(p, TopBelow(vs, p).value))
  {
    WellFormedAt(vs, p[0]);
    OnlyOneNamed(vs, p[0]);
    LeafNameFinds(vs, names[0]);
    assert vs[p[0]].name == names[0];
    if |p| > 1 {
      SpelledLeads(vs[p[0]], p[1..], names[1..]);
      assert p == [p[0]] + p[1..];
      DottedNameFinds(vs, p, names);
    } else {
      assert p == [p[0]] && p[1..] == [] && Joined(names) == names[0];
    }
  }
}
