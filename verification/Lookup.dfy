/** Finding a variable by its dotted or leaf name, and the path to it that the search records. */
module Lookup {
  import opened Wrappers
  import opened Text
  import opened Types
  import opened Variables

  /** Where a variable is: the position in the dataset, then in each constructor on the way. The element
      template of an array is at position 0 in it. */
  type Path = seq<nat>

  /** A variable found, and where. */
  datatype Hit = Hit(path: Path, v: Var)

  /** What a search returns, and what it has pushed on the path stack, successful or not. */
  datatype Search = Search(found: Option<Hit>, pushed: seq<Path>)

  /** An array has its element template. */
  predicate WellFormed(v: Var)
    decreases v
  {
    (v.ty.ArrayType? ==> |v.kids| == 1) && AllWellFormed(v.kids)
  }

  predicate AllWellFormed(vs: seq<Var>)
    decreases vs
  {
    vs == [] || (WellFormed(vs[0]) && AllWellFormed(vs[1..]))
  }

  /** No variable's name holds a dot. */
  predicate Undotted(v: Var)
    decreases v
  {
    '.' !in v.name && AllUndotted(v.kids)
  }

  predicate AllUndotted(vs: seq<Var>)
    decreases vs
  {
    vs == [] || (Undotted(vs[0]) && AllUndotted(vs[1..]))
  }

  lemma {:induction false} WellFormedAt(vs: seq<Var>, i: nat)
    requires AllWellFormed(vs) && i < |vs|
    ensures WellFormed(vs[i])
    decreases |vs|
  {
    if i > 0 { WellFormedAt(vs[1..], i - 1); }
  }

  lemma {:induction false} UndottedAt(vs: seq<Var>, i: nat)
    requires AllUndotted(vs) && i < |vs|
    ensures Undotted(vs[i])
    decreases |vs|
  {
    if i > 0 { UndottedAt(vs[1..], i - 1); }
  }

  /** The first variable of that name; the number of variables when there is none. */
  function FirstNamed(vs: seq<Var>, name: string): (i: nat)
    ensures i <= |vs| && (i < |vs| ==> vs[i].name == name)
    ensures forall j :: 0 <= j < i ==> vs[j].name != name
  {
    if vs == [] || vs[0].name == name then 0 else
    var i := FirstNamed(vs[1..], name);
    assert forall j :: 0 < j < i + 1 ==> vs[j] == vs[1..][j - 1];
    i + 1
  }

  /** The virtual function var of a variable. */
  function VarIn(v: Var, at: Path, name: string, exact: bool): (r: Search)
    ensures r.found.Some? ==> WellFormed(r.found.value.v)
    requires WellFormed(v)
    decreases |name|, v, 2
  {
    if v.ty.ArrayType? then VectorVar(v, at, name, exact)
    else if v.ty.Grid? then GridVar(v, at, name)
    else if IsConstructor(v.ty) then (if exact then ExactMatch(v, at, name) else LeafMatch(v.kids, 0, at, name))
    else Search(None, [])
  }

  /** Vector::var. An array of simple type takes any name for its template's, and records nothing. */
  function VectorVar(v: Var, at: Path, name: string, exact: bool): (r: Search)
    ensures r.found.Some? ==> WellFormed(r.found.value.v)
    requires WellFormed(v) && v.ty.ArrayType?
    decreases |name|, v, 1
  {
    var t := v.kids[0];
    WellFormedAt(v.kids, 0);
    if !IsConstructor(t.ty) then Search(Some(Hit(at + [0], t)), [])
    else if name == "" || t.name == name then Search(Some(Hit(at + [0], t)), [at])
    else
      var r := VarIn(t, at + [0], name, exact);
      if r.found.Some? then r.(pushed := r.pushed + [at]) else r
  }

  /** Grid::var looks at the array and the maps only. */
  function GridVar(v: Var, at: Path, name: string): (r: Search)
    requires WellFormed(v)
    ensures r.found.Some? ==> WellFormed(r.found.value.v)
  {
    var i := FirstNamed(v.kids, name);
    if i == |v.kids| then Search(None, [])
    else
      WellFormedAt(v.kids, i);
      Search(Some(Hit(at + [i], v.kids[i])), [at])
  }

  /** Constructor::m_exact_match. This constructor is pushed before the search goes on below it. */
  function ExactMatch(v: Var, at: Path, name: string): (r: Search)
    ensures r.found.Some? ==> WellFormed(r.found.value.v)
    requires WellFormed(v)
    decreases |name|, v, 1
  {
    var i, d := FirstNamed(v.kids, name), Dot(name);
    if i < |v.kids| then
      WellFormedAt(v.kids, i);
      Search(Some(Hit(at + [i], v.kids[i])), [at])
    else if d == |name| then Search(None, [])
    else
      var j := FirstNamed(v.kids, name[..d]);
      if j == |v.kids| then Search(None, [])
      else
        WellFormedAt(v.kids, j);
        var r := VarIn(v.kids[j], at + [j], name[d + 1..], true);
        r.(pushed := [at] + r.pushed)
  }

  /** Constructor::m_leaf_match, from the i-th field on. */
  function LeafMatch(vs: seq<Var>, i: nat, at: Path, name: string): (r: Search)
    ensures r.found.Some? ==> WellFormed(r.found.value.v)
    requires AllWellFormed(vs) && i <= |vs|
    decreases |name|, vs, 1, |vs| - i
  {
    if i == |vs| then Search(None, [])
    else
      WellFormedAt(vs, i);
      if vs[i].name == name then Search(Some(Hit(at + [i], vs[i])), [at]) else
      var r := if IsConstructor(vs[i].ty) then VarIn(vs[i], at + [i], name, false) else Search(None, []);
      if r.found.Some? then r.(pushed := r.pushed + [at])
      else
        var rest := LeafMatch(vs, i + 1, at, name);
        rest.(pushed := r.pushed + rest.pushed)
  }

  // DDS::leaf_match, DDS::exact_match and DDS::var.

  function TopLeafMatch(vs: seq<Var>, i: nat, name: string): (r: Search)
    ensures r.found.Some? ==> WellFormed(r.found.value.v)
    requires AllWellFormed(vs) && i <= |vs|
    decreases |vs| - i
  {
    if i == |vs| then Search(None, [])
    else
      WellFormedAt(vs, i);
      if vs[i].name == name then Search(Some(Hit([i], vs[i])), []) else
      var r := if IsConstructor(vs[i].ty) then VarIn(vs[i], [i], name, false) else Search(None, []);
      if r.found.Some? then r
      else
        var rest := TopLeafMatch(vs, i + 1, name);
        rest.(pushed := r.pushed + rest.pushed)
  }

  function TopExactMatch(vs: seq<Var>, name: string): (r: Search)
    ensures r.found.Some? ==> WellFormed(r.found.value.v)
    requires AllWellFormed(vs)
    decreases |name|, 0
  {
    var i, d := FirstNamed(vs, name), Dot(name);
    if i < |vs| then
      WellFormedAt(vs, i);
      Search(Some(Hit([i], vs[i])), [])
    else if d == |name| then Search(None, [])
    else
      var agg := VarOf(vs, name[..d]);
      if agg.found.None? then agg
      else
        var r := VarIn(agg.found.value.v, agg.found.value.path, name[d + 1..], true);
        r.(pushed := agg.pushed + r.pushed)
  }

  function VarOf(vs: seq<Var>, name: string): (r: Search)
    ensures r.found.Some? ==> WellFormed(r.found.value.v)
    requires AllWellFormed(vs)
    decreases |name|, 1
  {
    var r := TopExactMatch(vs, name);
    if r.found.Some? then r
    else
      var leaf := TopLeafMatch(vs, 0, name);
      leaf.(pushed := r.pushed + leaf.pushed)
  }

  // ---------------------------------------------------------------------------------------------
  // The path that is recorded
  // ---------------------------------------------------------------------------------------------

  /** The variable at a path that starts in v. */
  function Below(v: Var, rel: Path): Option<Var>
    decreases |rel|
  {
    if rel == [] then Some(v) else if rel[0] < |v.kids| then Below(v.kids[rel[0]], rel[1..]) else None
  }

  function TopBelow(vs: seq<Var>, p: Path): Option<Var> {
    if p != [] && p[0] < |vs| then Below(vs[p[0]], p[1..]) else None
  }

  /** Does the path end at the template of an array of simple type? */
  predicate SimpleTemplate(v: Var, rel: Path)
    decreases |rel|
  {
    rel != [] && rel[0] < |v.kids| &&
    if |rel| == 1 then v.ty.ArrayType? && !IsConstructor(v.kids[rel[0]].ty)
    else SimpleTemplate(v.kids[rel[0]], rel[1..])
  }

  predicate TopSimpleTemplate(vs: seq<Var>, p: Path) {
    p != [] && p[0] < |vs| && SimpleTemplate(vs[p[0]], p[1..])
  }

  /** The stack holds the ancestors on the path from length n up to length m, each once. */
  ghost predicate Recorded(pushed: seq<Path>, p: Path, n: nat, m: nat) {
    n <= m <= |p| && |pushed| == m - n && forall x: Path :: x in pushed <==> n <= |x| < m && x <= p
  }

  /** A search that starts at v, which is at that path. */
  ghost predicate SearchOk(v: Var, at: Path, r: Search) {
    r.found.Some? ==>
      var p := r.found.value.path;
      at <= p && |at| < |p| && Below(v, p[|at|..]) == Some(r.found.value.v) &&
      Recorded(r.pushed, p, |at|, if SimpleTemplate(v, p[|at|..]) then |p| - 1 else |p|)
  }

  lemma RecordedOne(p: Path, at: Path)
    requires at <= p && |p| == |at| + 1
    ensures Recorded([at], p, |at|, |p|) && Recorded([], p, |at|, |at|)
  {
    forall x: Path | |at| <= |x| < |p| && x <= p ensures x == at { assert x == p[..|x|]; }
  }

  lemma RecordedMore(pushed: seq<Path>, p: Path, at: Path, m: nat)
    requires at <= p && Recorded(pushed, p, |at| + 1, m)
    ensures Recorded([at] + pushed, p, |at|, m) && Recorded(pushed + [at], p, |at|, m)
  {
    forall x: Path | |x| == |at| && x <= p ensures x == at { assert x == p[..|x|] && at == p[..|at|]; }
  }

  /** From the i-th kid to v itself. */
  lemma OneUp(v: Var, at: Path, i: nat, r: Search, pushed: seq<Path>)
    requires i < |v.kids| && SearchOk(v.kids[i], at + [i], r) && r.found.Some?
    requires pushed == [at] + r.pushed || pushed == r.pushed + [at]
    ensures SearchOk(v, at, r.(pushed := pushed))
    ensures var p := r.found.value.path;
            at <= p && |at| < |p| && SimpleTemplate(v, p[|at|..]) == SimpleTemplate(v.kids[i], p[|at| + 1..])
  {
    var p := r.found.value.path;
    assert at <= p && p[|at|] == i && p[|at|..][1..] == p[|at| + 1..];
    RecordedMore(r.pushed, p, at, if SimpleTemplate(v.kids[i], p[|at| + 1..]) then |p| - 1 else |p|);
  }

  /** A hit among the kids. */
  lemma HitOk(v: Var, at: Path, i: nat)
    requires i < |v.kids| && !(v.ty.ArrayType? && !IsConstructor(v.kids[i].ty))
    ensures SearchOk(v, at, Search(Some(Hit(at + [i], v.kids[i])), [at]))
    ensures !SimpleTemplate(v, (at + [i])[|at|..])
  {
    assert (at + [i])[|at|..] == [i] && [i][1..] == [];
    RecordedOne(at + [i], at);
  }

  // A search for a leaf: it leaves nothing behind when it fails, looks into no array, and never succeeds
  // for a dotted name.

  ghost predicate LeafOk(v: Var, at: Path, r: Search) {
    SearchOk(v, at, r) && (r.found.None? ==> r.pushed == []) &&
    (r.found.Some? ==> !SimpleTemplate(v, r.found.value.path[|at|..]))
  }

  lemma LeafUp(v: Var, at: Path, i: nat, r: Search)
    requires i < |v.kids| && LeafOk(v.kids[i], at + [i], r) && r.found.Some?
    ensures LeafOk(v, at, r.(pushed := r.pushed + [at]))
  {
    OneUp(v, at, i, r, r.pushed + [at]);
  }

  /** A field that is no constructor, or in which the search has failed, does not matter. */
  lemma LeafPasses(v: Var, i: nat, at: Path, name: string)
    requires WellFormed(v) && i < |v.kids| && v.kids[i].name != name && WellFormed(v.kids[i])
    requires IsConstructor(v.kids[i].ty) ==> VarIn(v.kids[i], at + [i], name, false) == Search(None, [])
    ensures LeafMatch(v.kids, i, at, name) == LeafMatch(v.kids, i + 1, at, name)
  {
    var rest := LeafMatch(v.kids, i + 1, at, name);
    assert [] + rest.pushed == rest.pushed;
  }

  lemma {:induction false} LeafMatchOk(v: Var, i: nat, at: Path, name: string)
    requires WellFormed(v) && IsConstructor(v.ty) && i <= |v.kids|
    ensures LeafOk(v, at, LeafMatch(v.kids, i, at, name))
    decreases v, 0, |v.kids| - i
  {
    if i < |v.kids| {
      WellFormedAt(v.kids, i);
      if v.kids[i].name == name {
        HitOk(v, at, i);
      } else {
        if IsConstructor(v.kids[i].ty) { LeafInOk(v.kids[i], at + [i], name); }
        if IsConstructor(v.kids[i].ty) && VarIn(v.kids[i], at + [i], name, false).found.Some? {
          LeafUp(v, at, i, VarIn(v.kids[i], at + [i], name, false));
        } else {
          LeafPasses(v, i, at, name);
          LeafMatchOk(v, i + 1, at, name);
        }
      }
    }
  }

  lemma {:induction false} LeafInOk(v: Var, at: Path, name: string)
    requires WellFormed(v) && IsConstructor(v.ty)
    ensures LeafOk(v, at, VarIn(v, at, name, false))
    decreases v, 1
  {
    if v.ty.Grid? {
      var i := FirstNamed(v.kids, name);
      if i < |v.kids| { HitOk(v, at, i); }
    } else {
      LeafMatchOk(v, 0, at, name);
    }
  }

  lemma {:induction false} DottedIsNoLeaf(v: Var, i: nat, at: Path, name: string)
    requires WellFormed(v) && Undotted(v) && IsConstructor(v.ty) && i <= |v.kids| && '.' in name
    ensures LeafMatch(v.kids, i, at, name).found.None?
    decreases v, 0, |v.kids| - i
  {
    if i < |v.kids| {
      WellFormedAt(v.kids, i);
      UndottedAt(v.kids, i);
      if IsConstructor(v.kids[i].ty) { DottedIsNotIn(v.kids[i], at + [i], name); }
      DottedIsNoLeaf(v, i + 1, at, name);
    }
  }

  lemma {:induction false} DottedIsNotIn(v: Var, at: Path, name: string)
    requires WellFormed(v) && Undotted(v) && IsConstructor(v.ty) && '.' in name
    ensures VarIn(v, at, name, false).found.None?
    decreases v, 1
  {
    if v.ty.Grid? {
      var i := FirstNamed(v.kids, name);
      if i < |v.kids| { UndottedAt(v.kids, i); }
    } else {
      DottedIsNoLeaf(v, 0, at, name);
    }
  }

  // A search for a qualified name.

  lemma {:induction false} VarInOk(v: Var, at: Path, name: string, exact: bool)
    requires WellFormed(v)
    ensures SearchOk(v, at, VarIn(v, at, name, exact))
    decreases |name|, v, 2
  {
    if v.ty.ArrayType? {
      VectorVarOk(v, at, name, exact);
    } else if v.ty.Grid? {
      var i := FirstNamed(v.kids, name);
      if i < |v.kids| { HitOk(v, at, i); }
    } else if IsConstructor(v.ty) {
      if exact { ExactMatchOk(v, at, name); } else { LeafMatchOk(v, 0, at, name); }
    }
  }

  lemma {:induction false} VectorVarOk(v: Var, at: Path, name: string, exact: bool)
    requires WellFormed(v) && v.ty.ArrayType?
    ensures SearchOk(v, at, VectorVar(v, at, name, exact))
    decreases |name|, v, 1
  {
    var t := v.kids[0];
    WellFormedAt(v.kids, 0);
    if !IsConstructor(t.ty) {
      assert (at + [0])[|at|..] == [0] && [0][1..] == [];
      RecordedOne(at + [0], at);
    } else if name == "" || t.name == name {
      HitOk(v, at, 0);
    } else {
      VarInOk(t, at + [0], name, exact);
      var r := VarIn(t, at + [0], name, exact);
      if r.found.Some? { OneUp(v, at, 0, r, r.pushed + [at]); }
    }
  }

  lemma {:induction false} ExactMatchOk(v: Var, at: Path, name: string)
    requires WellFormed(v) && !v.ty.ArrayType?
    ensures SearchOk(v, at, ExactMatch(v, at, name))
    decreases |name|, v, 1
  {
    var i, d := FirstNamed(v.kids, name), Dot(name);
    if i < |v.kids| {
      HitOk(v, at, i);
    } else if d < |name| {
      var j := FirstNamed(v.kids, name[..d]);
      if j < |v.kids| {
        WellFormedAt(v.kids, j);
        VarInOk(v.kids[j], at + [j], name[d + 1..], true);
        var r := VarIn(v.kids[j], at + [j], name[d + 1..], true);
        if r.found.Some? { OneUp(v, at, j, r, [at] + r.pushed); }
      }
    }
  }

  // From the top of the dataset.

  ghost predicate TopOk(vs: seq<Var>, r: Search) {
    r.found.Some? ==>
      var p := r.found.value.path;
      p != [] && TopBelow(vs, p) == Some(r.found.value.v) &&
      Recorded(r.pushed, p, 1, if TopSimpleTemplate(vs, p) then |p| - 1 else |p|)
  }

  lemma TopHitOk(vs: seq<Var>, i: nat)
    requires i < |vs|
    ensures TopOk(vs, Search(Some(Hit([i], vs[i])), [])) && !TopSimpleTemplate(vs, [i])
  {
    assert [i][1..] == [];
    RecordedOne([i], []);
  }

  lemma FromTop(vs: seq<Var>, i: nat, r: Search)
    requires i < |vs| && SearchOk(vs[i], [i], r) && r.found.Some?
    ensures TopOk(vs, r) && r.found.value.path != []
    ensures TopSimpleTemplate(vs, r.found.value.path) == SimpleTemplate(vs[i], r.found.value.path[1..])
  {}

  lemma {:induction false} TopLeafMatchOk(vs: seq<Var>, i: nat, name: string)
    requires AllWellFormed(vs) && i <= |vs|
    ensures var r := TopLeafMatch(vs, i, name);
            TopOk(vs, r) && (r.found.None? ==> r.pushed == []) &&
            (r.found.Some? ==> !TopSimpleTemplate(vs, r.found.value.path))
    ensures '.' in name && AllUndotted(vs) ==> TopLeafMatch(vs, i, name).found.None?
    decreases |vs| - i
  {
    if i < |vs| {
      WellFormedAt(vs, i);
      if AllUndotted(vs) { UndottedAt(vs, i); }
      if vs[i].name == name {
        TopHitOk(vs, i);
      } else {
        if IsConstructor(vs[i].ty) {
          LeafInOk(vs[i], [i], name);
          if AllUndotted(vs) && '.' in name { DottedIsNotIn(vs[i], [i], name); }
          var r := VarIn(vs[i], [i], name, false);
          if r.found.Some? { FromTop(vs, i, r); }
        }
        TopLeafMatchOk(vs, i + 1, name);
      }
    }
  }

  lemma {:induction false} BelowApart(v: Var, a: Path, b: Path)
    requires Below(v, a).Some?
    ensures Below(v, a + b) == Below(Below(v, a).value, b)
    ensures b != [] ==> SimpleTemplate(v, a + b) == SimpleTemplate(Below(v, a).value, b)
    decreases |a|
  {
    if a == [] {
      assert a + b == b;
    } else {
      assert (a + b)[1..] == a[1..] + b;
      BelowApart(v.kids[a[0]], a[1..], b);
    }
  }

  lemma RecordedJoin(a: seq<Path>, b: seq<Path>, q: Path, p: Path, m: nat)
    requires q != [] && q <= p && Recorded(a, q, 1, |q|) && Recorded(b, p, |q|, m)
    ensures Recorded(a + b, p, 1, m)
  {
    forall x: Path ensures x in a + b <==> 1 <= |x| < m && x <= p {
      assert x in a + b <==> x in a || x in b;
      if x <= p && |x| < |q| { assert x == p[..|x|] && q[..|x|] == p[..|x|]; }
    }
  }

  lemma OnwardPath(vs: seq<Var>, q: Path, p: Path)
    requires TopBelow(vs, q).Some? && q < p
    ensures TopBelow(vs, p) == Below(TopBelow(vs, q).value, p[|q|..])
    ensures TopSimpleTemplate(vs, p) == SimpleTemplate(TopBelow(vs, q).value, p[|q|..])
  {
    assert p[1..] == q[1..] + p[|q|..];
    BelowApart(vs[q[0]], q[1..], p[|q|..]);
  }

  /** On from the aggregate of a qualified name. */
  lemma OnFromAggregate(vs: seq<Var>, agg: Search, r: Search)
    requires agg.found.Some? && r.found.Some? && TopOk(vs, agg) && !TopSimpleTemplate(vs, agg.found.value.path)
    requires SearchOk(agg.found.value.v, agg.found.value.path, r)
    ensures TopOk(vs, r.(pushed := agg.pushed + r.pushed))
  {
    var q, p := agg.found.value.path, r.found.value.path;
    OnwardPath(vs, q, p);
    RecordedJoin(agg.pushed, r.pushed, q, p, if TopSimpleTemplate(vs, p) then |p| - 1 else |p|);
  }

  lemma {:induction false} TopExactMatchOk(vs: seq<Var>, name: string)
    requires AllWellFormed(vs) && AllUndotted(vs)
    ensures TopOk(vs, TopExactMatch(vs, name))
    ensures '.' !in name ==>
              (TopExactMatch(vs, name).found.None? ==> TopExactMatch(vs, name).pushed == []) &&
              (TopExactMatch(vs, name).found.Some? ==> !TopSimpleTemplate(vs, TopExactMatch(vs, name).found.value.path))
    decreases |name|, 0
  {
    var i, d := FirstNamed(vs, name), Dot(name);
    if i < |vs| {
      TopHitOk(vs, i);
    } else if d < |name| {
      var agg := VarOf(vs, name[..d]);
      VarOfOk(vs, name[..d]);
      if agg.found.Some? {
        VarInOk(agg.found.value.v, agg.found.value.path, name[d + 1..], true);
        var r := VarIn(agg.found.value.v, agg.found.value.path, name[d + 1..], true);
        if r.found.Some? { OnFromAggregate(vs, agg, r); }
      }
    }
  }

  lemma {:induction false} VarOfOk(vs: seq<Var>, name: string)
    requires AllWellFormed(vs) && AllUndotted(vs)
    ensures TopOk(vs, VarOf(vs, name))
    ensures '.' !in name && VarOf(vs, name).found.Some? ==> !TopSimpleTemplate(vs, VarOf(vs, name).found.value.path)
    decreases |name|, 1
  {
    TopExactMatchOk(vs, name);
    TopLeafMatchOk(vs, 0, name);
    var r, leaf := TopExactMatch(vs, name), TopLeafMatch(vs, 0, name);
    if r.found.None? && leaf.found.Some? { assert r.pushed + leaf.pushed == leaf.pushed; }
  }

  /** Is the stack exactly the proper ancestors of the variable at p, each once? */
  ghost predicate IsAncestors(pushed: seq<Path>, p: Path) {
    |pushed| == |p| - 1 && forall x: Path :: x in pushed <==> x != [] && x < p
  }

  /** When a variable is found, by its leaf name or a qualified name, the stack holds exactly its proper
      ancestors, unless it is the element template of an array of simple type: the array is then missing. */
  lemma StackIsAncestorsIff(vs: seq<Var>, name: string)
    requires AllWellFormed(vs) && AllUndotted(vs) && VarOf(vs, name).found.Some?
    ensures var r := VarOf(vs, name); var p := r.found.value.path;
            TopBelow(vs, p) == Some(r.found.value.v) && |p| > 0 &&
            (IsAncestors(r.pushed, p) <==> !TopSimpleTemplate(vs, p)) &&
            (TopSimpleTemplate(vs, p) ==> IsAncestors([p[..|p| - 1]] + r.pushed, p))
  {
    VarOfOk(vs, name);
    var r := VarOf(vs, name);
    var p := r.found.value.path;
    if TopSimpleTemplate(vs, p) {
      RecordedParent(r.pushed, p);
    } else {
      assert forall x: Path :: x in r.pushed <==> 1 <= |x| < |p| && x <= p;
    }
  }

  lemma RecordedParent(pushed: seq<Path>, p: Path)
    requires |p| > 1 && Recorded(pushed, p, 1, |p| - 1)
    ensures IsAncestors([p[..|p| - 1]] + pushed, p)
  {
    var up := p[..|p| - 1];
    forall x: Path ensures x in [up] + pushed <==> x != [] && x < p {
      assert x in [up] + pushed <==> x == up || x in pushed;
      if x < p && |x| == |p| - 1 { assert x == p[..|x|]; }
    }
  }

  // ---------------------------------------------------------------------------------------------
  // The variable that is found
  // ---------------------------------------------------------------------------------------------

  /** The part of the name after its last dot. */
  function Last(name: string): string
    decreases |name|
  {
    if Dot(name) == |name| then name else Last(name[Dot(name) + 1..])
  }

  /** A hit bears the last part of the name, but for the template of an array. */
  ghost predicate Named(v: Var, at: Path, name: string, r: Search) {
    r.found.Some? && at <= r.found.value.path ==>
      r.found.value.v.name == Last(name) || Last(name) == "" || SimpleTemplate(v, r.found.value.path[|at|..])
  }

  lemma UndottedIsLast(v: Var, name: string)
    requires Undotted(v) && v.name == name
    ensures Last(name) == name
  {
    assert Dot(name) < |name| ==> name[Dot(name)] in name;
  }

  lemma {:induction false} LeafHasName(v: Var, i: nat, at: Path, name: string)
    requires WellFormed(v) && Undotted(v) && IsConstructor(v.ty) && i <= |v.kids|
    ensures var r := LeafMatch(v.kids, i, at, name); r.found.Some? ==> r.found.value.v.name == name == Last(name)
    decreases v, 0, |v.kids| - i
  {
    if i < |v.kids| {
      WellFormedAt(v.kids, i);
      UndottedAt(v.kids, i);
      if v.kids[i].name == name {
        UndottedIsLast(v.kids[i], name);
      } else {
        if IsConstructor(v.kids[i].ty) { LeafInHasName(v.kids[i], at + [i], name); }
        LeafHasName(v, i + 1, at, name);
      }
    }
  }

  lemma {:induction false} LeafInHasName(v: Var, at: Path, name: string)
    requires WellFormed(v) && Undotted(v) && IsConstructor(v.ty)
    ensures var r := VarIn(v, at, name, false); r.found.Some? ==> r.found.value.v.name == name == Last(name)
    decreases v, 1
  {
    if v.ty.Grid? {
      var i := FirstNamed(v.kids, name);
      if i < |v.kids| { UndottedAt(v.kids, i); UndottedIsLast(v.kids[i], name); }
    } else {
      LeafHasName(v, 0, at, name);
    }
  }

  /** On from a kid. */
  lemma NamedUp(v: Var, at: Path, i: nat, name: string, field: string, r: Search, pushed: seq<Path>)
    requires i < |v.kids| && SearchOk(v.kids[i], at + [i], r) && Named(v.kids[i], at + [i], field, r)
    requires Last(field) == Last(name)
    ensures Named(v, at, name, r.(pushed := pushed))
  {
    if r.found.Some? { OneUp(v, at, i, r, [at] + r.pushed); }
  }

  lemma {:induction false} HitHasName(v: Var, at: Path, name: string, exact: bool)
    requires WellFormed(v) && Undotted(v)
    ensures Named(v, at, name, VarIn(v, at, name, exact))
    decreases |name|, v, 2
  {
    if v.ty.ArrayType? {
      var t := v.kids[0];
      WellFormedAt(v.kids, 0);
      UndottedAt(v.kids, 0);
      if !IsConstructor(t.ty) {
        assert (at + [0])[|at|..] == [0] && [0][1..] == [];
      } else if t.name == name {
        UndottedIsLast(t, name);
      } else if name != "" {
        HitHasName(t, at + [0], name, exact);
        VarInOk(t, at + [0], name, exact);
        var r := VarIn(t, at + [0], name, exact);
        NamedUp(v, at, 0, name, name, r, r.pushed + [at]);
      }
    } else if IsConstructor(v.ty) && exact && !v.ty.Grid? {
      ExactHasName(v, at, name);
    } else if IsConstructor(v.ty) {
      LeafInHasName(v, at, name);
    }
  }

  lemma {:induction false} ExactHasName(v: Var, at: Path, name: string)
    requires WellFormed(v) && Undotted(v) && !v.ty.ArrayType?
    ensures Named(v, at, name, ExactMatch(v, at, name))
    decreases |name|, v, 1
  {
    var i, d := FirstNamed(v.kids, name), Dot(name);
    if i < |v.kids| {
      UndottedAt(v.kids, i);
      UndottedIsLast(v.kids[i], name);
    } else if d < |name| {
      var j := FirstNamed(v.kids, name[..d]);
      if j < |v.kids| {
        WellFormedAt(v.kids, j);
        UndottedAt(v.kids, j);
        HitHasName(v.kids[j], at + [j], name[d + 1..], true);
        VarInOk(v.kids[j], at + [j], name[d + 1..], true);
        var r := VarIn(v.kids[j], at + [j], name[d + 1..], true);
        NamedUp(v, at, j, name, name[d + 1..], r, [at] + r.pushed);
      }
    }
  }

  lemma {:induction false} TopLeafHasName(vs: seq<Var>, i: nat, name: string)
    requires AllWellFormed(vs) && AllUndotted(vs) && i <= |vs|
    ensures var r := TopLeafMatch(vs, i, name); r.found.Some? ==> r.found.value.v.name == name == Last(name)
    decreases |vs| - i
  {
    if i < |vs| {
      WellFormedAt(vs, i);
      UndottedAt(vs, i);
      if vs[i].name == name {
        UndottedIsLast(vs[i], name);
      } else {
        if IsConstructor(vs[i].ty) { LeafInHasName(vs[i], [i], name); }
        TopLeafHasName(vs, i + 1, name);
      }
    }
  }

  lemma {:induction false} UndottedBelow(v: Var, rel: Path)
    requires Undotted(v) && Below(v, rel).Some?
    ensures Undotted(Below(v, rel).value)
    decreases |rel|
  {
    if rel != [] {
      UndottedAt(v.kids, rel[0]);
      UndottedBelow(v.kids[rel[0]], rel[1..]);
    }
  }

  lemma UndottedAtTop(vs: seq<Var>, p: Path)
    requires AllUndotted(vs) && TopBelow(vs, p).Some?
    ensures Undotted(TopBelow(vs, p).value)
  {
    UndottedAt(vs, p[0]);
    UndottedBelow(vs[p[0]], p[1..]);
  }

  lemma FieldHasName(vs: seq<Var>, agg: Hit, field: string)
    requires AllUndotted(vs) && TopBelow(vs, agg.path) == Some(agg.v) && WellFormed(agg.v)
    ensures var r := VarIn(agg.v, agg.path, field, true);
            r.found.Some? ==>
              r.found.value.v.name == Last(field) || Last(field) == "" || TopSimpleTemplate(vs, r.found.value.path)
  {
    UndottedAtTop(vs, agg.path);
    HitHasName(agg.v, agg.path, field, true);
    VarInOk(agg.v, agg.path, field, true);
    var r := VarIn(agg.v, agg.path, field, true);
    if r.found.Some? { OnwardPath(vs, agg.path, r.found.value.path); }
  }

  /** The variable that is found bears the last part of the name asked for; a name that ends in a dot can
      find the template of an array of constructors, and any name at all that of an array of simple type. */
  lemma FoundHasName(vs: seq<Var>, name: string)
    requires AllWellFormed(vs) && AllUndotted(vs) && VarOf(vs, name).found.Some?
    ensures var h := VarOf(vs, name).found.value;
            h.v.name == Last(name) || Last(name) == "" || TopSimpleTemplate(vs, h.path)
  {
    var i, d := FirstNamed(vs, name), Dot(name);
    TopLeafHasName(vs, 0, name);
    if i < |vs| {
      UndottedAt(vs, i);
      UndottedIsLast(vs[i], name);
    } else if d < |name| && TopExactMatch(vs, name).found.Some? {
      VarOfOk(vs, name[..d]);
      FieldHasName(vs, VarOf(vs, name[..d]).found.value, name[d + 1..]);
    }
  }

  /** A leaf name finds a variable of just that name, with the whole path recorded. */
  lemma LeafNamesAreExact(vs: seq<Var>, name: string)
    requires AllWellFormed(vs) && AllUndotted(vs) && VarOf(vs, name).found.Some? && '.' !in name
    ensures IsAncestors(VarOf(vs, name).pushed, VarOf(vs, name).found.value.path)
    ensures VarOf(vs, name).found.value.v.name == name
  {
    VarOfOk(vs, name);
    StackIsAncestorsIff(vs, name);
    TopLeafHasName(vs, 0, name);
  }
}
