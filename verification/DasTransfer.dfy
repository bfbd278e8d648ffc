/** Handing the attributes of a DAS over to a dataset: every variable claims the container that its name leads to,
    and what nobody has claimed becomes global. */
module DasTransfer {
  import opened Wrappers
  import opened Text
  import opened Attributes

  /** A table of a DAS with its own name. Tables have identities, as an alias of a container holds the same table
      once more; whether a table has been claimed is known by its identity. */
  datatype DasTable = DasTable(id: nat, name: string, entries: seq<DasEntry>)

  datatype DasEntry =
    | Attribute(name: string, ty: AttrType, values: seq<string>)
    | Holds(name: string, table: DasTable)

  /** The entries as they are copied. */
  function EntriesOf(es: seq<DasEntry>): (r: Table)
    ensures |r| == |es|
    decreases es
  {
    if es == [] then [] else [EntryOf(es[0])] + EntriesOf(es[1..])
  }

  function EntryOf(e: DasEntry): (r: Entry)
    ensures r.name == e.name
    decreases e
  {
    match e
    case Attribute(name, ty, values) => Plain(name, ty, values)
    case Holds(name, t) =>
      var c := Container(t.name, EntriesOf(t.entries));
      if name == t.name then c else Alias(name, t.name, c)
  }

  function OpenOf(t: DasTable): OpenTable {
    OpenTable(t.name, EntriesOf(t.entries))
  }

  // ---------------------------------------------------------------------------------------------
  // Finding a container by name
  // ---------------------------------------------------------------------------------------------

  predicate IsContainer(e: DasEntry, name: string) {
    e.name == name && (e.Holds? || e.ty.AttrContainer?)
  }

  /** The first container of that name; the number of entries when there is none. */
  function FirstHolder(es: seq<DasEntry>, name: string): (i: nat)
    ensures i <= |es| && (i < |es| ==> IsContainer(es[i], name))
    ensures forall j :: 0 <= j < i ==> !IsContainer(es[j], name)
  {
    if es == [] || IsContainer(es[0], name) then 0 else
    var i := FirstHolder(es[1..], name);
    assert forall j :: 0 < j < i + 1 ==> es[j] == es[1..][j - 1];
    i + 1
  }

  /** Its table. */
  function ByName(es: seq<DasEntry>, name: string): Option<DasTable> {
    var i := FirstHolder(es, name);
    if i < |es| && es[i].Holds? then Some(es[i].table) else None
  }

  /** simple_find_container */
  function SimpleFound(t: DasTable, target: string): Option<DasTable> {
    if t.name == target then Some(t) else ByName(t.entries, target)
  }

  /** find_container, which get_attr_table is */
  function Found(t: DasTable, path: string): Option<DasTable>
    decreases |path|
  {
    var d := Dot(path);
    if d == |path| then SimpleFound(t, path)
    else
      match SimpleFound(t, path[..d])
      case Some(inner) => Found(inner, path[d + 1..])
      case None => None
  }

  function OpenOption(t: Option<DasTable>): Option<OpenTable> {
    match t
    case Some(t) => Some(OpenOf(t))
    case None => None
  }

  lemma TargetOf(e: DasEntry)
    ensures Target(EntryOf(e)) == match e case Attribute(name, ty, values) => Plain(name, ty, values)
                                          case Holds(_, t) => Container(t.name, EntriesOf(t.entries))
  {}

  lemma {:induction false} ByNameIsFirstTable(es: seq<DasEntry>, name: string)
    ensures FirstTable(EntriesOf(es), name) == OpenOption(ByName(es, name))
    decreases |es|
  {
    if es != [] {
      ByNameIsFirstTable(es[1..], name);
      TargetOf(es[0]);
      assert !IsContainer(es[0], name) ==> ByName(es, name) == ByName(es[1..], name);
      assert EntriesOf(es)[1..] == EntriesOf(es[1..]);
    }
  }

  lemma SimpleFoundIsContainer(t: DasTable, name: string)
    ensures SimpleFindContainer(OpenOf(t), name) == OpenOption(SimpleFound(t, name))
  {
    ByNameIsFirstTable(t.entries, name);
  }

  /** The search is that of any attribute table. */
  lemma {:induction false} FoundIsFindContainer(t: DasTable, path: string)
    ensures FindContainer(OpenOf(t), path) == OpenOption(Found(t, path))
    decreases |path|
  {
    var d := Dot(path);
    if d < |path| {
      SimpleFoundIsContainer(t, path[..d]);
      match SimpleFound(t, path[..d])
      case Some(inner) =>
        FoundIsFindContainer(inner, path[d + 1..]);
        FoundBelow(t, path, inner);
      case None =>
        assert FindContainer(OpenOf(t), path) == None;
    } else {
      SimpleFoundIsContainer(t, path);
    }
  }

  /** A dotted path goes on in the container of its first part. */
  lemma {:induction false} FoundBelow(t: DasTable, path: string, inner: DasTable)
    requires Dot(path) < |path| && SimpleFound(t, path[..Dot(path)]) == Some(inner)
    requires SimpleFindContainer(OpenOf(t), path[..Dot(path)]) == Some(OpenOf(inner))
    ensures Found(t, path) == Found(inner, path[Dot(path) + 1..])
    ensures FindContainer(OpenOf(t), path) == FindContainer(OpenOf(inner), path[Dot(path) + 1..])
  {}

  predicate PlainName(name: string) {
    name != "" && '.' !in name
  }

  lemma PlainIsByName(t: DasTable, name: string)
    requires t.name == "" && PlainName(name)
    ensures Found(t, name) == ByName(t.entries, name)
  {
    OnePart(name);
    assert Dot(name) == |name|;
  }

  /** A table with one container, and a path shorter than its name. */
  lemma {:induction false} ShorterMisses(t: DasTable, path: string)
    requires t.name == "" && |t.entries| == 1 && t.entries[0].Holds? && |path| < |t.entries[0].name|
    ensures Found(t, path) in {None, Some(t)}
    decreases |path|
  {
    var d := Dot(path);
    assert FirstHolder(t.entries, path[..d]) == 1;
    assert d == |path| ==> path[..d] == path;
    if d < |path| && path[..d] == "" { ShorterMisses(t, path[d + 1..]); }
  }

  function Lone(name: string): DasTable {
    DasTable(0, "", [Holds(name, DasTable(1, name, []))])
  }

  lemma DottedMisses(name: string)
    requires '.' in name
    ensures Found(Lone(name), name) in {None, Some(Lone(name))} && ByName(Lone(name).entries, name) == Some(DasTable(1, name, []))
  {
    var t, d := Lone(name), Dot(name);
    assert name == name[..d] + name[d..];
    assert FirstHolder(t.entries, name) == 0 && FirstHolder(t.entries, name[..d]) == 1;
    if d == 0 { ShorterMisses(t, name[d + 1..]); }
  }

  /** For every DAS the table found for a variable is the first container of its name exactly when the name is
      neither empty nor dotted. The top-level table itself answers to the empty name, and a dotted name leads
      into containers. */
  lemma FoundByNameIff(name: string)
    ensures (forall t: DasTable | t.name == "" :: Found(t, name) == ByName(t.entries, name)) <==> PlainName(name)
  {
    if PlainName(name) {
      forall t: DasTable | t.name == "" ensures Found(t, name) == ByName(t.entries, name) { PlainIsByName(t, name); }
    } else if name == "" {
      var t := DasTable(0, "", []);
      assert Found(t, name) == Some(t) && ByName(t.entries, name) == None;
    } else {
      DottedMisses(name);
      assert Found(Lone(name), name) != ByName(Lone(name).entries, name);
    }
  }

  /** The number of tables in a table, itself included. */
  function Size(t: DasTable): nat
    decreases t
  {
    1 + Sizes(t.entries)
  }

  function Sizes(es: seq<DasEntry>): nat
    decreases es
  {
    if es == [] then 0 else (match es[0] case Holds(_, t) => Size(t) case _ => 0) + Sizes(es[1..])
  }

  lemma {:induction false} HeldIsSmaller(es: seq<DasEntry>, i: nat)
    requires i < |es| && es[i].Holds?
    ensures Size(es[i].table) <= Sizes(es)
  {
    if i > 0 { HeldIsSmaller(es[1..], i - 1); }
  }

  lemma {:induction false} FoundIsNoLarger(t: DasTable, path: string)
    ensures Found(t, path).Some? ==> Size(Found(t, path).value) <= Size(t)
    decreases |path|
  {
    var d := Dot(path);
    var i, inner := FirstHolder(t.entries, path[..d]), SimpleFound(t, path[..d]);
    assert d == |path| ==> path[..d] == path;
    if i < |t.entries| && t.entries[i].Holds? { HeldIsSmaller(t.entries, i); }
    if d < |path| && inner.Some? { FoundIsNoLarger(inner.value, path[d + 1..]); }
  }

  predicate OnlyDots(path: string) {
    forall c :: c in path ==> c == '.'
  }

  /** What is found through a container of the table is not the table itself. */
  lemma ChildIsNotWhole(t: DasTable, name: string, path: string)
    requires ByName(t.entries, name).Some?
    ensures var child := ByName(t.entries, name).value; child != t && Found(child, path) != Some(t)
  {
    var i := FirstHolder(t.entries, name);
    HeldIsSmaller(t.entries, i);
    FoundIsNoLarger(t.entries[i].table, path);
  }

  /** The variable is given the whole DAS exactly when its name is empty or nothing but dots. */
  lemma {:induction false} FindsWholeIff(t: DasTable, path: string)
    requires t.name == ""
    ensures Found(t, path) == Some(t) <==> OnlyDots(path)
    decreases |path|
  {
    if Dot(path) > 0 {
      NotOnlyDots(path);
      FindsBelow(t, path);
    } else if path != "" {
      assert path == ['.'] + path[1..] && path[..0] == "";
      FindsWholeIff(t, path[1..]);
      assert Found(t, path) == Found(t, path[1..]);
      assert forall c :: c in path <==> c == '.' || c in path[1..];
    }
  }

  lemma FindsBelow(t: DasTable, path: string)
    requires t.name == "" && Dot(path) > 0
    ensures Found(t, path) != Some(t)
  {
    var d := Dot(path);
    var child := ByName(t.entries, path[..d]);
    if d < |path| {
      if child.Some? { ChildIsNotWhole(t, path[..d], path[d + 1..]); }
    } else {
      assert path[..d] == path;
      if child.Some? { ChildIsNotWhole(t, path, ""); }
    }
  }

  lemma NotOnlyDots(path: string)
    requires Dot(path) > 0
    ensures !OnlyDots(path)
  {
    assert path[0] == path[..Dot(path)][0] && path[0] in path;
  }

  // ---------------------------------------------------------------------------------------------
  // Merging a container into a variable's table
  // ---------------------------------------------------------------------------------------------

  /** The entry with more values for the attribute it stands for. */
  function WithValues(e: Entry, more: seq<string>): (r: Entry)
    ensures r.name == e.name && TypeOfEntry(r) == TypeOfEntry(e)
  {
    match e
    case Plain(name, ty, values) => Plain(name, ty, values + more)
    case Container(_, _) => e
    case Alias(name, source, target) => Alias(name, source, WithValues(target, more))
  }

  /** append_attr with all the values at once. */
  function AppendValues(t: Table, name: string, ty: AttrType, values: seq<string>): Option<Table> {
    var lname := DecodeSpaces(name);
    var i := SimpleFind(t, lname);
    if i < |t| then
      if TypeOfEntry(t[i]) != ty || TypeOfEntry(t[i]) == AttrContainer then None
      else Some(t[i := WithValues(t[i], values)])
    else Some(t + [Plain(lname, ty, values)])
  }

  /** What an entry contributes under its own name: a copy of the container it is or stands for, or values. */
  function AppendEntry(t: Table, e: Entry): Option<Table> {
    match Target(e)
    case Container(_, entries) => AppendContainer(t, e.name, entries)
    case Plain(_, ty, values) => AppendValues(t, e.name, ty, values)
  }

  /** The loop of BaseType::transfer_attributes; None stands for an exception. */
  function Merged(t: Table, es: Table): Option<Table>
    decreases |es|
  {
    if es == [] then Some(t)
    else
      match AppendEntry(t, es[0])
      case Some(u) => Merged(u, es[1..])
      case None => None
  }

  /** A table without aliases, whose names are distinct and free of %20, arrives unchanged in a variable without
      attributes. */
  lemma {:induction false} MergedIntoEmpty(t: Table, es: Table)
    requires DistinctNames(t + es) && forall i :: 0 <= i < |es| ==> !Occurs(es[i].name, "%20")
    requires forall i :: 0 <= i < |es| ==> !es[i].Alias? && (es[i].Plain? ==> es[i].ty != AttrContainer)
    ensures Merged(t, es) == Some(t + es)
    decreases |es|
  {
    if es == [] {
      assert t + es == t;
    } else {
      var all := t + es;
      assert all[|t|] == es[0] && forall i :: 0 <= i < |t| ==> all[i] == t[i];
      DecodeNothing(es[0].name);
      FindIsMembership(t, es[0].name);
      assert AppendEntry(t, es[0]) == Some(t + [es[0]]);
      assert t + [es[0]] + es[1..] == t + es;
      MergedIntoEmpty(t + [es[0]], es[1..]);
    }
  }

  /** The values that entries give to a name, one entry after the other. */
  function Contributed(es: Table, name: string): seq<string> {
    if es == [] then []
    else (if DecodeSpaces(es[0].name) == name then Values(es[0]) else []) + Contributed(es[1..], name)
  }

  lemma {:induction false} MoreValues(e: Entry, more: seq<string>)
    ensures Values(WithValues(e, more)) == Values(e) + if Target(e).Plain? then more else []
    ensures Target(e).Container? ==> WithValues(e, more) == e
    decreases e
  {
    if e.Alias? { MoreValues(e.target, more); }
  }

  lemma KeepsTwice(t: Table, u: Table, w: Table)
    requires Keeps(t, u) && Keeps(u, w)
    ensures Keeps(t, w)
  {
    forall i | 0 <= i < |t| ensures Extends(t[i], w[i]) { assert Extends(t[i], u[i]) && Extends(u[i], w[i]); }
  }

  /** A new entry goes last; its values count unless its name was there already. */
  lemma NewEntry(t: Table, e: Entry, name: string)
    requires HasName(t, e.name) ==> Values(e) == []
    ensures Keeps(t, t + [e])
    ensures ValuesNamed(t + [e], name) == ValuesNamed(t, name) + if e.name == name then Values(e) else []
  {
    var i, u := SimpleFind(t, name), t + [e];
    FindIsMembership(t, name);
    assert forall j :: 0 <= j < |t| ==> u[j] == t[j];
    assert u[|t|] == e;
    FirstIsUnique(u, name, if i < |t| then i else if e.name == name then |t| else |t| + 1);
  }

  /** More values go behind those that the first entry of the name has. */
  lemma GrownEntry(t: Table, lname: string, more: seq<string>, name: string)
    requires SimpleFind(t, lname) < |t| && Target(t[SimpleFind(t, lname)]).Plain?
    ensures var k := SimpleFind(t, lname); var u := t[k := WithValues(t[k], more)];
            Keeps(t, u) && ValuesNamed(u, name) == ValuesNamed(t, name) + if lname == name then more else []
  {
    var k := SimpleFind(t, lname);
    var u := t[k := WithValues(t[k], more)];
    MoreValues(t[k], more);
    FirstIsUnique(u, name, SimpleFind(t, name));
  }

  /** What appending one entry does. */
  lemma AppendedEntry(t: Table, e: Entry, name: string)
    requires AppendEntry(t, e).Some?
    ensures var u := AppendEntry(t, e).value;
            Keeps(t, u) &&
            ValuesNamed(u, name) == ValuesNamed(t, name) + (if DecodeSpaces(e.name) == name then Values(e) else [])
  {
    var lname := DecodeSpaces(e.name);
    FindIsMembership(t, lname);
    match Target(e)
    case Container(_, entries) => NewEntry(t, Container(lname, entries), name);
    case Plain(_, ty, values) =>
      if SimpleFind(t, lname) < |t| {
        GrownEntry(t, lname, values, name);
      } else {
        NewEntry(t, Plain(lname, ty, values), name);
      }
  }

  /** What a variable's table is after it has taken a container: the entries it had are still there, in their
      places; under each name the values of the container's entries follow those it had, in order. */
  lemma {:induction false} MergedValues(t: Table, es: Table, name: string)
    requires Merged(t, es).Some?
    ensures Keeps(t, Merged(t, es).value)
    ensures ValuesNamed(Merged(t, es).value, name) == ValuesNamed(t, name) + Contributed(es, name)
    decreases |es|
  {
    if es != [] {
      var u := AppendEntry(t, es[0]).value;
      AppendedEntry(t, es[0], name);
      MergedValues(u, es[1..], name);
      KeepsTwice(t, u, Merged(u, es[1..]).value);
      Associates(ValuesNamed(t, name), if DecodeSpaces(es[0].name) == name then Values(es[0]) else [],
                 Contributed(es[1..], name));
    }
  }

  /** And every container in it is in the table, whole. */
  lemma {:induction false} MergedContainers(t: Table, es: Table, k: nat)
    requires Merged(t, es).Some? && k < |es| && Target(es[k]).Container?
    ensures Container(DecodeSpaces(es[k].name), Target(es[k]).entries) in Merged(t, es).value
    decreases |es|
  {
    var u := AppendEntry(t, es[0]).value;
    if k > 0 {
      MergedContainers(u, es[1..], k - 1);
    } else {
      var c := Container(DecodeSpaces(es[0].name), Target(es[0]).entries);
      assert u == t + [c] && u[|t|] == c;
      MergedValues(u, es[1..], "");
      assert Extends(c, Merged(u, es[1..]).value[|t|]);
    }
  }

  // ---------------------------------------------------------------------------------------------
  // When merging throws
  // ---------------------------------------------------------------------------------------------

  /** The type of what a table has under a name. */
  function TypeNamed(t: Table, name: string): Option<AttrType> {
    if SimpleFind(t, name) < |t| then Some(TypeOfEntry(t[SimpleFind(t, name)])) else None
  }

  /** A container must be new by the name as it stands; values must be new, or join values of their type. */
  predicate Joins(t: Table, e: Entry) {
    match Target(e)
    case Container(_, _) => TypeNamed(t, e.name).None?
    case Plain(_, ty, _) =>
      TypeNamed(t, DecodeSpaces(e.name)).None? ||
      (TypeNamed(t, DecodeSpaces(e.name)) == Some(ty) && ty != AttrContainer)
  }

  /** What is left of an entry that has been merged, its values aside. */
  function Bare(e: Entry): Entry {
    match Target(e)
    case Container(_, _) => Container(DecodeSpaces(e.name), [])
    case Plain(_, ty, _) => Plain(DecodeSpaces(e.name), ty, [])
  }

  function Bares(es: Table): (r: Table)
    ensures |r| == |es|
  {
    seq(|es|, i requires 0 <= i < |es| => Bare(es[i]))
  }

  ghost predicate SameTypes(t: Table, u: Table) {
    forall name :: TypeNamed(t, name) == TypeNamed(u, name)
  }

  lemma TypeWithLast(t: Table, e: Entry, name: string)
    ensures TypeNamed(t + [e], name) ==
      if TypeNamed(t, name).Some? then TypeNamed(t, name) else if e.name == name then Some(TypeOfEntry(e)) else None
  {
    var u, i := t + [e], SimpleFind(t, name);
    assert forall j :: 0 <= j < |t| ==> u[j] == t[j];
    FirstIsUnique(u, name, if i < |t| then i else if e.name == name then |t| else |t| + 1);
  }

  lemma TypesAfterEntry(t: Table, u: Table, e: Entry)
    requires SameTypes(t, u)
    ensures AppendEntry(t, e).Some? <==> Joins(u, e)
    ensures AppendEntry(t, e).Some? ==> SameTypes(AppendEntry(t, e).value, u + [Bare(e)])
  {
    var lname := DecodeSpaces(e.name);
    assert TypeNamed(t, lname) == TypeNamed(u, lname) && TypeNamed(t, e.name) == TypeNamed(u, e.name);
    if AppendEntry(t, e).Some? {
      var w := AppendEntry(t, e).value;
      forall name ensures TypeNamed(w, name) == TypeNamed(u + [Bare(e)], name) {
        assert TypeNamed(t, name) == TypeNamed(u, name);
        TypeWithLast(u, Bare(e), name);
        if |w| > |t| { TypeWithLast(t, w[|t|], name); } else { TypesOfGrown(t, lname, Values(e), name); }
      }
    }
  }

  lemma TypesOfGrown(t: Table, lname: string, more: seq<string>, name: string)
    requires SimpleFind(t, lname) < |t|
    ensures var k := SimpleFind(t, lname); TypeNamed(t[k := WithValues(t[k], more)], name) == TypeNamed(t, name)
  {
    var k := SimpleFind(t, lname);
    FirstIsUnique(t[k := WithValues(t[k], more)], name, SimpleFind(t, name));
  }

  /** Every entry joins what the table had and what the entries before it have become. */
  ghost predicate AllJoin(u: Table, es: Table) {
    forall k :: 0 <= k < |es| ==> Joins(u + Bares(es[..k]), es[k])
  }

  /** A container is taken without an exception exactly when each of its entries joins the table and the entries
      before it. */
  lemma {:induction false} MergesIff(t: Table, u: Table, es: Table)
    requires SameTypes(t, u)
    ensures Merged(t, es).Some? <==> AllJoin(u, es)
    decreases |es|
  {
    if es != [] {
      TypesAfterEntry(t, u, es[0]);
      AllJoinApart(u, es);
      if AppendEntry(t, es[0]).Some? { MergesIff(AppendEntry(t, es[0]).value, u + [Bare(es[0])], es[1..]); }
    }
  }

  lemma AllJoinApart(u: Table, es: Table)
    requires es != []
    ensures AllJoin(u, es) <==> Joins(u, es[0]) && AllJoin(u + [Bare(es[0])], es[1..])
  {
    assert u + Bares(es[..0]) == u;
    forall k | 0 < k < |es|
      ensures u + Bares(es[..k]) == u + [Bare(es[0])] + Bares(es[1..][..k - 1]) && es[1..][k - 1] == es[k]
    {
      assert Bares(es[..k]) == [Bare(es[0])] + Bares(es[1..][..k - 1]);
    }
    if AllJoin(u, es) {
      forall k | 0 <= k < |es[1..]| ensures Joins(u + [Bare(es[0])] + Bares(es[1..][..k]), es[1..][k]) {
        assert Joins(u + Bares(es[..k + 1]), es[k + 1]);
      }
    }
    if Joins(u, es[0]) && AllJoin(u + [Bare(es[0])], es[1..]) {
      forall k | 0 <= k < |es| ensures Joins(u + Bares(es[..k]), es[k]) {
        if k > 0 { assert Joins(u + [Bare(es[0])] + Bares(es[1..][..k - 1]), es[1..][k - 1]); }
      }
    }
  }

  // ---------------------------------------------------------------------------------------------
  // What the variables take
  // ---------------------------------------------------------------------------------------------

  /** A variable whose class does not override transfer_attributes; the parts of a Grid are such. */
  datatype Leaf = Leaf(name: string, attrs: Table)

  /** The parts of a Grid are its array and its maps. */
  datatype Variable =
    | Single(leaf: Leaf)
    | Grid(name: string, attrs: Table, parts: seq<Leaf>)

  function NameOf(v: Variable): string {
    match v
    case Single(leaf) => leaf.name
    case Grid(name, _, _) => name
  }

  /** BaseType::transfer_attributes; None stands for an exception. */
  function TakeLeaf(from: DasTable, l: Leaf): Option<Leaf> {
    match Found(from, l.name)
    case None => Some(l)
    case Some(t) =>
      match Merged(l.attrs, EntriesOf(t.entries))
      case Some(attrs) => Some(l.(attrs := attrs))
      case None => None
  }

  /** More in front of what has been taken, if it could be. */
  function Prefixed<T>(done: seq<T>, rest: Option<seq<T>>): Option<seq<T>> {
    match rest
    case Some(rest) => Some(done + rest)
    case None => None
  }

  lemma PrefixedTwice<T>(a: seq<T>, b: seq<T>, rest: Option<seq<T>>)
    ensures Prefixed(a, Prefixed(b, rest)) == Prefixed(a + b, rest)
  {
    if rest.Some? { assert a + (b + rest.value) == (a + b) + rest.value; }
  }

  lemma PrefixedByNothing<T>(rest: Option<seq<T>>)
    ensures Prefixed([], rest) == rest
  {
    if rest.Some? { assert [] + rest.value == rest.value; }
  }

  function TakeLeaves(from: DasTable, ls: seq<Leaf>): Option<seq<Leaf>> {
    if ls == [] then Some([])
    else
      match TakeLeaf(from, ls[0])
      case None => None
      case Some(l) => Prefixed([l], TakeLeaves(from, ls[1..]))
  }

  /** The table, if any, that is not global any more once a variable of that name has looked for its own. */
  function Cleared(from: DasTable, name: string): set<nat> {
    match Found(from, name)
    case Some(t) => {t.id}
    case None => {}
  }

  function ClearedByLeaves(from: DasTable, ls: seq<Leaf>): set<nat> {
    if ls == [] then {} else Cleared(from, ls[0].name) + ClearedByLeaves(from, ls[1..])
  }

  function ClearedBy(from: DasTable, v: Variable): set<nat> {
    match v
    case Single(leaf) => Cleared(from, leaf.name)
    case Grid(name, _, parts) =>
      match Found(from, name)
      case Some(t) => {t.id} + ClearedByLeaves(t, parts)
      case None => {}
  }

  /** The entries that are global: all attributes, and the containers nobody has claimed. */
  function StillGlobal(es: seq<DasEntry>, claimed: set<nat>): seq<DasEntry> {
    if es == [] then []
    else (if es[0].Holds? && es[0].table.id in claimed then [] else [es[0]]) + StillGlobal(es[1..], claimed)
  }

  /** Grid::transfer_attributes: the parts look in the Grid's own container, and what they leave is the Grid's. */
  function Take(from: DasTable, claimed: set<nat>, v: Variable): Option<Variable> {
    match v
    case Single(leaf) =>
      (match TakeLeaf(from, leaf)
       case Some(leaf) => Some(Single(leaf))
       case None => None)
    case Grid(name, attrs, parts) =>
      match Found(from, name)
      case None => Some(v)
      case Some(t) =>
        match TakeLeaves(t, parts)
        case None => None
        case Some(parts) =>
          match Merged(attrs, EntriesOf(StillGlobal(t.entries, claimed + ClearedBy(from, v))))
          case Some(attrs) => Some(Grid(name, attrs, parts))
          case None => None
  }

  function TakeAll(from: DasTable, claimed: set<nat>, vs: seq<Variable>): Option<seq<Variable>>
    decreases |vs|
  {
    if vs == [] then Some([])
    else
      match Take(from, claimed, vs[0])
      case None => None
      case Some(v) => Prefixed([v], TakeAll(from, claimed + ClearedBy(from, vs[0]), vs[1..]))
  }

  function ClearedByAll(from: DasTable, vs: seq<Variable>): set<nat> {
    if vs == [] then {} else ClearedBy(from, vs[0]) + ClearedByAll(from, vs[1..])
  }

  /** The containers that are global at the end, as they are copied to the dataset: under their tables' names. */
  function Globals(es: seq<DasEntry>, claimed: set<nat>): Table {
    if es == [] then []
    else if es[0].Holds? && es[0].table.id !in claimed then
      [Container(DecodeSpaces(es[0].table.name), EntriesOf(es[0].table.entries))] + Globals(es[1..], claimed)
    else Globals(es[1..], claimed)
  }

  /** Can they be copied without an exception? */
  predicate CanAppend(t: Table, es: seq<DasEntry>, claimed: set<nat>)
    decreases |es|
  {
    if es == [] then true
    else if es[0].Holds? && es[0].table.id !in claimed then
      match AppendContainer(t, es[0].table.name, EntriesOf(es[0].table.entries))
      case Some(grown) => CanAppend(grown, es[1..], claimed)
      case None => false
    else CanAppend(t, es[1..], claimed)
  }

  // ---------------------------------------------------------------------------------------------
  // The objects
  // ---------------------------------------------------------------------------------------------

  class DAS {
    const top: DasTable
    var claimed: set<nat>

    /** Every table starts out global. */
    constructor (top: DasTable)
      ensures this.top == top && claimed == {}
    {
      this.top, claimed := top, {};
    }

    method SimpleFindContainer(t: DasTable, target: string) returns (found: Option<DasTable>)
      ensures found == SimpleFound(t, target)
    {
      if t.name == target { return Some(t); }
      var i := 0;
      while i < |t.entries|
        invariant i <= |t.entries| && forall j :: 0 <= j < i ==> !IsContainer(t.entries[j], target)
      {
        if IsContainer(t.entries[i], target) {
          return if t.entries[i].Holds? then Some(t.entries[i].table) else None;
        }
        i := i + 1;
      }
      return None;
    }

    method FindContainer(t: DasTable, path: string) returns (found: Option<DasTable>)
      ensures found == Found(t, path)
      decreases |path|
    {
      var d := Dot(path);
      if d < |path| {
        found := SimpleFindContainer(t, path[..d]);
        if found.Some? { found := FindContainer(found.value, path[d + 1..]); }
      } else {
        found := SimpleFindContainer(t, path);
      }
    }

    /** The loop over the entries, which appends each under its own name. */
    method AppendAll(attrs: Table, es: seq<DasEntry>) returns (r: Option<Table>)
      ensures r == Merged(attrs, EntriesOf(es))
    {
      var t, at := attrs, 0;
      while at < |es|
        invariant at <= |es| && Merged(attrs, EntriesOf(es)) == Merged(t, EntriesOf(es[at..]))
      {
        assert EntriesOf(es[at..])[1..] == EntriesOf(es[at..][1..]) && es[at..][1..] == es[at + 1..];
        var grown := AppendEntry(t, EntryOf(es[at]));
        if grown.None? { return None; }
        t, at := grown.value, at + 1;
      }
      return Some(t);
    }

    /** BaseType::transfer_attributes */
    method TransferTo(from: DasTable, l: Leaf) returns (r: Option<Leaf>)
      modifies this
      ensures r == TakeLeaf(from, l) && claimed == old(claimed) + Cleared(from, l.name)
    {
      var at := FindContainer(from, l.name);
      if at.None? { return Some(l); }
      claimed := claimed + {at.value.id};
      var attrs := AppendAll(l.attrs, at.value.entries);
      return if attrs.Some? then Some(l.(attrs := attrs.value)) else None;
    }

    method TransferToParts(from: DasTable, parts: seq<Leaf>) returns (r: Option<seq<Leaf>>)
      modifies this
      ensures r == TakeLeaves(from, parts)
      ensures r.Some? ==> claimed == old(claimed) + ClearedByLeaves(from, parts)
    {
      var done, k := [], 0;
      assert parts[0..] == parts;
      PrefixedByNothing(TakeLeaves(from, parts));
      while k < |parts|
        invariant k <= |parts|
        invariant TakeLeaves(from, parts) == Prefixed(done, TakeLeaves(from, parts[k..]))
        invariant claimed + ClearedByLeaves(from, parts[k..]) == old(claimed) + ClearedByLeaves(from, parts)
      {
        assert parts[k..][1..] == parts[k + 1..];
        var taken := TransferTo(from, parts[k]);
        if taken.None? { return None; }
        PrefixedTwice(done, [taken.value], TakeLeaves(from, parts[k + 1..]));
        done, k := done + [taken.value], k + 1;
      }
      assert done + [] == done;
      return Some(done);
    }

    /** transfer_attributes of the variable's class */
    method Transfer(from: DasTable, v: Variable) returns (r: Option<Variable>)
      modifies this
      ensures r == Take(from, old(claimed), v)
      ensures r.Some? ==> claimed == old(claimed) + ClearedBy(from, v)
    {
      match v
      case Single(leaf) =>
        var taken := TransferTo(from, leaf);
        return if taken.Some? then Some(Single(taken.value)) else None;
      case Grid(name, attrs, parts) =>
        var at := FindContainer(from, name);
        if at.None? { return Some(v); }
        claimed := claimed + {at.value.id};
        var taken := TransferToParts(at.value, parts);
        if taken.None? { return None; }
        assert claimed == old(claimed) + ClearedBy(from, v);
        var own := AppendAll(attrs, StillGlobal(at.value.entries, claimed));
        return if own.Some? then Some(Grid(name, own.value, taken.value)) else None;
    }
  }

  class DDS {
    var vars: seq<Variable>
    var attrs: Table

    constructor (vars: seq<Variable>)
      ensures this.vars == vars && attrs == []
    {
      this.vars, attrs := vars, [];
    }

    /** Every variable gets a chance to claim its attributes. */
    method TransferToAll(das: DAS) returns (ok: bool)
      modifies this`vars, das
      ensures ok <==> TakeAll(das.top, old(das.claimed), old(vars)).Some?
      ensures ok ==> Some(vars) == TakeAll(das.top, old(das.claimed), old(vars)) &&
                     das.claimed == old(das.claimed) + ClearedByAll(das.top, old(vars))
    {
      var k := 0;
      ghost var top, was, before, done := das.top, vars, das.claimed, [];
      assert was[0..] == was;
      PrefixedByNothing(TakeAll(top, before, was));
      while k < |vars|
        invariant k == |done| <= |vars| == |was| && vars == done + was[k..]
        invariant TakeAll(top, before, was) == Prefixed(done, TakeAll(top, das.claimed, was[k..]))
        invariant das.claimed + ClearedByAll(top, was[k..]) == before + ClearedByAll(top, was)
      {
        NextVariable(done, was, k);
        var taken := das.Transfer(das.top, vars[k]);
        if taken.None? { return false; }
        PrefixedTwice(done, [taken.value], TakeAll(top, das.claimed, was[k + 1..]));
        OneMoreDone(done, was, k, taken.value);
        vars := vars[k := taken.value];
        done, k := done + [taken.value], k + 1;
      }
      assert done + [] == done;
      return true;
    }

    /** transfer_attributes: the variables first, then the containers that are still global. */
    method TransferAttributes(das: DAS) returns (ok: bool)
      modifies this, das
      ensures ok <==> TakeAll(das.top, old(das.claimed), old(vars)).Some? &&
                      CanAppend(old(attrs), das.top.entries, old(das.claimed) + ClearedByAll(das.top, old(vars)))
      ensures ok ==> Some(vars) == TakeAll(das.top, old(das.claimed), old(vars)) &&
                     das.claimed == old(das.claimed) + ClearedByAll(das.top, old(vars)) &&
                     attrs == old(attrs) + Globals(das.top.entries, das.claimed)
    {
      ok := TransferToAll(das);
      if ok { ok := AppendGlobals(das); }
    }

    method AppendGlobals(das: DAS) returns (ok: bool)
      modifies this`attrs
      ensures ok <==> CanAppend(old(attrs), das.top.entries, das.claimed)
      ensures ok ==> attrs == old(attrs) + Globals(das.top.entries, das.claimed)
    {
      var es, p := das.top.entries, 0;
      while p < |es|
        invariant p <= |es| && (CanAppend(attrs, es[p..], das.claimed) <==> CanAppend(old(attrs), es, das.claimed))
        invariant attrs + Globals(es[p..], das.claimed) == old(attrs) + Globals(es, das.claimed)
      {
        assert es[p..][1..] == es[p + 1..];
        if es[p].Holds? && es[p].table.id !in das.claimed {
          var t := es[p].table;
          var grown := AppendContainer(attrs, t.name, EntriesOf(t.entries));
          if grown.None? { return false; }
          assert attrs + ([Container(DecodeSpaces(t.name), EntriesOf(t.entries))] + Globals(es[p + 1..], das.claimed)) ==
                 grown.value + Globals(es[p + 1..], das.claimed);
          attrs := grown.value;
        }
        p := p + 1;
      }
      assert attrs + [] == attrs;
      return true;
    }
  }

  lemma NextVariable(done: seq<Variable>, was: seq<Variable>, k: nat)
    requires k == |done| < |was|
    ensures was[k..][1..] == was[k + 1..] && (done + was[k..])[k] == was[k..][0]
  {}

  lemma OneMoreDone(done: seq<Variable>, was: seq<Variable>, k: nat, v: Variable)
    requires k == |done| < |was|
    ensures (done + was[k..])[k := v] == (done + [v]) + was[k + 1..]
  {}

  // ---------------------------------------------------------------------------------------------
  // What becomes of a container
  // ---------------------------------------------------------------------------------------------

  /** The i-th entry is a container that nobody has claimed, and e a copy of it. */
  predicate Unclaimed(es: seq<DasEntry>, claimed: set<nat>, i: nat, e: Entry)
    requires i < |es|
  {
    es[i].Holds? && es[i].table.id !in claimed &&
    e == Container(DecodeSpaces(es[i].table.name), EntriesOf(es[i].table.entries))
  }

  /** What is copied to the global table are the containers that nobody has claimed, and nothing else. */
  lemma {:induction false} CopiedIff(es: seq<DasEntry>, claimed: set<nat>, e: Entry)
    ensures e in Globals(es, claimed) <==> exists i :: 0 <= i < |es| && Unclaimed(es, claimed, i, e)
    decreases |es|
  {
    if es != [] {
      CopiedIff(es[1..], claimed, e);
      if Unclaimed(es, claimed, 0, e) {
        assert e in Globals(es, claimed);
      }
      if i :| 0 <= i < |es| && Unclaimed(es, claimed, i, e) {
        if i > 0 { assert Unclaimed(es[1..], claimed, i - 1, e); }
      }
      if i :| 0 <= i < |es[1..]| && Unclaimed(es[1..], claimed, i, e) {
        assert Unclaimed(es, claimed, i + 1, e);
      }
    }
  }

  /** How many containers there are at the top level, and how many of them have been claimed. */
  function Containers(es: seq<DasEntry>): nat {
    if es == [] then 0 else (if es[0].Holds? then 1 else 0) + Containers(es[1..])
  }

  function Claimed(es: seq<DasEntry>, claimed: set<nat>): nat {
    if es == [] then 0 else (if es[0].Holds? && es[0].table.id in claimed then 1 else 0) + Claimed(es[1..], claimed)
  }

  /** Nothing is lost: the containers claimed and those copied to the global table make up all there are. */
  lemma {:induction false} GlobalsAndClaimedAreAll(es: seq<DasEntry>, claimed: set<nat>)
    ensures |Globals(es, claimed)| + Claimed(es, claimed) == Containers(es)
    decreases |es|
  {
    if es != [] { GlobalsAndClaimedAreAll(es[1..], claimed); }
  }

  /** The identities of a table and of all tables in it. */
  function Ids(t: DasTable): set<nat>
    decreases t
  {
    {t.id} + IdsOf(t.entries)
  }

  function IdsOf(es: seq<DasEntry>): set<nat>
    decreases es
  {
    if es == [] then {} else (match es[0] case Holds(_, t) => Ids(t) case _ => {}) + IdsOf(es[1..])
  }

  /** No table is held by two of the entries: the DAS has no alias from one top-level container to another or
      into one. */
  predicate Separate(es: seq<DasEntry>) {
    forall i, j :: 0 <= i < j < |es| && es[i].Holds? && es[j].Holds? ==> Ids(es[i].table) !! Ids(es[j].table)
  }

  lemma {:induction false} HeldIsInside(es: seq<DasEntry>, i: nat)
    requires i < |es| && es[i].Holds?
    ensures Ids(es[i].table) <= IdsOf(es)
  {
    if i > 0 { HeldIsInside(es[1..], i - 1); }
  }

  lemma {:induction false} FoundIsInside(t: DasTable, path: string)
    ensures Found(t, path).Some? ==> Ids(Found(t, path).value) <= Ids(t)
    decreases |path|
  {
    var d := Dot(path);
    var i, inner := FirstHolder(t.entries, path[..d]), SimpleFound(t, path[..d]);
    assert d == |path| ==> path[..d] == path;
    if i < |t.entries| && t.entries[i].Holds? { HeldIsInside(t.entries, i); }
    if d < |path| && inner.Some? { FoundIsInside(inner.value, path[d + 1..]); }
  }

  lemma {:induction false} LeavesClearInside(t: DasTable, ls: seq<Leaf>)
    ensures ClearedByLeaves(t, ls) <= Ids(t)
  {
    if ls != [] {
      LeavesClearInside(t, ls[1..]);
      FoundIsInside(t, ls[0].name);
    }
  }

  /** A variable of a plain name claims the first container of that name, and a Grid tables in it. */
  lemma ClaimsItsOwn(top: DasTable, v: Variable, i: nat)
    requires top.name == "" && PlainName(NameOf(v)) && Separate(top.entries)
    requires i < |top.entries| && top.entries[i].Holds?
    ensures top.entries[i].table.id in ClearedBy(top, v) <==> FirstHolder(top.entries, NameOf(v)) == i
  {
    PlainIsByName(top, NameOf(v));
    var es, j := top.entries, FirstHolder(top.entries, NameOf(v));
    assert es[i].table.id in Ids(es[i].table);
    if j < |es| && es[j].Holds? {
      if v.Grid? { LeavesClearInside(es[j].table, v.parts); }
      assert ClearedBy(top, v) <= Ids(es[j].table);
      if j < i {
        assert Ids(es[j].table) !! Ids(es[i].table);
      } else if i < j {
        assert Ids(es[i].table) !! Ids(es[j].table);
      }
    }
  }

  lemma {:induction false} ClearedByOne(top: DasTable, vs: seq<Variable>, id: nat)
    ensures id in ClearedByAll(top, vs) <==> exists k :: 0 <= k < |vs| && id in ClearedBy(top, vs[k])
  {
    if vs != [] {
      ClearedByOne(top, vs[1..], id);
      if k :| 0 <= k < |vs[1..]| && id in ClearedBy(top, vs[1..][k]) {
        assert id in ClearedBy(top, vs[k + 1]);
      }
      if k :| 0 <= k < |vs| && id in ClearedBy(top, vs[k]) && k > 0 {
        assert id in ClearedBy(top, vs[1..][k - 1]);
      }
    }
  }

  /** When all variables have names that are neither empty nor dotted, and no two entries hold the same table: a
      container of the DAS is copied to the global table or claimed by a variable, never both; claimed exactly
      when it is the first of a variable's name. */
  lemma TransferConserves(top: DasTable, vs: seq<Variable>, i: nat)
    requires top.name == "" && Separate(top.entries) && forall k :: 0 <= k < |vs| ==> PlainName(NameOf(vs[k]))
    requires i < |top.entries| && top.entries[i].Holds?
    ensures var e, claimed := top.entries[i], ClearedByAll(top, vs);
      (e.table.id in claimed <==>
        FirstHolder(top.entries, e.name) == i && exists k :: 0 <= k < |vs| && NameOf(vs[k]) == e.name) &&
      (e.table.id in claimed <==> exists k :: 0 <= k < |vs| && Found(top, NameOf(vs[k])) == Some(e.table)) &&
      (e.table.id !in claimed ==> Container(DecodeSpaces(e.table.name), EntriesOf(e.table.entries)) in Globals(top.entries, claimed))
  {
    var es, e, claimed := top.entries, top.entries[i], ClearedByAll(top, vs);
    ClearedByOne(top, vs, e.table.id);
    forall k | 0 <= k < |vs|
      ensures e.table.id in ClearedBy(top, vs[k]) <==> FirstHolder(es, NameOf(vs[k])) == i
      ensures FirstHolder(es, NameOf(vs[k])) == i <==> Found(top, NameOf(vs[k])) == Some(e.table)
    {
      ClaimsItsOwn(top, vs[k], i);
      PlainIsByName(top, NameOf(vs[k]));
      assert Found(top, NameOf(vs[k])) == Some(e.table) ==> e.table.id in ClearedBy(top, vs[k]);
    }
    if e.table.id !in claimed {
      var copy := Container(DecodeSpaces(e.table.name), EntriesOf(e.table.entries));
      assert Unclaimed(es, claimed, i, copy);
      CopiedIff(es, claimed, copy);
    }
  }

  // ---------------------------------------------------------------------------------------------
  // What a variable has in the end
  // ---------------------------------------------------------------------------------------------

  /** The values that the entries of a DAS table give to a name. */
  function Given(es: seq<DasEntry>, name: string): seq<string> {
    if es == [] then []
    else
      (match es[0]
       case Attribute(n, _, values) => if DecodeSpaces(n) == name then values else []
       case Holds(_, _) => []) + Given(es[1..], name)
  }

  lemma {:induction false} GivenIsContributed(es: seq<DasEntry>, name: string)
    ensures Contributed(EntriesOf(es), name) == Given(es, name)
  {
    if es != [] {
      GivenIsContributed(es[1..], name);
      TargetOf(es[0]);
      assert EntriesOf(es)[1..] == EntriesOf(es[1..]);
    }
  }

  /** A variable keeps its name and the attributes it had. Each of them, and each new one, has the values it had,
      followed by those that the table found by the variable's name gives it; where no table is found nothing
      changes. */
  lemma LeafTakes(from: DasTable, l: Leaf, name: string)
    requires TakeLeaf(from, l).Some?
    ensures var r := TakeLeaf(from, l).value;
      r.name == l.name && Keeps(l.attrs, r.attrs) && (Found(from, l.name) == None ==> r == l) &&
      ValuesNamed(r.attrs, name) == ValuesNamed(l.attrs, name) +
        (match Found(from, l.name) case Some(t) => Given(t.entries, name) case None => [])
  {
    match Found(from, l.name)
    case Some(t) =>
      MergedValues(l.attrs, EntriesOf(t.entries), name);
      GivenIsContributed(t.entries, name);
    case None =>
      assert ValuesNamed(l.attrs, name) + [] == ValuesNamed(l.attrs, name);
  }

  /** And it fails exactly when an entry of that table does not join. */
  lemma LeafThrowsIff(from: DasTable, l: Leaf)
    ensures TakeLeaf(from, l).None? <==>
      Found(from, l.name).Some? && !AllJoin(l.attrs, EntriesOf(Found(from, l.name).value.entries))
  {
    if Found(from, l.name).Some? { MergesIff(l.attrs, l.attrs, EntriesOf(Found(from, l.name).value.entries)); }
  }

  lemma {:induction false} LeavesTaken(from: DasTable, ls: seq<Leaf>, k: nat)
    requires TakeLeaves(from, ls).Some?
    ensures |TakeLeaves(from, ls).value| == |ls|
    ensures k < |ls| ==> TakeLeaf(from, ls[k]) == Some(TakeLeaves(from, ls).value[k])
  {
    if ls != [] { LeavesTaken(from, ls[1..], if k > 0 then k - 1 else 0); }
  }

  lemma {:induction false} ClearedByParts(t: DasTable, ls: seq<Leaf>, id: nat)
    ensures id in ClearedByLeaves(t, ls) <==>
      exists k :: 0 <= k < |ls| && Found(t, ls[k].name).Some? && Found(t, ls[k].name).value.id == id
  {
    if ls != [] {
      ClearedByParts(t, ls[1..], id);
      assert forall k :: 0 < k < |ls| ==> ls[k] == ls[1..][k - 1];
      if k :| 0 <= k < |ls[1..]| && Found(t, ls[1..][k].name).Some? && Found(t, ls[1..][k].name).value.id == id {
        assert ls[k + 1] == ls[1..][k];
      }
    }
  }

  lemma {:induction false} StillThereIff(es: seq<DasEntry>, claimed: set<nat>, e: DasEntry)
    ensures e in StillGlobal(es, claimed) <==> e in es && !(e.Holds? && e.table.id in claimed)
  {
    if es != [] { StillThereIff(es[1..], claimed, e); }
  }

  /** Nothing in the container that the code would change on the way: no alias, no %20, no name twice. */
  predicate Plainly(es: seq<DasEntry>) {
    (forall i, j :: 0 <= i < j < |es| ==> es[i].name != es[j].name) &&
    forall i :: 0 <= i < |es| ==> Clean(es[i])
  }

  predicate Clean(e: DasEntry) {
    !Occurs(e.name, "%20") && if e.Holds? then e.name == e.table.name else e.ty != AttrContainer
  }

  lemma CopyIsClean(es: seq<DasEntry>, i: nat)
    requires i < |es| && Clean(es[i])
    ensures EntriesOf(es)[i].name == es[i].name && CleanEntry(EntriesOf(es)[i])
  {
    EntryAt(es, i);
  }

  predicate CleanEntry(e: Entry) {
    !Occurs(e.name, "%20") && !e.Alias? && (e.Plain? ==> e.ty != AttrContainer)
  }

  lemma {:induction false} CleanArrives(copy: Table)
    requires DistinctNames(copy) && forall i :: 0 <= i < |copy| ==> CleanEntry(copy[i])
    ensures Merged([], copy) == Some(copy)
  {
    assert [] + copy == copy;
    forall i | 0 <= i < |copy| ensures !Occurs(copy[i].name, "%20") && !copy[i].Alias? { assert CleanEntry(copy[i]); }
    forall i | 0 <= i < |copy| ensures copy[i].Plain? ==> copy[i].ty != AttrContainer { assert CleanEntry(copy[i]); }
    MergedIntoEmpty([], copy);
  }

  lemma {:induction false} CopiedWhole(es: seq<DasEntry>)
    requires Plainly(es)
    ensures Merged([], EntriesOf(es)) == Some(EntriesOf(es))
  {
    var copy := EntriesOf(es);
    forall i | 0 <= i < |copy| ensures CleanEntry(copy[i]) && copy[i].name == es[i].name {
      assert Clean(es[i]);
      CopyIsClean(es, i);
    }
    CleanArrives(copy);
  }

  lemma {:induction false} KeptPlainly(es: seq<DasEntry>, claimed: set<nat>)
    requires Plainly(es)
    ensures Plainly(StillGlobal(es, claimed)) && forall e :: e in StillGlobal(es, claimed) ==> e in es
  {
    if es != [] {
      var rest := StillGlobal(es[1..], claimed);
      KeptPlainly(es[1..], claimed);
      forall i | 0 <= i < |rest| ensures rest[i].name != es[0].name {
        assert rest[i] in es[1..];
        var j :| 0 <= j < |es[1..]| && es[1..][j] == rest[i];
        assert es[j + 1] == rest[i];
      }
    }
  }

  lemma {:induction false} CopyIffThere(es: seq<DasEntry>, e: DasEntry)
    requires Plainly(es) && (forall d :: d in es && d.name == e.name ==> d == e)
    ensures EntryOf(e) in EntriesOf(es) <==> e in es
  {
    if i :| 0 <= i < |es| && EntriesOf(es)[i] == EntryOf(e) {
      EntryAt(es, i);
      assert es[i].name == e.name && es[i] in es;
    }
    if i :| 0 <= i < |es| && es[i] == e { EntryAt(es, i); }
  }

  /** What becomes of a Grid: its parts look in the Grid's own container, and nowhere else. */
  lemma PartsLookInside(from: DasTable, claimed: set<nat>, v: Variable, t: DasTable, k: nat)
    requires v.Grid? && Found(from, v.name) == Some(t) && Take(from, claimed, v).Some?
    ensures var r := Take(from, claimed, v).value;
      r.Grid? && r.name == v.name && |r.parts| == |v.parts| &&
      (k < |v.parts| ==> TakeLeaf(t, v.parts[k]) == Some(r.parts[k]))
  {
    LeavesTaken(t, v.parts, k);
  }

  /** And the Grid, if it had no attributes, has those entries of the container that are attributes, or tables that
      neither an earlier variable nor one of the parts has claimed. */
  lemma GridTakesTheRest(from: DasTable, claimed: set<nat>, v: Variable, t: DasTable, e: DasEntry)
    requires v.Grid? && v.attrs == [] && Found(from, v.name) == Some(t) && Plainly(t.entries)
    requires Take(from, claimed, v).Some? && e in t.entries
    ensures var r := Take(from, claimed, v).value;
      r.Grid? &&
      (EntryOf(e) in r.attrs <==>
        e.Attribute? ||
        (e.table.id !in claimed && e.table.id != t.id &&
         forall k :: 0 <= k < |v.parts| && Found(t, v.parts[k].name).Some? ==>
           Found(t, v.parts[k].name).value.id != e.table.id))
  {
    var all := claimed + ClearedBy(from, v);
    var kept := StillGlobal(t.entries, all);
    KeptPlainly(t.entries, all);
    CopiedWhole(kept);
    StillThereIff(t.entries, all, e);
    forall d | d in kept && d.name == e.name ensures d == e { SameEntry(t.entries, d, e); }
    CopyIffThere(kept, e);
    if e.Holds? { ClearedByParts(t, v.parts, e.table.id); }
  }

  lemma SameEntry(es: seq<DasEntry>, d: DasEntry, e: DasEntry)
    requires Plainly(es) && d in es && e in es && d.name == e.name
    ensures d == e
  {
    var i :| 0 <= i < |es| && es[i] == d;
    var j :| 0 <= j < |es| && es[j] == e;
  }

  /** The variables take their attributes one after the other, each with what those before it have claimed. */
  lemma {:induction false} TakenInTurn(from: DasTable, claimed: set<nat>, vs: seq<Variable>, k: nat)
    requires TakeAll(from, claimed, vs).Some?
    ensures |TakeAll(from, claimed, vs).value| == |vs|
    ensures k < |vs| ==>
      Take(from, claimed + ClearedByAll(from, vs[..k]), vs[k]) == Some(TakeAll(from, claimed, vs).value[k])
    decreases |vs|
  {
    if vs != [] {
      var now := claimed + ClearedBy(from, vs[0]);
      if k > 0 {
        TakenInTurn(from, now, vs[1..], k - 1);
        if k < |vs| {
          assert vs[..k][1..] == vs[1..][..k - 1];
          assert now + ClearedByAll(from, vs[1..][..k - 1]) == claimed + ClearedByAll(from, vs[..k]);
        }
      } else {
        TakenInTurn(from, now, vs[1..], 0);
        assert claimed + ClearedByAll(from, vs[..0]) == claimed;
      }
    }
  }

  /** The containers that are global can be copied exactly when no two of them, and none of them and an entry that is
      there already, have the same name. A name with %20 is looked for as it stands, and kept without. */
  lemma {:induction false} GlobalsFitIff(t: Table, es: seq<DasEntry>, claimed: set<nat>)
    ensures CanAppend(t, es, claimed) <==>
      forall j :: 0 <= j < |es| && IsGlobal(es[j], claimed) ==>
        !HasName(t, es[j].table.name) &&
        forall i :: 0 <= i < j && IsGlobal(es[i], claimed) ==> DecodeSpaces(es[i].table.name) != es[j].table.name
    decreases |es|
  {
    if es != [] {
      var rest := es[1..];
      assert forall j :: 0 <= j < |rest| ==> rest[j] == es[j + 1];
      assert forall j :: 0 < j < |es| ==> es[j] == rest[j - 1];
      if IsGlobal(es[0], claimed) {
        FindIsMembership(t, es[0].table.name);
        var e := Container(DecodeSpaces(es[0].table.name), EntriesOf(es[0].table.entries));
        var grown := t + [e];
        forall name ensures HasName(grown, name) <==> HasName(t, name) || name == e.name { NameWithLast(t, e, name); }
        GlobalsFitIff(grown, rest, claimed);
      } else {
        GlobalsFitIff(t, rest, claimed);
      }
    }
  }

  predicate IsGlobal(e: DasEntry, claimed: set<nat>) {
    e.Holds? && e.table.id !in claimed
  }

  lemma NameWithLast(t: Table, e: Entry, name: string)
    ensures HasName(t + [e], name) <==> HasName(t, name) || name == e.name
  {
    var u := t + [e];
    assert u[|t|] == e && forall i :: 0 <= i < |t| ==> u[i] == t[i];
    if i :| 0 <= i < |t| && t[i].name == name { assert u[i].name == name; }
  }

  // ---------------------------------------------------------------------------------------------
  // Where it goes wrong
  // ---------------------------------------------------------------------------------------------

  lemma {:induction false} EntryAt(es: seq<DasEntry>, i: nat)
    requires i < |es|
    ensures EntriesOf(es)[i] == EntryOf(es[i])
  {
    if i > 0 { EntryAt(es[1..], i - 1); }
  }

  /** A variable whose name is empty or only dots gets every top-level container and claims none of them. */
  lemma WholeIsTaken(top: DasTable, l: Leaf, i: nat)
    requires top.name == "" && OnlyDots(l.name) && TakeLeaf(top, l).Some?
    requires i < |top.entries| && top.entries[i].Holds?
    ensures Cleared(top, l.name) == {top.id}
    ensures Container(DecodeSpaces(top.entries[i].name), EntriesOf(top.entries[i].table.entries)) in TakeLeaf(top, l).value.attrs
  {
    FindsWholeIff(top, l.name);
    EntryAt(top.entries, i);
    MergedContainers(l.attrs, EntriesOf(top.entries), i);
  }

  lemma OneArrives(e: Entry)
    requires !e.Alias? && !Occurs(e.name, "%20") && (e.Plain? ==> e.ty != AttrContainer)
    ensures Merged([], [e]) == Some([e])
  {
    assert [] + [e] == [e];
    MergedIntoEmpty([], [e]);
  }

  /** So a container can end in both places. */
  lemma InBothPlaces(es: seq<DasEntry>)
    ensures var x := DasTable(1, "x", es); var top := DasTable(0, "", [Holds("x", x)]); var v := Single(Leaf("", []));
      var copy := Container("x", EntriesOf(es));
      TakeAll(top, {}, [v]) == Some([Single(Leaf("", [copy]))]) && CanAppend([], top.entries, ClearedByAll(top, [v])) &&
      Globals(top.entries, ClearedByAll(top, [v])) == [copy]
  {
    var x := DasTable(1, "x", es);
    var top, v := DasTable(0, "", [Holds("x", x)]), Single(Leaf("", []));
    var copy := Container("x", EntriesOf(es));
    DecodeNothing("x");
    FindsWholeIff(top, "");
    assert EntriesOf(top.entries) == [copy] + EntriesOf([]);
    OneArrives(copy);
    assert [v][1..] == [] && top.entries[1..] == [];
    assert ClearedByAll(top, [v]) == {0};
    assert Take(top, {}, v) == Some(Single(Leaf("", [copy])));
    assert TakeAll(top, {} + ClearedBy(top, v), []) == Some([]);
    assert [Single(Leaf("", [copy]))] + [] == [Single(Leaf("", [copy]))];
  }

  /** And a container with a dot in its name is not found for the variable of that name. */
  lemma DottedIsNotClaimed(es: seq<DasEntry>)
    ensures var top := DasTable(0, "", [Holds("a.b", DasTable(1, "a.b", es))]);
      Found(top, "a.b") == None && FirstHolder(top.entries, "a.b") == 0
  {
    var top := DasTable(0, "", [Holds("a.b", DasTable(1, "a.b", es))]);
    var name := "a.b";
    assert name == "a" + "." + "b";
    DotOf("a", "b");
    assert name[..1] == "a" && |top.entries[0].name| == 3;
    assert FirstHolder(top.entries, "a") == 1;
  }

  lemma {:induction false} TakenNameThrows(t: Table, es: seq<DasEntry>, claimed: set<nat>, j: nat)
    requires j < |es| && es[j].Holds? && es[j].table.id !in claimed && HasName(t, es[j].table.name)
    ensures !CanAppend(t, es, claimed)
    decreases |es|
  {
    if j == 0 {
      FindIsMembership(t, es[0].table.name);
    } else if es[0].Holds? && es[0].table.id !in claimed {
      var grown := AppendContainer(t, es[0].table.name, EntriesOf(es[0].table.entries));
      if grown.Some? {
        var k :| 0 <= k < |t| && t[k].name == es[j].table.name;
        assert grown.value[k] == t[k];
        TakenNameThrows(grown.value, es[1..], claimed, j - 1);
      }
    } else {
      TakenNameThrows(t, es[1..], claimed, j - 1);
    }
  }

  /** A table that two entries of the DAS hold, which an alias of a top-level container brings about: if nobody
      claims it, it is copied a second time under its own name, and that throws. */
  lemma {:induction false} AliasedGlobalThrows(t: Table, es: seq<DasEntry>, claimed: set<nat>, i: nat, j: nat)
    requires i < j < |es| && es[i].Holds? && es[j].Holds? && es[i].table == es[j].table
    requires es[i].table.id !in claimed && !Occurs(es[i].table.name, "%20")
    ensures !CanAppend(t, es, claimed)
    decreases |es|
  {
    if i == 0 {
      var name := es[0].table.name;
      DecodeNothing(name);
      var grown := AppendContainer(t, name, EntriesOf(es[0].table.entries));
      if grown.Some? {
        assert grown.value[|t|].name == name;
        TakenNameThrows(grown.value, es[1..], claimed, j - 1);
      }
    } else if es[0].Holds? && es[0].table.id !in claimed {
      var grown := AppendContainer(t, es[0].table.name, EntriesOf(es[0].table.entries));
      if grown.Some? { AliasedGlobalThrows(grown.value, es[1..], claimed, i - 1, j - 1); }
    } else {
      AliasedGlobalThrows(t, es[1..], claimed, i - 1, j - 1);
    }
  }

  /** In a container of a plain name, a part of that same name is given the container itself: the array of a
      Grid, when it bears the Grid's name. */
  lemma ArrayTakesAll(t: DasTable, l: Leaf)
    requires PlainName(t.name) && l.name == t.name
    ensures Found(t, l.name) == Some(t)
    ensures TakeLeaf(t, l).Some? ==> Merged(l.attrs, EntriesOf(t.entries)) == Some(TakeLeaf(t, l).value.attrs)
  {
    OnePart(l.name);
    assert Dot(l.name) == |l.name|;
  }

  /** Then the Grid's attributes are its array's too. */
  lemma GridAttributesAreDoubled(unit: string)
    ensures var g := DasTable(1, "g", [Attribute("u", AttrString, [unit])]);
      var top, v, u := DasTable(0, "", [Holds("g", g)]), Grid("g", [], [Leaf("g", [])]), Plain("u", AttrString, [unit]);
      Take(top, {}, v) == Some(Grid("g", [u], [Leaf("g", [u])]))
  {
    var g := DasTable(1, "g", [Attribute("u", AttrString, [unit])]);
    var top, v, u := DasTable(0, "", [Holds("g", g)]), Grid("g", [], [Leaf("g", [])]), Plain("u", AttrString, [unit]);
    PlainIsByName(top, "g");
    assert Found(top, "g") == Some(g);
    ArrayTakesAll(g, Leaf("g", []));
    OneArrives(u);
    assert g.entries[1..] == [] && [Leaf("g", [])][1..] == [];
    assert EntriesOf(g.entries) == [u] + EntriesOf([]) == [u];
    StillGlobalAll(g.entries, {} + ClearedBy(top, v));
    assert TakeLeaf(g, Leaf("g", [])) == Some(Leaf("g", [u]));
    assert TakeLeaves(g, [Leaf("g", [])]) == Prefixed([Leaf("g", [u])], Some([]));
    assert [Leaf("g", [u])] + [] == [Leaf("g", [u])];
  }

  lemma {:induction false} StillGlobalAll(es: seq<DasEntry>, claimed: set<nat>)
    requires forall i :: 0 <= i < |es| ==> es[i].Attribute?
    ensures StillGlobal(es, claimed) == es
  {
    if es != [] { StillGlobalAll(es[1..], claimed); }
  }
}
